/**
  edc_system_update.sh as it runs: shell functions that change two directories and two links in
  place, with the power or a command failing after any number of commands.
*/
module OtaDevice {
  import opened Common
  import opened OtaVersionFile
  import opened OtaModel
  import opened OtaTheorems

  class Device {
    var edcA: Option<Deployment>
    var edcB: Option<Deployment>
    var edcLink: Path
    var senscordLink: Path
    /** Commands left before the run is cut off. */
    var budget: nat

    ghost function State(): Fs
      reads this
    {
      Fs(edcA, edcB, edcLink, senscordLink)
    }

    constructor ()
      ensures State() == CLEAN
    {
      edcA, edcB, edcLink, senscordLink, budget := None, None, Absent, Absent, 0;
    }

    method SetDir(slot: Slot, d: Option<Deployment>)
      modifies this`edcA, this`edcB
      ensures State() == old(State()).With(slot, d)
    {
      if slot == A { edcA := d; } else { edcB := d; }
    }

    function Dir(slot: Slot): Option<Deployment>
      reads this
    {
      if slot == A then edcA else edcB
    }

    /** The next command on the target directory starts, or the run is cut off in it. */
    method Begin(slot: Slot, i: Input) returns (ok: bool)
      modifies this
      ensures ok == (old(budget) > 0) && budget == old(budget) - (if ok then 1 else 0)
      ensures State() == if ok then old(State()) else old(State()).With(slot, i.wreck)
    {
      if budget == 0 {
        SetDir(slot, i.wreck);
        return false;
      }
      budget := budget - 1;
      return true;
    }

    /** detect_current_deployment, then get_target_deployment. */
    method ChooseTarget() returns (slot: Slot)
      ensures slot == Target(edcLink)
      ensures edcLink.To? ==> slot != edcLink.slot
    {
      if edcLink == To(A) {
        slot := B;
      } else if edcLink == To(B) {
        slot := A;
      } else {
        slot := A;
      }
    }

    /** create_deployment_structure: whatever was there, the target ends up bare. */
    method CreateDeploymentStructure(slot: Slot, i: Input) returns (ok: bool)
      modifies this
      ensures ok == (old(budget) >= 2) && (ok ==> budget == old(budget) - 2)
      ensures State() == old(State()).With(slot, if ok then Some(BARE) else i.wreck)
    {
      ok := Begin(slot, i);
      if !ok {
        return;
      }
      if Dir(slot).Some? {
        SetDir(slot, None);
      }
      ok := Begin(slot, i);
      if !ok {
        return;
      }
      SetDir(slot, Some(BARE));
    }

    /** install_core_packages: binary, executable bit, library and version file of the release. */
    method InstallCorePackages(slot: Slot, i: Input) returns (ok: bool)
      requires Dir(slot).Some?
      modifies this
      ensures var r := i.release;
              && (ok <==> r.hasBinary && r.hasLibrary && old(budget) >= 5)
              && (ok ==> && budget == old(budget) - 5
                         && SameOutside(old(State()), State(), slot)
                         && Dir(slot) == Some(old(Dir(slot)).value.(binary := Some(File(r.version, true)),
                                                                    executable := true,
                                                                    library := Some(File(r.version, true)),
                                                                    versionFile := Some(Print(r.version)))))
              && (!ok ==> State() == if old(budget) > 0 && !(r.hasBinary && r.hasLibrary) then old(State())
                                     else old(State()).With(slot, i.wreck))
    {
      ok := Begin(slot, i);
      if !ok {
        return;
      }
      if !i.release.hasBinary {
        return false;
      }
      if !i.release.hasLibrary {
        return false;
      }
      ok := CopyBinaryToTarget(slot, i);
      if !ok {
        return;
      }
      ok := CopyLibraryAndVersion(slot, i);
    }

    /** edc_system_update.sh:387-389 */
    method CopyBinaryToTarget(slot: Slot, i: Input) returns (ok: bool)
      requires Dir(slot).Some?
      modifies this
      ensures ok == (old(budget) >= 2) && (ok ==> budget == old(budget) - 2)
      ensures State() == old(State()).With(slot,
                           if ok then Some(old(Dir(slot)).value.(binary := Some(File(i.release.version, true)), executable := true))
                           else i.wreck)
    {
      var d := Dir(slot).value;
      ok := Begin(slot, i);
      if !ok {
        return;
      }
      d := d.(binary := Some(File(i.release.version, true)), executable := i.release.binaryExecutable);
      SetDir(slot, Some(d));
      ok := Begin(slot, i);
      if !ok {
        return;
      }
      d := d.(executable := true);
      SetDir(slot, Some(d));
    }

    /** edc_system_update.sh:391-399 */
    method CopyLibraryAndVersion(slot: Slot, i: Input) returns (ok: bool)
      requires Dir(slot).Some?
      modifies this
      ensures ok == (old(budget) >= 2) && (ok ==> budget == old(budget) - 2)
      ensures State() == old(State()).With(slot,
                           if ok then Some(old(Dir(slot)).value.(library := Some(File(i.release.version, true)),
                                                                 versionFile := Some(Print(i.release.version))))
                           else i.wreck)
    {
      var d := Dir(slot).value;
      ok := Begin(slot, i);
      if !ok {
        return;
      }
      d := d.(library := Some(File(i.release.version, true)));
      SetDir(slot, Some(d));
      ok := Begin(slot, i);
      if !ok {
        return;
      }
      d := d.(versionFile := Some(Print(i.release.version)));
      SetDir(slot, Some(d));
    }

    /** install_sensor_package: the senscord tree of the release with its version file. */
    method InstallSensorPackage(slot: Slot, i: Input) returns (ok: bool)
      requires Dir(slot).Some? && Dir(slot).value.senscord.None?
      modifies this
      ensures var r := i.release;
              && (ok <==> r.sensorVersion != "" && r.hasSenscord && old(budget) >= 4)
              && (ok ==> && budget == old(budget) - 4
                         && SameOutside(old(State()), State(), slot)
                         && Dir(slot) == Some(old(Dir(slot)).value.(
                              senscord := Some(Senscord(File(r.sensorVersion, true), Some(Print(r.sensorVersion)))))))
              && (!ok ==> State() == if old(budget) > 0 && (r.sensorVersion == "" || (!r.hasSenscord && old(budget) >= 3))
                                     then old(State()) else old(State()).With(slot, i.wreck))
    {
      ok := Begin(slot, i);
      if !ok {
        return;
      }
      if i.release.sensorVersion == "" {
        return false;
      }
      var d := Dir(slot).value;
      ok := Begin(slot, i);
      if !ok {
        return;
      }
      if i.release.hasSenscord {
        d := d.(senscord := Some(Senscord(File(i.release.sensorVersion, true), None)));
        SetDir(slot, Some(d));
      }
      ok := Begin(slot, i);
      if !ok {
        return;
      }
      if d.senscord.None? {
        return false;
      }
      ok := Begin(slot, i);
      if !ok {
        return;
      }
      d := d.(senscord := Some(d.senscord.value.(versionFile := Some(Print(i.release.sensorVersion)))));
      SetDir(slot, Some(d));
    }

    /** validate_installation: four tests, and nothing is changed. */
    method ValidateInstallation(slot: Slot, i: Input) returns (ok: bool)
      modifies this
      ensures ok <==> && old(budget) > 0 && old(Dir(slot)).Some?
                      && var d := old(Dir(slot)).value;
                         d.binary.Some? && d.library.Some? && d.senscord.Some? && d.executable
      ensures ok ==> budget == old(budget) - 1
      ensures State() == if old(budget) > 0 then old(State()) else old(State()).With(slot, i.wreck)
    {
      ok := Begin(slot, i);
      if !ok {
        return;
      }
      var here := Dir(slot);
      if here.None? || here.value.binary.None? {
        return false;
      }
      if here.value.library.None? {
        return false;
      }
      if here.value.senscord.None? {
        return false;
      }
      if !here.value.executable {
        return false;
      }
    }

    /** update_symbolic_link */
    method UpdateSymbolicLink(slot: Slot, i: Input) returns (ok: bool)
      modifies this
      ensures State() == Perform(Going(old(State()), old(budget)), slot, i.release, SWITCH, i.wreck).fs
    {
      ghost var goal := Perform(Going(State(), budget), slot, i.release, SWITCH, i.wreck);
      if budget == 0 || edcLink.NotALink? {
        return false;
      }
      edcLink := Absent;
      budget := budget - 1;
      ghost var rest := SWITCH[1..];
      assert rest[0] == RemoveSenscordLink;
      assert goal == Perform(Going(State(), budget), slot, i.release, rest, i.wreck);
      ok := FinishSwitch(slot, i);
    }

    method FinishSwitch(slot: Slot, i: Input) returns (ok: bool)
      requires edcLink.Absent?
      modifies this
      ensures State() == Perform(Going(old(State()), old(budget)), slot, i.release, SWITCH[1..], i.wreck).fs
    {
      ghost var goal := Perform(Going(State(), budget), slot, i.release, SWITCH[1..], i.wreck);
      if budget == 0 || senscordLink.NotALink? {
        return false;
      }
      senscordLink := Absent;
      budget := budget - 1;
      ghost var rest := SWITCH[1..][1..];
      assert rest == [LinkEdc, LinkSenscord];
      assert goal == Perform(Going(State(), budget), slot, i.release, rest, i.wreck);
      ok := CreateLinks(slot, i);
    }

    method CreateLinks(slot: Slot, i: Input) returns (ok: bool)
      requires edcLink.Absent? && senscordLink.Absent?
      modifies this
      ensures State() == Perform(Going(old(State()), old(budget)), slot, i.release, [LinkEdc, LinkSenscord], i.wreck).fs
    {
      if budget == 0 {
        return false;
      }
      edcLink := To(slot);
      budget := budget - 1;
      var here := Dir(slot);
      ghost var rest: seq<Command> := [LinkEdc, LinkSenscord][1..];
      assert rest == [LinkSenscord] && rest[1..] == [];
      if budget == 0 || here.None? || here.value.senscord.None? {
        return false;
      }
      senscordLink := To(slot);
      budget := budget - 1;
      return true;
    }

    /** The version check at the head of perform_update. */
    method NeedsUpdate(i: Input) returns (needed: bool)
      ensures needed <==> Decide(State(), i.release, i.force).Install?
    {
      if i.release.version == "" {
        return false;
      }
      if i.force {
        return true;
      }
      var file := match edcLink
        case Absent => None
        case To(A) => (if edcA.Some? then edcA.value.versionFile else None)
        case To(B) => (if edcB.Some? then edcB.value.versionFile else None)
        case Foreign(_, v) => v
        case NotALink(v) => v;
      if file.None? {
        return true;
      }
      var current := Parse(file.value);
      needed := current.Some? && (current.value == "" || current.value != i.release.version);
    }

    /** perform_update: any packages, cut off anywhere. */
    method PerformUpdate(i: Input)
      modifies this
      ensures State() == Update(old(State()), i)
      ensures old(Sound(State())) ==> Sound(State())
    {
      ghost var before := State();
      if Sound(before) {
        UpdateKeepsSound(before, i);
      }
      var needed := NeedsUpdate(i);
      if !needed {
        return;
      }
      budget := i.budget;
      var slot := ChooseTarget();
      UpdateSplits(before, slot, i);
      var ok := PopulateTarget(slot, i);
      if ok {
        ok := UpdateSymbolicLink(slot, i);
      } else {
        StoppedStays(State(), slot, i.release, SWITCH, i.wreck);
      }
    }

    /** create_deployment_structure, install_core_packages, install_sensor_package, validate_installation */
    method PopulateTarget(slot: Slot, i: Input) returns (ok: bool)
      modifies this
      ensures (if ok then Going(State(), budget) else Stopped(State()))
           == Perform(Going(old(State()), old(budget)), slot, i.release, POPULATE, i.wreck)
    {
      PopulateByParts(Going(State(), budget), slot, i);
      CreateBlock(State(), budget, slot, i.release, i.wreck);
      ok := CreateDeploymentStructure(slot, i);
      if !ok {
        return;
      }
      ok := InstallPackages(slot, i);
      if !ok {
        return;
      }
      ValidateBlock(State(), budget, slot, i.release, i.wreck);
      ok := ValidateInstallation(slot, i);
    }

    method InstallPackages(slot: Slot, i: Input) returns (ok: bool)
      requires Dir(slot) == Some(BARE)
      modifies this
      ensures ok ==> Dir(slot) == Some(Deployed(i.release))
      ensures (if ok then Going(State(), budget) else Stopped(State()))
           == Perform(Perform(Going(old(State()), old(budget)), slot, i.release, CORE, i.wreck),
                      slot, i.release, SENSOR, i.wreck)
    {
      CoreBlock(State(), budget, slot, i.release, i.wreck);
      ok := InstallCorePackages(slot, i);
      if !ok {
        StoppedStays(State(), slot, i.release, SENSOR, i.wreck);
        return;
      }
      SensorBlock(State(), budget, slot, i.release, i.wreck);
      ok := InstallSensorPackage(slot, i);
    }
  }

  lemma PopulateByParts(p: Progress, slot: Slot, i: Input)
    ensures var r, w := i.release, i.wreck;
            var p1 := Perform(p, slot, r, CREATE, w);
            var p2 := Perform(p1, slot, r, CORE, w);
            var p3 := Perform(p2, slot, r, SENSOR, w);
            var p4 := Perform(p, slot, r, POPULATE, w);
            && p4 == Perform(p3, slot, r, VALIDATE, w)
            && (p1.Stopped? ==> p4 == p1) && (p3.Stopped? ==> p4 == p3)
  {
    PerformConcat(p, slot, i.release, CREATE, CORE, i.wreck);
    PerformConcat(p, slot, i.release, CREATE + CORE, SENSOR, i.wreck);
    PerformConcat(p, slot, i.release, CREATE + CORE + SENSOR, VALIDATE, i.wreck);
  }
}
