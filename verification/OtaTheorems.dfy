/** What holds of every state the update script can leave behind. */
module OtaTheorems {
  import opened Common
  import opened OtaVersionFile
  import opened OtaModel

  // ---------------------------------------------------------------------------------------
  // Populating the target
  // ---------------------------------------------------------------------------------------

  /** Two states that differ at most in one directory. */
  ghost predicate SameOutside(fs: Fs, fs': Fs, slot: Slot) {
    fs' == fs.With(slot, fs'.Dir(slot))
  }

  lemma {:induction false} PerformFrame(p: Progress, slot: Slot, r: Release, script: seq<Command>, wreck: Option<Deployment>)
    requires forall c :: c in script ==> !OnLinks(c)
    ensures SameOutside(p.fs, Perform(p, slot, r, script, wreck).fs, slot)
    decreases |script|
  {
    if script != [] && p.Going? && p.budget > 0 && Execute(p.fs, slot, r, script[0]).Some? {
      var fs := Execute(p.fs, slot, r, script[0]).value;
      PerformFrame(Going(fs, p.budget - 1), slot, r, script[1..], wreck);
    }
  }

  lemma {:induction false} PerformConcat(p: Progress, slot: Slot, r: Release, xs: seq<Command>, ys: seq<Command>, wreck: Option<Deployment>)
    ensures Perform(p, slot, r, xs + ys, wreck) == Perform(Perform(p, slot, r, xs, wreck), slot, r, ys, wreck)
    decreases |xs|
  {
    if xs == [] {
      assert xs + ys == ys;
    } else {
      assert (xs + ys)[1..] == xs[1..] + ys;
      if p.Going? && p.budget > 0 && Execute(p.fs, slot, r, xs[0]).Some? {
        var fs := Execute(p.fs, slot, r, xs[0]).value;
        PerformConcat(Going(fs, p.budget - 1), slot, r, xs[1..], ys, wreck);
      }
    }
  }

  function Populate(fs: Fs, slot: Slot, i: Input): Progress {
    Perform(Going(fs, i.budget), slot, i.release, POPULATE, i.wreck)
  }

  lemma UpdateSplits(fs: Fs, slot: Slot, i: Input)
    requires Decide(fs, i.release, i.force) == Install(slot)
    ensures Update(fs, i) == Perform(Populate(fs, slot, i), slot, i.release, SWITCH, i.wreck).fs
  {
    PerformConcat(Going(fs, i.budget), slot, i.release, POPULATE, SWITCH, i.wreck);
  }

  /** Until the links are switched, nothing outside the target directory changes. */
  lemma PopulateFrame(fs: Fs, slot: Slot, i: Input)
    ensures SameOutside(fs, Populate(fs, slot, i).fs, slot)
  {
    PerformFrame(Going(fs, i.budget), slot, i.release, POPULATE, i.wreck);
  }

  /** What a run that is not cut off puts in the target. */
  function Deployed(r: Release): Deployment {
    Deployment(Some(File(r.version, true)), true, Some(File(r.version, true)), Some(Print(r.version)),
               Some(Senscord(File(r.sensorVersion, true), Some(Print(r.sensorVersion)))))
  }

  lemma CreateBlock(fs: Fs, budget: nat, slot: Slot, r: Release, wreck: Option<Deployment>)
    ensures var p := Perform(Going(fs, budget), slot, r, CREATE, wreck);
            p == if budget < 2 then Stopped(fs.With(slot, wreck)) else Going(fs.With(slot, Some(BARE)), budget - 2)
  {
  }

  function CoreOnly(r: Release): Deployment {
    Deployed(r).(senscord := None)
  }

  lemma CoreBlock(fs: Fs, budget: nat, slot: Slot, r: Release, wreck: Option<Deployment>)
    requires fs.Dir(slot) == Some(BARE)
    ensures var p := Perform(Going(fs, budget), slot, r, CORE, wreck);
            p == if budget == 0 || (budget < 5 && r.hasBinary && r.hasLibrary) then Stopped(fs.With(slot, wreck))
                 else if !r.hasBinary || !r.hasLibrary then Stopped(fs)
                 else Going(fs.With(slot, Some(CoreOnly(r))), budget - 5)
  {
  }

  lemma SensorBlock(fs: Fs, budget: nat, slot: Slot, r: Release, wreck: Option<Deployment>)
    requires fs.Dir(slot) == Some(CoreOnly(r))
    ensures var p := Perform(Going(fs, budget), slot, r, SENSOR, wreck);
            p == if budget == 0 || (r.sensorVersion != "" && budget < if r.hasSenscord then 4 else 3)
                 then Stopped(fs.With(slot, wreck))
                 else if r.sensorVersion == "" || !r.hasSenscord then Stopped(fs)
                 else Going(fs.With(slot, Some(Deployed(r))), budget - 4)
  {
  }

  lemma ValidateBlock(fs: Fs, budget: nat, slot: Slot, r: Release, wreck: Option<Deployment>)
    requires fs.Dir(slot) == Some(Deployed(r))
    ensures var p := Perform(Going(fs, budget), slot, r, VALIDATE, wreck);
            p == if budget == 0 then Stopped(fs.With(slot, wreck)) else Going(fs, budget - 1)
  {
  }

  lemma StoppedStays(fs: Fs, slot: Slot, r: Release, script: seq<Command>, wreck: Option<Deployment>)
    ensures Perform(Stopped(fs), slot, r, script, wreck) == Stopped(fs)
  {
  }

  /** Populating ends with a complete deployment, or the run stops before any link is touched. */
  lemma PopulateResult(fs: Fs, slot: Slot, i: Input)
    requires i.release.version != ""
    ensures if i.budget >= POPULATED && Usable(i.release)
            then Populate(fs, slot, i) == Going(fs.With(slot, Some(Deployed(i.release))), i.budget - POPULATED)
            else Populate(fs, slot, i).Stopped?
  {
    var r, w := i.release, i.wreck;
    var p1 := Perform(Going(fs, i.budget), slot, r, CREATE, w);
    var p2 := Perform(p1, slot, r, CORE, w);
    var p3 := Perform(p2, slot, r, SENSOR, w);
    PerformConcat(Going(fs, i.budget), slot, r, CREATE, CORE, w);
    PerformConcat(Going(fs, i.budget), slot, r, CREATE + CORE, SENSOR, w);
    PerformConcat(Going(fs, i.budget), slot, r, CREATE + CORE + SENSOR, VALIDATE, w);
    CreateBlock(fs, i.budget, slot, r, w);
    if p1.Stopped? {
      StoppedStays(p1.fs, slot, r, CORE, w);
    } else {
      CoreBlock(p1.fs, p1.budget, slot, r, w);
    }
    if p2.Stopped? {
      StoppedStays(p2.fs, slot, r, SENSOR, w);
    } else {
      SensorBlock(p2.fs, p2.budget, slot, r, w);
    }
    if p3.Stopped? {
      StoppedStays(p3.fs, slot, r, VALIDATE, w);
    } else {
      ValidateBlock(p3.fs, p3.budget, slot, r, w);
    }
  }

  // ---------------------------------------------------------------------------------------
  // Switching the links
  // ---------------------------------------------------------------------------------------

  /** The states of the switch: both links as they were, one gone, both gone, one new, both new. */
  function Switched(fs: Fs, slot: Slot, k: nat): Fs {
    match k
    case 0 => fs
    case 1 => fs.(edc := Absent)
    case 2 => fs.(edc := Absent, senscord := Absent)
    case 3 => fs.(edc := To(slot), senscord := Absent)
    case _ => fs.(edc := To(slot), senscord := To(slot))
  }

  predicate Linkable(fs: Fs) {
    !fs.edc.NotALink? && !fs.senscord.NotALink?
  }

  lemma SwitchResult(fs: Fs, budget: nat, slot: Slot, r: Release, wreck: Option<Deployment>)
    requires Linkable(fs) && fs.Dir(slot) == Some(Deployed(r))
    ensures Perform(Going(fs, budget), slot, r, SWITCH, wreck).fs == Switched(fs, slot, budget)
  {
  }

  lemma UpdateSwitches(fs: Fs, i: Input)
    requires Decide(fs, i.release, i.force).Install? && i.budget >= POPULATED && Usable(i.release)
    ensures var slot := Target(fs.edc);
            Update(fs, i) == Perform(Going(fs.With(slot, Some(Deployed(i.release))), i.budget - POPULATED),
                                     slot, i.release, SWITCH, i.wreck).fs
  {
    UpdateSplits(fs, Target(fs.edc), i);
    PopulateResult(fs, Target(fs.edc), i);
  }

  /** A whole run in one formula, when nothing but links stands at the two paths. */
  lemma UpdateResult(fs: Fs, i: Input)
    requires Linkable(fs) && Decide(fs, i.release, i.force).Install?
    ensures var slot := Target(fs.edc);
            if i.budget >= POPULATED && Usable(i.release)
            then Update(fs, i) == Switched(fs.With(slot, Some(Deployed(i.release))), slot, i.budget - POPULATED)
            else SameOutside(fs, Update(fs, i), slot)
  {
    var slot := Target(fs.edc);
    UpdateSplits(fs, slot, i);
    PopulateResult(fs, slot, i);
    PopulateFrame(fs, slot, i);
    if i.budget >= POPULATED && Usable(i.release) {
      SwitchResult(fs.With(slot, Some(Deployed(i.release))), i.budget - POPULATED, slot, i.release, i.wreck);
    }
  }

  // ---------------------------------------------------------------------------------------
  // Safety over all runs
  // ---------------------------------------------------------------------------------------

  /**
    The two paths are links or nothing; /opt/edc, when it is a link, names a complete deployment;
    and two links name the same one.
  */
  ghost predicate Sound(fs: Fs) {
    && (fs.edc.Absent? || fs.edc.To?) && (fs.senscord.Absent? || fs.senscord.To?)
    && (fs.edc.To? ==> CompleteAt(fs, fs.edc.slot))
    && (fs.edc.To? && fs.senscord.To? ==> fs.edc.slot == fs.senscord.slot)
  }

  lemma UpdateKeepsSound(fs: Fs, i: Input)
    requires Sound(fs)
    ensures Sound(Update(fs, i))
  {
    if Decide(fs, i.release, i.force).Install? {
      UpdateResult(fs, i);
    }
  }

  /** From a clean system, after any runs with any packages, each cut off anywhere. */
  lemma {:induction false} EveryStateIsSound(inputs: seq<Input>)
    ensures Sound(Updates(CLEAN, inputs))
  {
    if inputs != [] {
      EveryStateIsSound(Front(inputs));
      UpdateKeepsSound(Updates(CLEAN, Front(inputs)), Last(inputs));
    }
  }

  /** There is something to start: the linked deployment, or a complete one in slot B. */
  ghost predicate Startable(fs: Fs) {
    fs.edc.To? || CompleteAt(fs, B)
  }

  lemma UpdateKeepsStartable(fs: Fs, i: Input)
    requires Sound(fs) && Startable(fs)
    ensures Startable(Update(fs, i))
  {
    if Decide(fs, i.release, i.force).Install? {
      UpdateResult(fs, i);
    }
  }

  /**
    Once /opt/edc has named a deployment, no later sequence of runs, however cut off, leaves the
    device without a complete deployment.
  */
  lemma {:induction false} CompleteDeploymentSurvives(before: seq<Input>, after: seq<Input>)
    requires Updates(CLEAN, before).edc.To?
    ensures var fs := Updates(CLEAN, before + after); CompleteAt(fs, A) || CompleteAt(fs, B)
    ensures Startable(Updates(CLEAN, before + after))
  {
    EveryStateIsSound(before + after);
    if after == [] {
      assert before + after == before;
    } else {
      assert Front(before + after) == before + Front(after) && Last(before + after) == Last(after);
      CompleteDeploymentSurvives(before, Front(after));
      EveryStateIsSound(before + Front(after));
      UpdateKeepsStartable(Updates(CLEAN, before + Front(after)), Last(after));
    }
  }

  /**
    Until the links are switched a run changes neither of them, nor the deployment /opt/edc names;
    and no run at all, finished or not, changes the deployment it started from.
  */
  lemma CurrentDeploymentKept(fs: Fs, i: Input)
    requires fs.edc.To?
    ensures Update(fs, i).Dir(fs.edc.slot) == fs.Dir(fs.edc.slot)
    ensures i.budget <= POPULATED || !Usable(i.release) ==>
              Update(fs, i).edc == fs.edc && Update(fs, i).senscord == fs.senscord
  {
    if Decide(fs, i.release, i.force).Install? {
      var slot := Target(fs.edc);
      UpdateSplits(fs, slot, i);
      PopulateResult(fs, slot, i);
      PopulateFrame(fs, slot, i);
      SwitchKeepsDirectories(Populate(fs, slot, i), slot, i.release, SWITCH, i.wreck);
    }
  }

  lemma {:induction false} SwitchKeepsDirectories(p: Progress, slot: Slot, r: Release, script: seq<Command>, wreck: Option<Deployment>)
    requires forall c :: c in script ==> OnLinks(c)
    ensures var fs := Perform(p, slot, r, script, wreck).fs; fs.a == p.fs.a && fs.b == p.fs.b
    ensures p.Stopped? || p.budget == 0 ==> Perform(p, slot, r, script, wreck).fs == p.fs
    decreases |script|
  {
    if script != [] && p.Going? && p.budget > 0 && Execute(p.fs, slot, r, script[0]).Some? {
      SwitchKeepsDirectories(Going(Execute(p.fs, slot, r, script[0]).value, p.budget - 1), slot, r, script[1..], wreck);
    }
  }

  // ---------------------------------------------------------------------------------------
  // Where the links are missing, and recovery
  // ---------------------------------------------------------------------------------------

  /**
    The switch is not atomic: from an active deployment, /opt/edc is gone exactly when the run is
    cut off between its removal and its creation.  /opt/senscord is gone one command later on each
    side, or up to its creation if it was missing before.
  */
  lemma LinkWindow(fs: Fs, i: Input)
    requires Sound(fs) && fs.edc.To?
    requires Usable(i.release) && Decide(fs, i.release, i.force).Install?
    ensures Update(fs, i).edc.Absent? <==> 13 <= i.budget <= 14
    ensures Update(fs, i).senscord.Absent?
            <==> (fs.senscord.Absent? || 14 <= i.budget) && i.budget <= 15
  {
    UpdateResult(fs, i);
  }

  predicate FaultFree(i: Input) {
    i.budget >= FINISHED && Usable(i.release)
  }

  ghost predicate RunsRelease(fs: Fs, r: Release, slot: Slot) {
    && fs.edc == To(slot) && fs.senscord == To(slot)
    && CompleteAt(fs, slot) && fs.Dir(slot).value.binary.value.version == r.version
  }

  lemma InstallingRun(fs: Fs, i: Input)
    requires Linkable(fs) && FaultFree(i) && Decide(fs, i.release, i.force).Install?
    ensures RunsRelease(Update(fs, i), i.release, Target(fs.edc))
    ensures var other := Other(Target(fs.edc)); Update(fs, i).Dir(other) == fs.Dir(other)
  {
    UpdateResult(fs, i);
  }

  /**
    One fault-free forced run recovers from any state whatever without a non-link at the two paths:
    both links name one complete deployment of the release, and the other directory is as it was.
  */
  lemma ForcedRunRecovers(fs: Fs, i: Input)
    requires Linkable(fs) && FaultFree(i) && i.force
    ensures RunsRelease(Update(fs, i), i.release, Target(fs.edc))
    ensures var other := Other(Target(fs.edc)); Update(fs, i).Dir(other) == fs.Dir(other)
  {
    InstallingRun(fs, i);
  }

  /** All versions in play are single words, as awk hands them over. */
  ghost predicate ProperVersions(fs: Fs, r: Release) {
    Proper(r.version) && (CompleteAt(fs, A) ==> Proper(fs.a.value.binary.value.version))
    && (CompleteAt(fs, B) ==> Proper(fs.b.value.binary.value.version))
  }

  ghost predicate AlreadyActive(fs: Fs, r: Release) {
    fs.edc.To? && CompleteAt(fs, fs.edc.slot) && fs.Dir(fs.edc.slot).value.binary.value.version == r.version
  }

  /** In a reachable state the version check skips exactly when the active version is the release's. */
  lemma SkipsExactlyWhenActive(fs: Fs, r: Release)
    requires Sound(fs) && ProperVersions(fs, r)
    ensures Decide(fs, r, false) == if AlreadyActive(fs, r) then Skip else Install(Target(fs.edc))
  {
    if fs.edc.To? {
      PrintParse(fs.Dir(fs.edc.slot).value.binary.value.version);
    }
  }

  /**
    A fault-free run without --force ends with both links on the release, except when the active
    deployment already has that version and /opt/senscord is missing: then it changes nothing.
  */
  lemma UnforcedRunRecoversUnless(fs: Fs, i: Input)
    requires Sound(fs) && FaultFree(i) && !i.force && ProperVersions(fs, i.release)
    ensures (exists slot :: RunsRelease(Update(fs, i), i.release, slot))
            <==> !(AlreadyActive(fs, i.release) && fs.senscord.Absent?)
  {
    SkipsExactlyWhenActive(fs, i.release);
    if AlreadyActive(fs, i.release) {
      assert Update(fs, i) == fs;
      if !fs.senscord.Absent? {
        assert RunsRelease(fs, i.release, fs.edc.slot);
      }
    } else {
      UpdateResult(fs, i);
      assert RunsRelease(Update(fs, i), i.release, Target(fs.edc));
    }
  }

  /** A second run against the same release changes nothing, wherever it is cut off. */
  lemma SecondRunChangesNothing(fs: Fs, i: Input, again: Input)
    requires Linkable(fs) && FaultFree(i) && Proper(i.release.version) && Decide(fs, i.release, i.force).Install?
    requires again.release == i.release && !again.force
    ensures Update(Update(fs, i), again) == Update(fs, i)
  {
    UpdateResult(fs, i);
    PrintParse(i.release.version);
  }

  /** Every run of the sequence installs, and none is cut off. */
  ghost predicate AllInstall(fs: Fs, inputs: seq<Input>) {
    inputs != [] ==>
      && AllInstall(fs, Front(inputs))
      && FaultFree(Last(inputs))
      && Decide(Updates(fs, Front(inputs)), Last(inputs).release, Last(inputs).force).Install?
  }

  lemma OtherSlotNext(fs: Fs, r: Release, slot: Slot, i: Input)
    requires RunsRelease(fs, r, slot) && FaultFree(i) && Decide(fs, i.release, i.force).Install?
    ensures RunsRelease(Update(fs, i), i.release, Other(slot))
  {
    InstallingRun(fs, i);
  }

  lemma FirstRun(i: Input)
    requires FaultFree(i) && Decide(CLEAN, i.release, i.force).Install?
    ensures RunsRelease(Update(CLEAN, i), i.release, A)
  {
    InstallingRun(CLEAN, i);
  }

  function SlotAfter(runs: nat): Slot { if runs % 2 == 1 then A else B }

  lemma LastRun(inputs: seq<Input>)
    requires AllInstall(CLEAN, inputs) && inputs != []
    ensures var fs, i := Updates(CLEAN, Front(inputs)), Last(inputs);
            && AllInstall(CLEAN, Front(inputs)) && FaultFree(i) && Decide(fs, i.release, i.force).Install?
            && Updates(CLEAN, inputs) == Update(fs, i)
  {
  }

  /** The last of the runs left its release active in the slot of their number. */
  ghost predicate Alternated(fs: Fs, inputs: seq<Input>) {
    inputs != [] && RunsRelease(fs, Last(inputs).release, SlotAfter(|inputs|))
  }

  lemma AlternatedNext(fs: Fs, before: seq<Input>, i: Input, fs': Fs)
    requires Alternated(fs, before) && RunsRelease(fs', i.release, Other(SlotAfter(|before|)))
    ensures Alternated(fs', before + [i])
  {
  }

  lemma LaterAlternated(fs: Fs, before: seq<Input>, i: Input)
    requires Alternated(fs, before) && FaultFree(i) && Decide(fs, i.release, i.force).Install?
    ensures Alternated(Update(fs, i), before + [i])
  {
    OtherSlotNext(fs, Last(before).release, SlotAfter(|before|), i);
    AlternatedNext(fs, before, i, Update(fs, i));
  }

  lemma FirstAlternated(inputs: seq<Input>)
    requires |inputs| == 1 && AllInstall(CLEAN, inputs)
    ensures Alternated(Updates(CLEAN, inputs), inputs)
  {
    assert Front(inputs) == [];
    FirstRun(Last(inputs));
  }

  /** Fault-free installing runs alternate: A after an odd number, B after an even one. */
  lemma {:induction false} SlotsAlternate(inputs: seq<Input>)
    requires AllInstall(CLEAN, inputs) && inputs != []
    ensures Alternated(Updates(CLEAN, inputs), inputs)
  {
    if |inputs| == 1 {
      FirstAlternated(inputs);
    } else {
      SlotsAlternate(Front(inputs));
      LastRun(inputs);
      LaterAlternated(Updates(CLEAN, Front(inputs)), Front(inputs), Last(inputs));
    }
  }

  // ---------------------------------------------------------------------------------------
  // Promises that do not hold
  // ---------------------------------------------------------------------------------------

  const SAMPLE := Release("1.0", true, true, true, "1.0", true)

  const FULL := Some(Deployed(SAMPLE))

  /**
    Soundness says nothing of /opt/senscord alone, and cannot: cut a second update between the two
    link removals and the next one while it clears slot A, and the link is left dangling.
  */
  lemma SenscordLinkMayDangle()
    ensures var i := Input(SAMPLE, true, 16, None);
            Updates(CLEAN, [i, i.(budget := 13), i.(budget := 1)]) == Fs(None, FULL, Absent, To(A))
  {
    var i := Input(SAMPLE, true, 16, None);
    var i2, i3 := i.(budget := 13), i.(budget := 1);
    assert Front([i, i2, i3]) == [i, i2] && Front([i, i2]) == [i] && Front([i]) == [];
    FirstInstall(i);
    CutInWindow(i2);
    assert Updates(CLEAN, [i, i2]) == Fs(FULL, FULL, Absent, To(A)) by {
      assert Updates(CLEAN, [i]) == Fs(FULL, None, To(A), To(A));
    }
    CutWhileClearing(Fs(FULL, FULL, Absent, To(A)), i3);
  }

  lemma FirstInstall(i: Input)
    requires i.release == SAMPLE && i.force && i.budget == 16
    ensures Update(CLEAN, i) == Fs(FULL, None, To(A), To(A))
  {
    UpdateResult(CLEAN, i);
  }

  lemma CutInWindow(i: Input)
    requires i.release == SAMPLE && i.force && i.budget == 13
    ensures Update(Fs(FULL, None, To(A), To(A)), i) == Fs(FULL, FULL, Absent, To(A))
  {
    UpdateResult(Fs(FULL, None, To(A), To(A)), i);
  }

  /** The other one: cut before /opt/senscord is created, and no unforced run of that version creates it. */
  lemma MissingSenscordStaysMissing()
    ensures var i := Input(SAMPLE, true, 15, None);
            var fs := Updates(CLEAN, [i, i.(force := false, budget := 16)]);
            fs == Fs(FULL, None, To(A), Absent)
  {
    var i := Input(SAMPLE, true, 15, None);
    var i2 := i.(force := false, budget := 16);
    assert Front([i, i2]) == [i] && Front([i]) == [];
    CutBeforeSenscord(i);
    SkippedRun(i2);
    assert Updates(CLEAN, [i]) == Fs(FULL, None, To(A), Absent);
  }

  lemma CutBeforeSenscord(i: Input)
    requires i.release == SAMPLE && i.force && i.budget == 15
    ensures Update(CLEAN, i) == Fs(FULL, None, To(A), Absent)
  {
    UpdateResult(CLEAN, i);
  }

  lemma SkippedRun(i: Input)
    requires i.release == SAMPLE && !i.force
    ensures Update(Fs(FULL, None, To(A), Absent), i) == Fs(FULL, None, To(A), Absent)
  {
    PrintParse(SAMPLE.version);
  }

  lemma CutWhileClearing(fs: Fs, i: Input)
    requires Decide(fs, i.release, i.force).Install? && i.budget < 2
    ensures Update(fs, i) == fs.With(Target(fs.edc), i.wreck)
  {
    var slot, r, w := Target(fs.edc), i.release, i.wreck;
    var rest := CORE + SENSOR + VALIDATE + SWITCH;
    assert SCRIPT == CREATE + rest;
    PerformConcat(Going(fs, i.budget), slot, r, CREATE, rest, w);
    CreateBlock(fs, i.budget, slot, r, w);
    StoppedStays(fs.With(slot, w), slot, r, rest, w);
  }

  /** A linked /opt/senscord names a complete deployment. */
  ghost predicate SenscordOk(fs: Fs) {
    fs.senscord.To? ==> CompleteAt(fs, fs.senscord.slot)
  }

  /**
    The state before a run tells whether /opt/senscord is at risk in it: it is exactly when
    /opt/edc is missing, so that the run takes slot A for its target, and the link names slot A.
  */
  lemma SenscordSafeExactly(fs: Fs)
    requires Sound(fs) && SenscordOk(fs)
    ensures (forall i :: SenscordOk(Update(fs, i))) <==> !(fs.edc.Absent? && fs.senscord == To(A))
  {
    if fs.edc.Absent? && fs.senscord == To(A) {
      var i := Input(SAMPLE, true, 0, None);
      CutWhileClearing(fs, i);
      assert !SenscordOk(Update(fs, i));
    } else {
      forall i
        ensures SenscordOk(Update(fs, i))
      {
        SenscordKept(fs, i);
      }
    }
  }

  lemma SenscordKept(fs: Fs, i: Input)
    requires Sound(fs) && SenscordOk(fs) && !(fs.edc.Absent? && fs.senscord == To(A))
    ensures SenscordOk(Update(fs, i))
  {
    if Decide(fs, i.release, i.force).Install? {
      UpdateResult(fs, i);
    }
  }

  /** While /opt/edc is a link, /opt/senscord is not dangling. */
  lemma SenscordLinkSoundWithEdc(inputs: seq<Input>)
    requires Updates(CLEAN, inputs).edc.To?
    ensures SenscordOk(Updates(CLEAN, inputs))
  {
    EveryStateIsSound(inputs);
  }

  /** At risk, or fine. */
  ghost predicate SenscordOkOrAtRisk(fs: Fs) {
    SenscordOk(fs) || (fs.edc.Absent? && fs.senscord == To(A))
  }

  lemma SenscordStep(fs: Fs, i: Input)
    requires Sound(fs) && SenscordOkOrAtRisk(fs)
    ensures SenscordOkOrAtRisk(Update(fs, i))
  {
    if Decide(fs, i.release, i.force).Install? {
      UpdateResult(fs, i);
    }
  }

  /** After any runs, a dangling /opt/senscord names slot A, and /opt/edc is missing. */
  lemma {:induction false} DanglesOnlyWithoutEdc(inputs: seq<Input>)
    ensures SenscordOkOrAtRisk(Updates(CLEAN, inputs))
  {
    if inputs != [] {
      DanglesOnlyWithoutEdc(Front(inputs));
      EveryStateIsSound(Front(inputs));
      SenscordStep(Updates(CLEAN, Front(inputs)), Last(inputs));
    }
  }

  /**
    A real directory at /opt/senscord is refused only after /opt/edc has been removed, so even a
    run without any fault then takes the active deployment away.
  */
  lemma RefusedSenscordPathUnlinksEdc(fs: Fs, i: Input)
    requires !fs.edc.NotALink? && fs.senscord.NotALink?
    requires FaultFree(i) && Decide(fs, i.release, i.force).Install?
    ensures Update(fs, i).edc.Absent? && Update(fs, i).senscord == fs.senscord
  {
    var slot := Target(fs.edc);
    UpdateSwitches(fs, i);
    SwitchRefused(fs.With(slot, Some(Deployed(i.release))), i.budget - POPULATED, slot, i.release, i.wreck);
  }

  /** A run with no fault of its own succeeds exactly when neither path is occupied by a non-link. */
  lemma InstallsExactlyWhenLinkable(fs: Fs, i: Input)
    requires FaultFree(i) && Decide(fs, i.release, i.force).Install?
    ensures (exists slot :: RunsRelease(Update(fs, i), i.release, slot)) <==> Linkable(fs)
  {
    var slot := Target(fs.edc);
    if Linkable(fs) {
      InstallingRun(fs, i);
      assert RunsRelease(Update(fs, i), i.release, slot);
    } else if fs.edc.NotALink? {
      UpdateSwitches(fs, i);
      EdcRefused(fs.With(slot, Some(Deployed(i.release))), i.budget - POPULATED, slot, i.release, i.wreck);
    } else {
      RefusedSenscordPathUnlinksEdc(fs, i);
    }
  }

  lemma EdcRefused(fs: Fs, budget: nat, slot: Slot, r: Release, wreck: Option<Deployment>)
    requires fs.edc.NotALink?
    ensures Perform(Going(fs, budget), slot, r, SWITCH, wreck).fs == fs
  {
  }

  /** Without the senscord tree in the target the switch ends after /opt/edc, with /opt/senscord missing. */
  lemma SwitchNeedsSenscord(fs: Fs, budget: nat, slot: Slot, r: Release, wreck: Option<Deployment>)
    requires Linkable(fs) && budget >= 3 && (fs.Dir(slot).None? || fs.Dir(slot).value.senscord.None?)
    ensures Perform(Going(fs, budget), slot, r, SWITCH, wreck).fs == fs.(edc := To(slot), senscord := Absent)
  {
    assert SWITCH[1..] == [RemoveSenscordLink, LinkEdc, LinkSenscord];
    assert SWITCH[1..][1..] == [LinkEdc, LinkSenscord];
    assert [LinkEdc, LinkSenscord][1..] == [LinkSenscord];
  }

  lemma SwitchRefused(fs: Fs, budget: nat, slot: Slot, r: Release, wreck: Option<Deployment>)
    requires !fs.edc.NotALink? && fs.senscord.NotALink? && budget >= 2
    ensures Perform(Going(fs, budget), slot, r, SWITCH, wreck).fs == fs.(edc := Absent)
  {
  }

  // ---------------------------------------------------------------------------------------
  // The version check where /opt/edc is not one of the two links, and where it ends the script
  // ---------------------------------------------------------------------------------------

  /** The version file behind a path the script did not make. */
  ghost predicate Strange(edc: Path, file: Option<string>) {
    (edc.Foreign? || edc.NotALink?) && edc.versionFile == file
  }

  /**
    A foreign link or a real directory at /opt/edc is no deployment of either slot, so slot A is the
    target; but its version file counts, and alone decides, as long as the run is not forced.
  */
  lemma StrangePathDecides(fs: Fs, v: string, r: Release, force: bool)
    requires Proper(v) && r.version != ""
    ensures Strange(fs.edc, None) ==> Decide(fs, r, force) == Install(A)
    ensures Strange(fs.edc, Some("Version: " + v + "\n")) ==>
              Decide(fs, r, force) == if v == r.version && !force then Skip else Install(A)
  {
    PrintParse(v);
  }

  /** Packages without a version are refused whatever the device holds. */
  lemma NoVersionNoUpdate(fs: Fs, i: Input)
    requires i.release.version == ""
    ensures Decide(fs, i.release, i.force) == GiveUp && Update(fs, i) == fs
  {
  }

  /**
    Without --force the script ends at the version check exactly when the file found through
    /opt/edc has no line labelled as a version.
  */
  lemma GivesUpExactly(fs: Fs, r: Release)
    requires r.version != ""
    ensures Decide(fs, r, false).GiveUp?
            <==> VisibleVersion(fs).Some? && NoVersionIn(VisibleVersion(fs).value)
  {
    if VisibleVersion(fs).Some? {
      ParseFailsExactly(VisibleVersion(fs).value);
    }
  }

  /** An unlabelled file behind a foreign link: the script ends although the version is merely unknown. */
  lemma UnlabelledFileEndsScript()
    ensures Decide(CLEAN.(edc := Foreign("/opt/old", Some("1.0"))), SAMPLE, false).GiveUp?
  {
    var text := "1.0";
    assert Find(text, c => c == '\n') == 3 by {
      FindIs(text, c => c == '\n', 3);
    }
    assert Lines(text) == [text];
    assert NoVersionIn(text);
    GivesUpExactly(CLEAN.(edc := Foreign("/opt/old", Some(text))), SAMPLE);
  }

  /** It never happens in a state the script itself has led to, whatever its runs and versions. */
  lemma ReachableNeverGivesUp(inputs: seq<Input>, r: Release, force: bool)
    requires r.version != ""
    ensures !Decide(Updates(CLEAN, inputs), r, force).GiveUp?
  {
    EveryStateIsSound(inputs);
    SoundNeverGivesUp(Updates(CLEAN, inputs), r, force);
  }

  lemma SoundNeverGivesUp(fs: Fs, r: Release, force: bool)
    requires Sound(fs) && r.version != ""
    ensures !Decide(fs, r, force).GiveUp?
  {
    if fs.edc.To? {
      PrintIsLabelled(fs.Dir(fs.edc.slot).value.binary.value.version);
    }
  }
}
