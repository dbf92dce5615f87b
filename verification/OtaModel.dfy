/**
  The blue-green update of edc_system_update.sh as a sequence of commands over two deployment
  directories and two links.  A run may be cut off after any number of commands, by an error or by
  a power failure; a command cut short leaves anything at all in the directory it was working on.
*/
module OtaModel {
  import opened Common
  import opened OtaVersionFile

  // ---------------------------------------------------------------------------------------
  // The file system
  // ---------------------------------------------------------------------------------------

  /** /opt/edcA and /opt/edcB */
  datatype Slot = A | B

  function Other(s: Slot): Slot { if s == A then B else A }

  /** A file, with the version of the package it was copied from. */
  datatype File = File(version: string, intact: bool)

  datatype Senscord = Senscord(content: File, versionFile: Option<string>)

  datatype Deployment = Deployment(
    binary: Option<File>,
    executable: bool,
    library: Option<File>,
    versionFile: Option<string>,
    senscord: Option<Senscord>)

  const BARE := Deployment(None, false, None, None, None)

  /**
    What a path under /opt is.  Through a foreign link or a real directory at /opt/edc the script
    may find a version file of unknown origin.
  */
  datatype Path =
    | Absent
    | To(slot: Slot)
    | Foreign(target: string, versionFile: Option<string>)
    | NotALink(versionFile: Option<string>)

  datatype Fs = Fs(a: Option<Deployment>, b: Option<Deployment>, edc: Path, senscord: Path) {
    function Dir(s: Slot): Option<Deployment> { if s == A then a else b }

    function With(s: Slot, d: Option<Deployment>): Fs { if s == A then this.(a := d) else this.(b := d) }
  }

  const CLEAN := Fs(None, None, Absent, Absent)

  /** Everything the device needs to run, all from one core package, and labelled as such. */
  ghost predicate Complete(d: Deployment) {
    && d.binary.Some? && d.binary.value.intact && d.executable
    && d.library == Some(File(d.binary.value.version, true))
    && d.versionFile == Some(Print(d.binary.value.version))
    && d.senscord.Some? && d.senscord.value.content.intact
    && d.senscord.value.versionFile == Some(Print(d.senscord.value.content.version))
  }

  ghost predicate CompleteAt(fs: Fs, s: Slot) {
    fs.Dir(s).Some? && Complete(fs.Dir(s).value)
  }

  // ---------------------------------------------------------------------------------------
  // One run
  // ---------------------------------------------------------------------------------------

  /** The two downloaded packages: their versions, and what can be found in them. */
  datatype Release = Release(
    version: string,
    hasBinary: bool,
    binaryExecutable: bool,
    hasLibrary: bool,
    sensorVersion: string,
    hasSenscord: bool)

  predicate Usable(r: Release) {
    r.version != "" && r.hasBinary && r.hasLibrary && r.sensorVersion != "" && r.hasSenscord
  }

  datatype Decision = Skip | GiveUp | Install(slot: Slot)

  /** detect_current_deployment and get_target_deployment */
  function Target(edc: Path): Slot {
    match edc
    case To(A) => B
    case To(B) => A
    case _ => A
  }

  /** The file at /opt/edc/version_edc.txt, if there is one. */
  function VisibleVersion(fs: Fs): Option<string> {
    match fs.edc
    case Absent => None
    case To(s) => if fs.Dir(s).Some? then fs.Dir(s).value.versionFile else None
    case Foreign(_, v) => v
    case NotALink(v) => v
  }

  function Decide(fs: Fs, r: Release, force: bool): Decision {
    if r.version == "" then GiveUp
    else if force || VisibleVersion(fs).None? then Install(Target(fs.edc))
    else
      match Parse(VisibleVersion(fs).value)
      case None => GiveUp
      case Some(current) => if current != "" && current == r.version then Skip else Install(Target(fs.edc))
  }

  datatype Command =
    | RemoveDirectory | MakeDirectories
    | FindCoreFiles | CopyBinary | MakeExecutable | CopyLibrary | WriteVersion
    | CheckSensorVersion | ExtractSensor | CheckSenscord | WriteSensorVersion
    | Validate
    | RemoveEdcLink | RemoveSenscordLink | LinkEdc | LinkSenscord

  const CREATE: seq<Command> := [RemoveDirectory, MakeDirectories]
  const CORE: seq<Command> := [FindCoreFiles, CopyBinary, MakeExecutable, CopyLibrary, WriteVersion]
  const SENSOR: seq<Command> := [CheckSensorVersion, ExtractSensor, CheckSenscord, WriteSensorVersion]
  const VALIDATE: seq<Command> := [Validate]
  const SWITCH: seq<Command> := [RemoveEdcLink, RemoveSenscordLink, LinkEdc, LinkSenscord]

  const POPULATE: seq<Command> := CREATE + CORE + SENSOR + VALIDATE
  const SCRIPT: seq<Command> := POPULATE + SWITCH

  predicate OnLinks(c: Command) {
    c.RemoveEdcLink? || c.RemoveSenscordLink? || c.LinkEdc? || c.LinkSenscord?
  }

  /** The effect of a command on the directory being built; None when the script exits there. */
  function Build(d: Option<Deployment>, r: Release, c: Command): Option<Option<Deployment>> {
    match c
    case RemoveDirectory => Some(None)
    case MakeDirectories => Some(if d.None? then Some(BARE) else d)
    case FindCoreFiles => if r.hasBinary && r.hasLibrary then Some(d) else None
    case CheckSensorVersion => if r.sensorVersion != "" then Some(d) else None
    case _ => if d.None? then None else BuildIn(d.value, r, c)
  }

  function BuildIn(d: Deployment, r: Release, c: Command): Option<Option<Deployment>> {
    match c
    case CopyBinary => Some(Some(d.(binary := Some(File(r.version, true)), executable := r.binaryExecutable)))
    case MakeExecutable => Some(Some(d.(executable := true)))
    case CopyLibrary => Some(Some(d.(library := Some(File(r.version, true)))))
    case WriteVersion => Some(Some(d.(versionFile := Some(Print(r.version)))))
    case ExtractSensor =>
      Some(Some(if r.hasSenscord then d.(senscord := Some(Senscord(File(r.sensorVersion, true), None))) else d))
    case CheckSenscord => if d.senscord.Some? then Some(Some(d)) else None
    case WriteSensorVersion =>
      if d.senscord.None? then None
      else Some(Some(d.(senscord := Some(d.senscord.value.(versionFile := Some(Print(r.sensorVersion)))))))
    case _ =>
      if d.binary.Some? && d.library.Some? && d.senscord.Some? && d.executable then Some(Some(d)) else None
  }

  function Relink(fs: Fs, slot: Slot, c: Command): Option<Fs> {
    match c
    case RemoveEdcLink => if fs.edc.NotALink? then None else Some(fs.(edc := Absent))
    case RemoveSenscordLink => if fs.senscord.NotALink? then None else Some(fs.(senscord := Absent))
    case LinkEdc => if fs.edc.Absent? then Some(fs.(edc := To(slot))) else None
    case _ =>
      if fs.Dir(slot).Some? && fs.Dir(slot).value.senscord.Some? && fs.senscord.Absent?
      then Some(fs.(senscord := To(slot))) else None
  }

  function Execute(fs: Fs, slot: Slot, r: Release, c: Command): Option<Fs> {
    if OnLinks(c) then Relink(fs, slot, c)
    else
      match Build(fs.Dir(slot), r, c)
      case None => None
      case Some(d) => Some(fs.With(slot, d))
  }

  /** What is left if the command is cut short; link operations happen or do not. */
  function Cut(fs: Fs, slot: Slot, c: Command, wreck: Option<Deployment>): Fs {
    if OnLinks(c) then fs else fs.With(slot, wreck)
  }

  datatype Progress = Stopped(fs: Fs) | Going(fs: Fs, budget: nat)

  function Perform(p: Progress, slot: Slot, r: Release, script: seq<Command>, wreck: Option<Deployment>): Progress
    decreases |script|
  {
    if script == [] || p.Stopped? then p
    else if p.budget == 0 then Stopped(Cut(p.fs, slot, script[0], wreck))
    else
      match Execute(p.fs, slot, r, script[0])
      case None => Stopped(p.fs)
      case Some(fs) => Perform(Going(fs, p.budget - 1), slot, r, script[1..], wreck)
  }

  /** The inputs of a run: what was downloaded, --force, and where and how it is cut off. */
  datatype Input = Input(release: Release, force: bool, budget: nat, wreck: Option<Deployment>)

  /** perform_update */
  function Update(fs: Fs, i: Input): Fs {
    match Decide(fs, i.release, i.force)
    case Install(slot) => Perform(Going(fs, i.budget), slot, i.release, SCRIPT, i.wreck).fs
    case _ => fs
  }

  /** Any number of runs, one after another. */
  function Updates(fs: Fs, inputs: seq<Input>): Fs {
    if inputs == [] then fs else Update(Updates(fs, Front(inputs)), Last(inputs))
  }

  /** Commands before the links are touched, and in all. */
  const POPULATED := 12
  const FINISHED := 16
}
