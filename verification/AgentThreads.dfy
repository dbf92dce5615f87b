/**
  evp-agent.c as interleaved steps: the agent thread climbing its ladder of acquisitions, looping
  and unwinding; any number of client threads using the backdoor or registering native symbols;
  and a shutdown request that may come at any moment.  Every external call may go either way.
*/
module AgentThreads {
  import opened Common
  import NativeSymbols

  datatype Resource = Context | ProxyCache | Agent | Connection | Watchdog

  const LADDER: seq<Resource> := [Context, ProxyCache, Agent, Connection, Watchdog]

  /** What the agent thread does that others may care about. */
  datatype Act = Acquire(r: Resource) | Release(r: Resource) | Flush | Publish | Keepalive | LoopBegin

  datatype Pc =
    | Created | Naming | SettingUp | RegisteringPlatform | ShowingDisconnected | InitProxyCache
    | RegisteringNotifications | Starting | Flushing | Connecting | StartingWatchdog | Publishing
    | KeepingAlive | BeginningLoop | InLoop | CheckingSignal
    | StoppingWatchdog | Disconnecting | Stopping | DeinitProxyCache | Freeing | Exited

  datatype Client =
    | Idle
    | SawContext                    // EVP_getAgentStatus read a context and asked for its status
    | Holds(context: bool)          // the second read is done; false stands for NULL
    | MayInsert(entry: nat)         // EVP_wasm_runtime_register_natives read `started` as false

  datatype State = State(
    pc: Pc,
    loopFailed: bool,
    trace: seq<Act>,
    published: bool,
    signalled: bool,
    started: bool,
    clients: map<nat, Client>,
    used: seq<bool>,                // contexts handed on by clients
    inserted: seq<nat>,
    queue: seq<nat>,
    received: seq<nat>,             // what the wasm runtime was asked to register
    freed: seq<nat>,
    flushed: Option<nat>)           // the entries accepted before the first refusal, once flushed

  const INITIAL := State(Created, false, [], false, false, false, map[], [], [], [], [], [], None)

  datatype Action =
    | AgentStep(ok: bool, accepted: nat)      // the outcome of the call at hand
    | Shutdown
    | ReadStatus(client: nat, stillInit: bool)
    | ReadAgain(client: nat)
    | UseContext(client: nat)
    | CheckStarted(client: nat, entry: nat)
    | InsertSymbol(client: nat)

  // ---------------------------------------------------------------------------------------
  // Steps
  // ---------------------------------------------------------------------------------------

  /** Where the code goes next, and what it does on the way, given how the call at hand turned out. */
  function PcNext(pc: Pc, ok: bool): Pc {
    match pc
    case Created => Naming
    case Naming => if ok then SettingUp else Exited
    case SettingUp => RegisteringPlatform
    case RegisteringPlatform => if ok then ShowingDisconnected else Freeing
    case ShowingDisconnected => if ok then InitProxyCache else Freeing
    case InitProxyCache => if ok then RegisteringNotifications else Freeing
    case RegisteringNotifications => if ok then Starting else DeinitProxyCache
    case Starting => if ok then Flushing else DeinitProxyCache
    case Flushing => if ok then Connecting else Stopping
    case Connecting => if ok then StartingWatchdog else Stopping
    case StartingWatchdog => if ok then Publishing else Disconnecting
    case Publishing => KeepingAlive
    case KeepingAlive => BeginningLoop
    case BeginningLoop => InLoop
    case InLoop => CheckingSignal
    case CheckingSignal => if ok then KeepingAlive else StoppingWatchdog
    case StoppingWatchdog => Disconnecting
    case Disconnecting => Stopping
    case Stopping => DeinitProxyCache
    case DeinitProxyCache => Freeing
    case Freeing => Exited
    case Exited => Exited
  }

  function ActOf(pc: Pc, ok: bool): Option<Act> {
    match pc
    case SettingUp => Some(Acquire(Context))
    case InitProxyCache => if ok then Some(Acquire(ProxyCache)) else None
    case Starting => if ok then Some(Acquire(Agent)) else None
    case Flushing => if ok then Some(Flush) else None
    case Connecting => if ok then Some(Acquire(Connection)) else None
    case StartingWatchdog => if ok then Some(Acquire(Watchdog)) else None
    case Publishing => Some(Publish)
    case KeepingAlive => Some(Keepalive)
    case BeginningLoop => Some(LoopBegin)
    case StoppingWatchdog => Some(Release(Watchdog))
    case Disconnecting => Some(Release(Connection))
    case Stopping => Some(Release(Agent))
    case DeinitProxyCache => Some(Release(ProxyCache))
    case Freeing => Some(Release(Context))
    case _ => None
  }

  function Extended(trace: seq<Act>, act: Option<Act>): seq<Act> {
    if act.Some? then trace + [act.value] else trace
  }

  /**
    The outcome that steers the code: the flush succeeds when every queued entry is accepted, the
    loop goes on while neither the signal is up nor its last call failed; any other call decides
    for itself.
  */
  function Outcome(s: State, ok: bool, accepted: nat): bool {
    if s.pc.Flushing? then accepted >= |s.queue|
    else if s.pc.CheckingSignal? then !s.signalled && !s.loopFailed
    else ok
  }

  /** The flush hands over entries up to the first refusal and frees them all. */
  function Flushed(s: State, accepted: nat): State {
    s.(received := s.received + s.queue[..Min(|s.queue|, accepted + 1)], freed := s.freed + s.queue, queue := [],
       flushed := Some(accepted))
  }

  function AgentNext(s: State, ok: bool, accepted: nat): State {
    var outcome := Outcome(s, ok, accepted);
    (if s.pc.Flushing? then Flushed(s, accepted) else s).(
      pc := PcNext(s.pc, outcome),
      trace := Extended(s.trace, ActOf(s.pc, outcome)),
      started := true,
      published := s.published || s.pc.Publishing?,
      loopFailed := if s.pc.InLoop? then !ok else s.loopFailed)
  }

  function ClientAt(s: State, c: nat): Client {
    if c in s.clients then s.clients[c] else Idle
  }

  function Step(s: State, a: Action): State {
    match a
    case AgentStep(ok, accepted) => AgentNext(s, ok, accepted)
    case Shutdown => s.(signalled := true)
    case ReadStatus(c, stillInit) =>
      if ClientAt(s, c).Idle? && s.published && !stillInit then s.(clients := s.clients[c := SawContext]) else s
    case ReadAgain(c) =>
      if ClientAt(s, c).SawContext? then s.(clients := s.clients[c := Holds(s.published)]) else s
    case UseContext(c) =>
      if ClientAt(s, c).Holds? then s.(used := s.used + [ClientAt(s, c).context], clients := s.clients[c := Idle]) else s
    case CheckStarted(c, e) =>
      if ClientAt(s, c).Idle? && !s.started then s.(clients := s.clients[c := MayInsert(e)]) else s
    case InsertSymbol(c) =>
      if ClientAt(s, c).MayInsert? then
        s.(queue := s.queue + [ClientAt(s, c).entry], inserted := s.inserted + [ClientAt(s, c).entry],
           clients := s.clients[c := Idle])
      else s
  }

  function Run(s: State, actions: seq<Action>): State {
    if actions == [] then s else Step(Run(s, Front(actions)), Last(actions))
  }

  lemma RunSnoc(s: State, actions: seq<Action>, a: Action)
    ensures Run(s, actions + [a]) == Step(Run(s, actions), a)
  {
    FrontOfSnoc(actions, a);
  }

  // ---------------------------------------------------------------------------------------
  // Bracketing
  // ---------------------------------------------------------------------------------------

  function Acquired(trace: seq<Act>): seq<Resource> {
    if trace == [] then [] else Acquired(Front(trace)) + if Last(trace).Acquire? then [Last(trace).r] else []
  }

  function Released(trace: seq<Act>): seq<Resource> {
    if trace == [] then [] else Released(Front(trace)) + if Last(trace).Release? then [Last(trace).r] else []
  }

  function Reversed<T>(s: seq<T>): seq<T> {
    if s == [] then [] else [Last(s)] + Reversed(Front(s))
  }

  /** How many rungs of the ladder are held at each point of the code. */
  function Rungs(pc: Pc): nat {
    match pc
    case Created | Naming | SettingUp | Exited => 0
    case RegisteringPlatform | ShowingDisconnected | InitProxyCache | Freeing => 1
    case RegisteringNotifications | Starting | DeinitProxyCache => 2
    case Flushing | Connecting | Stopping => 3
    case StartingWatchdog | Disconnecting => 4
    case _ => 5
  }

  predicate Unwinding(pc: Pc) {
    pc.StoppingWatchdog? || pc.Disconnecting? || pc.Stopping? || pc.DeinitProxyCache? || pc.Freeing? || pc.Exited?
  }

  /** The rungs released so far, last acquired first. */
  function Unwound(ladder: seq<Resource>, top: nat, held: nat): seq<Resource>
    requires held <= top <= |ladder|
    decreases top
  {
    if held == top then [] else [ladder[top - 1]] + Unwound(ladder, top - 1, held)
  }

  lemma {:induction false} UnwoundOneMore(ladder: seq<Resource>, top: nat, held: nat)
    requires 0 < held <= top <= |ladder|
    ensures Unwound(ladder, top, held - 1) == Unwound(ladder, top, held) + [ladder[held - 1]]
  {
    if held < top {
      UnwoundOneMore(ladder, top - 1, held);
    }
  }

  lemma {:induction false} UnwoundIsReversed(ladder: seq<Resource>, top: nat)
    requires top <= |ladder|
    ensures Unwound(ladder, top, 0) == Reversed(ladder[..top])
  {
    if top > 0 {
      assert Front(ladder[..top]) == ladder[..top - 1];
      UnwoundIsReversed(ladder, top - 1);
    }
  }

  /** Acquisitions climb the ladder; releases come down it from where the climb ended. */
  ghost predicate Bracketed(pc: Pc, trace: seq<Act>) {
    exists top :: Climbed(pc, trace, top)
  }

  ghost predicate Climbed(pc: Pc, trace: seq<Act>, top: nat) {
    && Rungs(pc) <= top <= |LADDER| && (!Unwinding(pc) ==> top == Rungs(pc))
    && Acquired(trace) == LADDER[..top]
    && Released(trace) == Unwound(LADDER, top, Rungs(pc))
  }

  lemma Snoc(trace: seq<Act>, act: Act)
    ensures Acquired(trace + [act]) == Acquired(trace) + if act.Acquire? then [act.r] else []
    ensures Released(trace + [act]) == Released(trace) + if act.Release? then [act.r] else []
  {
    FrontOfSnoc(trace, act);
  }

  lemma OneRungUp(trace: seq<Act>, top: nat, r: Resource)
    requires top < |LADDER| && LADDER[top] == r
    requires Acquired(trace) == LADDER[..top] && Released(trace) == Unwound(LADDER, top, top)
    ensures Acquired(trace + [Acquire(r)]) == LADDER[..top + 1]
    ensures Released(trace + [Acquire(r)]) == Unwound(LADDER, top + 1, top + 1)
  {
    Snoc(trace, Acquire(r));
    assert LADDER[..top + 1] == LADDER[..top] + [r];
  }

  lemma ClimbOne(trace: seq<Act>, pc: Pc, pc': Pc, r: Resource)
    requires Bracketed(pc, trace) && !Unwinding(pc) && !Unwinding(pc')
    requires Rungs(pc') == Rungs(pc) + 1 <= |LADDER| && LADDER[Rungs(pc)] == r
    ensures Bracketed(pc', trace + [Acquire(r)])
  {
    var top: nat :| Climbed(pc, trace, top);
    OneRungUp(trace, top, r);
    assert Climbed(pc', trace + [Acquire(r)], top + 1);
  }

  lemma DescendOne(trace: seq<Act>, pc: Pc, pc': Pc, r: Resource)
    requires Bracketed(pc, trace) && Unwinding(pc) && Unwinding(pc')
    requires 0 < Rungs(pc) && Rungs(pc') == Rungs(pc) - 1 && LADDER[Rungs(pc) - 1] == r
    ensures Bracketed(pc', trace + [Release(r)])
  {
    var top :| Climbed(pc, trace, top);
    Snoc(trace, Release(r));
    UnwoundOneMore(LADDER, top, Rungs(pc));
    assert Climbed(pc', trace + [Release(r)], top);
  }

  lemma StayPut(trace: seq<Act>, pc: Pc, pc': Pc)
    requires Bracketed(pc, trace) && Rungs(pc') == Rungs(pc) && (Unwinding(pc) ==> Unwinding(pc'))
    ensures Bracketed(pc', trace)
  {
    var top :| Climbed(pc, trace, top);
    assert Climbed(pc', trace, top);
  }

  lemma StayAndEmit(trace: seq<Act>, pc: Pc, pc': Pc, act: Act)
    requires Bracketed(pc, trace) && Rungs(pc') == Rungs(pc) && (Unwinding(pc) ==> Unwinding(pc'))
    requires !act.Acquire? && !act.Release?
    ensures Bracketed(pc', trace + [act])
  {
    var top :| Climbed(pc, trace, top);
    Snoc(trace, act);
    assert Climbed(pc', trace + [act], top);
  }

  /** A move that climbs one rung, comes down one rung, or stays where it is. */
  predicate Legal(pc: Pc, pc': Pc, act: Option<Act>) {
    match act
    case Some(Acquire(r)) =>
      !Unwinding(pc) && !Unwinding(pc') && Rungs(pc') == Rungs(pc) + 1 <= |LADDER| && LADDER[Rungs(pc)] == r
    case Some(Release(r)) =>
      Unwinding(pc) && Unwinding(pc') && Rungs(pc) == Rungs(pc') + 1 && LADDER[Rungs(pc')] == r
    case _ => Rungs(pc') == Rungs(pc) && (Unwinding(pc) ==> Unwinding(pc'))
  }

  /** The code is a climb with gotos that land on the right rung. */
  lemma CodeIsLegal(pc: Pc, ok: bool)
    ensures Legal(pc, PcNext(pc, ok), ActOf(pc, ok))
  {
  }

  lemma MoveKeepsBrackets(trace: seq<Act>, pc: Pc, pc': Pc, act: Option<Act>)
    requires Bracketed(pc, trace) && Legal(pc, pc', act)
    ensures Bracketed(pc', Extended(trace, act))
  {
    match act
    case None => StayPut(trace, pc, pc');
    case Some(Acquire(r)) => ClimbOne(trace, pc, pc', r);
    case Some(Release(r)) => DescendOne(trace, pc, pc', r);
    case Some(a) => StayAndEmit(trace, pc, pc', a);
  }

  /** Only the agent's own steps move it or add to its trace. */
  lemma OnlyAgentMoves(s: State, a: Action)
    requires !a.AgentStep?
    ensures Step(s, a).pc == s.pc && Step(s, a).trace == s.trace
  {
  }

  lemma AgentMoves(s: State, ok: bool, accepted: nat) returns (outcome: bool)
    ensures var s' := Step(s, AgentStep(ok, accepted));
            s'.pc == PcNext(s.pc, outcome) && s'.trace == Extended(s.trace, ActOf(s.pc, outcome))
  {
    outcome := Outcome(s, ok, accepted);
  }

  lemma {:induction false} RunKeepsBrackets(actions: seq<Action>)
    ensures var s := Run(INITIAL, actions); Bracketed(s.pc, s.trace)
  {
    if actions == [] {
      assert Climbed(Created, [], 0);
    } else {
      RunKeepsBrackets(Front(actions));
      StepKeepsBrackets(Run(INITIAL, Front(actions)), Last(actions));
    }
  }

  lemma StepKeepsBrackets(s: State, a: Action)
    requires Bracketed(s.pc, s.trace)
    ensures Bracketed(Step(s, a).pc, Step(s, a).trace)
  {
    if a.AgentStep? {
      var outcome := AgentMoves(s, a.ok, a.accepted);
      CodeIsLegal(s.pc, outcome);
      MoveKeepsBrackets(s.trace, s.pc, PcNext(s.pc, outcome), ActOf(s.pc, outcome));
    } else {
      OnlyAgentMoves(s, a);
    }
  }

  lemma BracketedAtExit(trace: seq<Act>)
    requires Bracketed(Exited, trace)
    ensures Released(trace) == Reversed(Acquired(trace)) && Acquired(trace) <= LADDER
  {
    var top :| Climbed(Exited, trace, top);
    UnwoundIsReversed(LADDER, top);
  }

  /** A thread that has exited released exactly what it acquired, once each, in reverse order. */
  lemma ExitReleasesInReverse(actions: seq<Action>)
    requires Run(INITIAL, actions).pc.Exited?
    ensures var trace := Run(INITIAL, actions).trace;
            Released(trace) == Reversed(Acquired(trace)) && Acquired(trace) <= LADDER
  {
    RunKeepsBrackets(actions);
    BracketedAtExit(Run(INITIAL, actions).trace);
  }

  // ---------------------------------------------------------------------------------------
  // Publication
  // ---------------------------------------------------------------------------------------

  /** What the trace says at each point of the code. */
  ghost predicate InOrder(pc: Pc, trace: seq<Act>) {
    && (pc.Connecting? || (Rungs(pc) >= 4 && !Unwinding(pc)) ==> Flush in trace)
    && (Publish in trace ==> Flush in trace && (Unwinding(pc) || Rungs(pc) == 5))
  }

  ghost predicate Orderly(s: State) {
    && InOrder(s.pc, s.trace)
    && (s.published <==> Publish in s.trace)
    && (forall c :: c in s.clients && s.clients[c].SawContext? ==> s.published)
    && (forall c :: c in s.clients && s.clients[c].Holds? ==> s.clients[c].context)
    && false !in s.used
  }

  lemma MoveKeepsOrder(pc: Pc, trace: seq<Act>, ok: bool)
    requires InOrder(pc, trace)
    ensures InOrder(PcNext(pc, ok), Extended(trace, ActOf(pc, ok)))
    ensures Publish in Extended(trace, ActOf(pc, ok)) <==> Publish in trace || pc.Publishing?
  {
    var act := ActOf(pc, ok);
    assert forall x :: x in Extended(trace, act) <==> x in trace || act == Some(x);
  }

  lemma StepKeepsOrder(s: State, a: Action)
    requires Orderly(s)
    ensures Orderly(Step(s, a))
  {
    match a
    case AgentStep(ok, accepted) => MoveKeepsOrder(s.pc, s.trace, Outcome(s, ok, accepted));
    case _ =>
  }

  lemma {:induction false} RunIsOrderly(actions: seq<Action>)
    ensures Orderly(Run(INITIAL, actions))
  {
    if actions != [] {
      RunIsOrderly(Front(actions));
      StepKeepsOrder(Run(INITIAL, Front(actions)), Last(actions));
    }
  }

  /**
    Until the thread begins to unwind, a context seen through the backdoor is one that has been set
    up, started, flushed and connected, with the watchdog running, and nothing of it released.
  */
  lemma PublishedMeansReady(actions: seq<Action>)
    requires Run(INITIAL, actions).published && !Unwinding(Run(INITIAL, actions).pc)
    ensures var trace := Run(INITIAL, actions).trace;
            && Acquired(trace) == [Context, ProxyCache, Agent, Connection, Watchdog]
            && Released(trace) == [] && Flush in trace
  {
    RunIsOrderly(actions);
    RunKeepsBrackets(actions);
    var s := Run(INITIAL, actions);
    var top :| Climbed(s.pc, s.trace, top);
  }

  /** Everything up to the publication, in the order of the code. */
  const STARTUP: seq<Act> := [Acquire(Context), Acquire(ProxyCache), Acquire(Agent), Flush,
                              Acquire(Connection), Acquire(Watchdog), Publish]

  /** How much of it is done at each point of the way up and of the loop. */
  function Done(pc: Pc): nat {
    match pc
    case Created | Naming | SettingUp => 0
    case RegisteringPlatform | ShowingDisconnected | InitProxyCache => 1
    case RegisteringNotifications | Starting => 2
    case Flushing => 3
    case Connecting => 4
    case StartingWatchdog => 5
    case Publishing => 6
    case _ => 7
  }

  ghost predicate StartsUp(pc: Pc, trace: seq<Act>) {
    && (!Unwinding(pc) && Done(pc) < 7 ==> trace == STARTUP[..Done(pc)])
    && (!Unwinding(pc) && Done(pc) == 7 ==> STARTUP <= trace)
    && (Publish in trace ==> STARTUP <= trace)
  }

  lemma WayUp(pc: Pc, ok: bool)
    requires !Unwinding(pc) && Done(pc) < 7
    ensures var pc', act := PcNext(pc, ok), ActOf(pc, ok);
            if act.Some? then !Unwinding(pc') && act.value == STARTUP[Done(pc)] && Done(pc') == Done(pc) + 1
            else Unwinding(pc') || Done(pc') == Done(pc)
  {
  }

  lemma LaterOn(pc: Pc, ok: bool)
    requires Unwinding(pc) || Done(pc) == 7
    ensures ActOf(pc, ok) != Some(Publish)
    ensures Unwinding(PcNext(pc, ok)) || (!Unwinding(pc) && Done(PcNext(pc, ok)) == 7)
  {
  }

  lemma StartupGrows(k: nat)
    requires k < 7
    ensures STARTUP[..k] + [STARTUP[k]] == STARTUP[..k + 1]
    ensures Publish !in STARTUP[..k]
  {
  }

  lemma MoveStartsUp(pc: Pc, trace: seq<Act>, ok: bool)
    requires StartsUp(pc, trace)
    ensures StartsUp(PcNext(pc, ok), Extended(trace, ActOf(pc, ok)))
  {
    var act := ActOf(pc, ok);
    assert forall x :: x in Extended(trace, act) <==> x in trace || act == Some(x);
    if !Unwinding(pc) && Done(pc) < 7 {
      WayUp(pc, ok);
      StartupGrows(Done(pc));
      assert STARTUP[..7] == STARTUP;
    } else {
      LaterOn(pc, ok);
    }
  }

  lemma StepStartsUp(s: State, a: Action)
    requires StartsUp(s.pc, s.trace)
    ensures StartsUp(Step(s, a).pc, Step(s, a).trace)
  {
    if a.AgentStep? {
      var outcome := AgentMoves(s, a.ok, a.accepted);
      MoveStartsUp(s.pc, s.trace, outcome);
    } else {
      OnlyAgentMoves(s, a);
    }
  }

  lemma {:induction false} RunStartsUp(actions: seq<Action>)
    ensures var s := Run(INITIAL, actions); StartsUp(s.pc, s.trace)
  {
    if actions != [] {
      RunStartsUp(Front(actions));
      StepStartsUp(Run(INITIAL, Front(actions)), Last(actions));
    }
  }

  /** A context is published only by a thread whose first seven acts were these. */
  lemma PublishedAfterStartup(actions: seq<Action>)
    requires Run(INITIAL, actions).published
    ensures [Acquire(Context), Acquire(ProxyCache), Acquire(Agent), Flush,
             Acquire(Connection), Acquire(Watchdog), Publish] <= Run(INITIAL, actions).trace
  {
    RunIsOrderly(actions);
    RunStartsUp(actions);
  }

  /** However the threads interleave, EVP_undeployModules never hands on a NULL context. */
  lemma NoNullContextUsed(actions: seq<Action>)
    ensures false !in Run(INITIAL, actions).used
  {
    RunIsOrderly(actions);
  }

  /** A client saw the context published and past its initial status. */
  ghost predicate SawReady(actions: seq<Action>, c: nat) {
    exists j :: 0 <= j < |actions| && actions[j] == ReadStatus(c, false) && Run(INITIAL, actions[..j]).published
  }

  lemma StillSawReady(actions: seq<Action>, a: Action, c: nat)
    requires SawReady(actions, c)
    ensures SawReady(actions + [a], c)
  {
    var j :| 0 <= j < |actions| && actions[j] == ReadStatus(c, false) && Run(INITIAL, actions[..j]).published;
    var longer := actions + [a];
    assert longer[j] == actions[j] && longer[..j] == actions[..j];
  }

  predicate HasSeen(client: Client) { client.SawContext? || client.Holds? }

  lemma SeenStep(s: State, a: Action, c: nat)
    requires HasSeen(ClientAt(Step(s, a), c))
    ensures HasSeen(ClientAt(s, c)) || (s.published && a == ReadStatus(c, false))
  {
  }

  /** Over every run, a client past the status test once read a published context's status, and not INIT. */
  lemma {:induction false} SeenMeansReady(actions: seq<Action>, c: nat)
    requires HasSeen(ClientAt(Run(INITIAL, actions), c))
    ensures SawReady(actions, c)
  {
    var before, a := Front(actions), Last(actions);
    var s := Run(INITIAL, before);
    SeenStep(s, a, c);
    assert actions == before + [a];
    if HasSeen(ClientAt(s, c)) {
      SeenMeansReady(before, c);
      StillSawReady(before, a, c);
    } else {
      assert actions[|before|] == a && actions[..|before|] == before;
    }
  }

  /** A context is handed on exactly by a client past both reads, and it is never NULL. */
  lemma HandedOnExactly(actions: seq<Action>, c: nat)
    ensures var s := Run(INITIAL, actions);
            && Step(s, UseContext(c)).used == s.used + (if ClientAt(s, c).Holds? then [true] else [])
            && (ClientAt(s, c).Holds? ==> SawReady(actions, c))
  {
    RunIsOrderly(actions);
    if ClientAt(Run(INITIAL, actions), c).Holds? {
      SeenMeansReady(actions, c);
    }
  }

  /** EVP_undeployModules undisturbed: it acts exactly on a published context whose status is not INIT. */
  lemma UndeployExactly(actions: seq<Action>, c: nat, stillInit: bool)
    requires ClientAt(Run(INITIAL, actions), c).Idle?
    ensures var s := Run(INITIAL, actions);
            var s' := Step(Step(Step(s, ReadStatus(c, stillInit)), ReadAgain(c)), UseContext(c));
            && s'.used == s.used + (if Publish in s.trace && !stillInit then [true] else [])
            && ClientAt(s', c).Idle?
  {
    RunIsOrderly(actions);
  }

  // ---------------------------------------------------------------------------------------
  // Keepalive and shutdown
  // ---------------------------------------------------------------------------------------

  ghost predicate KeptAlive(trace: seq<Act>) {
    forall k :: 0 <= k < |trace| && trace[k].LoopBegin? ==> k > 0 && trace[k - 1].Keepalive?
  }

  ghost predicate AliveAt(pc: Pc, trace: seq<Act>) {
    KeptAlive(trace) && (pc.BeginningLoop? ==> trace != [] && Last(trace).Keepalive?)
  }

  lemma MoveKeepsAlive(pc: Pc, trace: seq<Act>, ok: bool)
    requires AliveAt(pc, trace)
    ensures AliveAt(PcNext(pc, ok), Extended(trace, ActOf(pc, ok)))
  {
  }

  /** Every evp_agent_loop call comes right after a keepalive of its own. */
  lemma {:induction false} LoopsAreKeptAlive(actions: seq<Action>)
    ensures var s := Run(INITIAL, actions); AliveAt(s.pc, s.trace)
  {
    if actions != [] {
      LoopsAreKeptAlive(Front(actions));
      StepKeepsAlive(Run(INITIAL, Front(actions)), Last(actions));
    }
  }

  lemma StepKeepsAlive(s: State, a: Action)
    requires AliveAt(s.pc, s.trace)
    ensures AliveAt(Step(s, a).pc, Step(s, a).trace)
  {
    if a.AgentStep? {
      var outcome := AgentMoves(s, a.ok, a.accepted);
      MoveKeepsAlive(s.pc, s.trace, outcome);
    } else {
      OnlyAgentMoves(s, a);
    }
  }

  function Loops(trace: seq<Act>): nat {
    if trace == [] then 0 else Loops(Front(trace)) + if Last(trace).LoopBegin? then 1 else 0
  }

  /** Loop calls that can still begin once the signal is up. */
  function LoopsLeft(pc: Pc): nat {
    if Unwinding(pc) || pc.InLoop? || pc.CheckingSignal? then 0 else 1
  }

  lemma MoveCountsLoops(pc: Pc, trace: seq<Act>, ok: bool)
    ensures Loops(Extended(trace, ActOf(pc, ok))) == Loops(trace) + if pc.BeginningLoop? then 1 else 0
  {
    var act := ActOf(pc, ok);
    assert act == Some(LoopBegin) <==> pc.BeginningLoop?;
    if act.Some? {
      FrontOfSnoc(trace, act.value);
    }
  }

  lemma MoveUsesUpLoops(pc: Pc, ok: bool)
    requires !(pc.CheckingSignal? && ok)
    ensures (if pc.BeginningLoop? then 1 else 0) + LoopsLeft(PcNext(pc, ok)) <= LoopsLeft(pc)
  {
  }

  lemma SignalledStep(s: State, a: Action)
    requires s.signalled
    ensures var s' := Step(s, a);
            s'.signalled && Loops(s'.trace) + LoopsLeft(s'.pc) <= Loops(s.trace) + LoopsLeft(s.pc)
  {
    if a.AgentStep? {
      var outcome := Outcome(s, a.ok, a.accepted);
      MoveCountsLoops(s.pc, s.trace, outcome);
      MoveUsesUpLoops(s.pc, outcome);
    }
  }

  lemma {:induction false} SignalledRun(s: State, actions: seq<Action>)
    requires s.signalled
    ensures var s' := Run(s, actions);
            s'.signalled && Loops(s'.trace) + LoopsLeft(s'.pc) <= Loops(s.trace) + LoopsLeft(s.pc)
  {
    if actions != [] {
      SignalledRun(s, Front(actions));
      SignalledStep(Run(s, Front(actions)), Last(actions));
    }
  }

  /** From any state, once shutdown is requested at most one more evp_agent_loop call begins. */
  lemma ShutdownBoundsLoops(s: State, actions: seq<Action>)
    ensures Loops(Run(Step(s, Shutdown), actions).trace) <= Loops(s.trace) + 1
    ensures s.pc.InLoop? || s.pc.CheckingSignal? ==> Loops(Run(Step(s, Shutdown), actions).trace) == Loops(s.trace)
  {
    SignalledRun(Step(s, Shutdown), actions);
    LoopsOnlyGrow(Step(s, Shutdown), actions);
  }

  lemma LoopsGrow(s: State, a: Action)
    ensures Loops(Step(s, a).trace) >= Loops(s.trace)
  {
    if a.AgentStep? {
      var outcome := AgentMoves(s, a.ok, a.accepted);
      MoveCountsLoops(s.pc, s.trace, outcome);
    } else {
      OnlyAgentMoves(s, a);
    }
  }

  lemma {:induction false} LoopsOnlyGrow(s: State, actions: seq<Action>)
    ensures Loops(Run(s, actions).trace) >= Loops(s.trace)
  {
    if actions != [] {
      LoopsOnlyGrow(s, Front(actions));
      LoopsGrow(Run(s, Front(actions)), Last(actions));
    }
  }

  /** A failed call is noted until the thread leaves its loop, which it then does. */
  ghost predicate Leaving(s: State) {
    (s.loopFailed && s.pc.CheckingSignal?) || Unwinding(s.pc)
  }

  lemma UnwindingGoesOn(pc: Pc, ok: bool)
    requires Unwinding(pc) || (pc.CheckingSignal? && !ok)
    ensures Unwinding(PcNext(pc, ok)) && !pc.BeginningLoop?
  {
  }

  lemma LeavingStep(s: State, a: Action)
    requires Leaving(s)
    ensures Leaving(Step(s, a)) && Loops(Step(s, a).trace) == Loops(s.trace)
  {
    if a.AgentStep? {
      var outcome := Outcome(s, a.ok, a.accepted);
      UnwindingGoesOn(s.pc, outcome);
      MoveCountsLoops(s.pc, s.trace, outcome);
      assert Step(s, a).pc == PcNext(s.pc, outcome) && Step(s, a).trace == Extended(s.trace, ActOf(s.pc, outcome));
    } else {
      OnlyAgentMoves(s, a);
      assert Step(s, a).loopFailed == s.loopFailed;
    }
  }

  lemma {:induction false} LeavingRun(s: State, actions: seq<Action>)
    requires Leaving(s)
    ensures Leaving(Run(s, actions)) && Loops(Run(s, actions).trace) == Loops(s.trace)
  {
    if actions != [] {
      LeavingRun(s, Front(actions));
      LeavingStep(Run(s, Front(actions)), Last(actions));
    }
  }

  /** When an evp_agent_loop call fails, no other begins, whatever happens. */
  lemma FailedLoopIsLast(s: State, accepted: nat, actions: seq<Action>)
    requires s.pc.InLoop?
    ensures Loops(Run(Step(s, AgentStep(false, accepted)), actions).trace) == Loops(s.trace)
  {
    MoveCountsLoops(s.pc, s.trace, false);
    LeavingRun(Step(s, AgentStep(false, accepted)), actions);
  }

  /** When it succeeds and no shutdown is requested, the next one begins three steps later. */
  lemma SuccessfulLoopGoesOn(s: State, ok: bool, accepted: nat)
    requires s.pc.InLoop? && !s.signalled
    ensures var a := AgentStep(ok, accepted);
            var s' := Step(Step(Step(Step(s, AgentStep(true, accepted)), a), a), a);
            s'.pc.InLoop? && s'.trace == s.trace + [Keepalive, LoopBegin]
  {
    var a := AgentStep(ok, accepted);
    var s1 := Step(s, AgentStep(true, accepted));
    var s2 := Step(s1, a);
    assert s2.pc.KeepingAlive? && s2.trace == s.trace;
    var s3 := Step(s2, a);
    assert s3.pc.BeginningLoop? && s3.trace == s.trace + [Keepalive];
  }

  // ---------------------------------------------------------------------------------------
  // Native symbols under interleaving
  // ---------------------------------------------------------------------------------------

  ghost predicate SymbolsAccounted(s: State) {
    && s.freed + s.queue == s.inserted
    && (NotYetFlushed(s.pc) ==> s.flushed.None?)
    && (s.flushed.None? ==> s.freed == [] && s.received == [])
    && (s.flushed.Some? ==> s.received == s.freed[..Min(|s.freed|, s.flushed.value + 1)])
  }

  predicate NotYetFlushed(pc: Pc) {
    pc.Created? || pc.Naming? || pc.SettingUp? || pc.RegisteringPlatform? || pc.ShowingDisconnected?
    || pc.InitProxyCache? || pc.RegisteringNotifications? || pc.Starting? || pc.Flushing?
  }

  lemma FlushKeepsSymbols(s: State, accepted: nat)
    requires SymbolsAccounted(s) && s.pc.Flushing?
    ensures SymbolsAccounted(Flushed(s, accepted).(pc := Connecting))
  {
  }

  lemma AgentKeepsSymbols(s: State, ok: bool, accepted: nat)
    requires SymbolsAccounted(s)
    ensures SymbolsAccounted(AgentNext(s, ok, accepted))
  {
    if s.pc.Flushing? {
      FlushKeepsSymbols(s, accepted);
    } else {
      assert NotYetFlushed(PcNext(s.pc, ok)) ==> NotYetFlushed(s.pc);
    }
  }

  lemma StepKeepsSymbols(s: State, a: Action)
    requires SymbolsAccounted(s)
    ensures SymbolsAccounted(Step(s, a))
  {
    if a.AgentStep? {
      AgentKeepsSymbols(s, a.ok, a.accepted);
    }
  }

  lemma {:induction false} RunKeepsSymbols(actions: seq<Action>)
    ensures SymbolsAccounted(Run(INITIAL, actions))
  {
    if actions != [] {
      RunKeepsSymbols(Front(actions));
      StepKeepsSymbols(Run(INITIAL, Front(actions)), Last(actions));
    }
  }

  /** The flush of the machine is the flush of the queue, for any answers with that first refusal. */
  lemma FlushHandsOver<T>(queue: seq<T>, answers: seq<bool>, accepted: nat)
    requires |answers| == |queue| && NativeSymbols.FirstRefusal(answers, accepted)
    ensures NativeSymbols.HandedOver(queue, answers, queue[..Min(|queue|, accepted + 1)], if accepted < |queue| then -1 else 0)
  {
  }

  /**
    Under any interleaving every inserted entry is freed once or still queued, in insertion order.
    Before the flush none is freed; after it the runtime was asked for the freed entries in order,
    up to and including the first refusal, and entries that came too late stay in the queue.
  */
  lemma SymbolsNeverLost(actions: seq<Action>, answers: seq<bool>)
    ensures var s := Run(INITIAL, actions);
            && s.freed + s.queue == s.inserted
            && (s.flushed.None? ==> s.freed == [] && s.received == [])
            && (s.flushed.Some? && |answers| == |s.freed| && NativeSymbols.FirstRefusal(answers, s.flushed.value) ==>
                  NativeSymbols.HandedOver(s.freed, answers, s.received, if s.flushed.value < |s.freed| then -1 else 0))
  {
    RunKeepsSymbols(actions);
    AccountedHandsOver(Run(INITIAL, actions), answers);
  }

  lemma AccountedHandsOver(s: State, answers: seq<bool>)
    requires SymbolsAccounted(s)
    ensures s.flushed.Some? && |answers| == |s.freed| && NativeSymbols.FirstRefusal(answers, s.flushed.value) ==>
              NativeSymbols.HandedOver(s.freed, answers, s.received, if s.flushed.value < |s.freed| then -1 else 0)
  {
    if s.flushed.Some? && |answers| == |s.freed| && NativeSymbols.FirstRefusal(answers, s.flushed.value) {
      FlushHandsOver(s.freed, answers, s.flushed.value);
    }
  }

  ghost predicate AgentHasStepped(actions: seq<Action>) {
    exists k :: 0 <= k < |actions| && actions[k].AgentStep?
  }

  lemma SteppedSnoc(actions: seq<Action>, a: Action)
    ensures AgentHasStepped(actions + [a]) <==> AgentHasStepped(actions) || a.AgentStep?
  {
    var longer := actions + [a];
    assert longer[|actions|] == a;
    if k :| 0 <= k < |actions| && actions[k].AgentStep? {
      assert longer[k].AgentStep?;
    }
  }

  /** The flag is up from the thread's first step on, and not before. */
  lemma {:induction false} StartedExactly(actions: seq<Action>)
    ensures Run(INITIAL, actions).started <==> AgentHasStepped(actions)
  {
    if actions != [] {
      StartedExactly(Front(actions));
      StartedStep(Run(INITIAL, Front(actions)), Last(actions));
      SteppedSnoc(Front(actions), Last(actions));
      assert Front(actions) + [Last(actions)] == actions;
    }
  }

  lemma StartedStep(s: State, a: Action)
    ensures Step(s, a).started == (s.started || a.AgentStep?)
  {
  }

  /** A client asked for this entry before the agent thread took its first step. */
  ghost predicate AskedInTime(actions: seq<Action>, e: nat) {
    exists j, c :: 0 <= j < |actions| && actions[j] == CheckStarted(c, e)
                && forall i :: 0 <= i < j ==> !actions[i].AgentStep?
  }

  lemma StillInTime(actions: seq<Action>, a: Action, e: nat)
    requires AskedInTime(actions, e)
    ensures AskedInTime(actions + [a], e)
  {
    var j, c :| 0 <= j < |actions| && actions[j] == CheckStarted(c, e) && forall i :: 0 <= i < j ==> !actions[i].AgentStep?;
    var longer := actions + [a];
    assert longer[j] == CheckStarted(c, e) && forall i :: 0 <= i < j ==> longer[i] == actions[i];
  }

  lemma NowInTime(actions: seq<Action>, c: nat, e: nat)
    requires !Run(INITIAL, actions).started
    ensures AskedInTime(actions + [CheckStarted(c, e)], e)
  {
    StartedExactly(actions);
    var longer := actions + [CheckStarted(c, e)];
    assert longer[|actions|] == CheckStarted(c, e) && forall i :: 0 <= i < |actions| ==> longer[i] == actions[i];
  }

  /** One step adds to the queue or to the clients that may insert only what it says. */
  lemma EntriesStep(s: State, a: Action)
    ensures forall e :: e in Step(s, a).inserted ==> e in s.inserted || Pending(s, e)
    ensures forall e :: Pending(Step(s, a), e) ==>
              Pending(s, e) || (!s.started && a.CheckStarted? && a.entry == e)
  {
    forall e | Pending(Step(s, a), e)
      ensures Pending(s, e) || (!s.started && a.CheckStarted? && a.entry == e)
    {
      var c :| c in Step(s, a).clients && Step(s, a).clients[c] == MayInsert(e);
      assert (c in s.clients && s.clients[c] == MayInsert(e)) || (!s.started && a == CheckStarted(c, e));
    }
  }

  /**
    Over every run, whatever is inserted or may still be, was asked for before the agent thread's
    first step: nothing that comes later gets in.
  */
  lemma {:induction false} InsertedWereAskedInTime(actions: seq<Action>)
    ensures forall e :: e in Run(INITIAL, actions).inserted || Pending(Run(INITIAL, actions), e) ==> AskedInTime(actions, e)
  {
    if actions != [] {
      var before, a := Front(actions), Last(actions);
      var s := Run(INITIAL, before);
      InsertedWereAskedInTime(before);
      EntriesStep(s, a);
      assert actions == before + [a];
      forall e | e in Step(s, a).inserted || Pending(Step(s, a), e)
        ensures AskedInTime(actions, e)
      {
        if e in s.inserted || Pending(s, e) {
          StillInTime(before, a, e);
        } else {
          NowInTime(before, a.client, e);
        }
      }
    }
  }

  /** Entries that a client may still insert: it read `started` as false. */
  ghost predicate Pending(s: State, e: nat) {
    exists c :: c in s.clients && s.clients[c] == MayInsert(e)
  }

  /** After `started`, clients that may insert are ones that already might, with the same entry. */
  ghost predicate NoNewcomers(s: State, s': State) {
    && s'.started
    && (forall c :: c in s'.clients && s'.clients[c].MayInsert? ==> c in s.clients && s.clients[c] == s'.clients[c])
    && s.inserted <= s'.inserted
    && (forall k :: |s.inserted| <= k < |s'.inserted| ==> Pending(s, s'.inserted[k]))
  }

  lemma NoNewcomersStep(s: State, s': State, a: Action)
    requires NoNewcomers(s, s')
    ensures NoNewcomers(s, Step(s', a))
  {
  }

  /**
    From the moment `started` is true, whatever happens, every insertion belongs to a client that
    had read it as false before.
  */
  lemma {:induction false} LateRegistrationRefused(s: State, actions: seq<Action>)
    requires s.started
    ensures NoNewcomers(s, Run(s, actions))
  {
    if actions != [] {
      LateRegistrationRefused(s, Front(actions));
      NoNewcomersStep(s, Run(s, Front(actions)), Last(actions));
    }
  }
}
