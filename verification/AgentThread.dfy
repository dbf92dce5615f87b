/**
  evp_agent_thread of evp-agent.c as sequential code: a ladder of acquisitions whose failures jump
  to the matching rung of the way down.  Its trace is one the interleaved machine allows.
*/
module AgentThread {
  import opened Common
  import opened AgentThreads

  /** What the calls on the way up return, 0 for success, and whether the watchdog starts. */
  datatype Outcomes = Outcomes(
    named: int, platform: int, led: int, proxyCache: int, notifications: int,
    start: int, flush: int, connect: int, watchdog: bool)

  /** One turn of the main loop: the result of evp_agent_loop, and the flag read after it. */
  datatype Turn = Turn(ret: int, signalled: bool)

  predicate Ends(t: Turn) { t.ret != 0 || t.signalled }

  /** The main loop makes exactly these turns. */
  predicate Complete(turns: seq<Turn>) {
    turns != [] && Ends(Last(turns)) && forall k :: 0 <= k < |turns| - 1 ==> !Ends(turns[k])
  }

  // ---------------------------------------------------------------------------------------
  // The thread on its own, in the terms of the interleaved machine
  // ---------------------------------------------------------------------------------------

  datatype Thread = Thread(pc: Pc, trace: seq<Act>)

  function Go(t: Thread, ok: bool): Thread {
    Thread(PcNext(t.pc, ok), Extended(t.trace, ActOf(t.pc, ok)))
  }

  function Reach(run: seq<bool>): Thread {
    if run == [] then Thread(Created, []) else Go(Reach(Front(run)), Last(run))
  }

  // The machine can follow the thread on its own: one symbol is queued before it starts, so that
  // the flush can go either way, and shutdown is requested just before the loop is to end.

  ghost predicate Follows(s: State, t: Thread) {
    && s.pc == t.pc && s.trace == t.trace
    && (NotYetFlushed(s.pc) ==> |s.queue| == 1)
    && !s.loopFailed
    && (!Unwinding(s.pc) ==> !s.signalled)
  }

  lemma FollowsStep(s: State, t: Thread, ok: bool)
    requires Follows(s, t) && !(t.pc.CheckingSignal? && !ok)
    ensures Follows(Step(s, AgentStep(ok || t.pc.InLoop?, if ok then 1 else 0)), Go(t, ok))
  {
  }

  lemma FollowsSignal(s: State, t: Thread)
    requires Follows(s, t) && t.pc.CheckingSignal?
    ensures Follows(Step(Step(s, Shutdown), AgentStep(true, 0)), Go(t, false))
  {
  }

  lemma FollowsStart(actions: seq<Action>)
    requires actions == [CheckStarted(0, 0)] + [InsertSymbol(0)]
    ensures Follows(Run(INITIAL, actions), Thread(Created, []))
  {
    RunSnoc(INITIAL, [], CheckStarted(0, 0));
    RunSnoc(INITIAL, [CheckStarted(0, 0)], InsertSymbol(0));
    assert [] + [CheckStarted(0, 0)] == [CheckStarted(0, 0)];
  }

  lemma {:induction false} FollowRun(run: seq<bool>) returns (actions: seq<Action>)
    ensures Follows(Run(INITIAL, actions), Reach(run))
  {
    if run == [] {
      actions := [CheckStarted(0, 0)] + [InsertSymbol(0)];
      FollowsStart(actions);
    } else {
      var before := FollowRun(Front(run));
      var s, t, ok := Run(INITIAL, before), Reach(Front(run)), Last(run);
      if t.pc.CheckingSignal? && !ok {
        FollowsSignal(s, t);
        RunSnoc(INITIAL, before, Shutdown);
        RunSnoc(INITIAL, before + [Shutdown], AgentStep(true, 0));
        actions := before + [Shutdown] + [AgentStep(true, 0)];
      } else {
        var a := AgentStep(ok || t.pc.InLoop?, if ok then 1 else 0);
        FollowsStep(s, t, ok);
        RunSnoc(INITIAL, before, a);
        actions := before + [a];
      }
    }
  }

  /** Whatever the thread does on its own, some interleaving of the machine does the same. */
  lemma ReachIsAllowed(run: seq<bool>) returns (actions: seq<Action>)
    ensures Run(INITIAL, actions).pc == Reach(run).pc && Run(INITIAL, actions).trace == Reach(run).trace
  {
    actions := FollowRun(run);
  }

  lemma OneMore(run: seq<bool>, ok: bool)
    ensures Reach(run + [ok]) == Go(Reach(run), ok)
  {
    FrontOfSnoc(run, ok);
  }

  lemma Counted(trace: seq<Act>, act: Act)
    ensures Acquired(trace + [act]) == Acquired(trace) + if act.Acquire? then [act.r] else []
    ensures Loops(trace + [act]) == Loops(trace) + if act.LoopBegin? then 1 else 0
  {
    FrontOfSnoc(trace, act);
  }

  /** How far up the ladder these outcomes take the thread. */
  function Top(o: Outcomes): nat {
    if o.named != 0 then 0
    else if o.platform != 0 || o.led != 0 || o.proxyCache != 0 then 1
    else if o.notifications != 0 || o.start != 0 then 2
    else if o.flush != 0 || o.connect != 0 then 3
    else if !o.watchdog then 4
    else 5
  }

  /** What g_evp_agent.ret is left at. */
  function ExitValue(o: Outcomes, turns: seq<Turn>): int
    requires turns != []
  {
    if o.named != 0 then o.named
    else if o.platform != 0 then o.platform
    else if o.led != 0 then o.led
    else if o.proxyCache != 0 then o.proxyCache
    else if o.notifications != 0 then o.notifications
    else if o.start != 0 then o.start
    else if o.flush != 0 then o.flush
    else if o.connect != 0 then o.connect
    else if !o.watchdog then 0
    else Last(turns).ret
  }

  /** What the calls of the way up return, in the order they are made. */
  function Returned(o: Outcomes): seq<int> {
    [o.named, o.platform, o.led, o.proxyCache, o.notifications, o.start, o.flush, o.connect]
  }

  /** The first call to fail decides the exit value; if none does, the last loop call, if there was one. */
  lemma ExitIsFirstFailure(o: Outcomes, turns: seq<Turn>, k: nat)
    requires Complete(turns) && k <= 8 && forall j :: 0 <= j < k ==> Returned(o)[j] == 0
    ensures k < 8 && Returned(o)[k] != 0 ==> ExitValue(o, turns) == Returned(o)[k]
    ensures k == 8 ==> ExitValue(o, turns) == if o.watchdog then turns[|turns| - 1].ret else 0
  {
    var r := Returned(o);
    assert k > 0 ==> r[0] == o.named;
    assert k > 1 ==> r[1] == o.platform;
    assert k > 2 ==> r[2] == o.led;
    assert k > 3 ==> r[3] == o.proxyCache;
    assert k > 4 ==> r[4] == o.notifications;
    assert k > 5 ==> r[5] == o.start;
    assert k > 6 ==> r[6] == o.flush;
    assert k > 7 ==> r[7] == o.connect;
  }

  /**
    Zero is not the mark of a run that reached its loop: the thread also exits with it, without a
    single loop call, when everything but the watchdog succeeds.
  */
  lemma ZeroExitExactly(o: Outcomes, turns: seq<Turn>)
    requires Complete(turns)
    ensures ExitValue(o, turns) == 0
            <==> Top(o) == 4 || (Top(o) == 5 && Last(turns).ret == 0 && Last(turns).signalled)
  {
  }

  /** These rungs have been climbed, and the loop has been entered this often. */
  ghost predicate Tally(trace: seq<Act>, rungs: nat, loops: nat) {
    rungs <= |LADDER| && Acquired(trace) == LADDER[..rungs] && Loops(trace) == loops
  }

  lemma TallyClimb(trace: seq<Act>, rungs: nat, r: Resource)
    requires Tally(trace, rungs, 0) && rungs < |LADDER| && LADDER[rungs] == r
    ensures Tally(trace + [Acquire(r)], rungs + 1, 0)
  {
    Counted(trace, Acquire(r));
    assert LADDER[..rungs + 1] == LADDER[..rungs] + [r];
  }

  lemma TallyStay(trace: seq<Act>, rungs: nat, loops: nat, act: Act)
    requires Tally(trace, rungs, loops) && !act.Acquire? && !act.LoopBegin?
    ensures Tally(trace + [act], rungs, loops)
  {
    Counted(trace, act);
  }

  /** Exactly these rungs were climbed, and the loop made these turns if it was reached. */
  ghost predicate Ran(trace: seq<Act>, o: Outcomes, turns: seq<Turn>) {
    Tally(trace, Top(o), if Top(o) == 5 then |turns| else 0)
  }

  // ---------------------------------------------------------------------------------------
  // The code: the labels of the way down, lowest first, then the way up
  // ---------------------------------------------------------------------------------------

  method OutFreeEvpAgent(before: seq<Act>, ghost run: seq<bool>, ghost rungs: nat, ghost loops: nat)
    returns (trace: seq<Act>, ghost run': seq<bool>)
    requires Reach(run) == Thread(Freeing, before) && Tally(before, rungs, loops)
    ensures Reach(run') == Thread(Exited, trace)
    ensures Tally(trace, rungs, loops)
  {
    TallyStay(before, rungs, loops, Release(Context));
    trace := before + [Release(Context)];
    OneMore(run, true);
    run' := run + [true];
  }

  method OutDeinitProxyCache(before: seq<Act>, ghost run: seq<bool>, ghost rungs: nat, ghost loops: nat)
    returns (trace: seq<Act>, ghost run': seq<bool>)
    requires Reach(run) == Thread(DeinitProxyCache, before) && Tally(before, rungs, loops)
    ensures Reach(run') == Thread(Exited, trace)
    ensures Tally(trace, rungs, loops)
  {
    TallyStay(before, rungs, loops, Release(ProxyCache));
    OneMore(run, true);
    trace, run' := OutFreeEvpAgent(before + [Release(ProxyCache)], run + [true], rungs, loops);
  }

  method OutStopEvpAgent(before: seq<Act>, ghost run: seq<bool>, ghost rungs: nat, ghost loops: nat)
    returns (trace: seq<Act>, ghost run': seq<bool>)
    requires Reach(run) == Thread(Stopping, before) && Tally(before, rungs, loops)
    ensures Reach(run') == Thread(Exited, trace)
    ensures Tally(trace, rungs, loops)
  {
    TallyStay(before, rungs, loops, Release(Agent));
    OneMore(run, true);
    trace, run' := OutDeinitProxyCache(before + [Release(Agent)], run + [true], rungs, loops);
  }

  method OutDisconnectEvpAgent(before: seq<Act>, ghost run: seq<bool>, ghost rungs: nat, ghost loops: nat)
    returns (trace: seq<Act>, ghost run': seq<bool>)
    requires Reach(run) == Thread(Disconnecting, before) && Tally(before, rungs, loops)
    ensures Reach(run') == Thread(Exited, trace)
    ensures Tally(trace, rungs, loops)
  {
    TallyStay(before, rungs, loops, Release(Connection));
    OneMore(run, true);
    trace, run' := OutStopEvpAgent(before + [Release(Connection)], run + [true], rungs, loops);
  }

  /** Keepalive, loop call, and the two tests after it. */
  lemma OneTurn(run: seq<bool>, trace: seq<Act>, again: bool) returns (run': seq<bool>)
    requires Reach(run) == Thread(KeepingAlive, trace)
    ensures Reach(run') == Thread(if again then KeepingAlive else StoppingWatchdog, trace + [Keepalive] + [LoopBegin])
  {
    OneMore(run, true);
    run' := run + [true];
    OneMore(run', true);
    run' := run' + [true];
    assert Reach(run') == Thread(InLoop, trace + [Keepalive] + [LoopBegin]);
    OneMore(run', true);
    run' := run' + [true];
    OneMore(run', again);
    run' := run' + [again];
  }

  method MainLoop(before: seq<Act>, turns: seq<Turn>, ghost run: seq<bool>)
    returns (trace: seq<Act>, ret: int, ghost run': seq<bool>)
    requires Reach(run) == Thread(KeepingAlive, before) && Complete(turns) && Tally(before, 5, 0)
    ensures Reach(run') == Thread(StoppingWatchdog, trace)
    ensures Tally(trace, 5, |turns|) && ret == Last(turns).ret
  {
    trace, run' := before, run;
    ret := 0;
    var k := 0;
    while ret == 0
      invariant Reach(run') == Thread(if ret == 0 then KeepingAlive else StoppingWatchdog, trace)
      invariant ret == 0 ==> k < |turns| && (k == 0 || !Ends(turns[k - 1]))
      invariant ret != 0 ==> k == |turns| && ret == Last(turns).ret
      invariant Tally(trace, 5, k)
      decreases |turns| - k, ret == 0
    {
      run' := OneTurn(run', trace, !Ends(turns[k]));
      Counted(trace, Keepalive);
      Counted(trace + [Keepalive], LoopBegin);
      trace := trace + [Keepalive] + [LoopBegin];
      ret := turns[k].ret;
      k := k + 1;
      if turns[k - 1].signalled {
        break;
      }
    }
  }

  method ConnectAndRun(before: seq<Act>, o: Outcomes, turns: seq<Turn>, ghost run: seq<bool>)
    returns (trace: seq<Act>, ret: int, ghost run': seq<bool>)
    requires Reach(run) == Thread(Flushing, before) && Complete(turns)
    requires Tally(before, 3, 0) && Top(o) >= 3
    ensures Reach(run') == Thread(Exited, trace) && Ran(trace, o, turns) && ret == ExitValue(o, turns)
  {
    trace, run' := before, run;
    OneMore(run', o.flush == 0);
    run' := run' + [o.flush == 0];
    ret := o.flush;
    if ret != 0 {
      trace, run' := OutStopEvpAgent(trace, run', 3, 0);
      return;
    }
    TallyStay(trace, 3, 0, Flush);
    trace := trace + [Flush];
    OneMore(run', o.connect == 0);
    run' := run' + [o.connect == 0];
    ret := o.connect;
    if ret != 0 {
      trace, run' := OutStopEvpAgent(trace, run', 3, 0);
      return;
    }
    TallyClimb(trace, 3, Connection);
    trace := trace + [Acquire(Connection)];
    trace, ret, run' := WatchAndRun(trace, o, turns, run');
  }

  method WatchAndRun(before: seq<Act>, o: Outcomes, turns: seq<Turn>, ghost run: seq<bool>)
    returns (trace: seq<Act>, ret: int, ghost run': seq<bool>)
    requires Reach(run) == Thread(StartingWatchdog, before) && Complete(turns)
    requires Tally(before, 4, 0) && Top(o) >= 4
    ensures Reach(run') == Thread(Exited, trace) && Ran(trace, o, turns) && ret == ExitValue(o, turns)
  {
    trace, run' := before, run;
    ret := 0;
    OneMore(run', o.watchdog);
    run' := run' + [o.watchdog];
    if !o.watchdog {
      trace, run' := OutDisconnectEvpAgent(trace, run', 4, 0);
      return;
    }
    TallyClimb(trace, 4, Watchdog);
    trace := trace + [Acquire(Watchdog)];
    trace, ret, run' := PublishAndLoop(trace, o, turns, run');
  }

  method PublishAndLoop(before: seq<Act>, o: Outcomes, turns: seq<Turn>, ghost run: seq<bool>)
    returns (trace: seq<Act>, ret: int, ghost run': seq<bool>)
    requires Reach(run) == Thread(Publishing, before) && Complete(turns)
    requires Tally(before, 5, 0) && Top(o) == 5
    ensures Reach(run') == Thread(Exited, trace) && Ran(trace, o, turns) && ret == ExitValue(o, turns)
  {
    trace, run' := before, run;
    OneMore(run', true);
    run' := run' + [true];
    TallyStay(trace, 5, 0, Publish);
    trace := trace + [Publish];
    trace, ret, run' := MainLoop(trace, turns, run');
    OneMore(run', true);
    run' := run' + [true];
    TallyStay(trace, 5, |turns|, Release(Watchdog));
    trace := trace + [Release(Watchdog)];
    trace, run' := OutDisconnectEvpAgent(trace, run', 5, |turns|);
  }

  method EvpAgentThread(o: Outcomes, turns: seq<Turn>) returns (trace: seq<Act>, ret: int, ghost run: seq<bool>)
    requires Complete(turns)
    ensures Reach(run) == Thread(Exited, trace) && Ran(trace, o, turns)
    ensures Released(trace) == Reversed(LADDER[..Top(o)])
    ensures KeptAlive(trace)
    ensures ret == ExitValue(o, turns)
  {
    ret := o.named;
    run := ReachNamed(ret == 0);
    if ret != 0 {
      trace := [];
    } else {
      TallyClimb([], 0, Context);
      assert [] + [Acquire(Context)] == [Acquire(Context)];
      trace, ret, run := SetUpAndRun([Acquire(Context)], o, turns, run);
    }
    FinishedThread(run, trace);
  }

  lemma ReachNamed(named: bool) returns (run: seq<bool>)
    ensures Reach(run) == if named then Thread(RegisteringPlatform, [Acquire(Context)]) else Thread(Exited, [])
  {
    OneMore([], true);
    run := [] + [true];
    OneMore(run, named);
    run := run + [named];
    if named {
      OneMore(run, true);
      run := run + [true];
    }
  }

  lemma FinishedThread(run: seq<bool>, trace: seq<Act>)
    requires Reach(run) == Thread(Exited, trace)
    ensures Released(trace) == Reversed(Acquired(trace)) && KeptAlive(trace)
  {
    var actions := ReachIsAllowed(run);
    RunKeepsBrackets(actions);
    LoopsAreKeptAlive(actions);
    BracketedAtExit(trace);
  }

  method SetUpAndRun(before: seq<Act>, o: Outcomes, turns: seq<Turn>, ghost run: seq<bool>)
    returns (trace: seq<Act>, ret: int, ghost run': seq<bool>)
    requires Reach(run) == Thread(RegisteringPlatform, before) && Complete(turns)
    requires Tally(before, 1, 0) && Top(o) >= 1
    ensures Reach(run') == Thread(Exited, trace) && Ran(trace, o, turns) && ret == ExitValue(o, turns)
  {
    trace, run' := before, run;
    OneMore(run', o.platform == 0);
    run' := run' + [o.platform == 0];
    ret := o.platform;
    if ret != 0 {
      trace, run' := OutFreeEvpAgent(trace, run', 1, 0);
      return;
    }
    OneMore(run', o.led == 0);
    run' := run' + [o.led == 0];
    ret := o.led;
    if ret != 0 {
      trace, run' := OutFreeEvpAgent(trace, run', 1, 0);
      return;
    }
    OneMore(run', o.proxyCache == 0);
    run' := run' + [o.proxyCache == 0];
    ret := o.proxyCache;
    if ret != 0 {
      trace, run' := OutFreeEvpAgent(trace, run', 1, 0);
      return;
    }
    TallyClimb(trace, 1, ProxyCache);
    trace := trace + [Acquire(ProxyCache)];
    trace, ret, run' := StartAndRun(trace, o, turns, run');
  }

  method StartAndRun(before: seq<Act>, o: Outcomes, turns: seq<Turn>, ghost run: seq<bool>)
    returns (trace: seq<Act>, ret: int, ghost run': seq<bool>)
    requires Reach(run) == Thread(RegisteringNotifications, before) && Complete(turns)
    requires Tally(before, 2, 0) && Top(o) >= 2
    ensures Reach(run') == Thread(Exited, trace) && Ran(trace, o, turns) && ret == ExitValue(o, turns)
  {
    trace, run' := before, run;
    OneMore(run', o.notifications == 0);
    run' := run' + [o.notifications == 0];
    ret := o.notifications;
    if ret != 0 {
      trace, run' := OutDeinitProxyCache(trace, run', 2, 0);
      return;
    }
    OneMore(run', o.start == 0);
    run' := run' + [o.start == 0];
    ret := o.start;
    if ret != 0 {
      trace, run' := OutDeinitProxyCache(trace, run', 2, 0);
      return;
    }
    TallyClimb(trace, 2, Agent);
    trace := trace + [Acquire(Agent)];
    trace, ret, run' := ConnectAndRun(trace, o, turns, run');
  }
}
