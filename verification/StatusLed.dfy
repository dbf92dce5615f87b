/**
  The agent/status handler of notifications.c: four service-LED statuses, of which one should be
  enabled.  The LED manager may refuse any of the four updates; a refused update changes nothing.
*/
module StatusLed {
  import opened Common

  datatype LedStatus =
    | ConnectedWithTLS | ConnectedWithoutTLS
    | DisconnectedConnectingWithTLS | DisconnectedConnectingWithoutTLS
  {
    function Index(): nat {
      match this
      case ConnectedWithTLS => 0
      case ConnectedWithoutTLS => 1
      case DisconnectedConnectingWithTLS => 2
      case DisconnectedConnectingWithoutTLS => 3
    }
  }

  const INDEX_MAX := 4

  datatype LedStatusInfo = LedStatusInfo(status: LedStatus, enabled: bool)

  /**
    One notification with everything the handler asks about on the way: whether the device is in
    enrolment mode, whether TLS is in use, and how many LED updates the manager accepts in a row.
  */
  datatype Call = Call(args: Option<string>, enrollment: bool, tls: bool, accepted: nat) {
    /** The status to show, if the call gets as far as showing one. */
    function Chosen(): Option<LedStatus> {
      if args == Some("connected") then
        if enrollment then None else Some(if tls then ConnectedWithTLS else ConnectedWithoutTLS)
      else if args == Some("disconnected") then
        Some(if tls then DisconnectedConnectingWithTLS else DisconnectedConnectingWithoutTLS)
      else
        None
    }

    /** The updates that take effect: those of the first statuses, in order. */
    function Reached(): nat {
      if Chosen().None? then 0 else Min(accepted, INDEX_MAX)
    }

    /** The call shows its status and every update is accepted. */
    predicate Completes() {
      Reached() == INDEX_MAX
    }

    function Wants(i: nat): bool {
      Chosen().Some? && Chosen().value.Index() == i
    }

    function Returns(): int {
      if Chosen().None? then (if args == Some("connected") then 0 else -1)
      else if Completes() then 0 else -1
    }
  }

  // ---------------------------------------------------------------------------------------
  // Runs of notifications, and what each LED remembers of them
  // ---------------------------------------------------------------------------------------

  type Leds = s: seq<bool> | |s| == INDEX_MAX witness [false, false, false, false]

  function Handle(leds: Leds, call: Call): (r: Leds) {
    seq(INDEX_MAX, i requires 0 <= i < INDEX_MAX => if i < call.Reached() then call.Wants(i) else leds[i])
  }

  function Run(leds: Leds, calls: seq<Call>): Leds {
    if calls == [] then leds else Handle(Run(leds, Front(calls)), Last(calls))
  }

  /** Call `k` was the last of the run to update LED `i`. */
  predicate LastToReach(calls: seq<Call>, i: nat, k: nat) {
    && k < |calls| && calls[k].Reached() > i
    && forall j :: k < j < |calls| ==> calls[j].Reached() <= i
  }

  /** After any run, an LED shows what the last call that reached it wanted. */
  lemma {:induction false} LedShowsLastReached(leds: Leds, calls: seq<Call>, i: nat, k: nat)
    requires i < INDEX_MAX && LastToReach(calls, i, k)
    ensures Run(leds, calls)[i] == calls[k].Wants(i)
  {
    if k < |calls| - 1 {
      assert calls[|calls| - 1].Reached() <= i;
      assert LastToReach(Front(calls), i, k);
      LedShowsLastReached(leds, Front(calls), i, k);
    }
  }

  /**
    Once a call has completed, and as long as only calls that show nothing follow it, its status
    is the only one enabled, whatever earlier calls left half done.
  */
  lemma ExclusiveAfterCompletion(leds: Leds, calls: seq<Call>, k: nat)
    requires k < |calls| && calls[k].Completes()
    requires forall j :: k < j < |calls| ==> calls[j].Chosen().None?
    ensures forall i :: 0 <= i < INDEX_MAX ==> Run(leds, calls)[i] == (calls[k].Chosen().value.Index() == i)
  {
    forall i | 0 <= i < INDEX_MAX
      ensures Run(leds, calls)[i] == calls[k].Wants(i)
    {
      LedShowsLastReached(leds, calls, i, k);
    }
  }

  /** A call refused at update `k` leaves its own wishes before `k` and the old states from `k` on. */
  lemma RefusalLeavesPrefix(leds: Leds, call: Call)
    requires call.Chosen().Some? && call.accepted < INDEX_MAX
    ensures call.Returns() == -1
    ensures var r := Handle(leds, call);
            && r[call.accepted..] == leds[call.accepted..]
            && forall i :: 0 <= i < call.accepted ==> r[i] == (call.Chosen().value.Index() == i)
  {
  }

  /** Exactly one status is enabled. */
  ghost predicate Only(leds: Leds, s: LedStatus) {
    forall i :: 0 <= i < INDEX_MAX ==> leds[i] == (i == s.Index())
  }

  /** What a call makes of a single enabled status, by where the manager stops accepting. */
  lemma CallOnSingle(leds: Leds, s: LedStatus, call: Call)
    requires Only(leds, s) && call.Chosen().Some?
    ensures var r, new_, k := Handle(leds, call), call.Chosen().value, call.accepted;
            && (new_.Index() < k && s.Index() < k ==> Only(r, new_))
            && (k <= new_.Index() && k <= s.Index() ==> Only(r, s))
            && (new_.Index() < k <= s.Index() ==> r[new_.Index()] && r[s.Index()])
            && (s.Index() < k <= new_.Index() ==> forall i :: 0 <= i < INDEX_MAX ==> !r[i])
  {
    var r := Handle(leds, call);
    assert forall i :: 0 <= i < INDEX_MAX ==> r[i] == if i < call.accepted then call.Wants(i) else leds[i];
  }

  /**
    From one enabled status, a call ends with one enabled status if and only if the manager accepts
    the updates of both the old and the new one, or of neither.
  */
  lemma ExclusiveExactly(leds: Leds, s: LedStatus, call: Call)
    requires Only(leds, s) && call.Chosen().Some?
    ensures (exists t :: Only(Handle(leds, call), t))
            <==> (call.Chosen().value.Index() < call.accepted <==> s.Index() < call.accepted)
  {
    CallOnSingle(leds, s, call);
    var r, new_, k := Handle(leds, call), call.Chosen().value, call.accepted;
    if t :| Only(r, t) {
      assert r[t.Index()];
      assert r[new_.Index()] == (new_.Index() == t.Index()) && r[s.Index()] == (s.Index() == t.Index());
    }
  }

  lemma RefusalMayLeaveTwoEnabled()
    ensures Handle([false, false, true, false], Call(Some("connected"), false, true, 1)) == [true, false, true, false]
  {
  }

  lemma RefusalMayLeaveNoneEnabled()
    ensures Handle([true, false, false, false], Call(Some("disconnected"), false, true, 1)) == [false, false, false, false]
  {
  }

  // ---------------------------------------------------------------------------------------
  // The handler
  // ---------------------------------------------------------------------------------------

  /** The LED manager's side: which statuses of the service LED are enabled. */
  class LedManager {
    const enabled: array<bool>

    ghost predicate Valid() {
      enabled.Length == INDEX_MAX
    }

    constructor ()
      ensures Valid() && fresh(enabled) && enabled[..] == [false, false, false, false]
    {
      enabled := new bool[4](_ => false);
    }

    method SetStatus(info: LedStatusInfo, accept: bool) returns (success: bool)
      requires Valid()
      modifies enabled
      ensures success == accept
      ensures enabled[..] == if accept then old(enabled[..])[info.status.Index() := info.enabled] else old(enabled[..])
    {
      if accept {
        enabled[info.status.Index()] := info.enabled;
      }
      success := accept;
    }
  }

  function StatusAt(i: nat): (s: LedStatus)
    requires i < INDEX_MAX
    ensures s.Index() == i
  {
    match i
    case 0 => ConnectedWithTLS
    case 1 => ConnectedWithoutTLS
    case 2 => DisconnectedConnectingWithTLS
    case _ => DisconnectedConnectingWithoutTLS
  }

  /**
    What the notification should do, in its own words: "connected" and "disconnected" show one of
    two statuses each, by the use of TLS, as far as the manager accepts the updates; enrolment
    hides "connected"; anything else, or NULL, is refused.
  */
  ghost predicate Promised(before: Leds, call: Call, after: Leds, ret: int) {
    var connected, disconnected := call.args == Some("connected"), call.args == Some("disconnected");
    if disconnected || (connected && !call.enrollment) then
      && after[0] == (if call.accepted > 0 then connected && call.tls else before[0])
      && after[1] == (if call.accepted > 1 then connected && !call.tls else before[1])
      && after[2] == (if call.accepted > 2 then disconnected && call.tls else before[2])
      && after[3] == (if call.accepted > 3 then disconnected && !call.tls else before[3])
      && ret == (if call.accepted > 3 then 0 else -1)
    else
      after == before && ret == (if connected then 0 else -1)
  }

  /** The run model keeps the promise, and nothing else does. */
  lemma HandleIsPromised(leds: Leds, call: Call, after: Leds, ret: int)
    ensures Promised(leds, call, after, ret) <==> after == Handle(leds, call) && ret == call.Returns()
  {
    var r := Handle(leds, call);
    assert Promised(leds, call, r, call.Returns());
    if Promised(leds, call, after, ret) {
      assert forall i :: 0 <= i < INDEX_MAX ==> after[i] == r[i];
      assert after == r;
    }
  }

  method AgentStatusHandler(manager: LedManager, call: Call) returns (ret: int)
    requires manager.Valid()
    modifies manager.enabled
    ensures manager.enabled[..] == Handle(old(manager.enabled[..]), call)
    ensures ret == call.Returns()
    ensures Promised(old(manager.enabled[..]), call, manager.enabled[..], ret)
  {
    if call.args.None? {
      return -1;
    }
    var ledStatus := new LedStatusInfo[INDEX_MAX](i => LedStatusInfo(ConnectedWithTLS, false));
    for i := 0 to INDEX_MAX
      invariant forall j :: 0 <= j < i ==> ledStatus[j] == LedStatusInfo(StatusAt(j), false)
      modifies ledStatus
    {
      ledStatus[i] := LedStatusInfo(StatusAt(i), false);
    }
    var chosen: nat;
    if call.args.value == "connected" {
      if call.enrollment {
        return 0;
      }
      chosen := if call.tls then 0 else 1;
    } else if call.args.value == "disconnected" {
      chosen := if call.tls then 2 else 3;
    } else {
      return -1;
    }
    ledStatus[chosen] := ledStatus[chosen].(enabled := true);
    ret := UpdateAll(manager, ledStatus, chosen, call.accepted);
    HandleIs(old(manager.enabled[..]), call, manager.enabled[..]);
  }

  /** The four updates in order, up to the first refused one. */
  method UpdateAll(manager: LedManager, ledStatus: array<LedStatusInfo>, chosen: nat, accepted: nat) returns (ret: int)
    requires manager.Valid() && ledStatus.Length == INDEX_MAX && chosen < INDEX_MAX
    requires forall j :: 0 <= j < INDEX_MAX ==> ledStatus[j] == LedStatusInfo(StatusAt(j), j == chosen)
    modifies manager.enabled
    ensures forall j :: 0 <= j < INDEX_MAX ==>
              manager.enabled[..][j] == if j < accepted then j == chosen else old(manager.enabled[..])[j]
    ensures ret == if accepted < INDEX_MAX then -1 else 0
  {
    for i := 0 to INDEX_MAX
      invariant i <= accepted
      invariant forall j :: 0 <= j < INDEX_MAX ==>
                  manager.enabled[..][j] == if j < i then j == chosen else old(manager.enabled[..])[j]
      modifies manager.enabled
    {
      var success := manager.SetStatus(ledStatus[i], i < accepted);
      if !success {
        return -1;
      }
    }
    return 0;
  }

  lemma HandleIs(leds: Leds, call: Call, r: Leds)
    requires forall j :: 0 <= j < INDEX_MAX ==> r[j] == if j < call.Reached() then call.Wants(j) else leds[j]
    ensures r == Handle(leds, call)
  {
  }
}
