/**
  The two status bytes as functions of the whole event history.  Each field has its own memory:
  the last result, the time since the last success, the interval closed by the last MQTT_OK, or
  everything up to the last MQTT_OK.  Nothing here mentions the handlers' masks.
*/
module ElogHistory {
  import opened Common
  import ElogTable
  import opened ElogStatus

  // ---------------------------------------------------------------------------------------
  // The two streams a history is made of
  // ---------------------------------------------------------------------------------------

  datatype Cause = Succeeded | HttpFailure(status: nat) | OtherFailure(error: Errno)

  datatype BlobItem = Result(cause: Cause) | SslTimeout

  datatype SyncItem = SyncOk | SyncFail(recv: bool, send: bool, badClock: bool) | TcpRaised

  function CauseOf(n: BlobNotification): Cause {
    match n.result
    case ResultSuccess => Succeeded
    case ResultErrorHttp => HttpFailure(n.httpStatus)
    case _ => OtherFailure(n.error)
  }

  function BlobItems(event: Event): seq<BlobItem> {
    match event
    case BlobEvent(Some(n)) => [Result(CauseOf(n))]
    case NetworkError(reason) => if IsSslTimeout(reason) then [SslTimeout] else []
    case _ => []
  }

  function SyncItems(event: Event): seq<SyncItem> {
    match event
    case MqttSync(reason, clock) =>
      if IsOk(reason) then [SyncOk]
      else [SyncFail(IsRecvTooSmall(reason), IsSendFull(reason), clock.Invalid())]
    case TcpTimerTimeout => [TcpRaised]
    case _ => []
  }

  function BlobStream(history: seq<Event>): seq<BlobItem> {
    if history == [] then [] else BlobStream(Front(history)) + BlobItems(Last(history))
  }

  function SyncStream(history: seq<Event>): seq<SyncItem> {
    if history == [] then [] else SyncStream(Front(history)) + SyncItems(Last(history))
  }

  // ---------------------------------------------------------------------------------------
  // Memories
  // ---------------------------------------------------------------------------------------

  /** The interval still open: what came after the last MQTT_OK. */
  function Open(m: seq<SyncItem>): seq<SyncItem> {
    if m == [] || Last(m) == SyncOk then [] else Open(Front(m)) + [Last(m)]
  }

  /** Everything before the last MQTT_OK; nothing if there was none. */
  function Settled(m: seq<SyncItem>): seq<SyncItem> {
    if m == [] then []
    else if Last(m) == SyncOk then Front(m)
    else Settled(Front(m))
  }

  /** Settled part, the last MQTT_OK, open interval: together they are the stream. */
  lemma {:induction false} Intervals(m: seq<SyncItem>)
    ensures SyncOk !in Open(m)
    ensures if SyncOk in m then m == Settled(m) + [SyncOk] + Open(m) else Settled(m) == [] && Open(m) == m
  {
    if m != [] && Last(m) != SyncOk {
      Intervals(Front(m));
    }
  }

  /** The interval that the last MQTT_OK closed. */
  function Closed(m: seq<SyncItem>): seq<SyncItem> {
    Open(Settled(m))
  }

  function Failures(m: seq<SyncItem>): nat {
    if m == [] then 0 else Failures(Front(m)) + if Last(m).SyncFail? then 1 else 0
  }

  predicate RecvFailed(i: SyncItem) { i.SyncFail? && i.recv }
  predicate SendFailed(i: SyncItem) { i.SyncFail? && i.send }
  predicate BadClock(i: SyncItem) { i.SyncFail? && i.badClock }
  predicate TimedOut(i: SyncItem) { i.TcpRaised? }

  predicate Any(m: seq<SyncItem>, p: SyncItem -> bool) {
    exists k :: 0 <= k < |m| && p(m[k])
  }

  /** The first failure of an interval satisfies `p`. */
  predicate FirstFailureIs(m: seq<SyncItem>, p: SyncItem -> bool) {
    exists k :: 0 <= k < |m| && m[k].SyncFail? && Failures(m[..k]) == 0 && p(m[k])
  }

  function LastCause(b: seq<BlobItem>): Cause {
    if b == [] then Succeeded
    else if Last(b).Result? then Last(b).cause
    else LastCause(Front(b))
  }

  /** An ssl_timeout with no blob success after it. */
  predicate SslSinceSuccess(b: seq<BlobItem>) {
    exists k :: 0 <= k < |b| && b[k] == SslTimeout && Result(Succeeded) !in b[k..]
  }

  // ---------------------------------------------------------------------------------------
  // What a history calls for
  // ---------------------------------------------------------------------------------------

  /** Failures, as far as four bits can count them. */
  function Saturated(m: seq<SyncItem>): (n: nat)
    ensures n <= 15
  {
    Min(15, Failures(m))
  }

  /** The reconnect count on display: that of the closed interval, until the next outage begins. */
  function ReportedCount(m: seq<SyncItem>): (n: nat)
    ensures n <= 15
  {
    if Failures(Open(m)) == 0 then Saturated(Closed(m)) else 0
  }

  /**
    A buffer bit on display: raised by any failure of its kind before the last MQTT_OK, however
    old, and taken down only by an outage that begins with a failure of its kind.
  */
  predicate Reported(m: seq<SyncItem>, p: SyncItem -> bool) {
    Any(Settled(m), p) && !FirstFailureIs(Open(m), p)
  }

  /** Bits 7-2 for a result: its class in the top two, its number below. */
  function Field(cause: Cause): (f: nat)
    ensures f <= 59
  {
    match cause
    case Succeeded => 16
    case HttpFailure(status) => 32 + HttpField(status)
    case OtherFailure(error) => 48 + ErrnoField(error)
  }

  /** Everything the handlers have to remember about the past. */
  datatype Memory = Memory(blob: BlobMemory, shown: Shown, open: OpenInterval)

  datatype BlobMemory = BlobMemory(field: nat, ssl: bool)

  datatype Shown = Shown(count: nat, recv: bool, send: bool, time: bool, tcp: bool)

  datatype OpenInterval = OpenInterval(count: nat, recv: bool, send: bool, time: bool, tcp: bool)

  function BlobMemoryOf(b: seq<BlobItem>): BlobMemory {
    BlobMemory(Field(LastCause(b)), SslSinceSuccess(b))
  }

  function ShownBy(m: seq<SyncItem>): Shown {
    Shown(ReportedCount(m), Reported(m, RecvFailed), Reported(m, SendFailed),
          Any(Closed(m), BadClock), Any(Closed(m), TimedOut))
  }

  function OpenIn(m: seq<SyncItem>): OpenInterval {
    OpenInterval(Saturated(Open(m)), Any(Open(m), RecvFailed), Any(Open(m), SendFailed),
                 Any(Open(m), BadClock), Any(Open(m), TimedOut))
  }

  function MemoryOf(history: seq<Event>): Memory {
    Memory(BlobMemoryOf(BlobStream(history)), ShownBy(SyncStream(history)), OpenIn(SyncStream(history)))
  }

  // ---------------------------------------------------------------------------------------
  // One more item
  // ---------------------------------------------------------------------------------------

  lemma AnySnoc(m: seq<SyncItem>, i: SyncItem, p: SyncItem -> bool)
    ensures Any(m + [i], p) == (Any(m, p) || p(i))
  {
    var m' := m + [i];
    assert m'[|m|] == i;
    if Any(m, p) {
      var k :| 0 <= k < |m| && p(m[k]);
      assert p(m'[k]);
    }
  }

  lemma AnyConcat(a: seq<SyncItem>, b: seq<SyncItem>, p: SyncItem -> bool)
    ensures Any(a + b, p) == (Any(a, p) || Any(b, p))
  {
    var c := a + b;
    if Any(a, p) {
      var k :| 0 <= k < |a| && p(a[k]);
      assert p(c[k]);
    }
    if Any(b, p) {
      var k :| 0 <= k < |b| && p(b[k]);
      assert p(c[|a| + k]);
    }
  }

  lemma {:induction false} FailuresGrow(m: seq<SyncItem>, k: nat)
    requires k <= |m|
    ensures Failures(m[..k]) <= Failures(m)
    decreases |m| - k
  {
    if k == |m| {
      assert m[..k] == m;
    } else {
      assert Front(m[..k + 1]) == m[..k];
      FailuresGrow(m, k + 1);
    }
  }

  /** A failure at `k` is one more than there were before `k`. */
  lemma NoFailures(m: seq<SyncItem>, k: nat)
    requires k < |m|
    ensures m[k].SyncFail? ==> Failures(m[..k]) < Failures(m)
  {
    assert Front(m[..k + 1]) == m[..k];
    FailuresGrow(m, k + 1);
  }

  lemma FirstFailureSnoc(m: seq<SyncItem>, i: SyncItem, p: SyncItem -> bool)
    ensures FirstFailureIs(m + [i], p)
         == if Failures(m) == 0 then i.SyncFail? && p(i) else FirstFailureIs(m, p)
  {
    if FirstFailureIs(m + [i], p) {
      FirstFailureDrop(m, i, p);
    }
    if if Failures(m) == 0 then i.SyncFail? && p(i) else FirstFailureIs(m, p) {
      FirstFailureKeep(m, i, p);
    }
  }

  lemma FirstFailureDrop(m: seq<SyncItem>, i: SyncItem, p: SyncItem -> bool)
    requires FirstFailureIs(m + [i], p)
    ensures if Failures(m) == 0 then i.SyncFail? && p(i) else FirstFailureIs(m, p)
  {
    var m' := m + [i];
    var k :| 0 <= k < |m'| && m'[k].SyncFail? && Failures(m'[..k]) == 0 && p(m'[k]);
    if k < |m| {
      assert m'[..k] == m[..k];
      NoFailures(m, k);
    } else {
      assert m'[..k] == m;
    }
  }

  lemma FirstFailureKeep(m: seq<SyncItem>, i: SyncItem, p: SyncItem -> bool)
    requires if Failures(m) == 0 then i.SyncFail? && p(i) else FirstFailureIs(m, p)
    ensures FirstFailureIs(m + [i], p)
  {
    var m' := m + [i];
    if Failures(m) == 0 {
      assert m'[..|m|] == m && m'[|m|] == i;
    } else {
      var k :| 0 <= k < |m| && m[k].SyncFail? && Failures(m[..k]) == 0 && p(m[k]);
      assert m'[..k] == m[..k] && m'[k] == m[k];
    }
  }

  lemma SslSnoc(b: seq<BlobItem>, i: BlobItem)
    ensures SslSinceSuccess(b + [i]) == if i == SslTimeout then true else i != Result(Succeeded) && SslSinceSuccess(b)
  {
    var b' := b + [i];
    forall k | 0 <= k <= |b|
      ensures b'[k..] == b[k..] + [i]
    {
    }
    if i == SslTimeout {
      assert b'[|b|] == SslTimeout && Result(Succeeded) !in b'[|b|..];
    } else if i != Result(Succeeded) && SslSinceSuccess(b) {
      var k :| 0 <= k < |b| && b[k] == SslTimeout && Result(Succeeded) !in b[k..];
      assert b'[k] == SslTimeout && Result(Succeeded) !in b'[k..];
    } else if i == Result(Succeeded) {
      forall k | 0 <= k < |b'|
        ensures Result(Succeeded) in b'[k..]
      {
        assert b'[k..][|b| - k] == i;
      }
    }
  }

  lemma OpenSnoc(m: seq<SyncItem>, i: SyncItem)
    ensures i == SyncOk ==> Open(m + [i]) == [] && Settled(m + [i]) == m
    ensures i != SyncOk ==> Open(m + [i]) == Open(m) + [i] && Settled(m + [i]) == Settled(m)
  {
    FrontOfSnoc(m, i);
  }

  /** What has happened up to now is what had settled, plus what is still open. */
  lemma SettledAndOpen(m: seq<SyncItem>, p: SyncItem -> bool)
    requires !p(SyncOk)
    ensures Any(m, p) == (Any(Settled(m), p) || Any(Open(m), p))
  {
    Intervals(m);
    if SyncOk in m {
      AnyConcat(Settled(m) + [SyncOk], Open(m), p);
      AnySnoc(Settled(m), SyncOk, p);
    }
  }

  lemma FirstImpliesAny(m: seq<SyncItem>, p: SyncItem -> bool)
    ensures FirstFailureIs(m, p) ==> Any(m, p)
  {
  }
}
