/** The handlers compute exactly the bytes that the history calls for, on every run. */
module ElogTheorems {
  import opened Common
  import opened Masks
  import ElogTable
  import opened ElogStatus
  import opened ElogHistory
  import opened ElogBytes

  // ---------------------------------------------------------------------------------------
  // What one more item does to the memory of a stream
  // ---------------------------------------------------------------------------------------

  lemma BlobMemorySnoc(b: seq<BlobItem>, item: BlobItem)
    ensures BlobMemoryOf(b + [item]) == AfterBlob(BlobMemoryOf(b), item)
  {
    FrontOfSnoc(b, item);
    SslSnoc(b, item);
  }

  lemma OpenAny(m: seq<SyncItem>, item: SyncItem, p: SyncItem -> bool)
    requires item != SyncOk
    ensures Any(Open(m + [item]), p) == (Any(Open(m), p) || p(item))
  {
    OpenSnoc(m, item);
    AnySnoc(Open(m), item, p);
  }

  lemma OpenCount(m: seq<SyncItem>, item: SyncItem)
    requires item != SyncOk
    ensures Failures(Open(m + [item])) == Failures(Open(m)) + if item.SyncFail? then 1 else 0
    ensures Settled(m + [item]) == Settled(m)
  {
    OpenSnoc(m, item);
    FrontOfSnoc(Open(m), item);
  }

  lemma OpenInSnoc(m: seq<SyncItem>, item: SyncItem)
    requires item != SyncOk
    ensures var o, o' := OpenIn(m), OpenIn(m + [item]);
            && o'.count == Min(15, o.count + if item.SyncFail? then 1 else 0)
            && o'.recv == (o.recv || RecvFailed(item))
            && o'.send == (o.send || SendFailed(item))
            && o'.time == (o.time || BadClock(item))
            && o'.tcp == (o.tcp || TimedOut(item))
  {
    OpenCount(m, item);
    OpenAny(m, item, RecvFailed);
    OpenAny(m, item, SendFailed);
    OpenAny(m, item, BadClock);
    OpenAny(m, item, TimedOut);
  }

  /** During an outage a buffer bit goes out exactly at a first failure of its own kind. */
  lemma ReportedSnoc(m: seq<SyncItem>, item: SyncItem, p: SyncItem -> bool)
    requires item != SyncOk
    ensures Reported(m + [item], p)
         == (Reported(m, p) && !(Failures(Open(m)) == 0 && item.SyncFail? && p(item)))
  {
    OpenSnoc(m, item);
    FirstFailureSnoc(Open(m), item, p);
    if Failures(Open(m)) == 0 {
      QuietInterval(Open(m), p);
    }
  }

  lemma QuietInterval(m: seq<SyncItem>, p: SyncItem -> bool)
    requires Failures(m) == 0
    ensures !FirstFailureIs(m, p)
    ensures !Any(m, RecvFailed) && !Any(m, SendFailed)
  {
    forall k | 0 <= k < |m|
      ensures !m[k].SyncFail?
    {
      NoFailures(m, k);
    }
  }

  /** At an MQTT_OK a buffer bit stands for every failure of its kind so far. */
  lemma ReportedAtOk(m: seq<SyncItem>, p: SyncItem -> bool)
    requires !p(SyncOk)
    ensures Reported(m + [SyncOk], p) == Any(m, p) == (Reported(m, p) || Any(Open(m), p))
  {
    OpenSnoc(m, SyncOk);
    SettledAndOpen(m, p);
    FirstImpliesAny(Open(m), p);
  }

  lemma ShownSnoc(m: seq<SyncItem>, item: SyncItem)
    requires item != SyncOk
    ensures var d, d', first := ShownBy(m), ShownBy(m + [item]), Failures(Open(m)) == 0;
            && d'.count == (if item.SyncFail? then 0 else d.count)
            && d'.recv == (d.recv && !(first && RecvFailed(item)))
            && d'.send == (d.send && !(first && SendFailed(item)))
            && d'.time == d.time && d'.tcp == d.tcp
  {
    OpenCount(m, item);
    ReportedSnoc(m, item, RecvFailed);
    ReportedSnoc(m, item, SendFailed);
  }

  lemma SyncMemoryAtOk(m: seq<SyncItem>)
    ensures OpenIn(m + [SyncOk]) == OpenInterval(0, false, false, false, false)
    ensures var d, o := ShownBy(m), OpenIn(m);
            ShownBy(m + [SyncOk]) == Shown(o.count, d.recv || o.recv, d.send || o.send, o.time, o.tcp)
  {
    OpenSnoc(m, SyncOk);
    ReportedAtOk(m, RecvFailed);
    ReportedAtOk(m, SendFailed);
  }

  lemma Advanced(blob: BlobMemory, d: Shown, d': Shown, o: OpenInterval, o': OpenInterval, item: SyncItem)
    requires item != SyncOk
    requires && o'.count == Min(15, o.count + if item.SyncFail? then 1 else 0)
             && o'.recv == (o.recv || RecvFailed(item))
             && o'.send == (o.send || SendFailed(item))
             && o'.time == (o.time || BadClock(item))
             && o'.tcp == (o.tcp || TimedOut(item))
    requires && d'.count == (if item.SyncFail? then 0 else d.count)
             && d'.recv == (d.recv && !(o.count == 0 && RecvFailed(item)))
             && d'.send == (d.send && !(o.count == 0 && SendFailed(item)))
             && d'.time == d.time && d'.tcp == d.tcp
    requires o.count > 0 ==> d.count == 0
    requires o.count <= 15
    ensures Memory(blob, d', o') == AfterSync(Memory(blob, d, o), item)
  {
  }

  lemma SyncMemorySnoc(blob: BlobMemory, m: seq<SyncItem>, item: SyncItem)
    ensures Memory(blob, ShownBy(m + [item]), OpenIn(m + [item])) == AfterSync(Memory(blob, ShownBy(m), OpenIn(m)), item)
  {
    if item == SyncOk {
      SyncMemoryAtOk(m);
    } else {
      OpenInSnoc(m, item);
      ShownSnoc(m, item);
      Advanced(blob, ShownBy(m), ShownBy(m + [item]), OpenIn(m), OpenIn(m + [item]), item);
    }
  }

  // ---------------------------------------------------------------------------------------
  // Whole histories
  // ---------------------------------------------------------------------------------------

  lemma AdvanceByItem(mem: Memory, event: Event)
    ensures BlobItems(event) == [] || SyncItems(event) == []
    ensures |BlobItems(event)| <= 1 && |SyncItems(event)| <= 1
    ensures Advance(mem, event)
         == if BlobItems(event) != [] then mem.(blob := AfterBlob(mem.blob, BlobItems(event)[0]))
            else if SyncItems(event) != [] then AfterSync(mem, SyncItems(event)[0])
            else mem
  {
  }

  lemma StreamsAdvance(b: seq<BlobItem>, m: seq<SyncItem>, event: Event, mem: Memory)
    requires mem == Memory(BlobMemoryOf(b), ShownBy(m), OpenIn(m))
    ensures var b', m' := b + BlobItems(event), m + SyncItems(event);
            Advance(mem, event) == Memory(BlobMemoryOf(b'), ShownBy(m'), OpenIn(m'))
  {
    AdvanceByItem(mem, event);
    if BlobItems(event) != [] {
      assert m + SyncItems(event) == m;
      BlobMemorySnoc(b, BlobItems(event)[0]);
      assert BlobItems(event) == [BlobItems(event)[0]];
    } else {
      assert b + BlobItems(event) == b;
      if SyncItems(event) != [] {
        SyncMemorySnoc(mem.blob, m, SyncItems(event)[0]);
        assert SyncItems(event) == [SyncItems(event)[0]];
      } else {
        assert m + SyncItems(event) == m;
      }
    }
  }

  /** The running memory is the one read off the whole history. */
  lemma {:induction false} TrackIsMemory(history: seq<Event>)
    ensures Track(history) == MemoryOf(history)
  {
    if history != [] {
      var h := Front(history);
      TrackIsMemory(h);
      StreamsAdvance(BlobStream(h), SyncStream(h), Last(history), MemoryOf(h));
    }
  }

  /** After every history, bytes, counter and flags are those its two streams call for. */
  lemma HistoryExplainsRun(start: Status, history: seq<Event>)
    requires Fresh(start)
    ensures Encodes(Run(start, history), MemoryOf(history))
  {
    RunFollows(start, history);
    TrackIsMemory(history);
  }

  // ---------------------------------------------------------------------------------------
  // Decoders written from the ELog code specification
  // ---------------------------------------------------------------------------------------

  datatype MqttReport = MqttReport(reconnections: nat, recvTooSmall: bool, sendFull: bool, timeInvalid: bool, timeModified: bool)

  function DecodeMqtt(code: Byte): MqttReport {
    MqttReport(code / 16, Has(code, 8), Has(code, 4), Has(code, 2), Has(code, 1))
  }

  /** What bits 7-2 say; None stands for "Other". */
  datatype Outcome = BlobOk | FailedByHttp(status: Option<nat>) | FailedByOthers(error: Option<Errno>) | Undefined

  datatype BlobReport = BlobReport(outcome: Outcome, tcpCloseTimeout: bool, sslTimeout: bool)

  function DecodeHttp(number: nat): Outcome {
    match number
    case 1 => FailedByHttp(Some(200))
    case 2 => FailedByHttp(Some(400))
    case 3 => FailedByHttp(Some(401))
    case 4 => FailedByHttp(Some(403))
    case 5 => FailedByHttp(Some(404))
    case 6 => FailedByHttp(Some(500))
    case 7 => FailedByHttp(Some(502))
    case 8 => FailedByHttp(Some(503))
    case 9 => FailedByHttp(None)
    case _ => Undefined
  }

  function DecodeErrno(number: nat): Outcome {
    match number
    case 1 => FailedByOthers(Some(EPERM))
    case 2 => FailedByOthers(Some(EIO))
    case 3 => FailedByOthers(Some(E2BIG))
    case 4 => FailedByOthers(Some(ENOMEM))
    case 5 => FailedByOthers(Some(EINVAL))
    case 6 => FailedByOthers(Some(EPROTO))
    case 7 => FailedByOthers(Some(ELOOP))
    case 8 => FailedByOthers(Some(ECONNABORTED))
    case 9 => FailedByOthers(Some(EHOSTUNREACH))
    case 10 => FailedByOthers(Some(ENOTSUP))
    case 11 => FailedByOthers(None)
    case _ => Undefined
  }

  function DecodeOutcome(field: nat): Outcome {
    var number := field % 16;
    match field / 16
    case 1 => if number == 0 then BlobOk else Undefined
    case 2 => DecodeHttp(number)
    case 3 => DecodeErrno(number)
    case _ => Undefined
  }

  function DecodeBlob(code: Byte): BlobReport {
    BlobReport(DecodeOutcome(code / 4), Has(code, 2), Has(code, 1))
  }

  /** The outcome a reader should be told about. */
  function Told(cause: Cause): Outcome {
    match cause
    case Succeeded => BlobOk
    case HttpFailure(status) =>
      FailedByHttp(if status in {200, 400, 401, 403, 404, 500, 502, 503} then Some(status) else None)
    case OtherFailure(error) => FailedByOthers(if error.OtherErrno? then None else Some(error))
  }

  lemma OutcomeRoundTrip(cause: Cause)
    ensures DecodeOutcome(Field(cause)) == Told(cause)
  {
  }

  lemma MqttCount(d: Shown)
    requires d.count <= 15
    ensures MqttByte(d) / 16 == d.count
  {
  }

  lemma MqttRecv(d: Shown)
    requires d.count <= 15
    ensures Has(MqttByte(d), 8) == d.recv
  {
  }

  lemma MqttSend(d: Shown)
    requires d.count <= 15
    ensures Has(MqttByte(d), 4) == d.send
  {
  }

  lemma MqttTime(d: Shown)
    requires d.count <= 15
    ensures Has(MqttByte(d), 2) == d.time && !Has(MqttByte(d), 1)
  {
  }

  lemma MqttRoundTrip(d: Shown)
    requires d.count <= 15
    ensures DecodeMqtt(MqttByte(d)) == MqttReport(d.count, d.recv, d.send, d.time, false)
  {
    MqttCount(d);
    MqttRecv(d);
    MqttSend(d);
    MqttTime(d);
  }

  lemma BlobRoundTrip(blob: BlobMemory, tcp: bool)
    requires blob.field <= 59
    ensures DecodeBlob(BlobByte(blob, tcp)) == BlobReport(DecodeOutcome(blob.field), tcp, blob.ssl)
  {
    assert BlobByte(blob, tcp) / 4 == blob.field;
  }

  // ---------------------------------------------------------------------------------------
  // The theorems
  // ---------------------------------------------------------------------------------------

  function Code(s: Status, component: Byte): Byte { s.elog.Get(component) }

  /** The MQTT byte, decoded, for every history. */
  lemma MqttByteHistory(start: Status, history: seq<Event>)
    requires Fresh(start)
    ensures var m, r := SyncStream(history), DecodeMqtt(Code(Run(start, history), MQTT_STATUS));
            && r.reconnections == (if Failures(Open(m)) == 0 then Min(15, Failures(Closed(m))) else 0)
            && r.recvTooSmall == (Any(Settled(m), RecvFailed) && !FirstFailureIs(Open(m), RecvFailed))
            && r.sendFull == (Any(Settled(m), SendFailed) && !FirstFailureIs(Open(m), SendFailed))
            && r.timeInvalid == Any(Closed(m), BadClock)
            && !r.timeModified
  {
    HistoryExplainsRun(start, history);
    MqttRoundTrip(MemoryOf(history).shown);
  }

  /** Just after an MQTT_OK the buffer bits tell of every such failure in the whole run. */
  lemma BufferBitsAfterOk(start: Status, history: seq<Event>, reason: string, clock: Clock)
    requires Fresh(start) && IsOk(reason)
    ensures var r := DecodeMqtt(Code(Run(start, history + [MqttSync(reason, clock)]), MQTT_STATUS));
            && r.recvTooSmall == Any(SyncStream(history), RecvFailed)
            && r.sendFull == Any(SyncStream(history), SendFailed)
            && r.reconnections == Min(15, Failures(Open(SyncStream(history))))
  {
    var event := MqttSync(reason, clock);
    FrontOfSnoc(history, event);
    MqttByteHistory(start, history + [event]);
    var m := SyncStream(history);
    OpenSnoc(m, SyncOk);
  }

  /** The blob/network byte, decoded, for every history. */
  lemma BlobByteHistory(start: Status, history: seq<Event>)
    requires Fresh(start)
    ensures DecodeBlob(Code(Run(start, history), BLOB_NETWORK_STATUS))
         == BlobReport(Told(LastCause(BlobStream(history))),
                       Any(Closed(SyncStream(history)), TimedOut),
                       SslSinceSuccess(BlobStream(history)))
  {
    HistoryExplainsRun(start, history);
    var mem := MemoryOf(history);
    BlobRoundTrip(mem.blob, mem.shown.tcp);
    OutcomeRoundTrip(LastCause(BlobStream(history)));
  }

  /** No reachable code is the error sentinel, so every failure since the last MQTT_OK is counted. */
  lemma SentinelNeverReached(start: Status, history: seq<Event>)
    requires Fresh(start)
    ensures Code(Run(start, history), BLOB_NETWORK_STATUS) != ElogTable.ELOG_ERR
    ensures Code(Run(start, history), MQTT_STATUS) != ElogTable.ELOG_ERR
    ensures Run(start, history).reconnectCnt == Min(15, Failures(Open(SyncStream(history))))
  {
    HistoryExplainsRun(start, history);
    Readable(MemoryOf(history));
  }

  /** Whatever the event, a step writes the MQTT code at most once and then the blob code at most once. */
  lemma StepWrites(s: Status, event: Event) returns (mqtt: Byte, blob: Byte)
    ensures Step(s, event).elog == s.elog.Set(MQTT_STATUS, mqtt).Set(BLOB_NETWORK_STATUS, blob)
  {
    mqtt, blob := Code(s, MQTT_STATUS), Code(s, BLOB_NETWORK_STATUS);
    match event
    case MqttSync(reason, clock) =>
      if mqtt == ElogTable.ELOG_ERR {
      } else if !IsOk(reason) {
        if s.reconnectCnt == 0 {
          mqtt := OutageMqttCode(mqtt, s.recvBufferTooSmall || IsRecvTooSmall(reason), s.sendBufferIsFull || IsSendFull(reason));
        }
      } else if blob != ElogTable.ELOG_ERR {
        mqtt := RecoveredMqttCode(mqtt, s.reconnectCnt, s.recvBufferTooSmall, s.sendBufferIsFull, s.invalidTime);
        blob := RecoveredBlobCode(blob, s.tcpTimerTimeout);
      }
    case BlobEvent(Some(n)) =>
      if n.result.ResultSuccess? {
        blob := Replace(ResultBits(n), ClearBit(blob, 1));
      } else if blob != ElogTable.ELOG_ERR {
        blob := Replace(ResultBits(n), blob);
      }
    case NetworkError(reason) =>
      if blob != ElogTable.ELOG_ERR {
        blob := RaiseIf(blob, IsSslTimeout(reason), 1);
      }
    case _ =>
  }

  /** Same components, same slots, and the same code for all but the two status components. */
  ghost predicate SameOthers(e: Elog, e': Elog) {
    && e'.codes.Keys == e.codes.Keys && e'.used == e.used
    && forall c :: c in e.codes && c != BLOB_NETWORK_STATUS && c != MQTT_STATUS ==> e'.codes[c] == e.codes[c]
  }

  lemma SetsKeepOthers(e: Elog, mqtt: Byte, blob: Byte)
    ensures SameOthers(e, e.Set(MQTT_STATUS, mqtt).Set(BLOB_NETWORK_STATUS, blob))
  {
  }

  /** The other components of the table keep their codes, and none comes or goes. */
  lemma {:induction false} OtherComponentsKept(s: Status, history: seq<Event>)
    ensures SameOthers(s.elog, Run(s, history).elog)
  {
    if history != [] {
      var before := Run(s, Front(history));
      OtherComponentsKept(s, Front(history));
      var mqtt, blob := StepWrites(before, Last(history));
      SetsKeepOthers(before.elog, mqtt, blob);
    }
  }

  lemma MemoryDeterminesState(e: Elog, r1: Status, r2: Status, mem: Memory)
    requires Encodes(r1, mem) && Encodes(r2, mem)
    requires SameOthers(e, r1.elog) && SameOthers(e, r2.elog)
    ensures r1 == r2.(elog := r2.elog.(emitted := r1.elog.emitted))
  {
    assert r1.elog.codes == r2.elog.codes;
  }

  /**
    However the blob/network notifications and the MQTT/timer events are interleaved, the run
    ends with the same codes in the whole table, the same counter and the same flags.
  */
  lemma InterleavingIndependent(start: Status, h1: seq<Event>, h2: seq<Event>)
    requires Fresh(start)
    requires BlobStream(h1) == BlobStream(h2) && SyncStream(h1) == SyncStream(h2)
    ensures var r1, r2 := Run(start, h1), Run(start, h2);
            r1 == r2.(elog := r2.elog.(emitted := r1.elog.emitted))
  {
    HistoryExplainsRun(start, h1);
    HistoryExplainsRun(start, h2);
    OtherComponentsKept(start, h1);
    OtherComponentsKept(start, h2);
    MemoryDeterminesState(start.elog, Run(start, h1), Run(start, h2), MemoryOf(h1));
  }

  // ---------------------------------------------------------------------------------------
  // What the logger sees of a run
  // ---------------------------------------------------------------------------------------

  /** A component's code at the start and after each event. */
  function Trajectory(s: Status, history: seq<Event>, component: Byte): (t: seq<Byte>)
    ensures t != []
  {
    if history == [] then [Code(s, component)]
    else Trajectory(s, Front(history), component) + [Code(Run(s, history), component)]
  }

  /** The logger hears of a component exactly when the step changed its code, and once. */
  lemma StepEmits(s: Status, event: Event, component: Byte)
    requires component in s.elog.codes
    ensures Emits(s.elog, Step(s, event).elog, component)
  {
    var mqtt, blob := StepWrites(s, event);
    TwoSetsEmit(s.elog, mqtt, blob, component);
  }

  ghost predicate Emits(e: Elog, e': Elog, component: Byte) {
    && component in e'.codes
    && ElogTable.EmittedFor(e'.emitted, component)
       == ElogTable.EmittedFor(e.emitted, component)
          + if e'.Get(component) == e.Get(component) then [] else [e'.Get(component)]
  }

  lemma SetEmits(e: Elog, c: Byte, v: Byte, component: Byte)
    requires component in e.codes
    ensures Emits(e, e.Set(c, v), component)
    ensures c != component ==> e.Set(c, v).Get(component) == e.Get(component)
  {
    ElogTable.EmittedAfterSet(e, c, v, component);
  }

  lemma EmitsCompose(e: Elog, e': Elog, e'': Elog, component: Byte)
    requires Emits(e, e', component) && Emits(e', e'', component)
    requires e'.Get(component) == e.Get(component) || e''.Get(component) == e'.Get(component)
    ensures Emits(e, e'', component)
  {
  }

  lemma TwoSetsEmit(e: Elog, mqtt: Byte, blob: Byte, component: Byte)
    requires component in e.codes
    ensures Emits(e, e.Set(MQTT_STATUS, mqtt).Set(BLOB_NETWORK_STATUS, blob), component)
  {
    var e' := e.Set(MQTT_STATUS, mqtt);
    SetEmits(e, MQTT_STATUS, mqtt, component);
    SetEmits(e', BLOB_NETWORK_STATUS, blob, component);
    EmitsCompose(e, e', e'.Set(BLOB_NETWORK_STATUS, blob), component);
  }

  lemma EmissionSnoc(base: seq<Byte>, emitted: seq<Byte>, emitted': seq<Byte>, t: seq<Byte>, code: Byte)
    requires t != [] && emitted == base + ElogTable.Changes(t)
    requires emitted' == emitted + if code == Last(t) then [] else [code]
    ensures emitted' == base + ElogTable.Changes(t + [code])
  {
    ElogTable.ChangesSnoc(t, code);
  }

  /** The codes the logger receives for a component are its trajectory with repeats removed. */
  lemma {:induction false} RunEmissions(s: Status, history: seq<Event>, component: Byte)
    requires component in s.elog.codes
    ensures component in Run(s, history).elog.codes
    ensures ElogTable.EmittedFor(Run(s, history).elog.emitted, component)
         == ElogTable.EmittedFor(s.elog.emitted, component) + ElogTable.Changes(Trajectory(s, history, component))
    ensures Last(Trajectory(s, history, component)) == Code(Run(s, history), component)
  {
    if history != [] {
      var h := Front(history);
      RunEmissions(s, h, component);
      var before, after := Run(s, h).elog, Run(s, history).elog;
      StepEmits(Run(s, h), Last(history), component);
      EmissionSnoc(ElogTable.EmittedFor(s.elog.emitted, component),
                   ElogTable.EmittedFor(before.emitted, component),
                   ElogTable.EmittedFor(after.emitted, component),
                   Trajectory(s, h, component), after.Get(component));
    }
  }
}
