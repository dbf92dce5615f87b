/**
  The byte layouts of the ELog code specification, and what the handlers' masks do to them.
*/
module ElogBytes {
  import opened Common
  import opened Masks
  import ElogTable
  import opened ElogStatus
  import opened ElogHistory

  function Bit(b: bool, mask: nat): nat { if b then mask else 0 }

  function MqttByte(shown: Shown): Byte
    requires shown.count <= 15
  {
    shown.count * 16 + Bit(shown.recv, 8) + Bit(shown.send, 4) + Bit(shown.time, 2)
  }

  function BlobByte(blob: BlobMemory, tcp: bool): Byte
    requires blob.field <= 59
  {
    blob.field * 4 + Bit(tcp, 2) + Bit(blob.ssl, 1)
  }

  /** The state is the one this memory calls for. */
  ghost predicate Encodes(s: Status, mem: Memory) {
    && mem.shown.count <= 15 && mem.open.count <= 15 && mem.blob.field <= 59
    && (mem.open.count == 0 ==> !mem.open.recv && !mem.open.send)
    && BLOB_NETWORK_STATUS in s.elog.codes && s.elog.codes[BLOB_NETWORK_STATUS] == BlobByte(mem.blob, mem.shown.tcp)
    && MQTT_STATUS in s.elog.codes && s.elog.codes[MQTT_STATUS] == MqttByte(mem.shown)
    && s.reconnectCnt == mem.open.count
    && s.recvBufferTooSmall == mem.open.recv
    && s.sendBufferIsFull == mem.open.send
    && s.invalidTime == mem.open.time
    && s.tcpTimerTimeout == mem.open.tcp
  }

  // ---------------------------------------------------------------------------------------
  // How the memory advances, and that the handlers follow it
  // ---------------------------------------------------------------------------------------

  function AfterBlob(mem: BlobMemory, item: BlobItem): BlobMemory {
    match item
    case Result(cause) => BlobMemory(Field(cause), mem.ssl && cause != Succeeded)
    case SslTimeout => mem.(ssl := true)
  }

  function AfterSync(mem: Memory, item: SyncItem): Memory {
    var o, d := mem.open, mem.shown;
    match item
    case SyncOk =>
      Memory(mem.blob, Shown(o.count, d.recv || o.recv, d.send || o.send, o.time, o.tcp),
             OpenInterval(0, false, false, false, false))
    case SyncFail(recv, send, badClock) =>
      Memory(mem.blob,
             if o.count > 0 then d else Shown(0, d.recv && !recv, d.send && !send, d.time, d.tcp),
             OpenInterval(Min(15, o.count + 1), o.recv || recv, o.send || send, o.time || badClock, o.tcp))
    case TcpRaised => mem.(open := o.(tcp := true))
  }

  function Advance(mem: Memory, event: Event): Memory {
    match event
    case BlobEvent(Some(n)) => mem.(blob := AfterBlob(mem.blob, Result(CauseOf(n))))
    case NetworkError(reason) =>
      if IsSslTimeout(reason) then mem.(blob := AfterBlob(mem.blob, SslTimeout)) else mem
    case MqttSync(reason, clock) =>
      AfterSync(mem, if IsOk(reason) then SyncOk
                     else SyncFail(IsRecvTooSmall(reason), IsSendFull(reason), clock.Invalid()))
    case TcpTimerTimeout => AfterSync(mem, TcpRaised)
    case BlobEvent(None) => mem
  }

  /** No code is ever the error sentinel, and the MQTT byte never has bit 0. */
  lemma Readable(mem: Memory)
    requires mem.shown.count <= 15 && mem.blob.field <= 59
    ensures BlobByte(mem.blob, mem.shown.tcp) != ElogTable.ELOG_ERR
    ensures MqttByte(mem.shown) != ElogTable.ELOG_ERR && !Has(MqttByte(mem.shown), 1)
  {
  }

  lemma ResultBlob(blob: BlobMemory, tcp: bool, n: BlobNotification)
    requires blob.field <= 59
    ensures Replace(ResultBits(n), DropIf(BlobByte(blob, tcp), n.result.ResultSuccess?, 1))
         == BlobByte(AfterBlob(blob, Result(CauseOf(n))), tcp)
  {
    assert ResultBits(n) == 4 * Field(CauseOf(n));
  }

  lemma SslBlob(blob: BlobMemory, tcp: bool, b: bool)
    requires blob.field <= 59
    ensures RaiseIf(BlobByte(blob, tcp), b, 1) == BlobByte(blob.(ssl := blob.ssl || b), tcp)
  {
  }

  lemma RecoveredBlob(blob: BlobMemory, tcp: bool, b: bool)
    requires blob.field <= 59
    ensures RecoveredBlobCode(BlobByte(blob, tcp), b) == BlobByte(blob, b)
  {
  }

  // Each mask changes its own field of the MQTT byte and no other.

  lemma Recount(d: Shown, n: nat)
    requires d.count <= 15 && n <= 15
    ensures MqttByte(d) % 16 + n % 16 * 16 == MqttByte(d.(count := n))
  {
  }

  lemma WithRecv(d: Shown, b: bool)
    requires d.count <= 15
    ensures RaiseIf(MqttByte(d), b, 8) == MqttByte(d.(recv := d.recv || b))
    ensures DropIf(MqttByte(d), b, 8) == MqttByte(d.(recv := d.recv && !b))
  {
  }

  lemma WithSend(d: Shown, b: bool)
    requires d.count <= 15
    ensures RaiseIf(MqttByte(d), b, 4) == MqttByte(d.(send := d.send || b))
    ensures DropIf(MqttByte(d), b, 4) == MqttByte(d.(send := d.send && !b))
  {
  }

  lemma WithTime(d: Shown, b: bool)
    requires d.count <= 15
    ensures FollowIf(MqttByte(d), b, 2) == MqttByte(d.(time := b))
  {
  }

  lemma RecoveredMqtt(d: Shown, o: OpenInterval)
    requires d.count <= 15 && o.count <= 15
    ensures RecoveredMqttCode(MqttByte(d), o.count, o.recv, o.send, o.time)
         == MqttByte(Shown(o.count, d.recv || o.recv, d.send || o.send, o.time, d.tcp))
  {
    var d0 := d.(count := o.count);
    var d1 := d0.(recv := d.recv || o.recv);
    var d2 := d1.(send := d.send || o.send);
    Recount(d, o.count);
    WithRecv(d0, o.recv);
    WithSend(d1, o.send);
    WithTime(d2, o.time);
  }

  lemma OutageMqtt(d: Shown, recv: bool, send: bool)
    requires d.count <= 15
    ensures OutageMqttCode(MqttByte(d), recv, send)
         == MqttByte(Shown(0, d.recv && !recv, d.send && !send, d.time, d.tcp))
  {
    var d0 := d.(count := 0);
    var d1 := d0.(recv := d.recv && !recv);
    Recount(d, 0);
    WithRecv(d0, recv);
    WithSend(d1, send);
  }

  lemma BlobFollows(s: Status, mem: Memory, n: BlobNotification)
    requires Encodes(s, mem)
    ensures Encodes(BlobStep(s, n), Advance(mem, BlobEvent(Some(n))))
  {
    Readable(mem);
    ResultBlob(mem.blob, mem.shown.tcp, n);
  }

  lemma NetworkFollows(s: Status, mem: Memory, reason: string)
    requires Encodes(s, mem)
    ensures Encodes(NetworkErrorStep(s, reason), Advance(mem, NetworkError(reason)))
  {
    Readable(mem);
    SslBlob(mem.blob, mem.shown.tcp, IsSslTimeout(reason));
  }

  lemma FailFollows(s: Status, mem: Memory, reason: string, clock: Clock)
    requires Encodes(s, mem)
    ensures Encodes(MqttFailStep(s, reason, clock),
                    AfterSync(mem, SyncFail(IsRecvTooSmall(reason), IsSendFull(reason), clock.Invalid())))
  {
    Readable(mem);
    OutageMqtt(mem.shown, IsRecvTooSmall(reason), IsSendFull(reason));
  }

  lemma OkFollows(s: Status, mem: Memory)
    requires Encodes(s, mem)
    ensures Encodes(MqttSuccessStep(s), AfterSync(mem, SyncOk))
  {
    Readable(mem);
    RecoveredMqtt(mem.shown, mem.open);
    RecoveredBlob(mem.blob, mem.shown.tcp, mem.open.tcp);
  }

  lemma TimerFollows(s: Status, mem: Memory)
    requires Encodes(s, mem)
    ensures Encodes(s.(tcpTimerTimeout := true), AfterSync(mem, TcpRaised))
  {
  }

  lemma StepFollows(s: Status, mem: Memory, event: Event)
    requires Encodes(s, mem)
    ensures Encodes(Step(s, event), Advance(mem, event))
  {
    match event
    case BlobEvent(None) =>
    case BlobEvent(Some(n)) => BlobFollows(s, mem, n);
    case NetworkError(reason) => NetworkFollows(s, mem, reason);
    case TcpTimerTimeout => TimerFollows(s, mem);
    case MqttSync(reason, clock) =>
      if IsOk(reason) {
        OkFollows(s, mem);
      } else {
        FailFollows(s, mem, reason, clock);
      }
  }

  const NOTHING_YET := Memory(BlobMemory(16, false), Shown(0, false, false, false, false),
                              OpenInterval(0, false, false, false, false))

  function Track(history: seq<Event>): Memory {
    if history == [] then NOTHING_YET else Advance(Track(Front(history)), Last(history))
  }

  lemma {:induction false} RunFollows(start: Status, history: seq<Event>)
    requires Fresh(start)
    ensures Encodes(Run(start, history), Track(history))
  {
    if history != [] {
      RunFollows(start, Front(history));
      StepFollows(Run(start, Front(history)), Track(Front(history)), Last(history));
    }
  }
}
