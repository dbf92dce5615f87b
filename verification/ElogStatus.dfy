/**
  The notification handlers of notifications.c as one step function.  Two bytes of the event log
  (blob/network and MQTT status), a saturating reconnect counter and four flags make up the state.
*/
module ElogStatus {
  import opened Common
  import opened Masks
  import ElogTable

  type Elog = ElogTable.Elog

  const BLOB_NETWORK_STATUS: Byte := 0xf0
  const MQTT_STATUS: Byte := 0xf1
  const WASM_STATUS: Byte := 0xf2

  const RECONNECT_CNT_MAX: Byte := 0xF

  /** The errno values the handler tells apart, by name; every other value falls in the last case. */
  datatype Errno =
    | EPERM | EIO | E2BIG | ENOMEM | EINVAL | EPROTO | ELOOP | ECONNABORTED | EHOSTUNREACH | ENOTSUP
    | OtherErrno(value: int)

  datatype BlobResult = ResultSuccess | ResultErrorHttp | ResultError | ResultUnlisted(value: int)

  datatype BlobNotification = BlobNotification(result: BlobResult, httpStatus: nat, error: Errno)

  /** What clock_gettime and localtime_r answer: a failure, or the calendar year. */
  datatype Clock = ClockFailed | Clock(year: int) {
    predicate Invalid() {
      ClockFailed? || year <= 2000
    }
  }

  /** The events a run is made of; the expiry of the TCP timer comes from outside these handlers. */
  datatype Event =
    | BlobEvent(notification: Option<BlobNotification>)
    | MqttSync(reason: string, clock: Clock)
    | NetworkError(reason: string)
    | TcpTimerTimeout

  datatype Status = Status(
    elog: Elog,
    reconnectCnt: Byte,
    recvBufferTooSmall: bool,
    sendBufferIsFull: bool,
    invalidTime: bool,
    tcpTimerTimeout: bool)

  /** strncmp(reason, check, strlen(check)) == 0 */
  predicate StartsWith(reason: string, check: string) {
    check <= reason
  }

  predicate IsOk(reason: string) { StartsWith(reason, "MQTT_OK") }
  predicate IsRecvTooSmall(reason: string) { StartsWith(reason, "MQTT_ERROR_RECV_BUFFER_TOO_SMALL") }
  predicate IsSendFull(reason: string) { StartsWith(reason, "MQTT_ERROR_SEND_BUFFER_IS_FULL") }
  predicate IsSslTimeout(reason: string) { StartsWith(reason, "ssl_timeout") }

  function HttpField(status: nat): (f: Byte)
    ensures f <= 9
  {
    match status
    case 200 => 1
    case 400 => 2
    case 401 => 3
    case 403 => 4
    case 404 => 5
    case 500 => 6
    case 502 => 7
    case 503 => 8
    case _ => 9
  }

  function ErrnoField(error: Errno): (f: Byte)
    ensures f <= 11
  {
    match error
    case EPERM => 1
    case EIO => 2
    case E2BIG => 3
    case ENOMEM => 4
    case EINVAL => 5
    case EPROTO => 6
    case ELOOP => 7
    case ECONNABORTED => 8
    case EHOSTUNREACH => 9
    case ENOTSUP => 10
    case OtherErrno(_) => 11
  }

  /** Bits 7-2 come from the new result, bits 1-0 stay. */
  function Replace(tmp: Byte, code: Byte): Byte {
    tmp - tmp % 4 + code % 4
  }

  /** The result's class in bits 7-6 and its number in bits 5-2. */
  function ResultBits(n: BlobNotification): Byte {
    match n.result
    case ResultSuccess => 64
    case ResultErrorHttp => 128 + 4 * HttpField(n.httpStatus)
    case _ => 192 + 4 * ErrnoField(n.error)
  }

  /** The success handler alone clears bit 0, and alone does not look for the error sentinel. */
  function BlobStep(s: Status, n: BlobNotification): Status {
    var code := s.elog.Get(BLOB_NETWORK_STATUS);
    if n.result.ResultSuccess? then
      s.(elog := s.elog.Set(BLOB_NETWORK_STATUS, Replace(ResultBits(n), ClearBit(code, 1))))
    else if code == ElogTable.ELOG_ERR then
      s
    else
      s.(elog := s.elog.Set(BLOB_NETWORK_STATUS, Replace(ResultBits(n), code)))
  }

  /** The MQTT byte at an MQTT_OK: bits 3 and 2 can only be raised here, bit 1 follows its flag. */
  function RecoveredMqttCode(code: Byte, cnt: Byte, recv: bool, send: bool, time: bool): Byte {
    FollowIf(RaiseIf(RaiseIf(code % 16 + cnt % 16 * 16, recv, 8), send, 4), time, 2)
  }

  function RecoveredBlobCode(code: Byte, tcp: bool): Byte {
    FollowIf(code, tcp, 2)
  }

  /** The MQTT byte at the first failure of an outage. */
  function OutageMqttCode(code: Byte, recv: bool, send: bool): Byte {
    DropIf(DropIf(code % 16, recv, 8), send, 4)
  }

  function MqttSuccessStep(s: Status): Status {
    var mqtt, blob := s.elog.Get(MQTT_STATUS), s.elog.Get(BLOB_NETWORK_STATUS);
    if mqtt == ElogTable.ELOG_ERR || blob == ElogTable.ELOG_ERR then s
    else
      var mqtt' := RecoveredMqttCode(mqtt, s.reconnectCnt, s.recvBufferTooSmall, s.sendBufferIsFull, s.invalidTime);
      var blob' := RecoveredBlobCode(blob, s.tcpTimerTimeout);
      Status(s.elog.Set(MQTT_STATUS, mqtt').Set(BLOB_NETWORK_STATUS, blob'), 0, false, false, false, false)
  }

  function MqttFailStep(s: Status, reason: string, clock: Clock): Status {
    var mqtt := s.elog.Get(MQTT_STATUS);
    if mqtt == ElogTable.ELOG_ERR then s
    else
      var recv := s.recvBufferTooSmall || IsRecvTooSmall(reason);
      var send := s.sendBufferIsFull || IsSendFull(reason);
      s.(elog := if s.reconnectCnt == 0 then s.elog.Set(MQTT_STATUS, OutageMqttCode(mqtt, recv, send)) else s.elog,
         reconnectCnt := if s.reconnectCnt < RECONNECT_CNT_MAX then s.reconnectCnt + 1 else s.reconnectCnt,
         recvBufferTooSmall := recv,
         sendBufferIsFull := send,
         invalidTime := s.invalidTime || clock.Invalid())
  }

  function NetworkErrorStep(s: Status, reason: string): Status {
    var code := s.elog.Get(BLOB_NETWORK_STATUS);
    if code == ElogTable.ELOG_ERR then s
    else s.(elog := s.elog.Set(BLOB_NETWORK_STATUS, RaiseIf(code, IsSslTimeout(reason), 1)))
  }

  function Step(s: Status, event: Event): Status {
    match event
    case BlobEvent(None) => s
    case BlobEvent(Some(n)) => BlobStep(s, n)
    case MqttSync(reason, clock) => if IsOk(reason) then MqttSuccessStep(s) else MqttFailStep(s, reason, clock)
    case NetworkError(reason) => NetworkErrorStep(s, reason)
    case TcpTimerTimeout => s.(tcpTimerTimeout := true)
  }

  function Run(s: Status, history: seq<Event>): Status {
    if history == [] then s else Step(Run(s, Front(history)), Last(history))
  }

  /** The state evp_agent_notifications_register leaves when both components got their slot. */
  ghost predicate Fresh(s: Status) {
    && BLOB_NETWORK_STATUS in s.elog.codes && s.elog.codes[BLOB_NETWORK_STATUS] == 0x40
    && MQTT_STATUS in s.elog.codes && s.elog.codes[MQTT_STATUS] == 0x00
    && s == Status(s.elog, 0, false, false, false, false)
  }
}
