/**
  The notification handlers of notifications.c as they run: file-level variables beside the
  event-log table, updated in place, with the masks of the C code.  Handlers run one at a time.
*/
module Notifications {
  import opened Common
  import opened Masks
  import ElogTable
  import opened ElogStatus
  import opened ElogMasks
  import opened ElogHistory
  import opened ElogBytes
  import opened ElogTheorems

  class Handlers {
    const table: ElogTable.Table
    var mqttReconnectCnt: Byte
    var mqttSyncErrorRecvBufferTooSmall: bool
    var mqttSyncErrorSendBufferIsFull: bool
    var mqttSyncErrorInvalidTime: bool
    var tcpTimerErrorTimeout: bool

    /** Where the run began, and every event since. */
    ghost const start: Status
    ghost var history: seq<Event>

    ghost function State(): Status
      requires table.Valid()
      reads this, table, table.elogArray
    {
      Status(table.View(), mqttReconnectCnt, mqttSyncErrorRecvBufferTooSmall,
             mqttSyncErrorSendBufferIsFull, mqttSyncErrorInvalidTime, tcpTimerErrorTimeout)
    }

    ghost predicate Valid()
      reads this, table, table.elogArray
    {
      && table.Valid()
      && mqttReconnectCnt <= RECONNECT_CNT_MAX
      && State() == Run(start, history)
    }

    /** evp_agent_notifications_register, up to its subscriptions, on whatever table there is. */
    constructor (table: ElogTable.Table)
      requires table.Valid()
      modifies table, table.elogArray
      ensures Valid() && history == [] && this.table == table
      ensures start == Status(old(table.View()).Register(0xf0, 0x40).Register(0xf1, 0x00).Register(0xf2, 0x00), 0, false, false, false, false)
    {
      table.SystemRegElog(BLOB_NETWORK_STATUS, 0x40, "EVP Block Warning.");
      table.SystemRegElog(MQTT_STATUS, 0x0, "EVP Block Warning 2.");
      table.SystemRegElog(WASM_STATUS, 0x0, "EVP Block Warning 3.");
      this.table := table;
      mqttReconnectCnt := 0;
      mqttSyncErrorRecvBufferTooSmall := false;
      mqttSyncErrorSendBufferIsFull := false;
      mqttSyncErrorInvalidTime := false;
      tcpTimerErrorTimeout := false;
      start := Status(table.View(), 0, false, false, false, false);
      history := [];
    }

    method ElogHandlerBlobResult(notif: Option<BlobNotification>, written: bool)
      requires Valid()
      modifies this`history, table, table.elogArray
      ensures Valid() && history == old(history) + [BlobEvent(notif)]
    {
      ghost var before := State();
      if notif.Some? {
        var n := notif.value;
        var code := table.SystemGetELog(BLOB_NETWORK_STATUS);
        if n.result.ResultSuccess? {
          code := SuccessCode(code);
          var _ := table.SystemSetELog(BLOB_NETWORK_STATUS, code, written);
        } else if code != ElogTable.ELOG_ERR {
          if n.result.ResultErrorHttp? {
            code := FailureCode(2, HttpField(n.httpStatus), code);
          } else {
            code := FailureCode(3, ErrnoField(n.error), code);
          }
          var _ := table.SystemSetELog(BLOB_NETWORK_STATUS, code, written);
        }
      }
      assert State() == Step(before, BlobEvent(notif));
      FrontOfSnoc(history, BlobEvent(notif));
      history := history + [BlobEvent(notif)];
    }

    method ElogHandlerNetworkError(reason: string, written: bool)
      requires Valid()
      modifies this`history, table, table.elogArray
      ensures Valid() && history == old(history) + [NetworkError(reason)]
    {
      ghost var before := State();
      var code := table.SystemGetELog(BLOB_NETWORK_STATUS);
      if code != ElogTable.ELOG_ERR {
        if StartsWith(reason, "ssl_timeout") {
          code := SslTimeoutCode(code);
        }
        var _ := table.SystemSetELog(BLOB_NETWORK_STATUS, code, written);
      }
      assert State() == Step(before, NetworkError(reason));
      FrontOfSnoc(history, NetworkError(reason));
      history := history + [NetworkError(reason)];
    }

    method ElogHandlerMqttSyncResult(reason: string, clock: Clock, written: bool)
      requires Valid()
      modifies this, table, table.elogArray
      ensures Valid() && history == old(history) + [MqttSync(reason, clock)]
    {
      ghost var before := State();
      if StartsWith(reason, "MQTT_OK") {
        ElogHandlerMqttSyncSuccess(written);
      } else {
        ElogHandlerMqttSyncFail(reason, clock, written);
      }
      assert State() == Step(before, MqttSync(reason, clock));
      FrontOfSnoc(history, MqttSync(reason, clock));
      history := history + [MqttSync(reason, clock)];
    }

    method ElogHandlerMqttSyncSuccess(written: bool)
      requires table.Valid() && mqttReconnectCnt <= RECONNECT_CNT_MAX
      modifies this, table, table.elogArray
      ensures table.Valid() && mqttReconnectCnt <= RECONNECT_CNT_MAX
      ensures State() == MqttSuccessStep(old(State())) && history == old(history)
    {
      var mqttCode := table.SystemGetELog(MQTT_STATUS);
      if mqttCode == ElogTable.ELOG_ERR {
        return;
      }
      var blobNetworkCode := table.SystemGetELog(BLOB_NETWORK_STATUS);
      if blobNetworkCode == ElogTable.ELOG_ERR {
        return;
      }
      mqttCode := RecoveryCode(mqttCode, mqttReconnectCnt, mqttSyncErrorRecvBufferTooSmall,
                               mqttSyncErrorSendBufferIsFull, mqttSyncErrorInvalidTime);
      blobNetworkCode := TcpTimeoutCode(blobNetworkCode, tcpTimerErrorTimeout);
      mqttReconnectCnt := 0;
      mqttSyncErrorRecvBufferTooSmall := false;
      mqttSyncErrorSendBufferIsFull := false;
      mqttSyncErrorInvalidTime := false;
      tcpTimerErrorTimeout := false;
      var _ := table.SystemSetELog(MQTT_STATUS, mqttCode, written);
      var _ := table.SystemSetELog(BLOB_NETWORK_STATUS, blobNetworkCode, written);
    }

    method CheckSysTime(clock: Clock)
      modifies this`mqttSyncErrorInvalidTime
      ensures mqttSyncErrorInvalidTime == (old(mqttSyncErrorInvalidTime) || clock == ClockFailed || clock.year < 2001)
    {
      var isInvalidTime := false;
      if clock.ClockFailed? {
        isInvalidTime := true;
      } else if clock.year <= 2000 {
        isInvalidTime := true;
      }
      if isInvalidTime {
        mqttSyncErrorInvalidTime := true;
      }
    }

    method NoteReason(reason: string)
      modifies this`mqttSyncErrorRecvBufferTooSmall, this`mqttSyncErrorSendBufferIsFull
      ensures mqttSyncErrorRecvBufferTooSmall == (old(mqttSyncErrorRecvBufferTooSmall) || IsRecvTooSmall(reason))
      ensures mqttSyncErrorSendBufferIsFull == (old(mqttSyncErrorSendBufferIsFull) || IsSendFull(reason))
    {
      if StartsWith(reason, "MQTT_ERROR_RECV_BUFFER_TOO_SMALL") {
        mqttSyncErrorRecvBufferTooSmall := true;
      }
      if StartsWith(reason, "MQTT_ERROR_SEND_BUFFER_IS_FULL") {
        mqttSyncErrorSendBufferIsFull := true;
      }
    }

    method ElogHandlerMqttSyncFail(reason: string, clock: Clock, written: bool)
      requires table.Valid() && mqttReconnectCnt <= RECONNECT_CNT_MAX
      modifies this, table, table.elogArray
      ensures table.Valid() && mqttReconnectCnt <= RECONNECT_CNT_MAX
      ensures State() == MqttFailStep(old(State()), reason, clock) && history == old(history)
    {
      var mqttCode := table.SystemGetELog(MQTT_STATUS);
      if mqttCode == ElogTable.ELOG_ERR {
        return;
      }
      CheckSysTime(clock);
      NoteReason(reason);
      CountFailure(mqttCode, written);
    }

    /** notifications.c:376-399 */
    method CountFailure(mqttCode: Byte, written: bool)
      requires table.Valid() && mqttReconnectCnt <= RECONNECT_CNT_MAX
      modifies this`mqttReconnectCnt, table, table.elogArray
      ensures table.Valid()
      ensures mqttReconnectCnt == if old(mqttReconnectCnt) < RECONNECT_CNT_MAX then old(mqttReconnectCnt) + 1 else old(mqttReconnectCnt)
      ensures table.View() == if old(mqttReconnectCnt) == 0
                              then old(table.View()).Set(MQTT_STATUS, OutageMqttCode(mqttCode, mqttSyncErrorRecvBufferTooSmall,
                                                                                     mqttSyncErrorSendBufferIsFull))
                              else old(table.View())
    {
      if mqttReconnectCnt == 0 {
        var code := OutageCode(mqttCode, mqttSyncErrorRecvBufferTooSmall, mqttSyncErrorSendBufferIsFull);
        var _ := table.SystemSetELog(MQTT_STATUS, code, written);
      }
      if mqttReconnectCnt < RECONNECT_CNT_MAX {
        mqttReconnectCnt := mqttReconnectCnt + 1;
      }
    }

    /** The TCP timer raises its flag from outside this file. */
    method RaiseTcpTimerTimeout()
      requires Valid()
      modifies this`history, this`tcpTimerErrorTimeout
      ensures Valid() && history == old(history) + [TcpTimerTimeout]
    {
      tcpTimerErrorTimeout := true;
      FrontOfSnoc(history, TcpTimerTimeout);
      history := history + [TcpTimerTimeout];
    }

    /** What a reader of the two bytes learns, at any moment of any run. */
    method Report() returns (blob: BlobReport, mqtt: MqttReport)
      requires Valid() && Fresh(start)
      ensures var b, m := BlobStream(history), SyncStream(history);
              && blob == BlobReport(Told(LastCause(b)), Any(Closed(m), TimedOut), SslSinceSuccess(b))
              && mqtt == MqttReport(ReportedCount(m), Reported(m, RecvFailed), Reported(m, SendFailed),
                                    Any(Closed(m), BadClock), false)
    {
      var blobCode := table.SystemGetELog(BLOB_NETWORK_STATUS);
      var mqttCode := table.SystemGetELog(MQTT_STATUS);
      blob, mqtt := DecodeBlob(blobCode), DecodeMqtt(mqttCode);
      BlobByteHistory(start, history);
      MqttByteHistory(start, history);
    }
  }

  /** A component that has a slot keeps its code; one that has none needs a free slot. */
  predicate WillRead(e: Elog, component: Byte, code: Byte, earlier: nat) {
    if component in e.codes then e.codes[component] == code else e.used + earlier < ElogTable.MAX_ELOG_ENTRY
  }

  /** Exactly when the registrations give the state that the theorems start from. */
  lemma RegistrationIsFresh(e: Elog)
    ensures var e' := e.Register(BLOB_NETWORK_STATUS, 0x40).Register(MQTT_STATUS, 0x00).Register(WASM_STATUS, 0x00);
            Fresh(Status(e', 0, false, false, false, false))
            <==> WillRead(e, BLOB_NETWORK_STATUS, 0x40, 0) && WillRead(e, MQTT_STATUS, 0x00, 1)
  {
  }
}
