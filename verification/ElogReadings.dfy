/**
  The status machine in the literals of its interface: the reasons and statuses the EVP library
  sends, calendar years, codes and event ids.
*/
module ElogReadings {
  import opened Common
  import opened Masks
  import ElogTable
  import opened ElogStatus
  import opened ElogHistory
  import opened ElogTheorems

  ghost predicate Begins(reason: string, words: string) {
    exists rest :: reason == words + rest
  }

  lemma StartsWithExactly(reason: string, check: string)
    ensures StartsWith(reason, check) <==> Begins(reason, check)
  {
    if StartsWith(reason, check) {
      assert reason == check + reason[|check|..];
    }
  }

  /** What a sync notification contributes to a history, in the words it may begin with. */
  lemma SyncItemsInWords(reason: string, clock: Clock)
    ensures SyncItems(MqttSync(reason, clock))
         == if Begins(reason, "MQTT_OK") then [SyncOk]
            else [SyncFail(Begins(reason, "MQTT_ERROR_RECV_BUFFER_TOO_SMALL"),
                           Begins(reason, "MQTT_ERROR_SEND_BUFFER_IS_FULL"),
                           clock == ClockFailed || clock.year < 2001)]
  {
    StartsWithExactly(reason, "MQTT_OK");
    StartsWithExactly(reason, "MQTT_ERROR_RECV_BUFFER_TOO_SMALL");
    StartsWithExactly(reason, "MQTT_ERROR_SEND_BUFFER_IS_FULL");
  }

  lemma BlobItemsInWords(reason: string)
    ensures BlobItems(NetworkError(reason)) == if Begins(reason, "ssl_timeout") then [SslTimeout] else []
    ensures BlobItems(BlobEvent(None)) == [] == BlobItems(TcpTimerTimeout)
  {
    StartsWithExactly(reason, "ssl_timeout");
  }

  // ---------------------------------------------------------------------------------------
  // Reasons
  // ---------------------------------------------------------------------------------------

  lemma OneEvent(s: Status, event: Event)
    ensures Run(s, [event]) == Step(s, event)
  {
    assert Front([event]) == [];
  }

  lemma TwoEvents(s: Status, first: Event, second: Event)
    ensures Run(s, [first, second]) == Step(Step(s, first), second)
  {
    assert Front([first, second]) == [first];
    OneEvent(s, first);
  }

  /** The first notification of a run counts as a failure exactly when it does not begin with MQTT_OK. */
  lemma FirstSyncCounts(start: Status, reason: string, clock: Clock)
    requires Fresh(start)
    ensures Run(start, [MqttSync(reason, clock)]).reconnectCnt == if Begins(reason, "MQTT_OK") then 0 else 1
  {
    OneEvent(start, MqttSync(reason, clock));
    StartsWithExactly(reason, "MQTT_OK");
  }

  /** None of the four wordings begins with another. */
  lemma WordsApart(reason: string)
    ensures IsSendFull(reason) ==> !IsRecvTooSmall(reason) && !IsOk(reason)
    ensures IsRecvTooSmall(reason) ==> !IsSendFull(reason) && !IsOk(reason)
    ensures reason == "MQTT_ERROR_RECONNECTING" ==> !IsOk(reason) && !IsRecvTooSmall(reason) && !IsSendFull(reason)
  {
    if IsSendFull(reason) {
      assert reason[5] == 'E' && reason[11] == 'S';
    } else if IsRecvTooSmall(reason) {
      assert reason[5] == 'E' && reason[11] == 'R' && reason[13] == 'C';
    } else if reason == "MQTT_ERROR_RECONNECTING" {
      assert reason[5] == 'E';
    }
  }

  lemma ReconnectingCounts(start: Status, clock: Clock)
    requires Fresh(start)
    ensures Run(start, [MqttSync("MQTT_ERROR_RECONNECTING", clock)]).reconnectCnt == 1
  {
    OneEvent(start, MqttSync("MQTT_ERROR_RECONNECTING", clock));
    WordsApart("MQTT_ERROR_RECONNECTING");
  }

  /** The two status codes, what the next MQTT_OK will report, and the ids emitted so far. */
  ghost predicate Reads(s: Status, blob: Byte, mqtt: Byte, cnt: Byte, recv: bool, send: bool, time: bool, ids: seq<int>) {
    && 0xf0 in s.elog.codes && s.elog.codes[0xf0] == blob
    && 0xf1 in s.elog.codes && s.elog.codes[0xf1] == mqtt
    && s == Status(s.elog, cnt, recv, send, time, false)
    && s.elog.emitted == ids
  }

  lemma SendFullStep(s: Status, blob: Byte, mqtt: Byte, ids: seq<int>, reason: string, clock: Clock)
    requires Reads(s, blob, mqtt, 0, false, false, false, ids) && mqtt < 0x10 && !Has(mqtt, 4)
    requires Begins(reason, "MQTT_ERROR_SEND_BUFFER_IS_FULL") && clock.Clock? && clock.year > 2000
    ensures Reads(Step(s, MqttSync(reason, clock)), blob, mqtt, 1, false, true, false, ids)
  {
    StartsWithExactly(reason, "MQTT_ERROR_SEND_BUFFER_IS_FULL");
    WordsApart(reason);
  }

  lemma OkStep(s: Status, blob: Byte, mqtt: Byte, cnt: Byte, recv: bool, send: bool, time: bool, ids: seq<int>,
               mqtt': Byte, reason: string, clock: Clock)
    requires Reads(s, blob, mqtt, cnt, recv, send, time, ids) && blob != 0xFF && !Has(blob, 2) && mqtt != 0xFF
    requires Begins(reason, "MQTT_OK")
    requires mqtt' == RecoveredMqttCode(mqtt, cnt, recv, send, time) && mqtt' != mqtt
    ensures Reads(Step(s, MqttSync(reason, clock)), blob, mqtt', 0, false, false, false, ids + [0xf100 + mqtt'])
  {
    StartsWithExactly(reason, "MQTT_OK");
  }

  lemma SendRecovered()
    ensures RecoveredMqttCode(0x00, 1, false, true, false) == 0x14
  {
    assert RaiseIf(0x10, true, 4) == 0x14;
  }

  lemma RecvRecovered()
    ensures RecoveredMqttCode(0x00, 1, true, false, true) == 0x1a
  {
    assert RaiseIf(0x10, true, 8) == 0x18;
    assert FollowIf(0x18, true, 2) == 0x1a;
  }

  lemma RecvRecoveredLatched()
    ensures RecoveredMqttCode(0x04, 1, true, false, true) == 0x1e
  {
    assert RaiseIf(0x14, true, 8) == 0x1c;
    assert FollowIf(0x1c, true, 2) == 0x1e;
  }

  /** A full send buffer, whatever follows the wording, and the recovery: the code is 0x14. */
  lemma SendFullThenOk(start: Status, full: string, ok: string, clock: Clock, later: Clock)
    requires Fresh(start) && clock.Clock? && clock.year > 2000
    requires Begins(full, "MQTT_ERROR_SEND_BUFFER_IS_FULL") && Begins(ok, "MQTT_OK")
    ensures var s := Run(start, [MqttSync(full, clock), MqttSync(ok, later)]);
            Code(s, 0xf1) == 0x14 && s.elog.emitted == start.elog.emitted + [0xf114]
  {
    var e1, e2 := MqttSync(full, clock), MqttSync(ok, later);
    TwoEvents(start, e1, e2);
    SendRecovered();
    SendFullStep(start, 0x40, 0x00, start.elog.emitted, full, clock);
    OkStep(Step(start, e1), 0x40, 0x00, 1, false, true, false, start.elog.emitted, 0x14, ok, later);
  }

  /** Likewise for a receive buffer too small in the year 2000: 0x18 and the invalid-time bit. */
  lemma RecvTooSmallThenOk(start: Status, small: string, ok: string, later: Clock)
    requires Fresh(start)
    requires Begins(small, "MQTT_ERROR_RECV_BUFFER_TOO_SMALL") && Begins(ok, "MQTT_OK")
    ensures var s := Run(start, [MqttSync(small, Clock(2000)), MqttSync(ok, later)]);
            Code(s, 0xf1) == 0x1a && s.elog.emitted == start.elog.emitted + [0xf11a]
  {
    var e1, e2 := MqttSync(small, Clock(2000)), MqttSync(ok, later);
    TwoEvents(start, e1, e2);
    RecvRecovered();
    StartsWithExactly(small, "MQTT_ERROR_RECV_BUFFER_TOO_SMALL");
    WordsApart(small);
    assert Reads(Step(start, e1), 0x40, 0x00, 1, true, false, true, start.elog.emitted);
    OkStep(Step(start, e1), 0x40, 0x00, 1, true, false, true, start.elog.emitted, 0x1a, ok, later);
  }

  // ---------------------------------------------------------------------------------------
  // Codes that read 0xFF
  // ---------------------------------------------------------------------------------------

  /** The component has no slot, or its slot holds the value that stands for none. */
  predicate Unreadable(s: Status, component: Byte) {
    component !in s.elog.codes || s.elog.codes[component] == 0xFF
  }

  /** A sync notification needs the MQTT code, and MQTT_OK both; otherwise not even a flag changes. */
  lemma UnreadableSync(s: Status, reason: string, clock: Clock)
    requires Unreadable(s, 0xf1) || (Unreadable(s, 0xf0) && Begins(reason, "MQTT_OK"))
    ensures Step(s, MqttSync(reason, clock)) == s
  {
    StartsWithExactly(reason, "MQTT_OK");
  }

  /** Blob failures and network errors need the blob code; only a success overwrites a stored 0xFF. */
  lemma UnreadableBlob(s: Status, n: BlobNotification, reason: string)
    requires Unreadable(s, 0xf0)
    ensures n.result != ResultSuccess ==> Step(s, BlobEvent(Some(n))) == s
    ensures Step(s, NetworkError(reason)) == s
    ensures n.result == ResultSuccess ==>
              Step(s, BlobEvent(Some(n))) == s.(elog := if 0xf0 in s.elog.codes then s.elog.Set(0xf0, 0x42) else s.elog)
  {
  }

  ghost predicate SameSync(s: Status, s': Status) {
    s' == s.(elog := s'.elog, tcpTimerTimeout := s'.tcpTimerTimeout)
  }

  lemma WithoutMqttSlotStep(s: Status, event: Event)
    requires 0xf1 !in s.elog.codes
    ensures 0xf1 !in Step(s, event).elog.codes && SameSync(s, Step(s, event))
  {
    if event.MqttSync? {
      UnreadableSync(s, event.reason, event.clock);
    }
  }

  /** Without a slot for the MQTT status, no run ever counts a failure or raises a sync flag. */
  lemma {:induction false} WithoutMqttSlot(start: Status, history: seq<Event>)
    requires 0xf1 !in start.elog.codes
    ensures 0xf1 !in Run(start, history).elog.codes && SameSync(start, Run(start, history))
  {
    if history != [] {
      WithoutMqttSlot(start, Front(history));
      WithoutMqttSlotStep(Run(start, Front(history)), Last(history));
    }
  }

  // ---------------------------------------------------------------------------------------
  // Blob results
  // ---------------------------------------------------------------------------------------

  const STATUSES: seq<nat> := [200, 400, 401, 403, 404, 500, 502, 503]
  const ERRNOS: seq<Errno> := [EPERM, EIO, E2BIG, ENOMEM, EINVAL, EPROTO, ELOOP, ECONNABORTED, EHOSTUNREACH, ENOTSUP]

  lemma FirstBlob(start: Status, n: BlobNotification)
    requires Fresh(start)
    ensures Code(Run(start, [BlobEvent(Some(n))]), 0xf0) == ResultBits(n)
  {
    OneEvent(start, BlobEvent(Some(n)));
  }

  /** The blob code after one result, for every result: success, each listed HTTP status, any other. */
  lemma HttpCodes(start: Status, n: BlobNotification)
    requires Fresh(start)
    ensures var code := Code(Run(start, [BlobEvent(Some(n))]), 0xf0);
            && (n.result == ResultSuccess ==> code == 0x40)
            && (n.result == ResultErrorHttp ==>
                  && (forall k :: 0 <= k < 8 && n.httpStatus == STATUSES[k] ==> code == 0x84 + 4 * k)
                  && (n.httpStatus !in STATUSES ==> code == 0xa4))
  {
    FirstBlob(start, n);
  }

  /** Likewise for each listed errno, and for results outside the enumeration. */
  lemma ErrnoCodes(start: Status, n: BlobNotification)
    requires Fresh(start) && n.result != ResultSuccess && n.result != ResultErrorHttp
    ensures var code := Code(Run(start, [BlobEvent(Some(n))]), 0xf0);
            && (forall k :: 0 <= k < 10 && n.error == ERRNOS[k] ==> code == 0xc4 + 4 * k)
            && (n.error !in ERRNOS ==> code == 0xec)
  {
    FirstBlob(start, n);
    assert n.error.OtherErrno? || exists k :: 0 <= k < 10 && n.error == ERRNOS[k] by {
      match n.error
      case EPERM => assert ERRNOS[0] == n.error;
      case EIO => assert ERRNOS[1] == n.error;
      case E2BIG => assert ERRNOS[2] == n.error;
      case ENOMEM => assert ERRNOS[3] == n.error;
      case EINVAL => assert ERRNOS[4] == n.error;
      case EPROTO => assert ERRNOS[5] == n.error;
      case ELOOP => assert ERRNOS[6] == n.error;
      case ECONNABORTED => assert ERRNOS[7] == n.error;
      case EHOSTUNREACH => assert ERRNOS[8] == n.error;
      case ENOTSUP => assert ERRNOS[9] == n.error;
      case OtherErrno(_) =>
    }
  }

  // ---------------------------------------------------------------------------------------
  // A run with its event ids
  // ---------------------------------------------------------------------------------------

  const NOT_FOUND := BlobNotification(ResultErrorHttp, 404, EPERM)

  const SAMPLE: seq<Event> := [
    MqttSync("MQTT_ERROR_SEND_BUFFER_IS_FULL", Clock(2001)),
    MqttSync("MQTT_OK", Clock(2001)),
    NetworkError("ssl_timeout"),
    BlobEvent(Some(NOT_FOUND)),
    MqttSync("MQTT_ERROR_RECV_BUFFER_TOO_SMALL", Clock(2000)),
    MqttSync("MQTT_OK", Clock(2001))]

  lemma SslTimeoutStep(s: Status)
    requires Reads(s, 0x40, 0x14, 0, false, false, false, [0xf114])
    ensures Reads(Step(s, NetworkError("ssl_timeout")), 0x41, 0x14, 0, false, false, false, [0xf114, 0xf041])
  {
  }

  lemma NotFoundStep(s: Status)
    requires Reads(s, 0x41, 0x14, 0, false, false, false, [0xf114, 0xf041])
    ensures Reads(Step(s, BlobEvent(Some(NOT_FOUND))), 0x95, 0x14, 0, false, false, false, [0xf114, 0xf041, 0xf095])
  {
  }

  lemma SecondOutageStep(s: Status)
    requires Reads(s, 0x95, 0x14, 0, false, false, false, [0xf114, 0xf041, 0xf095])
    ensures Reads(Step(s, MqttSync("MQTT_ERROR_RECV_BUFFER_TOO_SMALL", Clock(2000))),
                  0x95, 0x04, 1, true, false, true, [0xf114, 0xf041, 0xf095, 0xf104])
  {
    WordsApart("MQTT_ERROR_RECV_BUFFER_TOO_SMALL");
  }

  lemma SecondOkStep(s: Status)
    requires Reads(s, 0x95, 0x04, 1, true, false, true, [0xf114, 0xf041, 0xf095, 0xf104])
    ensures Reads(Step(s, MqttSync("MQTT_OK", Clock(2001))),
                  0x95, 0x1e, 0, false, false, false, [0xf114, 0xf041, 0xf095, 0xf104, 0xf11e])
  {
    RecvRecoveredLatched();
    StartsWithExactly("MQTT_OK", "MQTT_OK");
    OkStep(s, 0x95, 0x04, 1, true, false, true, [0xf114, 0xf041, 0xf095, 0xf104], 0x1e, "MQTT_OK", Clock(2001));
  }

  lemma TwoMoreEvents(s: Status, history: seq<Event>, first: Event, second: Event)
    ensures Run(s, history + [first] + [second]) == Step(Step(Run(s, history), first), second)
  {
    FrontOfSnoc(history + [first], second);
    FrontOfSnoc(history, first);
  }

  lemma SixEvents(s: Status, e1: Event, e2: Event, e3: Event, e4: Event, e5: Event, e6: Event)
    ensures Run(s, [e1, e2, e3, e4, e5, e6]) == Step(Step(Step(Step(Step(Step(s, e1), e2), e3), e4), e5), e6)
  {
    var two := [e1, e2];
    var four := two + [e3] + [e4];
    TwoEvents(s, e1, e2);
    TwoMoreEvents(s, two, e3, e4);
    TwoMoreEvents(s, four, e5, e6);
    assert four + [e5] + [e6] == [e1, e2, e3, e4, e5, e6];
  }

  lemma FirstOutage(start: Status, full: string, ok: string, clock: Clock)
    requires Reads(start, 0x40, 0x00, 0, false, false, false, []) && clock.Clock? && clock.year > 2000
    requires Begins(full, "MQTT_ERROR_SEND_BUFFER_IS_FULL") && Begins(ok, "MQTT_OK")
    ensures Reads(Step(Step(start, MqttSync(full, clock)), MqttSync(ok, clock)), 0x40, 0x14, 0, false, false, false, [0xf114])
  {
    SendRecovered();
    SendFullStep(start, 0x40, 0x00, [], full, clock);
    OkStep(Step(start, MqttSync(full, clock)), 0x40, 0x00, 1, false, true, false, [], 0x14, ok, clock);
  }

  /** What follows the first recovery. */
  lemma SampleRest(s: Status)
    requires Reads(s, 0x40, 0x14, 0, false, false, false, [0xf114])
    ensures var s' := Step(Step(s, NetworkError("ssl_timeout")), BlobEvent(Some(NOT_FOUND)));
            var s'' := Step(Step(s', MqttSync("MQTT_ERROR_RECV_BUFFER_TOO_SMALL", Clock(2000))), MqttSync("MQTT_OK", Clock(2001)));
            s''.elog.emitted == [0xf114, 0xf041, 0xf095, 0xf104, 0xf11e]
  {
    SslTimeoutStep(s);
    NotFoundStep(Step(s, NetworkError("ssl_timeout")));
    var s' := Step(Step(s, NetworkError("ssl_timeout")), BlobEvent(Some(NOT_FOUND)));
    SecondOutageStep(s');
    SecondOkStep(Step(s', MqttSync("MQTT_ERROR_RECV_BUFFER_TOO_SMALL", Clock(2000))));
  }

  /** Two outages, an ssl_timeout and a 404: every id the logger receives. */
  lemma SampleIds(start: Status)
    requires Reads(start, 0x40, 0x00, 0, false, false, false, [])
    ensures Run(start, SAMPLE).elog.emitted == [0xf114, 0xf041, 0xf095, 0xf104, 0xf11e]
  {
    var full, ok := "MQTT_ERROR_SEND_BUFFER_IS_FULL", "MQTT_OK";
    StartsWithExactly(full, full);
    StartsWithExactly(ok, ok);
    FirstOutage(start, full, ok, Clock(2001));
    SampleRest(Step(Step(start, MqttSync(full, Clock(2001))), MqttSync(ok, Clock(2001))));
    SixEvents(start, MqttSync(full, Clock(2001)), MqttSync(ok, Clock(2001)), NetworkError("ssl_timeout"),
              BlobEvent(Some(NOT_FOUND)), MqttSync("MQTT_ERROR_RECV_BUFFER_TOO_SMALL", Clock(2000)),
              MqttSync("MQTT_OK", Clock(2001)));
  }

  /** From the registrations on an empty table. */
  lemma SampleRunFromEmptyTable()
    ensures var e := ElogTable.EMPTY.Register(0xf0, 0x40).Register(0xf1, 0x00).Register(0xf2, 0x00);
            Run(Status(e, 0, false, false, false, false), SAMPLE).elog.emitted == [0xf114, 0xf041, 0xf095, 0xf104, 0xf11e]
  {
    var e := ElogTable.EMPTY.Register(0xf0, 0x40).Register(0xf1, 0x00).Register(0xf2, 0x00);
    SampleIds(Status(e, 0, false, false, false, false));
  }
}
