/**
  The mask expressions of the handlers, computed on eight bits as the C code computes them, and the
  proof that the arithmetic of ElogStatus is what they come to, for every byte.
*/
module ElogMasks {
  import opened Common
  import opened Masks
  import opened Octets
  import opened ElogStatus

  /** notifications.c:109-114, 178 and 237 */
  function MaskedResult(tmp: bv8, code: bv8): bv8 {
    (tmp & 0xFC) | (code & 0x3)
  }

  lemma MaskedResultIsReplace(tmp: bv8, code: bv8)
    ensures MaskedResult(tmp, code) as int == Replace(tmp as int, code as int)
  {
    SplitAtTwo(tmp);
    SplitAtTwo(code);
    DisjointOr(tmp & 0xFC, code & 0x3);
  }

  /** notifications.c:131-175 and 193-234 */
  function MaskedClass(class_: bv8, number: bv8): bv8 {
    (class_ << 6) | (number << 2)
  }

  lemma MaskedClassIsSum(class_: bv8, number: bv8)
    requires class_ <= 3 && number <= 15
    ensures MaskedClass(class_, number) as int == class_ as int * 64 + number as int * 4
  {
  }

  function MaskedIf(code: bv8, b: bool, mask: bv8): bv8 {
    if b then code | mask else code
  }

  function UnmaskedIf(code: bv8, b: bool, mask: bv8): bv8 {
    if b then code & !mask else code
  }

  /** notifications.c:311-312 */
  function MaskedCount(code: bv8, cnt: bv8): bv8 {
    (code & !0xF0) | ((cnt << 4) & 0xF0)
  }

  lemma MaskedCountIsSum(code: bv8, cnt: bv8)
    ensures MaskedCount(code, cnt) as int == code as int % 16 + cnt as int % 16 * 16
  {
    LowNibble(code);
    HighNibble(cnt);
    DisjointOr(code & !0xF0, (cnt << 4) & 0xF0);
  }

  lemma MaskedRecv(c: bv8, b: bool)
    ensures MaskedIf(c, b, 0x08) as int == RaiseIf(c as int, b, 8)
    ensures UnmaskedIf(c, b, 0x08) as int == DropIf(c as int, b, 8)
  {
    BitThree(c);
  }

  lemma MaskedSend(c: bv8, b: bool)
    ensures MaskedIf(c, b, 0x04) as int == RaiseIf(c as int, b, 4)
    ensures UnmaskedIf(c, b, 0x04) as int == DropIf(c as int, b, 4)
  {
    BitTwo(c);
  }

  /** notifications.c:320-325 and 328-333 */
  function MaskedFollow(code: bv8, b: bool): bv8 {
    if b then code | 0x02 else code & !0x02
  }

  lemma MaskedFollowIsFollow(c: bv8, b: bool)
    ensures MaskedFollow(c, b) as int == FollowIf(c as int, b, 2)
  {
    BitOne(c);
  }

  /** notifications.c:314-325 */
  function MaskedRecovery(code: bv8, cnt: bv8, recv: bool, send: bool, time: bool): bv8 {
    MaskedFollow(MaskedIf(MaskedIf(MaskedCount(code, cnt), recv, 0x08), send, 0x04), time)
  }

  lemma MaskedRecoveryIsRecovered(code: bv8, cnt: bv8, recv: bool, send: bool, time: bool)
    ensures MaskedRecovery(code, cnt, recv, send, time) as int
         == RecoveredMqttCode(code as int, cnt as int, recv, send, time)
  {
    MaskedCountIsSum(code, cnt);
    MaskedRecv(MaskedCount(code, cnt), recv);
    MaskedSend(MaskedIf(MaskedCount(code, cnt), recv, 0x08), send);
    MaskedFollowIsFollow(MaskedIf(MaskedIf(MaskedCount(code, cnt), recv, 0x08), send, 0x04), time);
  }

  /** notifications.c:379-387 */
  function MaskedOutage(code: bv8, recv: bool, send: bool): bv8 {
    UnmaskedIf(UnmaskedIf(code & !0xF0, recv, 0x08), send, 0x04)
  }

  lemma MaskedOutageIsOutage(code: bv8, recv: bool, send: bool)
    ensures MaskedOutage(code, recv, send) as int == OutageMqttCode(code as int, recv, send)
  {
    LowNibble(code);
    MaskedRecv(code & !0xF0, recv);
    MaskedSend(UnmaskedIf(code & !0xF0, recv, 0x08), send);
  }

  /** notifications.c:112 and 450 */
  lemma MaskedSsl(code: bv8)
    ensures (code & !0x1) as int == ClearBit(code as int, 1)
    ensures (code | 0x01) as int == SetBit(code as int, 1)
  {
    BitZero(code);
  }

  // ---------------------------------------------------------------------------------------
  // The computations of the handlers, from the byte read to the byte written
  // ---------------------------------------------------------------------------------------

  method SuccessCode(read: Byte) returns (written: Byte)
    ensures written == Replace(64, ClearBit(read, 1))
  {
    var code := read as bv8;
    var tmp: bv8 := 1 << 6;
    ByteRoundTrip(read);
    MaskedSsl(code);
    code := code & !0x1;
    MaskedResultIsReplace(tmp, code);
    written := MaskedResult(tmp, code) as int;
  }

  method FailureCode(class_: bv8, number: Byte, read: Byte) returns (written: Byte)
    requires class_ <= 3 && number <= 15
    ensures written == Replace(class_ as int * 64 + number * 4, read)
  {
    ByteRoundTrip(number);
    ByteRoundTrip(read);
    SmallNumber(number as bv8);
    MaskedClassIsSum(class_, number as bv8);
    var tmp := MaskedClass(class_, number as bv8);
    MaskedResultIsReplace(tmp, read as bv8);
    written := MaskedResult(tmp, read as bv8) as int;
  }

  lemma SmallNumber(b: bv8)
    ensures b as int <= 15 ==> b <= 15
  {
  }

  method SslTimeoutCode(read: Byte) returns (written: Byte)
    ensures written == SetBit(read, 1)
  {
    ByteRoundTrip(read);
    MaskedSsl(read as bv8);
    written := ((read as bv8) | 0x01) as int;
  }

  method TcpTimeoutCode(read: Byte, tcp: bool) returns (written: Byte)
    ensures written == RecoveredBlobCode(read, tcp)
  {
    ByteRoundTrip(read);
    MaskedFollowIsFollow(read as bv8, tcp);
    written := MaskedFollow(read as bv8, tcp) as int;
  }

  method RecoveryCode(read: Byte, cnt: Byte, recv: bool, send: bool, time: bool) returns (written: Byte)
    ensures written == RecoveredMqttCode(read, cnt, recv, send, time)
  {
    ByteRoundTrip(read);
    ByteRoundTrip(cnt);
    MaskedRecoveryIsRecovered(read as bv8, cnt as bv8, recv, send, time);
    written := MaskedRecovery(read as bv8, cnt as bv8, recv, send, time) as int;
  }

  method OutageCode(read: Byte, recv: bool, send: bool) returns (written: Byte)
    ensures written == OutageMqttCode(read, recv, send)
  {
    ByteRoundTrip(read);
    MaskedOutageIsOutage(read as bv8, recv, send);
    written := MaskedOutage(read as bv8, recv, send) as int;
  }
}
