/** Small vocabulary shared by every component of the model. */
module Common {
  datatype Option<+T> = None | Some(value: T)

  function Min(a: int, b: int): (r: int)
    ensures r <= a && r <= b && (r == a || r == b)
  {
    if a <= b then a else b
  }

  /** All but the last element; runs are studied one trailing event at a time. */
  function Front<T>(s: seq<T>): (r: seq<T>)
    requires s != []
    ensures s == r + [Last(s)]
  {
    s[..|s| - 1]
  }

  function Last<T>(s: seq<T>): T
    requires s != []
  {
    s[|s| - 1]
  }

  lemma FrontOfSnoc<T>(s: seq<T>, x: T)
    ensures Front(s + [x]) == s && Last(s + [x]) == x
  {
  }

  /** A uint8_t. */
  type Byte = x: int | 0 <= x < 256
}

/** Numbers below 256 as eight bits, and two of those as sixteen. */
module Octets {
  import opened Common

  ghost function CountUp(x: Byte): (b: bv8)
    ensures b as int == x
  {
    if x == 0 then 0 else CountUp(x - 1) + 1
  }

  lemma BitsRoundTrip(b: bv8)
    ensures (b as int) as bv8 == b
  {
  }

  lemma ByteRoundTrip(x: Byte)
    ensures (x as bv8) as int == x
  {
    BitsRoundTrip(CountUp(x));
  }

  lemma Halves(high: bv16, low: bv16)
    requires high < 256 && low < 256
    ensures ((high << 8) | low) >> 8 == high && ((high << 8) | low) & 0xFF == low
  {
  }

  lemma WordSplits(w: bv16)
    ensures w as int == (w >> 8) as int * 256 + (w & 0xFF) as int
  {
  }

  lemma Widened(b: bv8)
    ensures (b as bv16) as int == b as int && (b as bv16) < 256
  {
  }

  /** Two bytes shifted and or-ed into a word are 256 times the first plus the second. */
  lemma ShiftedOr(high: Byte, low: Byte)
    ensures ((((high as bv8) as bv16) << 8) | ((low as bv8) as bv16)) as int == high * 256 + low
  {
    var h, l := (high as bv8) as bv16, (low as bv8) as bv16;
    ByteRoundTrip(high);
    ByteRoundTrip(low);
    Widened(high as bv8);
    Widened(low as bv8);
    Halves(h, l);
    WordSplits((h << 8) | l);
  }
}

/**
  Masks on eight bits, as arithmetic.  The model keeps bytes as numbers; the lemmas say, for every
  value of eight bits, what each mask operation of the C code does to the number.
*/
module Masks {
  import opened Common

  predicate Has(x: Byte, mask: int)
    requires mask in {1, 2, 4, 8}
  {
    x / mask % 2 == 1
  }

  function SetBit(x: Byte, mask: int): Byte
    requires mask in {1, 2, 4, 8}
  {
    if Has(x, mask) then x else x + mask
  }

  function ClearBit(x: Byte, mask: int): Byte
    requires mask in {1, 2, 4, 8}
  {
    if Has(x, mask) then x - mask else x
  }

  function RaiseIf(x: Byte, b: bool, mask: int): Byte
    requires mask in {1, 2, 4, 8}
  {
    if b then SetBit(x, mask) else x
  }

  function DropIf(x: Byte, b: bool, mask: int): Byte
    requires mask in {1, 2, 4, 8}
  {
    if b then ClearBit(x, mask) else x
  }

  function FollowIf(x: Byte, b: bool, mask: int): Byte
    requires mask in {1, 2, 4, 8}
  {
    if b then SetBit(x, mask) else ClearBit(x, mask)
  }

  lemma BitZero(x: bv8)
    ensures (x | 1) as int == SetBit(x as int, 1)
    ensures (x & !1) as int == ClearBit(x as int, 1)
  {
  }

  lemma BitOne(x: bv8)
    ensures (x | 2) as int == SetBit(x as int, 2)
    ensures (x & !2) as int == ClearBit(x as int, 2)
  {
  }

  lemma BitTwo(x: bv8)
    ensures (x | 4) as int == SetBit(x as int, 4)
    ensures (x & !4) as int == ClearBit(x as int, 4)
  {
  }

  lemma BitThree(x: bv8)
    ensures (x | 8) as int == SetBit(x as int, 8)
    ensures (x & !8) as int == ClearBit(x as int, 8)
  {
  }

  lemma LowNibble(x: bv8)
    ensures (x & !0xF0) as int == x as int % 16
  {
  }

  lemma HighNibble(x: bv8)
    ensures ((x << 4) & 0xF0) as int == x as int % 16 * 16
  {
  }

  lemma SplitAtTwo(x: bv8)
    ensures (x & 0xFC) as int == x as int - x as int % 4
    ensures (x & 0x3) as int == x as int % 4
  {
  }

  lemma DisjointOr(x: bv8, y: bv8)
    requires x & y == 0
    ensures (x | y) as int == x as int + y as int
  {
  }
}
