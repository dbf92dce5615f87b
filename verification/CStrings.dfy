/** The C library's bounded writes into character buffers (C11, sections 7.21.6 and 7.24.2). */
module CStrings {
  import opened Common

  /** The first position of a NUL, or the length. */
  function NulAt(s: string): (i: nat)
    ensures i <= |s| && (i < |s| ==> s[i] == '\0') && '\0' !in s[..i]
  {
    if s == "" || s[0] == '\0' then 0
    else
      var i := NulAt(s[1..]);
      assert s[..i + 1] == [s[0]] + s[1..][..i];
      i + 1
  }

  lemma NulAtIs(s: string, i: nat)
    requires i <= |s| && (i < |s| ==> s[i] == '\0') && '\0' !in s[..i]
    ensures NulAt(s) == i
  {
  }

  /** snprintf and vsnprintf into a buffer of at least one byte: what fits, then a NUL. */
  method Snprintf(buf: array<char>, message: string)
    requires buf.Length >= 1
    modifies buf
    ensures var n := Min(|message|, buf.Length - 1);
            buf[..n] == message[..n] && buf[n] == '\0'
  {
    var n := Min(|message|, buf.Length - 1);
    for i := 0 to n
      invariant buf[..i] == message[..i]
    {
      buf[i] := message[i];
      assert buf[..i + 1] == buf[..i] + [message[i]];
    }
    buf[n] := '\0';
  }

  method Strlen(buf: array<char>, ghost bound: nat) returns (n: nat)
    requires bound < buf.Length && buf[bound] == '\0'
    ensures n == NulAt(buf[..bound])
  {
    n := 0;
    while buf[n] != '\0'
      invariant n <= bound && '\0' !in buf[..n]
      decreases bound - n
    {
      n := n + 1;
    }
    assert buf[..bound][..n] == buf[..n];
    NulAtIs(buf[..bound], n);
  }

  /** strncpy: at most `n` characters, stopping at the source's NUL, and NULs up to `n`. */
  method Strncpy(buf: array<char>, source: string, n: nat)
    requires n <= buf.Length
    modifies buf
    ensures var k := Min(NulAt(source), n);
            buf[..k] == source[..k] && forall j :: k <= j < n ==> buf[j] == '\0'
    ensures forall j :: n <= j < buf.Length ==> buf[j] == old(buf[j])
  {
    var k := 0;
    while k < n && k < |source| && source[k] != '\0'
      invariant k <= n && k <= |source| && '\0' !in source[..k]
      invariant buf[..k] == source[..k]
      invariant forall j :: k <= j < buf.Length ==> buf[j] == old(buf[j])
    {
      buf[k] := source[k];
      assert buf[..k + 1] == buf[..k] + [source[k]];
      assert source[..k + 1] == source[..k] + [source[k]];
      k := k + 1;
    }
    Stopped(source, k, n);
    var j := k;
    while j < n
      invariant k <= j <= n
      invariant buf[..k] == source[..k]
      invariant forall i :: k <= i < j ==> buf[i] == '\0'
      invariant forall i :: n <= i < buf.Length ==> buf[i] == old(buf[i])
    {
      buf[j] := '\0';
      j := j + 1;
    }
  }

  lemma Stopped(source: string, k: nat, n: nat)
    requires k <= n && k <= |source| && '\0' !in source[..k]
    requires k == n || k == |source| || source[k] == '\0'
    ensures k == Min(NulAt(source), n)
  {
  }
}
