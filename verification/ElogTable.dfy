/**
  The event-log table of log.c: a 128-slot array searched for the first match, which hands an
  event id to the logger whenever a stored code changes.  Every operation runs with the table's
  mutex held, so each one is a single atomic step.
*/
module ElogTable {
  import opened Common
  import opened Octets

  const MAX_ELOG_ENTRY := 128
  const ELOG_ERR: Byte := 0xFF
  const ENOENT := 2

  datatype Entry = Entry(component: Byte, code: Byte, updated: bool, msg: string)

  // ---------------------------------------------------------------------------------------
  // The abstract log: a partial map, the number of used slots, and the ids emitted so far.
  // ---------------------------------------------------------------------------------------

  datatype Elog = Elog(codes: map<Byte, Byte>, used: nat, emitted: seq<Word>) {
    function Get(component: Byte): Byte {
      if component in codes then codes[component] else ELOG_ERR
    }

    function Set(component: Byte, code: Byte): Elog {
      if component !in codes || codes[component] == code then this
      else this.(codes := codes[component := code], emitted := emitted + [EventId(component, code)])
    }

    function Register(component: Byte, code: Byte): Elog {
      if used >= MAX_ELOG_ENTRY then this
      else this.(codes := if component in codes then codes else codes[component := code], used := used + 1)
    }
  }

  const EMPTY := Elog(map[], 0, [])

  /** A uint16_t. */
  type Word = x: int | 0 <= x < 65536

  /** What the shift and or of the C code come to, see Octets.ShiftedOr. */
  function EventId(component: Byte, code: Byte): Word {
    component * 256 + code
  }

  function ComponentOf(id: Word): Byte {
    id / 256
  }

  function CodeOf(id: Word): Byte {
    id % 256
  }

  /** The 16-bit id of the C code is EventId, and it splits back into component and code. */
  lemma EventIdSplits(component: Byte, code: Byte)
    ensures ((((component as bv8) as bv16) << 8) | ((code as bv8) as bv16)) as int == EventId(component, code)
    ensures ComponentOf(EventId(component, code)) == component
    ensures CodeOf(EventId(component, code)) == code
  {
    ShiftedOr(component, code);
  }

  // ---------------------------------------------------------------------------------------
  // What a sequence of calls leaves behind, told without the table.
  // ---------------------------------------------------------------------------------------

  datatype Call = Register(component: Byte, code: Byte) | Set(component: Byte, code: Byte) | Get(component: Byte)

  function Apply(e: Elog, call: Call): Elog {
    match call
    case Register(c, v) => e.Register(c, v)
    case Set(c, v) => e.Set(c, v)
    case Get(_) => e
  }

  function Run(e: Elog, calls: seq<Call>): Elog {
    if calls == [] then e else Apply(Run(e, Front(calls)), Last(calls))
  }

  function Registrations(calls: seq<Call>): nat {
    if calls == [] then 0
    else Registrations(Front(calls)) + if Last(calls).Register? then 1 else 0
  }

  /**
    The codes given to one component: the value of its first registration among the first 128
    registrations of any component, then every code set from there on.  Empty when the component
    never got a slot.
  */
  function Trail(calls: seq<Call>, component: Byte): seq<Byte> {
    if calls == [] then []
    else
      var before := Trail(Front(calls), component);
      match Last(calls)
      case Register(c, v) =>
        if c == component && before == [] && Registrations(Front(calls)) < MAX_ELOG_ENTRY then [v] else before
      case Set(c, v) => if c == component && before != [] then before + [v] else before
      case Get(_) => before
  }

  /** The values of a trail that differ from the value just before them, in order. */
  function Changes(trail: seq<Byte>): seq<Byte> {
    if |trail| <= 1 then []
    else Changes(Front(trail)) + if Last(trail) == Last(Front(trail)) then [] else [Last(trail)]
  }

  /** The codes carried by the ids of one component. */
  function EmittedFor(ids: seq<Word>, component: Byte): seq<Byte> {
    if ids == [] then []
    else
      EmittedFor(Front(ids), component)
      + if ComponentOf(Last(ids)) == component then [CodeOf(Last(ids))] else []
  }

  lemma EmittedAfterSet(e: Elog, component: Byte, code: Byte, other: Byte)
    ensures var before := EmittedFor(e.emitted, other);
            EmittedFor(e.Set(component, code).emitted, other)
            == if component == other && component in e.codes && e.codes[component] != code
               then before + [code] else before
  {
    EventIdSplits(component, code);
    FrontOfSnoc(e.emitted, EventId(component, code));
  }

  lemma ChangesSnoc(trail: seq<Byte>, code: Byte)
    requires trail != []
    ensures Changes(trail + [code]) == Changes(trail) + if code == Last(trail) then [] else [code]
  {
    FrontOfSnoc(trail, code);
  }

  ghost predicate Traced(e: Elog, trail: seq<Byte>, component: Byte) {
    && (component in e.codes <==> trail != [])
    && (trail != [] ==> e.codes[component] == Last(trail))
    && EmittedFor(e.emitted, component) == Changes(trail)
  }

  lemma TracedAfterSet(e: Elog, trail: seq<Byte>, component: Byte, c: Byte, v: Byte)
    requires Traced(e, trail, component)
    ensures Traced(e.Set(c, v), if c == component && trail != [] then trail + [v] else trail, component)
  {
    EmittedAfterSet(e, c, v, component);
    if trail != [] {
      ChangesSnoc(trail, v);
    }
  }

  /**
    After any sequence of calls, for every component: the ids emitted for it are its trail with
    adjacent repeats removed, the table holds the end of the trail, and a component is known
    exactly when it has a trail.  Whether the logger accepted the ids plays no part.
  */
  lemma {:induction false} EmissionTrace(calls: seq<Call>, component: Byte)
    ensures Traced(Run(EMPTY, calls), Trail(calls, component), component)
    ensures Run(EMPTY, calls).used == Min(128, Registrations(calls))
  {
    if calls != [] {
      var before := Front(calls);
      EmissionTrace(before, component);
      var call := Last(calls);
      if call.Set? {
        TracedAfterSet(Run(EMPTY, before), Trail(before, component), component, call.component, call.code);
      }
    }
  }

  // ---------------------------------------------------------------------------------------
  // The array refines the map.
  // ---------------------------------------------------------------------------------------

  /** The map a slot prefix stands for: an earlier slot shadows a later one. */
  ghost function Codes(s: seq<Entry>): map<Byte, Byte> {
    if s == [] then map[] else Codes(s[1..])[s[0].component := s[0].code]
  }

  ghost predicate FirstMatch(s: seq<Entry>, component: Byte, i: nat) {
    i < |s| && s[i].component == component && forall j :: 0 <= j < i ==> s[j].component != component
  }

  lemma {:induction false} CodesAbsent(s: seq<Entry>, component: Byte)
    requires forall j :: 0 <= j < |s| ==> s[j].component != component
    ensures component !in Codes(s)
  {
    if s != [] {
      CodesAbsent(s[1..], component);
    }
  }

  lemma {:induction false} CodesAtFirstMatch(s: seq<Entry>, component: Byte, i: nat, e: Entry)
    requires FirstMatch(s, component, i) && e.component == component
    ensures component in Codes(s) && Codes(s)[component] == s[i].code
    ensures Codes(s[i := e]) == Codes(s)[component := e.code]
  {
    if i == 0 {
      assert s[i := e][1..] == s[1..];
    } else {
      CodesAtFirstMatch(s[1..], component, i - 1, e);
      assert s[i := e][1..] == s[1..][i - 1 := e];
    }
  }

  /** A new last slot is visible only when its component had none. */
  lemma {:induction false} CodesAppend(s: seq<Entry>, e: Entry)
    ensures Codes(s + [e]) == if e.component in Codes(s) then Codes(s) else Codes(s)[e.component := e.code]
  {
    if s != [] {
      CodesAppend(s[1..], e);
      assert (s + [e])[1..] == s[1..] + [e];
    }
  }

  class Table {
    const elogArray: array<Entry>
    var last: nat
    /** What UtilityLogWriteELog has been handed, whether or not it accepted it. */
    var emitted: seq<Word>

    ghost predicate Valid()
      reads this
    {
      elogArray.Length == MAX_ELOG_ENTRY && last <= MAX_ELOG_ENTRY
    }

    ghost function View(): Elog
      requires Valid()
      reads this, elogArray
    {
      Elog(Codes(elogArray[..last]), last, emitted)
    }

    constructor ()
      ensures Valid() && fresh(elogArray) && View() == EMPTY
    {
      elogArray := new Entry[MAX_ELOG_ENTRY](_ => Entry(0, 0, false, ""));
      last := 0;
      emitted := [];
    }

    method ComponentToEntry(component: Byte) returns (index: Option<nat>)
      requires Valid()
      ensures index.Some? ==> FirstMatch(elogArray[..last], component, index.value)
      ensures index.None? ==> component !in View().codes
    {
      var i := 0;
      while i < last
        invariant i <= last
        invariant forall j :: 0 <= j < i ==> elogArray[j].component != component
      {
        if elogArray[i].component == component {
          return Some(i);
        }
        i := i + 1;
      }
      CodesAbsent(elogArray[..last], component);
      return None;
    }

    method SystemRegElog(component: Byte, initValue: Byte, msg: string)
      requires Valid()
      modifies this`last, elogArray
      ensures Valid() && View() == old(View()).Register(component, initValue)
    {
      if last < MAX_ELOG_ENTRY {
        ghost var before := elogArray[..last];
        elogArray[last] := Entry(component, initValue, false, msg);
        last := last + 1;
        assert elogArray[..last] == before + [elogArray[last - 1]];
        CodesAppend(before, elogArray[last - 1]);
      }
    }

    /** `written` is the logger's answer, should it be asked. */
    method SystemSetELog(component: Byte, code: Byte, written: bool) returns (ret: int)
      requires Valid()
      modifies this`emitted, elogArray
      ensures Valid() && View() == old(View()).Set(component, code)
      ensures ret == if component !in old(View()).codes || (View() != old(View()) && !written) then -2 else 0
    {
      ret := 0;
      var entry := ComponentToEntry(component);
      if entry.Some? {
        var i := entry.value;
        ghost var before := elogArray[..last];
        CodesAtFirstMatch(before, component, i, before[i].(code := code));
        if elogArray[i].code != code {
          elogArray[i] := elogArray[i].(code := code, updated := true);
          var eventId := ShiftTogether(component, code);
          emitted := emitted + [eventId];
          if !written {
            ret := -ENOENT;
          }
          elogArray[i] := elogArray[i].(updated := false);
          CodesAtFirstMatch(before, component, i, elogArray[i]);
          assert elogArray[..last] == before[i := elogArray[i]];
        }
      } else {
        ret := -ENOENT;
      }
    }

    method SystemGetELog(component: Byte) returns (code: Byte)
      requires Valid()
      ensures code == if component in View().codes then View().codes[component] else 0xFF
    {
      code := ELOG_ERR;
      var entry := ComponentToEntry(component);
      if entry.Some? {
        code := elogArray[entry.value].code;
        CodesAtFirstMatch(elogArray[..last], component, entry.value, elogArray[entry.value]);
      }
    }

    method ShiftTogether(component: Byte, code: Byte) returns (eventId: int)
      ensures eventId == EventId(component, code)
    {
      ShiftedOr(component, code);
      eventId := ((((component as bv8) as bv16) << 8) | ((code as bv8) as bv16)) as int;
    }

    method Perform(call: Call, written: bool) returns (answer: Byte)
      requires Valid()
      modifies this, elogArray
      ensures Valid() && View() == Apply(old(View()), call)
      ensures call.Get? ==> answer == old(View()).Get(call.component)
    {
      answer := ELOG_ERR;
      match call
      case Register(c, v) => SystemRegElog(c, v, "");
      case Set(c, v) => var _ := SystemSetELog(c, v, written);
      case Get(c) => answer := SystemGetELog(c);
    }

    /** One call further. */
    method Continue(calls: seq<Call>, soFar: seq<Byte>, written: bool) returns (answers: seq<Byte>)
      requires |soFar| < |calls| && Answered(calls, soFar)
      requires Valid() && View() == Run(EMPTY, calls[..|soFar|])
      modifies this, elogArray
      ensures |answers| == |soFar| + 1 && Answered(calls, answers)
      ensures Valid() && View() == Run(EMPTY, calls[..|answers|])
    {
      var answer := Perform(calls[|soFar|], written);
      NextCall(calls, soFar, answer);
      answers := soFar + [answer];
    }

    /**
      Any sequence of calls on a new table, each with the logger's answer: the table ends where
      the map does, and every read answers with the end of its component's trail so far.
    */
    method Execute(calls: seq<Call>, written: seq<bool>) returns (answers: seq<Byte>)
      requires Valid() && View() == EMPTY && |written| == |calls|
      modifies this, elogArray
      ensures Valid() && View() == Run(EMPTY, calls)
      ensures |answers| == |calls| && Answered(calls, answers)
    {
      answers := [];
      assert calls[..0] == [];
      for i := 0 to |calls|
        invariant Valid() && View() == Run(EMPTY, calls[..i])
        invariant |answers| == i && Answered(calls, answers)
      {
        answers := Continue(calls, answers, written[i]);
      }
      assert calls[..|calls|] == calls;
    }
  }

  /** Every read so far answered with the end of its component's trail at that point. */
  ghost predicate Answered(calls: seq<Call>, answers: seq<Byte>) {
    && |answers| <= |calls|
    && forall i :: 0 <= i < |answers| && calls[i].Get? ==> answers[i] == Expected(calls, i)
  }

  ghost function Expected(calls: seq<Call>, i: nat): Byte
    requires i < |calls|
  {
    var trail := Trail(calls[..i], calls[i].component);
    if trail == [] then ELOG_ERR else Last(trail)
  }

  lemma NextCall(calls: seq<Call>, answers: seq<Byte>, answer: Byte)
    requires Answered(calls, answers) && |answers| < |calls|
    requires var i := |answers|;
             calls[i].Get? ==> answer == Run(EMPTY, calls[..i]).Get(calls[i].component)
    ensures var i := |answers|; Run(EMPTY, calls[..i + 1]) == Apply(Run(EMPTY, calls[..i]), calls[i])
    ensures Answered(calls, answers + [answer])
  {
    var i := |answers|;
    assert Front(calls[..i + 1]) == calls[..i];
    EmissionTrace(calls[..i], calls[i].component);
  }
}
