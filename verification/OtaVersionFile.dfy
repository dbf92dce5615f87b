/**
  version_edc.txt: written with echo, read back with grep '^Version:' and awk '{print $2}' under
  `set -euo pipefail`.
*/
module OtaVersionFile {
  import opened Common

  const PREFIX := "Version:"

  function Print(version: string): string {
    PREFIX + " " + version + "\n"
  }

  predicate Blank(c: char) { c == ' ' || c == '\t' || c == '\n' }

  /** A version as awk hands it over: one non-empty word. */
  predicate Proper(version: string) {
    version != "" && forall i :: 0 <= i < |version| ==> !Blank(version[i])
  }

  /** The position of the first character satisfying `p`, or the length. */
  function Find(s: string, p: char -> bool): (i: nat)
    ensures i <= |s|
    ensures i < |s| ==> p(s[i])
    ensures forall k :: 0 <= k < i ==> !p(s[k])
  {
    if s == "" || p(s[0]) then 0 else 1 + Find(s[1..], p)
  }

  lemma FindIs(s: string, p: char -> bool, i: nat)
    requires i <= |s| && (i < |s| ==> p(s[i])) && forall k :: 0 <= k < i ==> !p(s[k])
    ensures Find(s, p) == i
  {
  }

  function Lines(text: string): seq<string> {
    var i := Find(text, c => c == '\n');
    if text == "" then []
    else if i == |text| then [text]
    else [text[..i]] + Lines(text[i + 1..])
  }

  /** awk's fields: maximal runs of non-blank characters. */
  function Fields(line: string): seq<string> {
    if line == "" then []
    else if Blank(line[0]) then Fields(line[1..])
    else
      var i := Find(line, Blank);
      assert i > 0;
      [line[..i]] + Fields(line[i..])
  }

  function Second(line: string): string {
    var fields := Fields(line);
    if |fields| < 2 then "" else fields[1]
  }

  predicate Labelled(line: string) { PREFIX <= line }

  /** grep '^Version:' */
  function Matching(lines: seq<string>): seq<string> {
    if lines == [] then []
    else (if Labelled(lines[0]) then [lines[0]] else []) + Matching(lines[1..])
  }

  /** The words awk prints, one per line; the shell drops the newlines at the end. */
  function Printed(lines: seq<string>): string {
    if lines == [] then "" else Second(lines[0]) + "\n" + Printed(lines[1..])
  }

  function Chomp(s: string): string {
    if s != "" && Last(s) == '\n' then Chomp(Front(s)) else s
  }

  /** None when grep finds nothing, which ends the script. */
  function Parse(text: string): Option<string> {
    var lines := Matching(Lines(text));
    if lines == [] then None else Some(Chomp(Printed(lines)))
  }

  /** The file in full. */
  lemma PrintFormat(v: string)
    ensures Print(v) == "Version: " + v + "\n"
  {
    assert PREFIX + " " == "Version: ";
  }

  lemma FirstField(w: string, rest: string)
    requires Proper(w) && (rest == "" || Blank(rest[0]))
    ensures Fields(w + rest) == [w] + Fields(rest)
  {
    var line := w + rest;
    FindIs(line, Blank, |w|);
    assert line[..|w|] == w && line[|w|..] == rest;
  }

  /** The word after the label, whichever blank stands between and whatever follows. */
  lemma SecondWord(gap: char, v: string, rest: string)
    requires Blank(gap) && Proper(v) && (rest == "" || Blank(rest[0]))
    ensures Second("Version:" + [gap] + v + rest) == v
  {
    var head, tail := "Version:", [gap] + v + rest;
    assert "Version:" + [gap] + v + rest == head + tail;
    FirstField(head, tail);
    assert tail[1..] == v + rest;
    FirstField(v, rest);
  }

  /** Lines, each ended by a newline. */
  function Joined(lines: seq<string>): string {
    if lines == [] then "" else lines[0] + "\n" + Joined(lines[1..])
  }

  /** Every text is lines ended by a newline and perhaps one more without; Lines gives them back. */
  lemma {:induction false} LinesOfJoined(lines: seq<string>, last: string)
    requires (forall l :: l in lines ==> '\n' !in l) && '\n' !in last
    ensures Lines(Joined(lines) + last) == lines + if last == "" then [] else [last]
  {
    if lines == [] {
      assert Joined(lines) + last == last;
      FindIs(last, c => c == '\n', |last|);
    } else {
      var head, rest := lines[0], Joined(lines[1..]) + last;
      var text := head + "\n" + rest;
      assert Joined(lines) + last == text;
      LinesOfJoined(lines[1..], last);
      HeadLine(head, rest);
    }
  }

  lemma HeadLine(head: string, rest: string)
    requires '\n' !in head
    ensures Lines(head + "\n" + rest) == [head] + Lines(rest)
  {
    var text := head + "\n" + rest;
    FindIs(text, c => c == '\n', |head|);
    assert text[..|head|] == head && text[|head| + 1..] == rest;
  }

  lemma ProperHasNoNewline(v: string)
    requires Proper(v)
    ensures '\n' !in v && Chomp(v) == v
  {
    assert forall i :: 0 <= i < |v| ==> v[i] != '\n';
  }

  lemma LabelledLine(gap: char, v: string, rest: string)
    ensures Labelled("Version:" + [gap] + v + rest)
  {
    assert "Version:" + [gap] + v + rest == PREFIX + ([gap] + v + rest);
  }

  /** What the script writes it reads back, for every proper version. */
  lemma PrintParse(v: string)
    requires Proper(v)
    ensures Parse(Print(v)) == Some(v) == Parse("Version: " + v + "\n")
  {
    var line := "Version:" + [' '] + v + "";
    PrintFormat(v);
    ProperHasNoNewline(v);
    assert Joined([line]) + "" == Print(v) by { assert [line][1..] == []; }
    LinesOfJoined([line], "");
    LabelledLine(' ', v, "");
    SecondWord(' ', v, "");
    OnlyLine(line, v);
  }

  lemma OnlyLine(line: string, v: string)
    requires Labelled(line) && Second(line) == v && Proper(v)
    ensures Matching([line]) == [line] && Chomp(Printed([line])) == v
  {
    assert [line][1..] == [];
    assert Printed([line]) == v + "\n";
    FrontOfSnoc(v, '\n');
    ProperHasNoNewline(v);
  }

  lemma ThreeLines(l1: string, l2: string, l3: string)
    ensures Joined([l1, l2, l3]) == l1 + "\n" + l2 + "\n" + l3 + "\n"
  {
    assert [l1, l2, l3][1..] == [l2, l3] && [l2, l3][1..] == [l3] && [l3][1..] == [];
    assert Joined([l3]) == l3 + "\n";
    assert Joined([l2, l3]) == l2 + "\n" + Joined([l3]);
  }

  lemma TwoMatches(l1: string, noise: string, l2: string, v: string, w: string)
    requires Labelled(l1) && !Labelled(noise) && Labelled(l2)
    requires Second(l1) == v && Second(l2) == w && Proper(w)
    ensures Matching([l1, noise, l2]) == [l1, l2] && Chomp(Printed([l1, l2])) == v + "\n" + w
  {
    assert [l1, noise, l2][1..] == [noise, l2] && [noise, l2][1..] == [l2] && [l2][1..] == [];
    assert [l1, l2][1..] == [l2];
    assert Matching([l2]) == [l2] && Matching([noise, l2]) == [l2];
    assert Printed([l2]) == w + "\n";
    var text := v + "\n" + w;
    assert Printed([l1, l2]) == text + ['\n'];
    FrontOfSnoc(text, '\n');
    assert Last(text) == Last(w) != '\n';
  }

  /**
    A file of another hand: a tab after the label, text after the version, a line without a label,
    and a second version.  Every labelled line's second word is read, one per line.
  */
  lemma ParseForeignFile(v: string, w: string, noise: string)
    requires Proper(v) && Proper(w) && '\n' !in noise && !("Version:" <= noise)
    ensures Parse("Version:\t" + v + " (beta)\n" + noise + "\nVersion: " + w + "\n") == Some(v + "\n" + w)
  {
    var l1, l2 := "Version:" + ['\t'] + v + " (beta)", "Version:" + [' '] + w + "";
    LabelledLine('\t', v, " (beta)");
    LabelledLine(' ', w, "");
    LabelIs(noise);
    SecondWord('\t', v, " (beta)");
    SecondWord(' ', w, "");
    TwoMatches(l1, noise, l2, v, w);
    ProperHasNoNewline(v);
    ProperHasNoNewline(w);
    ForeignLines(l1, noise, l2);
    ForeignText(v, w, noise);
  }

  lemma ForeignLines(l1: string, noise: string, l2: string)
    requires '\n' !in l1 && '\n' !in noise && '\n' !in l2
    ensures Lines(l1 + "\n" + noise + "\n" + l2 + "\n") == [l1, noise, l2]
  {
    ThreeLines(l1, noise, l2);
    LinesOfJoined([l1, noise, l2], "");
    assert Joined([l1, noise, l2]) + "" == Joined([l1, noise, l2]);
  }

  lemma ForeignText(v: string, w: string, noise: string)
    ensures "Version:\t" + v + " (beta)\n" + noise + "\nVersion: " + w + "\n"
         == ("Version:" + ['\t'] + v + " (beta)") + "\n" + noise + "\n" + ("Version:" + [' '] + w + "") + "\n"
  {
    assert "Version:\t" == "Version:" + ['\t'];
    assert " (beta)\n" == " (beta)" + "\n";
    assert "\nVersion: " == "\n" + ("Version:" + [' ']);
  }

  lemma LabelIs(line: string)
    ensures Labelled(line) <==> "Version:" <= line
  {
    assert PREFIX == "Version:";
  }

  lemma {:induction false} NothingMatches(lines: seq<string>)
    ensures Matching(lines) == [] <==> forall l :: l in lines ==> !Labelled(l)
  {
    if lines != [] {
      assert lines == [lines[0]] + lines[1..];
      NothingMatches(lines[1..]);
    }
  }

  /** No line begins with the label. */
  ghost predicate NoVersionIn(text: string) {
    forall rest: string :: "Version:" + rest !in Lines(text)
  }

  /** The text is read as a version, if only an empty one, exactly when some line is labelled. */
  lemma ParseFailsExactly(text: string)
    ensures Parse(text).None? <==> NoVersionIn(text)
  {
    NothingMatches(Lines(text));
    if l :| l in Lines(text) && Labelled(l) {
      LabelIs(l);
      assert l == "Version:" + l[8..];
    }
    if rest: string :| "Version:" + rest in Lines(text) {
      LabelIs("Version:" + rest);
    }
  }

  /** Whatever the version, what the script writes has a labelled line. */
  lemma PrintIsLabelled(v: string)
    ensures Parse(Print(v)).Some?
  {
    var text := Print(v);
    var i := Find(text, c => c == '\n');
    assert i > |PREFIX| by {
      assert forall k :: 0 <= k <= |PREFIX| ==> text[k] == (PREFIX + " ")[k];
    }
    assert Lines(text)[0] == text[..i];
    assert Labelled(text[..i]);
    NothingMatches(Lines(text));
  }
}
