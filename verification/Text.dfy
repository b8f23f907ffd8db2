/** The reading and writing of text files line by line. */
module Text {

  predicate IsSpace(c: char) {
    c == ' ' || c == '\t' || c == '\n' || c == '\r' || c == (11 as char) || c == (12 as char)
    || (28 as char) <= c <= (31 as char)
  }

  predicate StartsWith(s: string, prefix: string) {
    |prefix| <= |s| && s[..|prefix|] == prefix
  }

  predicate EndsWith(s: string, suffix: string) {
    |suffix| <= |s| && s[|s| - |suffix|..] == suffix
  }

  /** The number of characters before the first one that is a space, or is a newline when `newline`. */
  function Until(s: string, newline: bool): (n: nat)
    ensures n <= |s|
    ensures forall i :: 0 <= i < n ==> if newline then s[i] != '\n' else !IsSpace(s[i])
    ensures n < |s| ==> if newline then s[n] == '\n' else IsSpace(s[n])
  {
    if s == "" || (if newline then s[0] == '\n' else IsSpace(s[0])) then 0 else 1 + Until(s[1..], newline)
  }

  /** The first word of a line that does not start with a space. */
  function FirstWord(s: string): string {
    s[..Until(s, false)]
  }

  predicate Stripped(s: string) {
    s == "" || (!IsSpace(s[0]) && !IsSpace(s[|s| - 1]))
  }

  function Strip(s: string): (r: string)
    ensures Stripped(r) && (Stripped(s) ==> r == s) && |r| <= |s|
    ensures forall c :: c in r ==> c in s
    decreases |s|
  {
    if s == "" then s
    else if IsSpace(s[0]) then Strip(s[1..])
    else if IsSpace(s[|s| - 1]) then Strip(s[..|s| - 1])
    else s
  }

  predicate AllSpaces(s: string) {
    forall c :: c in s ==> IsSpace(c)
  }

  /** The text `m` with spaces around it. */
  predicate Around(s: string, a: string, m: string, b: string) {
    s == a + m + b && AllSpaces(a) && AllSpaces(b)
  }

  lemma SpaceBefore(c: char, s: string, a: string, m: string, b: string)
    requires IsSpace(c) && Around(s, a, m, b)
    ensures Around([c] + s, [c] + a, m, b)
  {
    assert [c] + (a + m + b) == [c] + a + m + b;
  }

  lemma SpaceAfter(c: char, s: string, a: string, m: string, b: string)
    requires IsSpace(c) && Around(s, a, m, b)
    ensures Around(s + [c], a, m, b + [c])
  {
    assert a + m + b + [c] == a + m + (b + [c]);
  }

  /** Stripping takes spaces from both ends and nothing else. */
  lemma {:induction false} StripExactly(s: string)
    ensures Stripped(Strip(s)) && exists a, b :: Around(s, a, Strip(s), b)
    decreases |s|
  {
    hide Around, IsSpace;
    if s != "" && IsSpace(s[0]) {
      StripExactly(s[1..]);
      var a, b :| Around(s[1..], a, Strip(s[1..]), b);
      SpaceBefore(s[0], s[1..], a, Strip(s[1..]), b);
      assert s == [s[0]] + s[1..];
    } else if s != "" && IsSpace(s[|s| - 1]) {
      var n := |s| - 1;
      StripExactly(s[..n]);
      var a, b :| Around(s[..n], a, Strip(s[..n]), b);
      SpaceAfter(s[n], s[..n], a, Strip(s[..n]), b);
      assert s == s[..n] + [s[n]];
    } else {
      NothingAround(s);
    }
  }

  lemma NothingAround(s: string)
    ensures Around(s, "", s, "")
  {
    assert "" + s + "" == s;
  }

  /** The lines of a text; a newline ends a line, and the end of the text ends the last one. */
  function Lines(text: string): seq<string>
    decreases |text|
  {
    if text == "" then []
    else
      var n := Until(text, true);
      [text[..n]] + (if n == |text| then [] else Lines(text[n + 1..]))
  }

  /** The stripped lines, as the tool reads them. */
  function Read(text: string): seq<string> {
    StripAll(Lines(text))
  }

  function StripAll(lines: seq<string>): (r: seq<string>)
    ensures |r| == |lines| && forall i :: 0 <= i < |r| ==> r[i] == Strip(lines[i])
  {
    if lines == [] then [] else [Strip(lines[0])] + StripAll(lines[1..])
  }

  /** The lines joined by newlines, and one more newline. */
  function Print(lines: seq<string>): string {
    if lines == [] then "\n"
    else if |lines| == 1 then lines[0] + "\n"
    else lines[0] + "\n" + Print(lines[1..])
  }

  /** A line that survives being written and read. */
  predicate Tidy(s: string) {
    Stripped(s) && '\n' !in s
  }

  lemma {:induction false} LinesAreWhole(text: string)
    ensures forall line :: line in Lines(text) ==> '\n' !in line
    decreases |text|
  {
    if text != "" {
      var n := Until(text, true);
      var rest := if n == |text| then [] else Lines(text[n + 1..]);
      assert Lines(text) == [text[..n]] + rest;
      assert '\n' !in text[..n];
      if n < |text| {
        LinesAreWhole(text[n + 1..]);
      }
    }
  }

  /** Ended by a newline. */
  function Ended(text: string): string {
    if text != "" && text[|text| - 1] == '\n' then text else text + "\n"
  }

  lemma EndedLine(first: string, rest: string)
    ensures rest != "" ==> first + "\n" + Ended(rest) == Ended(first + "\n" + rest)
    ensures Ended(first + "\n") == first + "\n"
  {
    var text := first + "\n" + rest;
    assert rest != "" ==> text[|text| - 1] == rest[|rest| - 1];
    assert first + "\n" + (rest + "\n") == text + "\n";
  }

  lemma PrintCons(line: string, rest: seq<string>)
    ensures Print([line] + rest) == if rest == [] then line + "\n" else line + "\n" + Print(rest)
  {
    assert ([line] + rest)[1..] == rest;
  }

  /** The lines of a text make up the text, but for a newline at its end. */
  lemma {:induction false} LinesMakeText(text: string)
    requires text != ""
    ensures Lines(text) != [] && Print(Lines(text)) == Ended(text)
    decreases |text|
  {
    hide Until, Print, Ended;
    var n := Until(text, true);
    var first := text[..n];
    if n == |text| {
      assert Lines(text) == [first] + [] && first == text;
      PrintCons(first, []);
      NotEnded(text);
    } else {
      var rest := text[n + 1..];
      assert text == first + "\n" + rest && Lines(text) == [first] + Lines(rest);
      PrintCons(first, Lines(rest));
      EndedLine(first, rest);
      if rest == "" {
        assert text == first + "\n";
      } else {
        LinesMakeText(rest);
      }
    }
  }

  lemma NotEnded(text: string)
    requires forall i :: 0 <= i < |text| ==> text[i] != '\n'
    ensures Ended(text) == text + "\n"
  {
  }

  lemma ReadIsTidy(text: string)
    ensures forall line :: line in Read(text) ==> Tidy(line)
  {
    LinesAreWhole(text);
    forall line | line in Read(text)
      ensures Tidy(line)
    {
      var i :| 0 <= i < |Read(text)| && Read(text)[i] == line;
      assert Lines(text)[i] in Lines(text);
    }
  }

  lemma UntilNewline(line: string, rest: string)
    requires '\n' !in line
    ensures Until(line + "\n" + rest, true) == |line|
  {
    var s := line + "\n" + rest;
    assert s[|line|] == '\n';
    assert forall i :: 0 <= i < |line| ==> s[i] == line[i];
  }

  lemma LinesOfCons(line: string, rest: string)
    requires '\n' !in line
    ensures Lines(line + "\n" + rest) == [line] + Lines(rest)
  {
    var s := line + "\n" + rest;
    UntilNewline(line, rest);
    assert s[..|line|] == line && s[|line| + 1..] == rest;
  }

  /** Tidy lines are read back as they were written. */
  lemma {:induction false} ReadUndoesPrint(lines: seq<string>)
    requires lines != [] && forall line :: line in lines ==> Tidy(line)
    ensures Read(Print(lines)) == lines
    decreases |lines|
  {
    LinesOfPrint(lines);
    assert forall i :: 0 <= i < |lines| ==> lines[i] in lines;
  }

  lemma {:induction false} LinesOfPrint(lines: seq<string>)
    requires lines != [] && forall line :: line in lines ==> '\n' !in line
    ensures Lines(Print(lines)) == lines
    decreases |lines|
  {
    if |lines| == 1 {
      LinesOfCons(lines[0], "");
      assert lines[0] + "\n" + "" == Print(lines);
    } else {
      LinesOfPrint(lines[1..]);
      LinesOfCons(lines[0], Print(lines[1..]));
    }
  }
}
