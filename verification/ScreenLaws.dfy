/** Sequences in decimal numbers, and how those that move the cursor are related. */
module ScreenLaws {
  import opened Core
  import opened Screen

  // ---------------------------------------------------------------------------------------------
  // Numbers
  // ---------------------------------------------------------------------------------------------

  function Digit(n: nat): char
    requires n < 10
  {
    '0' + n as char
  }

  function Decimal(n: nat): (s: string)
    ensures s != "" && ';' !in s
  {
    if n < 10 then [Digit(n)] else Decimal(n / 10) + [Digit(n % 10)]
  }

  /** A list of numbers, as a sequence has them. */
  function Listed(ns: seq<nat>): string
    requires ns != []
  {
    if |ns| == 1 then Decimal(ns[0]) else Decimal(ns[0]) + ";" + Listed(ns[1..])
  }

  lemma {:induction false} DecimalIsRead(n: nat)
    ensures Number(Decimal(n)) == Some(n)
    decreases n
  {
    var s, d := Decimal(n), Digit(n % 10);
    assert d as int - '0' as int == n % 10;
    if n < 10 {
      assert s == [d] && s[..|s| - 1] == "";
      assert Digits(s) == Some(10 * 0 + n);
    } else {
      DecimalIsRead(n / 10);
      assert s[..|s| - 1] == Decimal(n / 10) && s[|s| - 1] == d;
    }
  }

  lemma {:induction false} UntilSemicolon(a: string, rest: string)
    requires ';' !in a
    ensures Semicolon(a) == |a| && Semicolon(a + ";" + rest) == |a|
    decreases |a|
  {
    if a != "" {
      UntilSemicolon(a[1..], rest);
      assert (a + ";" + rest)[1..] == a[1..] + ";" + rest;
    }
  }

  /** Numbers are read back as they are written in a sequence. */
  lemma {:induction false} ListIsRead(ns: seq<nat>)
    requires ns != []
    ensures Numbers(Listed(ns)) == Some(ns)
    decreases |ns|
  {
    hide Number, Decimal, Semicolon;
    var a, s := Decimal(ns[0]), Listed(ns);
    DecimalIsRead(ns[0]);
    if |ns| == 1 {
      UntilSemicolon(a, "");
      assert s[..|a|] == a && ns == [ns[0]];
    } else {
      var rest := Listed(ns[1..]);
      UntilSemicolon(a, rest);
      ListIsRead(ns[1..]);
      assert s[..|a|] == a && s[|a| + 1..] == rest;
      assert ns == [ns[0]] + ns[1..];
    }
  }

  // ---------------------------------------------------------------------------------------------
  // Moving
  // ---------------------------------------------------------------------------------------------

  function Up(n: nat): Event { Sequence(Decimal(n), 'A') }
  function Down(n: nat): Event { Sequence(Decimal(n), 'B') }
  function Right(n: nat): Event { Sequence(Decimal(n), 'C') }
  function Left(n: nat): Event { Sequence(Decimal(n), 'D') }
  function ToColumn(n: nat): Event { Sequence(Decimal(n), 'G') }
  function ToRow(n: nat): Event { Sequence(Decimal(n), 'd') }
  function ToPlace(row: nat, column: nat): Event { Sequence(Listed([row, column]), 'H') }

  lemma CountedStep(s: State, final: char, n: nat)
    requires Fits(s) && final in "GdCABDP"
    ensures Step(s, Sequence(Decimal(n), final)) == Going(Settled(Moved(s, final, n)))
  {
    hide Number, Decimal, Moved, Settled;
    DecimalIsRead(n);
  }

  /** A row of the screen, a column of the screen, or both: counted from 1, and nothing else changes. */
  lemma PlacesExactly(s: State, row: nat, column: nat)
    requires Fits(s) && 1 <= row <= s.height && 1 <= column <= s.width
    ensures Step(s, ToRow(row)) == Going(s.(y := row - 1))
    ensures s.y >= 0 ==> Step(s, ToColumn(column)) == Going(s.(x := column - 1))
    ensures Step(s, ToPlace(row, column)) == Going(s.(y := row - 1, x := column - 1))
    ensures Step(s, Sequence("", 'H')) == Going(s.(y := 0, x := 0))
  {
    hide Number, Numbers, Decimal, Fit;
    CountedStep(s, 'd', row);
    CountedStep(s, 'G', column);
    ListIsRead([row, column]);
    NotEmpty([row, column]);
  }

  lemma NotEmpty(ns: seq<nat>)
    requires ns != []
    ensures Listed(ns) != ""
  {
  }

  /** Up and down by so many rows, and the rows that they lead to; both stop at the edge. */
  lemma UpAndDown(s: State, n: nat)
    requires Fits(s) && s.y >= 0
    ensures Step(s, Up(n)) == Step(s, ToRow(if n <= s.y then s.y + 1 - n else 1))
    ensures Step(s, Down(n)) == Step(s, ToRow(if s.y + n < s.height then s.y + 1 + n else s.height))
  {
    hide Decimal, Step, Fit;
    CountedStep(s, 'A', n);
    CountedStep(s, 'B', n);
    CountedStep(s, 'd', if n <= s.y then s.y + 1 - n else 1);
    CountedStep(s, 'd', if s.y + n < s.height then s.y + 1 + n else s.height);
  }

  /** Right by so many columns and the column that it leads to; past the last one it goes on like a newline. */
  lemma RightGoesTo(s: State, n: nat)
    requires Fits(s) && s.y >= 0
    ensures s.x + n < s.width ==> Step(s, Right(n)) == Step(s, ToColumn(s.x + 1 + n))
    ensures s.x + n >= s.width ==> Step(s, Right(n)) == Step(s, Plain('\n'))
  {
    hide Decimal, Fit, Number, Numbers, Escaped;
    CountedStep(s, 'C', n);
    CountedStep(s, 'G', s.x + 1 + n);
  }

  /** Left by so many columns and the column that it leads to; the left edge stops it as a carriage return does. */
  lemma LeftGoesTo(s: State, n: nat)
    requires Fits(s) && s.y >= 0
    ensures n <= s.x ==> Step(s, Left(n)) == Step(s, ToColumn(s.x + 1 - n))
    ensures n > s.x ==> Step(s, Left(n)) == Step(s, Plain('\r'))
  {
    hide Decimal, Fit, Number, Numbers, Escaped;
    CountedStep(s, 'D', n);
    if n <= s.x {
      CountedStep(s, 'G', s.x + 1 - n);
    }
  }

  /** Down and up again is where it was. */
  lemma DownAndUp(s: State, n: nat)
    requires Fits(s) && s.y >= 0 && s.y + n < s.height
    ensures Step(s, Down(n)).Going? && Fits(Step(s, Down(n)).state)
    ensures Step(Step(s, Down(n)).state, Up(n)) == Going(s)
  {
    hide Decimal, Step, Fit;
    CountedStep(s, 'B', n);
    CountedStep(s.(y := s.y + n), 'A', n);
  }

  /** Right and left again is where it was. */
  lemma RightAndLeft(s: State, n: nat)
    requires Fits(s) && s.y >= 0 && s.x + n < s.width
    ensures Step(s, Right(n)).Going? && Fits(Step(s, Right(n)).state)
    ensures Step(Step(s, Right(n)).state, Left(n)) == Going(s)
  {
    hide Decimal, Step, Fit;
    CountedStep(s, 'C', n);
    CountedStep(s.(x := s.x + n), 'D', n);
  }

  /** Without a number a sequence moves by one, or to the first row or column. */
  lemma MissingIsOne(s: State, final: char)
    requires Fits(s) && final in "GdCABD"
    ensures Step(s, Sequence("", final)) == Step(s, Sequence("1", final))
  {
    hide Moved, Settled;
    DecimalIsRead(1);
    assert Decimal(1) == "1";
  }

  // ---------------------------------------------------------------------------------------------
  // Colours
  // ---------------------------------------------------------------------------------------------

  predicate NoneOf(colors: seq<nat>, low: nat) {
    forall c :: c in colors ==> !(low <= c <= low + 9)
  }

  /** `now` is the last of the colours from `low` to `low + 9`, or what it was when there is none. */
  ghost predicate LastOf(colors: seq<nat>, low: nat, was: nat, now: nat) {
    || (now == was && NoneOf(colors, low))
    || exists i :: 0 <= i < |colors| && low <= colors[i] <= low + 9 && now == colors[i] && NoneOf(colors[i + 1..], low)
  }

  lemma LastOfRest(colors: seq<nat>, low: nat, was: nat, now: nat)
    requires colors != []
    requires LastOf(colors[1..], low, if low <= colors[0] <= low + 9 then colors[0] else was, now)
    ensures LastOf(colors, low, was, now)
  {
    var rest := colors[1..];
    assert colors == [colors[0]] + rest;
    if i :| 0 <= i < |rest| && low <= rest[i] <= low + 9 && now == rest[i] && NoneOf(rest[i + 1..], low) {
      assert colors[i + 1] == rest[i] && colors[i + 2..] == rest[i + 1..];
    } else if low <= colors[0] <= low + 9 {
      assert colors[0 + 1..] == rest;
    }
  }

  lemma {:induction false} ColoredExactly(fg: nat, bg: nat, colors: seq<nat>)
    ensures LastOf(colors, 30, fg, Colored(fg, bg, colors).0)
    ensures LastOf(colors, 40, bg, Colored(fg, bg, colors).1)
    decreases |colors|
  {
    hide LastOf;
    if colors == [] {
      NoColours(fg, bg);
    } else {
      var c := colors[0];
      var f, b := if 29 < c < 40 then c else fg, if 39 < c < 50 then c else bg;
      ColoredExactly(f, b, colors[1..]);
      LastOfRest(colors, 30, fg, Colored(fg, bg, colors).0);
      LastOfRest(colors, 40, bg, Colored(fg, bg, colors).1);
    }
  }

  lemma NoColours(fg: nat, bg: nat)
    ensures LastOf([], 30, fg, fg) && LastOf([], 40, bg, bg)
  {
  }

  /**
   A style sequence of numbers: 0 first gives green on black, 1 first the last colours of each kind that
   follow, and any other changes nothing; the screen and the cursor stay.
   */
  lemma StylesExactly(s: State, ns: seq<nat>)
    requires Fits(s) && s.y >= 0 && ns != []
    ensures var r := Step(s, Sequence(Listed(ns), 'm'));
      && r.Going? && r.state == s.(fg := r.state.fg, bg := r.state.bg)
      && (ns[0] == 0 ==> r.state.fg == 32 && r.state.bg == 40)
      && (ns[0] == 1 ==> LastOf(ns[1..], 30, s.fg, r.state.fg) && LastOf(ns[1..], 40, s.bg, r.state.bg))
      && (ns[0] > 1 ==> r.state == s)
  {
    hide Numbers, Listed, Colored, LastOf, Fit;
    ListIsRead(ns);
    ColoredExactly(s.fg, s.bg, ns[1..]);
  }
}
