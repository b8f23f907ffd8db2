/** The worker of LizardShell: it reads characters and changes buffers and cursor in place. */
module ScreenWorker {
  import opened Core
  import opened Screen

  const ESC: char := 27 as char

  predicate IsParameter(c: char) {
    '0' <= c <= '9' || c == ';' || c == '?' || c == '!' || c == '>'
  }

  lemma ParameterCharacters(c: char)
    ensures IsParameter(c) <==> c in "0123456789;?!>"
  {
  }

  function Parameters(s: string): (n: nat)
    ensures n <= |s|
  {
    if s == "" || !IsParameter(s[0]) then 0 else 1 + Parameters(s[1..])
  }

  /** The first event of the input and how many characters it takes; none when the input ends before it does. */
  function NextEvent(input: string): (r: Option<(Event, nat)>)
    ensures r.Some? ==> 0 < r.value.1 <= |input|
  {
    if input == "" then None
    else if input[0] != ESC then Some((Plain(input[0]), 1))
    else if |input| == 1 then None
    else if input[1] != '[' then Some((LoneEscape, 2))
    else
      var n := Parameters(input[2..]);
      if 2 + n == |input| then None else Some((Sequence(input[2..2 + n], input[2 + n]), 3 + n))
  }

  function Events(input: string): seq<Event>
    decreases |input|
  {
    match NextEvent(input)
    case None => []
    case Some((e, n)) => [e] + Events(input[n..])
  }

  /** How an event comes in; after an escape that starts no sequence one more character is taken. */
  function Encoded(e: Event): string {
    match e
    case Plain(c) => [c]
    case LoneEscape => [ESC, 'c']
    case Sequence(params, final) => [ESC, '['] + params + [final]
  }

  /** An event that can come in. */
  predicate Readable(e: Event) {
    match e
    case Plain(c) => c != ESC
    case LoneEscape => true
    case Sequence(params, final) => (forall c :: c in params ==> IsParameter(c)) && !IsParameter(final)
  }

  function AllEncoded(events: seq<Event>): string {
    if events == [] then "" else Encoded(events[0]) + AllEncoded(events[1..])
  }

  lemma {:induction false} ParametersEnd(params: string, final: char, rest: string)
    requires (forall c :: c in params ==> IsParameter(c)) && !IsParameter(final)
    ensures Parameters(params + [final] + rest) == |params|
    decreases |params|
  {
    if params != "" {
      ParametersEnd(params[1..], final, rest);
      assert (params + [final] + rest)[1..] == params[1..] + [final] + rest;
    }
  }

  lemma FirstIsRead(e: Event, rest: string)
    requires Readable(e)
    ensures NextEvent(Encoded(e) + rest) == Some((e, |Encoded(e)|))
  {
    var input := Encoded(e) + rest;
    if e.Sequence? {
      ParametersEnd(e.params, e.final, rest);
      assert input[2..] == e.params + [e.final] + rest;
      assert input[2..2 + |e.params|] == e.params;
    }
  }

  /** Events are read as they come in, one after the other. */
  lemma {:induction false} EventsAreRead(events: seq<Event>)
    requires forall e :: e in events ==> Readable(e)
    ensures Events(AllEncoded(events)) == events
    decreases |events|
  {
    hide Encoded, Readable, NextEvent;
    if events == [] {
      NoInput();
    } else {
      var rest := AllEncoded(events[1..]);
      FirstIsRead(events[0], rest);
      EventsAreRead(events[1..]);
      assert (Encoded(events[0]) + rest)[|Encoded(events[0])|..] == rest;
      assert events == [events[0]] + events[1..];
    }
  }

  /** The sequence for the alternate buffer, as it comes in. */
  lemma ToggleIsRead()
    ensures Events([ESC] + "[?1049h") == [ALT_ON]
  {
    hide Events;
    EventsAreRead([ALT_ON]);
    assert AllEncoded([ALT_ON]) == Encoded(ALT_ON) + AllEncoded([]);
    assert Encoded(ALT_ON) + "" == [ESC] + "[?1049h";
  }

  lemma NoInput()
    ensures NextEvent("") == None
  {
  }

  /** Reading one character at a time until an event is whole. */
  method ReadEvent(input: string) returns (event: Option<Event>, rest: string)
    ensures event == None <==> NextEvent(input) == None
    ensures event.Some? ==> event.value == NextEvent(input).value.0 && rest == input[NextEvent(input).value.1..]
  {
    rest := input;
    if input == "" {
      return None, input;
    }
    if input[0] != ESC {
      return Some(Plain(input[0])), input[1..];
    }
    if |input| == 1 {
      return None, input;
    }
    if input[1] != '[' {
      return Some(LoneEscape), input[2..];
    }
    var i := 2;
    while i < |input| && IsParameter(input[i])
      invariant 2 <= i <= |input|
      invariant Parameters(input[2..]) == i - 2 + Parameters(input[i..])
    {
      assert input[i..][1..] == input[i + 1..];
      i := i + 1;
    }
    if i == |input| {
      return None, input;
    }
    return Some(Sequence(input[2..i], input[i])), input[i + 1..];
  }

  lemma BlankOne(row: Row, from: nat, i: nat)
    requires from <= i < |row|
    ensures |row[..from] + Blanks(i - from) + row[i..]| == |row|
    ensures (row[..from] + Blanks(i - from) + row[i..])[i := BLANK] == row[..from] + Blanks(i + 1 - from) + row[i + 1..]
  {
    var a, b := row[..from] + Blanks(i - from) + row[i..], row[..from] + Blanks(i + 1 - from) + row[i + 1..];
    forall j | 0 <= j < |row|
      ensures a[i := BLANK][j] == b[j]
    {
    }
  }

  class Terminal {
    const width: nat
    const height: nat
    var screen: seq<Row>
    var alt: Option<seq<Row>>
    var usingAlt: bool
    var x: int
    var y: int
    var fg: nat
    var bg: nat

    constructor (width: nat, height: nat)
      requires width > 0 && height > 0
      ensures Value() == Blank(width, height) && Fits(Value())
    {
      this.width, this.height := width, height;
      screen, alt, usingAlt := BlankRows(width, height), None, false;
      x, y, fg, bg := 0, 0, DEFAULT_FG, DEFAULT_BG;
    }

    function Value(): State
      reads this
    {
      State(width, height, screen, alt, usingAlt, x, y, fg, bg)
    }

    /** Blanking the cells of the cursor's row from `from` to before `to`, one by one. */
    method BlankCells(from: nat, to: nat)
      requires Fits(Value()) && from <= to <= width
      modifies this`screen
      ensures Value() ==
        WithRow(old(Value()), RowOf(old(Value()))[..from] + Blanks(to - from) + RowOf(old(Value()))[to..])
    {
      var k := At(y, height);
      var i := from;
      ghost var row := screen[k];
      assert row == row[..from] + Blanks(0) + row[from..];
      while i < to
        invariant from <= i <= to
        invariant |screen| == height
        invariant screen == old(screen)[k := row[..from] + Blanks(i - from) + row[i..]]
      {
        BlankOne(row, from, i);
        screen := screen[k := screen[k][i := BLANK]];
        i := i + 1;
      }
    }

    /** The moving sequences; an exception comes before anything has changed. */
    method Move(params: string, final: char) returns (alive: bool)
      requires Fits(Value()) && (final in "GdCABDP" || final == 'H')
      modifies this`x, this`y
      ensures alive <==> Escaped(old(Value()), params, final).Going?
      ensures alive ==> Value() == Escaped(old(Value()), params, final).state
    {
      hide Number, Numbers, RowOf, Fit, BlankRows, Blanks, Take, Drop, Style;
      if final == 'H' {
        if params == "" {
          x, y := 0, 0;
          return true;
        }
        var ns := Numbers(params);
        if ns == None || |ns.value| != 2 {
          return false;
        }
        x := ns.value[1] as int - 1;
        y := ns.value[0] as int - 1;
        return true;
      }
      var n := Parameter(params, 1);
      if n == None {
        return false;
      }
      var v: int := n.value;
      if final == 'G' {
        x := v - 1;
      } else if final == 'd' {
        y := v - 1;
      } else if final == 'C' {
        x := x + v;
      } else if final == 'A' {
        y := y - v;
        if y < 0 {
          y := 0;
        }
      } else if final == 'B' {
        y := y + v;
        if y >= height {
          y := height - 1;
        }
      } else if final == 'D' {
        x := x - v;
        if x < 0 {
          x := 0;
        }
      }
      return true;
    }

    method Erase(params: string, final: char) returns (alive: bool)
      requires Fits(Value()) && final in "KXJS"
      modifies this`screen
      ensures alive <==> Escaped(old(Value()), params, final).Going?
      ensures alive ==> Value() == Escaped(old(Value()), params, final).state
    {
      hide Number, Numbers, Fit, BlankRows, Take, Drop, Style;
      alive := true;
      ghost var s := Value();
      ghost var row := RowOf(s);
      if final == 'X' || (final == 'K' && (params == "" || params == "0")) {
        BlankCells(x, width);
        assert row[width..] == [];
        assert row[..s.x] + Blanks(s.width - s.x) + [] == row[..s.x] + Blanks(s.width - s.x);
      } else if final == 'K' && params == "1" {
        BlankCells(0, x);
        assert row[..0] + Blanks(s.x) == Blanks(s.x);
      } else if final == 'J' && (params == "" || params == "0") {
        screen := Fit(Take(screen, y), width, height);
      } else if final == 'J' && params == "2" {
        screen := Fit(BlankRows(width, height), width, height);
      } else if final == 'S' {
        var n := Number(params);
        if n == None {
          return false;
        }
        screen := Fit(Drop(screen, n.value) + BlankRows(width, n.value), width, height);
      }
    }

    method SetColors(colors: seq<nat>)
      modifies this`fg, this`bg
      ensures (fg, bg) == Colored(old(fg), old(bg), colors)
    {
      var i := 0;
      while i < |colors|
        invariant 0 <= i <= |colors|
        invariant Colored(old(fg), old(bg), colors) == Colored(fg, bg, colors[i..])
      {
        var c := colors[i];
        assert colors[i..][1..] == colors[i + 1..];
        if 29 < c < 40 {
          fg := c;
        } else if 39 < c < 50 {
          bg := c;
        }
        i := i + 1;
      }
    }

    /** The sequences that neither move nor erase, and those that are not known. */
    method Others(params: string, final: char)
      requires Fits(Value()) && final !in "GdCABDPHKXJS"
      modifies this
      ensures Escaped(old(Value()), params, final) == Going(Value())
    {
      hide Number, Numbers, Fit, BlankRows, Take, Drop, RowOf;
      if final == 'r' {
        var ns := Numbers(params);
        if ns.Some? && |ns.value| == 2 {
          y := ns.value[0];
        }
      } else if final == 'h' && params == "?1049" {
        if !usingAlt {
          if alt == None {
            alt := Some(BlankRows(width, height));
          }
          screen, alt := alt.value, Some(screen);
          usingAlt := true;
        }
      } else if final == 'l' && params == "?1049" {
        if usingAlt && alt.Some? {
          screen, alt := alt.value, Some(screen);
          usingAlt := false;
        }
      } else if final == 'm' {
        var colors := Numbers(params);
        if colors.Some? && colors.value != [] {
          if colors.value[0] == 0 {
            fg, bg := DEFAULT_FG, DEFAULT_BG;
          } else if colors.value[0] == 1 {
            SetColors(colors.value[1..]);
          }
        }
      }
    }

    method HandleEscape(params: string, final: char) returns (alive: bool)
      requires Fits(Value())
      modifies this
      ensures alive <==> Escaped(old(Value()), params, final).Going?
      ensures alive ==> Value() == Escaped(old(Value()), params, final).state
    {
      hide Escaped;
      if final in "GdCABDP" || final == 'H' {
        alive := Move(params, final);
      } else if final in "KXJS" {
        alive := Erase(params, final);
      } else {
        Others(params, final);
        alive := true;
      }
    }

    method Type(c: char)
      requires Fits(Value())
      modifies this`screen, this`x, this`y
      ensures Value() == Typed(old(Value()), c)
    {
      var k := At(y, height);
      if c == '\n' {
        x := 0;
        y := y + 1;
      } else if c == '\r' {
        x := 0;
      } else if c == 8 as char {
        screen := screen[k := screen[k][x := screen[k][x].(ch := ' ')]];
        x := x - 1;
      } else if Printable(c) {
        screen := screen[k := screen[k][x := Cell(c, fg, bg)]];
        x := x + 1;
      }
    }

    method Settle()
      requires Loose(Value())
      modifies this`screen, this`x, this`y
      ensures Value() == Settled(old(Value()))
    {
      if x < 0 {
        x := 0;
      } else if x >= width {
        x := 0;
        y := y + 1;
      }
      if y >= height {
        y := height - 1;
        screen := Fit(Drop(screen, 1) + BlankRows(width, 1), width, height);
      }
    }

    /** One turn of the worker. */
    method Turn(e: Event) returns (alive: bool)
      requires Fits(Value())
      modifies this
      ensures alive <==> Step(old(Value()), e).Going?
      ensures alive ==> Value() == Step(old(Value()), e).state && Fits(Value())
    {
      hide Escaped, Typed, Settled;
      StepIsSafe(Value(), e);
      alive := true;
      match e {
        case Plain(c) =>
          TypedIsLoose(Value(), c);
          Type(c);
        case LoneEscape =>
        case Sequence(params, final) =>
          if Escaped(Value(), params, final).Going? {
            EscapedIsLoose(Value(), params, final);
          }
          alive := HandleEscape(params, final);
      }
      if alive {
        Settle();
      }
    }

    /** `screen_worker` on everything that comes in, until there is no more or an exception ends it. */
    method Work(input: string) returns (alive: bool)
      requires Fits(Value())
      modifies this
      ensures alive <==> Run(old(Value()), Events(input)).Going?
      ensures alive ==> Value() == Run(old(Value()), Events(input)).state
    {
      hide Step, NextEvent, Fits;
      var rest := input;
      alive := true;
      while true
        invariant Fits(Value())
        invariant Run(old(Value()), Events(input)) == Run(Value(), Events(rest))
        decreases |rest|
      {
        var event, next := ReadEvent(rest);
        if event == None {
          return true;
        }
        assert Events(rest) == [event.value] + Events(next);
        assert Events(rest)[1..] == Events(next);
        alive := Turn(event.value);
        if !alive {
          return false;
        }
        rest := next;
      }
    }
  }
}
