/** The screen buffer of LizardShell: what each character and escape sequence does to grid and cursor. */
module Screen {
  import opened Core

  const DEFAULT_FG: nat := 32
  const DEFAULT_BG: nat := 40

  datatype Cell = Cell(ch: char, fg: nat, bg: nat)

  type Row = seq<Cell>

  const BLANK: Cell := Cell(' ', DEFAULT_FG, DEFAULT_BG)

  datatype State = State(
    width: nat,
    height: nat,
    screen: seq<Row>,
    alt: Option<seq<Row>>,
    usingAlt: bool,
    x: int,
    y: int,
    fg: nat,
    bg: nat)

  /** What one turn of the worker's loop takes from its input. */
  datatype Event =
    | Plain(c: char)
    | LoneEscape
    | Sequence(params: string, final: char)

  /** A turn ends, or an exception ends the worker. */
  datatype Outcome = Going(state: State) | Crashed

  // ---------------------------------------------------------------------------------------------
  // Grids
  // ---------------------------------------------------------------------------------------------

  function Blanks(n: int): (row: Row)
    ensures |row| == if n < 0 then 0 else n
    ensures forall i :: 0 <= i < |row| ==> row[i] == BLANK
  {
    seq(if n < 0 then 0 else n, i => BLANK)
  }

  function BlankRows(width: nat, n: int): (rows: seq<Row>)
    ensures |rows| == if n < 0 then 0 else n
    ensures forall i :: 0 <= i < |rows| ==> rows[i] == Blanks(width)
  {
    seq(if n < 0 then 0 else n, i => Blanks(width))
  }

  predicate Grid(rows: seq<Row>, width: nat, height: nat) {
    |rows| == height && forall i :: 0 <= i < |rows| ==> |rows[i]| == width
  }

  /** A Python index into a list of `n` elements. */
  function At(y: int, n: nat): int {
    if y < 0 then y + n else y
  }

  function Take<T>(s: seq<T>, n: int): seq<T> {
    if n >= |s| then s else if n >= 0 then s[..n] else if -n >= |s| then [] else s[..|s| + n]
  }

  function Drop<T>(s: seq<T>, n: nat): seq<T> {
    if n >= |s| then [] else s[n..]
  }

  function FitRow(row: Row, width: nat): (r: Row)
    ensures |r| == width && (|row| == width ==> r == row)
  {
    Take(row, width) + Blanks(width - |Take(row, width)|)
  }

  function FitRows(rows: seq<Row>, width: nat): (r: seq<Row>)
    ensures |r| == |rows| && forall i :: 0 <= i < |r| ==> r[i] == FitRow(rows[i], width)
  {
    seq(|rows|, i requires 0 <= i < |rows| => FitRow(rows[i], width))
  }

  /** `redraw_screen`: cut and filled to the size of the terminal. */
  function Fit(rows: seq<Row>, width: nat, height: nat): (r: seq<Row>)
    ensures Grid(r, width, height)
  {
    var some := Take(rows, height);
    FitRows(some, width) + BlankRows(width, height - |some|)
  }

  // ---------------------------------------------------------------------------------------------
  // Parameters
  // ---------------------------------------------------------------------------------------------

  function Digits(s: string): Option<nat> {
    if s == "" then Some(0)
    else if '0' <= s[|s| - 1] <= '9' then
      match Digits(s[..|s| - 1])
      case None => None
      case Some(n) => Some(10 * n + (s[|s| - 1] as int - '0' as int))
    else None
  }

  /** `int` of a string of the characters that parameters consist of. */
  function Number(s: string): Option<nat> {
    if s == "" then None else Digits(s)
  }

  function Semicolon(s: string): (n: nat)
    ensures n <= |s|
  {
    if s == "" || s[0] == ';' then 0 else 1 + Semicolon(s[1..])
  }

  /** `list(map(int, s.split(';')))`. */
  function Numbers(s: string): Option<seq<nat>>
    decreases |s|
  {
    var n := Semicolon(s);
    match Number(s[..n])
    case None => None
    case Some(first) =>
      if n == |s| then Some([first])
      else
        match Numbers(s[n + 1..])
        case None => None
        case Some(rest) => Some([first] + rest)
  }

  /** The one parameter of a sequence, or `missing` without it. */
  function Parameter(params: string, missing: nat): Option<nat> {
    if params == "" then Some(missing) else Number(params)
  }

  /** The colours after a list of numbers, of which those of the thirties and forties count. */
  function Colored(fg: nat, bg: nat, colors: seq<nat>): (nat, nat)
    decreases |colors|
  {
    if colors == [] then (fg, bg)
    else
      var c := colors[0];
      Colored(if 29 < c < 40 then c else fg, if 39 < c < 50 then c else bg, colors[1..])
  }

  /** The colours after a style sequence. */
  function Style(fg: nat, bg: nat, params: string): (nat, nat) {
    match Numbers(params)
    case None => (fg, bg)
    case Some(colors) =>
      if colors == [] then (fg, bg)
      else if colors[0] == 0 then (DEFAULT_FG, DEFAULT_BG)
      else if colors[0] == 1 then Colored(fg, bg, colors[1..])
      else (fg, bg)
  }

  // ---------------------------------------------------------------------------------------------
  // One turn
  // ---------------------------------------------------------------------------------------------

  /** Both buffers fit the terminal; the cursor is in it, or one row above it. */
  predicate Fits(s: State) {
    && s.width > 0 && s.height > 0
    && Grid(s.screen, s.width, s.height)
    && (s.alt.Some? ==> Grid(s.alt.value, s.width, s.height))
    && 0 <= s.x < s.width && -1 <= s.y < s.height
  }

  predicate CursorInside(s: State) {
    0 <= s.x < s.width && 0 <= s.y < s.height
  }

  function Blank(width: nat, height: nat): State {
    State(width, height, BlankRows(width, height), None, false, 0, 0, DEFAULT_FG, DEFAULT_BG)
  }

  predicate Printable(c: char) {
    ' ' <= c <= '~'
  }

  function WithRow(s: State, row: Row): State
    requires Fits(s)
  {
    s.(screen := s.screen[At(s.y, s.height) := row])
  }

  function RowOf(s: State): (row: Row)
    requires Fits(s)
    ensures |row| == s.width
  {
    s.screen[At(s.y, s.height)]
  }

  /** A character that is not an escape. */
  function Typed(s: State, c: char): State
    requires Fits(s)
  {
    if c == '\n' then s.(x := 0, y := s.y + 1)
    else if c == '\r' then s.(x := 0)
    else if c == 8 as char then
      WithRow(s, RowOf(s)[s.x := RowOf(s)[s.x].(ch := ' ')]).(x := s.x - 1)
    else if Printable(c) then
      WithRow(s, RowOf(s)[s.x := Cell(c, s.fg, s.bg)]).(x := s.x + 1)
    else s
  }

  function ToggledOn(s: State): State {
    if s.usingAlt then s
    else
      var other := if s.alt.Some? then s.alt.value else BlankRows(s.width, s.height);
      s.(screen := other, alt := Some(s.screen), usingAlt := true)
  }

  function ToggledOff(s: State): State {
    if s.usingAlt && s.alt.Some? then s.(screen := s.alt.value, alt := Some(s.screen), usingAlt := false) else s
  }

  function Styled(s: State, params: string): State {
    s.(fg := Style(s.fg, s.bg, params).0, bg := Style(s.fg, s.bg, params).1)
  }

  /** The sequences that move by a number, `none` without one. */
  function Moved(s: State, final: char, n: nat): State
    requires Fits(s)
  {
    match final
    case 'G' => s.(x := n - 1)
    case 'd' => s.(y := n - 1)
    case 'C' => s.(x := s.x + n)
    case 'A' => s.(y := if s.y - n < 0 then 0 else s.y - n)
    case 'B' => s.(y := if s.y + n >= s.height then s.height - 1 else s.y + n)
    case 'D' => s.(x := if s.x - n < 0 then 0 else s.x - n)
    case _ => s
  }

  /** `handle_escape_sequence`, once the sequence is read. */
  function Escaped(s: State, params: string, final: char): Outcome
    requires Fits(s)
  {
    if final in "GdCABDP" then
      match Parameter(params, 1)
      case None => Crashed
      case Some(n) => Going(Moved(s, final, n))
    else if final == 'H' then
      if params == "" then Going(s.(x := 0, y := 0))
      else
        match Numbers(params)
        case None => Crashed
        case Some(ns) => if |ns| == 2 then Going(s.(x := ns[1] as int - 1, y := ns[0] as int - 1)) else Crashed
    else if final == 'K' && (params == "" || params == "0") then
      Going(WithRow(s, RowOf(s)[..s.x] + Blanks(s.width - s.x)))
    else if final == 'K' && params == "1" then
      Going(WithRow(s, Blanks(s.x) + RowOf(s)[s.x..]))
    else if final == 'X' then
      Going(WithRow(s, RowOf(s)[..s.x] + Blanks(s.width - s.x)))
    else if final == 'J' && (params == "" || params == "0") then
      Going(s.(screen := Fit(Take(s.screen, s.y), s.width, s.height)))
    else if final == 'J' && params == "2" then
      Going(s.(screen := Fit(BlankRows(s.width, s.height), s.width, s.height)))
    else if final == 'S' then
      match Number(params)
      case None => Crashed
      case Some(n) => Going(s.(screen := Fit(Drop(s.screen, n) + BlankRows(s.width, n), s.width, s.height)))
    else if final == 'r' then
      match Numbers(params)
      case None => Going(s)
      case Some(ns) => if |ns| == 2 then Going(s.(y := ns[0])) else Going(s)
    else if final == 'h' && params == "?1049" then Going(ToggledOn(s))
    else if final == 'l' && params == "?1049" then Going(ToggledOff(s))
    else if final == 'm' then Going(Styled(s, params))
    else Going(s)
  }

  /** The end of a turn: the cursor wraps, and the screen scrolls. */
  function Settled(s: State): State {
    var w := if s.x < 0 then s.(x := 0) else if s.x >= s.width then s.(x := 0, y := s.y + 1) else s;
    if w.y < w.height then w
    else
      w.(y := w.height - 1, screen := Fit(Drop(w.screen, 1) + BlankRows(w.width, 1), w.width, w.height))
  }

  function Step(s: State, e: Event): Outcome
    requires Fits(s)
  {
    match e
    case Plain(c) => Going(Settled(Typed(s, c)))
    case LoneEscape => Going(Settled(s))
    case Sequence(params, final) =>
      match Escaped(s, params, final)
      case Crashed => Crashed
      case Going(t) => Going(Settled(t))
  }

  // ---------------------------------------------------------------------------------------------
  // Safety
  // ---------------------------------------------------------------------------------------------

  /** The sequences whose parameters raise an exception. */
  predicate Malformed(e: Event) {
    e.Sequence? && (
      || (e.final in "GdCABDP" && e.params != "" && Number(e.params) == None)
      || (e.final == 'H' && e.params != "" && (Numbers(e.params) == None || |Numbers(e.params).value| != 2))
      || (e.final == 'S' && Number(e.params) == None))
  }

  /** The sequences that put the cursor above the screen: row 0, in a column of the screen. */
  predicate RowZero(width: nat, e: Event) {
    e.Sequence? && (
      || (e.final == 'd' && e.params != "" && Number(e.params) == Some(0))
      || (e.final == 'H' && Numbers(e.params).Some? && |Numbers(e.params).value| == 2
          && Numbers(e.params).value[0] == 0 && Numbers(e.params).value[1] <= width))
  }

  /** Before the end of a turn only the cursor can be out of place. */
  predicate Loose(s: State) {
    && s.width > 0 && s.height > 0
    && Grid(s.screen, s.width, s.height)
    && (s.alt.Some? ==> Grid(s.alt.value, s.width, s.height))
  }

  lemma EscapedIsLoose(s: State, params: string, final: char)
    requires Fits(s) && Escaped(s, params, final).Going?
    ensures Loose(Escaped(s, params, final).state)
    ensures Escaped(s, params, final).state.width == s.width && Escaped(s, params, final).state.height == s.height
  {
    hide Number, Numbers, Fit, BlankRows, Blanks, Take, Drop;
  }

  lemma TypedIsLoose(s: State, c: char)
    requires Fits(s)
    ensures Loose(Typed(s, c)) && Typed(s, c).width == s.width && Typed(s, c).height == s.height
    ensures s.y <= Typed(s, c).y <= s.y + 1
  {
  }

  lemma SettledFits(s: State)
    requires Loose(s) && s.y >= -1
    ensures Fits(Settled(s)) && Settled(s).width == s.width && Settled(s).height == s.height
    ensures Settled(s).y == -1 <==> s.y == -1 && s.x < s.width
  {
    hide Fit;
  }

  /** Where an escape sequence leaves the row. */
  lemma EscapedRow(s: State, params: string, final: char)
    requires Fits(s) && Escaped(s, params, final).Going?
    ensures var t := Escaped(s, params, final).state;
      t.y >= -1 && (s.y >= 0 ==> (t.y == -1 && t.x < t.width <==> RowZero(s.width, Sequence(params, final))))
  {
    hide Number, Numbers, Fit, BlankRows, Blanks, Take, Drop, Style, RowOf;
    NoNumbers();
  }

  lemma NoNumbers()
    ensures Numbers("") == None
  {
  }

  lemma EscapedCrashesExactly(s: State, params: string, final: char)
    requires Fits(s)
    ensures Escaped(s, params, final).Crashed? <==> Malformed(Sequence(params, final))
  {
    hide Number, Numbers, Fit, BlankRows, Blanks, Take, Drop, Style, RowOf;
  }

  /**
   With every event: the worker dies exactly of parameters that are not numbers, and otherwise both
   buffers keep the size of the terminal.
   */
  lemma StepIsSafe(s: State, e: Event)
    requires Fits(s)
    ensures Step(s, e).Crashed? <==> Malformed(e)
    ensures Step(s, e).Going? ==>
      Fits(Step(s, e).state) && Step(s, e).state.width == s.width && Step(s, e).state.height == s.height
  {
    hide Escaped, Typed, Settled, Malformed;
    match e
    case Plain(c) =>
      NotMalformed(e);
      TypedIsLoose(s, c);
      SettledFits(Typed(s, c));
    case LoneEscape =>
      NotMalformed(e);
      SettledFits(s);
    case Sequence(params, final) =>
      EscapedCrashesExactly(s, params, final);
      if Escaped(s, params, final).Going? {
        EscapedIsLoose(s, params, final);
        EscapedRow(s, params, final);
        SettledFits(Escaped(s, params, final).state);
      }
  }

  lemma NotMalformed(e: Event)
    ensures !e.Sequence? ==> !Malformed(e)
  {
  }

  /** A cursor inside the screen stays inside exactly unless it is sent to row 0 in a column of the screen. */
  lemma CursorStaysInsideExactly(s: State, e: Event)
    requires Fits(s) && s.y >= 0 && !Malformed(e)
    ensures Step(s, e).Going?
    ensures CursorInside(Step(s, e).state) <==> !RowZero(s.width, e)
  {
    StepIsSafe(s, e);
    hide Escaped, Typed, Settled, Malformed;
    match e
    case Plain(c) =>
      TypedIsLoose(s, c);
      SettledFits(Typed(s, c));
    case LoneEscape => SettledFits(s);
    case Sequence(params, final) =>
      EscapedCrashesExactly(s, params, final);
      EscapedIsLoose(s, params, final);
      EscapedRow(s, params, final);
      SettledFits(Escaped(s, params, final).state);
  }

  function Run(s: State, events: seq<Event>): Outcome
    requires Fits(s)
    decreases |events|
  {
    if events == [] then Going(s)
    else
      StepIsSafe(s, events[0]);
      match Step(s, events[0])
      case Crashed => Crashed
      case Going(t) => Run(t, events[1..])
  }

  /** Over every run without malformed parameters the buffers keep their size; without row 0 the cursor stays inside. */
  lemma {:induction false} RunIsSafe(s: State, events: seq<Event>)
    requires Fits(s)
    requires forall e :: e in events ==> !Malformed(e)
    ensures Run(s, events).Going? && Fits(Run(s, events).state)
    ensures CursorInside(s) && (forall e :: e in events ==> !RowZero(s.width, e)) ==> CursorInside(Run(s, events).state)
    decreases |events|
  {
    hide Step, Malformed, RowZero;
    if events != [] {
      var e := events[0];
      StepIsSafe(s, e);
      if CursorInside(s) {
        CursorStaysInsideExactly(s, e);
      }
      RunIsSafe(Step(s, e).state, events[1..]);
    }
  }

  // ---------------------------------------------------------------------------------------------
  // The other buffer
  // ---------------------------------------------------------------------------------------------

  predicate Toggles(e: Event) {
    e.Sequence? && e.params == "?1049" && (e.final == 'h' || e.final == 'l')
  }

  lemma EscapedLeavesAlt(s: State, params: string, final: char)
    requires Fits(s) && Escaped(s, params, final).Going? && !Toggles(Sequence(params, final))
    ensures var t := Escaped(s, params, final).state; t.alt == s.alt && t.usingAlt == s.usingAlt
  {
    hide Number, Numbers, Fit, BlankRows, Blanks, Take, Drop, Style, RowOf;
  }

  lemma SettledLeavesAlt(s: State)
    ensures Settled(s).alt == s.alt && Settled(s).usingAlt == s.usingAlt
  {
  }

  /** Nothing but the toggles touches the buffer that is not shown. */
  lemma StepLeavesAlt(s: State, e: Event)
    requires Fits(s) && Step(s, e).Going?
    requires !Toggles(e) || (s.usingAlt && e.final == 'h')
    ensures Step(s, e).state.alt == s.alt && Step(s, e).state.usingAlt == s.usingAlt
  {
    hide Escaped, Settled;
    match e
    case Plain(c) => SettledLeavesAlt(Typed(s, c));
    case LoneEscape => SettledLeavesAlt(s);
    case Sequence(params, final) =>
      SettledLeavesAlt(Escaped(s, params, final).state);
      if Toggles(e) {
        ToggledOnAgain(s);
      } else {
        EscapedLeavesAlt(s, params, final);
      }
  }

  lemma ToggledOnAgain(s: State)
    requires Fits(s) && s.usingAlt
    ensures Escaped(s, "?1049", 'h') == Going(s)
  {
  }

  lemma {:induction false} RunLeavesAlt(s: State, events: seq<Event>)
    requires Fits(s) && s.usingAlt
    requires forall e :: e in events ==> !Malformed(e) && e != Sequence("?1049", 'l')
    ensures Run(s, events).Going? && Fits(Run(s, events).state)
    ensures Run(s, events).state.alt == s.alt && Run(s, events).state.usingAlt
    decreases |events|
  {
    hide Step, Malformed;
    if events != [] {
      assert events[0] in events;
      StepIsSafe(s, events[0]);
      StepLeavesAlt(s, events[0]);
      RunLeavesAlt(Step(s, events[0]).state, events[1..]);
    }
  }

  const ALT_ON: Event := Sequence("?1049", 'h')
  const ALT_OFF: Event := Sequence("?1049", 'l')

  lemma ToggleOn(s: State)
    requires Fits(s) && !s.usingAlt && s.y >= 0
    ensures Step(s, ALT_ON).Going? && Fits(Step(s, ALT_ON).state)
    ensures Step(s, ALT_ON).state.alt == Some(s.screen) && Step(s, ALT_ON).state.usingAlt
  {
    hide Malformed;
    StepIsSafe(s, ALT_ON);
    EscapedCrashesExactly(s, "?1049", 'h');
  }

  lemma ToggleOff(s: State)
    requires Fits(s) && s.usingAlt && s.alt.Some?
    ensures Step(s, ALT_OFF).Going?
    ensures Step(s, ALT_OFF).state.screen == s.alt.value && Step(s, ALT_OFF).state.alt == Some(s.screen)
  {
    hide Malformed;
    StepIsSafe(s, ALT_OFF);
    EscapedCrashesExactly(s, "?1049", 'l');
  }

  /** The main screen is back, cell by cell, after anything that is shown in the alternate one. */
  lemma AlternateScreenReturns(s: State, events: seq<Event>)
    requires Fits(s) && !s.usingAlt && s.y >= 0
    requires forall e :: e in events ==> !Malformed(e) && e != ALT_OFF
    ensures var on := Step(s, ALT_ON);
      on.Going? && Fits(on.state) && Run(on.state, events).Going? && Fits(Run(on.state, events).state)
      && Step(Run(on.state, events).state, ALT_OFF).Going?
      && Step(Run(on.state, events).state, ALT_OFF).state.screen == s.screen
  {
    hide Step, Malformed, Run, Fits;
    ToggleOn(s);
    RunLeavesAlt(Step(s, ALT_ON).state, events);
    ToggleOff(Run(Step(s, ALT_ON).state, events).state);
  }
}
