/** The screen of LizardShell as a window onto an endless sheet on which nothing ever moves. */
module ScreenSheet {
  import opened Core
  import opened Screen

  // ---------------------------------------------------------------------------------------------
  // The sheet
  // ---------------------------------------------------------------------------------------------

  /** What is written, by row and column, and the first row in view. */
  datatype Page = Page(cells: map<(int, int), Cell>, first: nat)

  /** The page in view and, once it was used, the other one; the cursor is at `row` of the page in view. */
  datatype Paper = Paper(
    width: nat,
    page: Page,
    other: Option<Page>,
    usingAlt: bool,
    x: int,
    row: int,
    fg: nat,
    bg: nat)

  const EMPTY: Page := Page(map[], 0)

  function Sheet(width: nat): Paper {
    Paper(width, EMPTY, None, false, 0, 0, DEFAULT_FG, DEFAULT_BG)
  }

  function CellAt(page: Page, row: int, x: int): Cell {
    if (row, x) in page.cells then page.cells[(row, x)] else BLANK
  }

  /** The row that is written on: the cursor's, and the last one in view when the cursor is above the view. */
  function Line(p: Paper, height: nat): int {
    if p.row < p.page.first then p.row + height else p.row
  }

  function Put(p: Paper, height: nat, cell: Cell): Paper {
    p.(page := p.page.(cells := p.page.cells[(Line(p, height), p.x) := cell]))
  }

  /**
   The cursor goes to column `x` of `row`, past the last column to the next row; below the view it stops in
   the first row below, and the view follows by one row.
   */
  function Goes(p: Paper, height: nat, x: int, row: int): Paper {
    var down := if x >= p.width then row + 1 else row;
    var below := p.page.first + height;
    p.(x := if 0 <= x < p.width then x else 0,
       row := if down >= below then below else down,
       page := if down >= below then p.page.(first := p.page.first + 1) else p.page)
  }

  /** The erasing sequences, by what they erase of the rows in view, with the cursor in column `x` of `line`. */
  predicate Erases(params: string, final: char, line: int, x: int, row: int, column: int) {
    || (final == 'K' && (params == "" || params == "0") && row == line && column >= x)
    || (final == 'K' && params == "1" && row == line && column < x)
    || (final == 'X' && row == line && column >= x)
    || (final == 'J' && (params == "" || params == "0") && row >= line)
    || (final == 'J' && params == "2")
  }

  function Erased(p: Paper, height: nat, params: string, final: char): Paper {
    var kept := map k | k in p.page.cells
      && !(k.0 >= p.page.first && Erases(params, final, Line(p, height), p.x, k.0, k.1)) :: p.page.cells[k];
    p.(page := p.page.(cells := kept))
  }

  /** `ESC [ n` and a letter. */
  function Counted(p: Paper, height: nat, final: char, n: nat): Paper {
    match final
    case 'G' => Goes(p, height, n - 1, p.row)
    case 'd' => Goes(p, height, p.x, p.page.first + n - 1)
    case 'C' => Goes(p, height, p.x + n, p.row)
    case 'D' => Goes(p, height, if n > p.x then 0 else p.x - n, p.row)
    case 'A' => Goes(p, height, p.x, if p.row - n < p.page.first then p.page.first else p.row - n)
    case 'B' => Goes(p, height, p.x,
                     if p.row + n >= p.page.first + height then p.page.first + height - 1 else p.row + n)
    case _ => p
  }

  function Toggled(p: Paper): Paper {
    var there := if p.other.Some? then p.other.value else EMPTY;
    p.(page := there, other := Some(p.page), usingAlt := !p.usingAlt, row := there.first + (p.row - p.page.first))
  }

  function Obeyed(p: Paper, height: nat, params: string, final: char): Paper {
    if final in "GdCABD" then
      match Parameter(params, 1)
      case None => p
      case Some(n) => Counted(p, height, final, n)
    else if final == 'H' then
      match Numbers(params)
      case None => Goes(p, height, 0, p.page.first)
      case Some(ns) => if |ns| == 2 then Goes(p, height, ns[1] as int - 1, p.page.first + ns[0] - 1) else p
    else if final in "KXJ" then Erased(p, height, params, final)
    else if final == 'S' then
      match Number(params)
      case None => p
      case Some(n) => p.(page := p.page.(first := p.page.first + n), row := p.row + n)
    else if final == 'r' then
      match Numbers(params)
      case None => p
      case Some(ns) => if |ns| == 2 then Goes(p, height, p.x, p.page.first + ns[0]) else p
    else if params == "?1049" && (final == 'h' || final == 'l') then
      if (final == 'h') == p.usingAlt then p else Toggled(p)
    else if final == 'm' then p.(fg := Style(p.fg, p.bg, params).0, bg := Style(p.fg, p.bg, params).1)
    else p
  }

  /** What an event does on the sheet, with a view of `height` rows. */
  function Written(p: Paper, height: nat, e: Event): Paper {
    match e
    case Plain(c) =>
      if c == '\n' then Goes(p, height, 0, p.row + 1)
      else if c == '\r' then p.(x := 0)
      else if c == 8 as char then
        Goes(Put(p, height, CellAt(p.page, Line(p, height), p.x).(ch := ' ')), height, p.x - 1, p.row)
      else if Printable(c) then Goes(Put(p, height, Cell(c, p.fg, p.bg)), height, p.x + 1, p.row)
      else p
    case LoneEscape => p
    case Sequence(params, final) => Obeyed(p, height, params, final)
  }

  // ---------------------------------------------------------------------------------------------
  // The view
  // ---------------------------------------------------------------------------------------------

  /** The rows are those of the page from its first one in view; below them nothing is written. */
  ghost predicate Views(rows: seq<Row>, page: Page, width: nat, height: nat) {
    && Grid(rows, width, height)
    && (forall r, c :: 0 <= r < height && 0 <= c < width ==> rows[r][c] == CellAt(page, page.first + r, c))
    && (forall k :: k in page.cells ==> k.0 < page.first + height)
  }

  /** Both buffers and the colours. */
  ghost predicate Pictures(s: State, p: Paper) {
    && s.width == p.width > 0 && s.height > 0 && s.fg == p.fg && s.bg == p.bg && s.usingAlt == p.usingAlt
    && Views(s.screen, p.page, s.width, s.height)
    && (s.alt.Some? <==> p.other.Some?)
    && (s.alt.Some? ==> Views(s.alt.value, p.other.value, s.width, s.height))
    && (s.usingAlt ==> s.alt.Some?)
  }

  /** The screen shows its rows of the sheet, and the cursor is where it is on the sheet. */
  ghost predicate Shows(s: State, p: Paper) {
    Pictures(s, p) && Fits(s) && s.x == p.x && s.y == p.row - p.page.first
  }

  lemma FitOfLonger(rows: seq<Row>, width: nat, height: nat, i: nat)
    requires |rows| >= height && i < height && |rows[i]| == width
    ensures Fit(rows, width, height)[i] == rows[i]
  {
  }

  lemma ScrolledRows(rows: seq<Row>, width: nat, height: nat, n: nat, i: nat)
    requires Grid(rows, width, height) && i < height
    ensures Fit(Drop(rows, n) + BlankRows(width, n), width, height)[i] ==
      if i + n < height then rows[i + n] else Blanks(width)
  {
    var more := Drop(rows, n) + BlankRows(width, n);
    assert more[i] == if i + n < height then rows[i + n] else Blanks(width);
    FitOfLonger(more, width, height, i);
  }

  lemma ScrolledViews(rows: seq<Row>, page: Page, width: nat, height: nat, n: nat)
    requires Views(rows, page, width, height)
    ensures var scrolled := Fit(Drop(rows, n) + BlankRows(width, n), width, height);
      Views(scrolled, page.(first := page.first + n), width, height)
  {
    hide Fit, Drop, BlankRows;
    var next, scrolled := page.(first := page.first + n), Fit(Drop(rows, n) + BlankRows(width, n), width, height);
    forall i, c | 0 <= i < height && 0 <= c < width
      ensures scrolled[i][c] == CellAt(next, next.first + i, c)
    {
      ScrolledRows(rows, width, height, n, i);
      assert i + n < height ==> rows[i + n][c] == CellAt(page, page.first + (i + n), c);
    }
  }

  // ---------------------------------------------------------------------------------------------
  // The cursor
  // ---------------------------------------------------------------------------------------------

  /** The end of a turn, wherever the turn has put the cursor. */
  lemma SettledShows(s: State, p: Paper, row: int)
    requires Pictures(s, p) && s.y == row - p.page.first >= -1
    ensures Shows(Settled(s), Goes(p, s.height, s.x, row))
  {
    hide Views, Fit, BlankRows, Drop;
    GridOfView(s, p);
    if s.y + (if s.x >= s.width then 1 else 0) >= s.height {
      ScrolledViews(s.screen, p.page, s.width, s.height, 1);
    }
  }

  lemma GridOfView(s: State, p: Paper)
    requires Pictures(s, p)
    ensures Grid(s.screen, s.width, s.height) && (s.alt.Some? ==> Grid(s.alt.value, s.width, s.height))
  {
  }

  /** Where a cursor in the screen stays, the end of a turn does nothing. */
  lemma InPlace(s: State)
    requires Fits(s)
    ensures Settled(s) == s
  {
  }

  lemma MovedShows(s: State, p: Paper, x: int, row: int)
    requires Shows(s, p) && row - p.page.first >= -1
    ensures Shows(Settled(s.(x := x, y := row - p.page.first)), Goes(p, s.height, x, row))
  {
    hide Views, Settled, Fits;
    SettledShows(s.(x := x, y := row - p.page.first), p, row);
  }

  lemma CountedShows(s: State, p: Paper, final: char, n: nat)
    requires Shows(s, p) && final in "GdCABDP"
    ensures Shows(Settled(Moved(s, final, n)), Counted(p, s.height, final, n))
  {
    hide Views, Settled, Goes, Pictures;
    var f := p.page.first;
    match final
    case 'G' => MovedShows(s, p, n - 1, p.row);
    case 'd' => MovedShows(s, p, s.x, f + n - 1);
    case 'C' => MovedShows(s, p, s.x + n, p.row);
    case 'D' => MovedShows(s, p, if n > s.x then 0 else s.x - n, p.row);
    case 'A' => MovedShows(s, p, s.x, if p.row - n < f then f else p.row - n);
    case 'B' => MovedShows(s, p, s.x, if p.row + n >= f + s.height then f + s.height - 1 else p.row + n);
    case _ => InPlace(s);
  }

  // ---------------------------------------------------------------------------------------------
  // Writing and erasing
  // ---------------------------------------------------------------------------------------------

  /** Writing one cell under the cursor. */
  lemma PutShows(s: State, p: Paper, cell: Cell)
    requires Shows(s, p)
    ensures Pictures(WithRow(s, RowOf(s)[s.x := cell]), Put(p, s.height, cell))
  {
    var t, q := WithRow(s, RowOf(s)[s.x := cell]), Put(p, s.height, cell);
    var at := At(s.y, s.height);
    assert Line(p, s.height) == p.page.first + at;
    assert Views(t.screen, q.page, s.width, s.height) by {
      forall r, c | 0 <= r < s.height && 0 <= c < s.width
        ensures t.screen[r][c] == CellAt(q.page, q.page.first + r, c)
      {
        assert s.screen[r][c] == CellAt(p.page, p.page.first + r, c);
      }
    }
  }

  lemma UnderCursor(s: State, p: Paper)
    requires Shows(s, p)
    ensures RowOf(s)[s.x] == CellAt(p.page, Line(p, s.height), p.x)
  {
    var at := At(s.y, s.height);
    assert Line(p, s.height) == p.page.first + at;
    assert s.screen[at][s.x] == CellAt(p.page, p.page.first + at, s.x);
  }

  lemma TypedShows(s: State, p: Paper, c: char)
    requires Shows(s, p)
    ensures Shows(Settled(Typed(s, c)), Written(p, s.height, Plain(c)))
  {
    hide RowOf, Settled, Pictures, WithRow, CellAt, Views, Line;
    InPlace(s);
    if c == '\n' {
      MovedShows(s, p, 0, p.row + 1);
    } else if c == '\r' {
      MovedShows(s, p, 0, p.row);
      InView(s, p);
    } else if c == 8 as char || Printable(c) {
      UnderCursor(s, p);
      var cell := if Printable(c) then Cell(c, p.fg, p.bg) else RowOf(s)[s.x].(ch := ' ');
      PutShows(s, p, cell);
      Colours(s, p);
      var t, q := WithRow(s, RowOf(s)[s.x := cell]), Put(p, s.height, cell);
      WrittenRow(s, RowOf(s)[s.x := cell]);
      var x := if Printable(c) then s.x + 1 else s.x - 1;
      OtherColumn(t, q, x);
      SettledShows(t.(x := x), q, p.row);
    }
  }

  lemma Colours(s: State, p: Paper)
    requires Pictures(s, p)
    ensures s.fg == p.fg && s.bg == p.bg && s.width == p.width
  {
  }

  lemma WrittenRow(s: State, row: Row)
    requires Fits(s)
    ensures WithRow(s, row).(screen := s.screen) == s
  {
  }

  lemma OtherColumn(s: State, p: Paper, x: int)
    requires Pictures(s, p)
    ensures Pictures(s.(x := x), p)
  {
  }

  /** A cursor in the screen is above the row below the view. */
  lemma InView(s: State, p: Paper)
    requires Shows(s, p)
    ensures p.row < p.page.first + s.height && 0 <= p.x < p.width && Goes(p, s.height, 0, p.row) == p.(x := 0)
  {
  }

  /** After rows are erased the screen still shows the sheet, if it does so cell by cell. */
  lemma ErasedShows(s: State, p: Paper, params: string, final: char, rows: seq<Row>)
    requires Shows(s, p) && Grid(rows, s.width, s.height)
    requires forall r, c :: 0 <= r < s.height && 0 <= c < s.width ==>
      rows[r][c] == if Erases(params, final, At(s.y, s.height), s.x, r, c) then BLANK else s.screen[r][c]
    ensures Shows(s.(screen := rows), Erased(p, s.height, params, final))
  {
    var t, q := s.(screen := rows), Erased(p, s.height, params, final);
    var at := At(s.y, s.height);
    assert Line(p, s.height) == p.page.first + at;
    forall r, c | 0 <= r < s.height && 0 <= c < s.width
      ensures t.screen[r][c] == CellAt(q.page, q.page.first + r, c)
    {
      assert s.screen[r][c] == CellAt(p.page, p.page.first + r, c);
      ErasesBelow(params, final, at, s.x, r, c, p.page.first);
    }
    assert Views(t.screen, q.page, s.width, s.height);
  }

  lemma ErasesBelow(params: string, final: char, line: int, x: int, row: int, column: int, first: int)
    ensures Erases(params, final, line, x, row, column) <==>
      Erases(params, final, first + line, x, first + row, column)
  {
  }

  /** The rows after an erasing sequence. */
  function RowsLeft(s: State, params: string, final: char): seq<Row>
    requires Fits(s) && final in "KXJ" && Escaped(s, params, final).Going?
  {
    Escaped(s, params, final).state.screen
  }

  lemma EraseInRow(s: State, params: string, final: char)
    requires Fits(s) && (final == 'K' || final == 'X')
    ensures Escaped(s, params, final).Going?
    ensures var rows := RowsLeft(s, params, final);
      && Escaped(s, params, final).state == s.(screen := rows) && Grid(rows, s.width, s.height)
      && forall r, c :: 0 <= r < s.height && 0 <= c < s.width ==>
           rows[r][c] == if Erases(params, final, At(s.y, s.height), s.x, r, c) then BLANK else s.screen[r][c]
  {
    hide Number, Numbers, Fit, BlankRows, Take, Drop, Style;
  }

  lemma EraseRows(s: State, params: string)
    requires Fits(s)
    ensures Escaped(s, params, 'J').Going?
    ensures var rows := RowsLeft(s, params, 'J');
      && Escaped(s, params, 'J').state == s.(screen := rows) && Grid(rows, s.width, s.height)
      && forall r, c :: 0 <= r < s.height && 0 <= c < s.width ==>
           rows[r][c] == if Erases(params, 'J', At(s.y, s.height), s.x, r, c) then BLANK else s.screen[r][c]
  {
    hide Number, Numbers, Drop, Style, RowOf;
  }

  lemma EscapedErases(s: State, p: Paper, params: string, final: char)
    requires Shows(s, p) && final in "KXJ"
    ensures Escaped(s, params, final).Going?
    ensures Shows(Settled(Escaped(s, params, final).state), Obeyed(p, s.height, params, final))
  {
    hide Number, Numbers, Escaped, Settled, Pictures, Erased, Erases, Goes;
    if final == 'J' {
      EraseRows(s, params);
    } else {
      EraseInRow(s, params, final);
    }
    ErasedShows(s, p, params, final, RowsLeft(s, params, final));
    InPlace(s.(screen := RowsLeft(s, params, final)));
  }

  // ---------------------------------------------------------------------------------------------
  // The other sequences
  // ---------------------------------------------------------------------------------------------

  lemma BlankPage(width: nat, height: nat)
    ensures Views(BlankRows(width, height), EMPTY, width, height)
  {
  }

  lemma ToggledShows(s: State, p: Paper)
    requires Shows(s, p)
    ensures !s.usingAlt ==> Shows(ToggledOn(s), Toggled(p))
    ensures s.usingAlt ==> Shows(ToggledOff(s), Toggled(p))
    ensures s.usingAlt ==> ToggledOn(s) == s
    ensures !s.usingAlt ==> ToggledOff(s) == s
  {
    hide Views, CellAt, EMPTY, BlankRows;
    BlankPage(s.width, s.height);
    GridOfView(s, p);
    BlankGrid(s.width, s.height);
  }

  lemma BlankGrid(width: nat, height: nat)
    ensures Grid(BlankRows(width, height), width, height)
  {
  }

  lemma ScrollShows(s: State, p: Paper, n: nat)
    requires Shows(s, p)
    ensures var rows := Fit(Drop(s.screen, n) + BlankRows(s.width, n), s.width, s.height);
      Shows(s.(screen := rows), p.(page := p.page.(first := p.page.first + n), row := p.row + n))
  {
    hide Views, Fit, Drop, BlankRows;
    ScrolledViews(s.screen, p.page, s.width, s.height, n);
  }

  lemma EscapedCounted(s: State, p: Paper, params: string, final: char)
    requires Shows(s, p) && final in "GdCABDP" && !Malformed(Sequence(params, final))
    ensures Escaped(s, params, final).Going?
    ensures Shows(Settled(Escaped(s, params, final).state), Obeyed(p, s.height, params, final))
  {
    hide Number, Numbers, Shows, Settled, Counted, Moved, Fits;
    ShowsFits(s, p);
    CountedShows(s, p, final, Parameter(params, 1).value);
    DeletingStays(p, s.height, Parameter(params, 1).value);
  }

  lemma DeletingStays(p: Paper, height: nat, n: nat)
    ensures Counted(p, height, 'P', n) == p
  {
  }

  lemma ShowsFits(s: State, p: Paper)
    requires Shows(s, p)
    ensures Fits(s) && s.y == p.row - p.page.first && s.x == p.x && s.usingAlt == p.usingAlt
    ensures s.fg == p.fg && s.bg == p.bg
  {
  }

  lemma EscapedPlaced(s: State, p: Paper, params: string, final: char)
    requires Shows(s, p) && (final == 'H' || final == 'r') && !Malformed(Sequence(params, final))
    ensures Escaped(s, params, final).Going?
    ensures Shows(Settled(Escaped(s, params, final).state), Obeyed(p, s.height, params, final))
  {
    hide Number, Numbers, Shows, Settled, Goes, Fits;
    ShowsFits(s, p);
    InPlace(s);
    NoNumbers();
    if final == 'H' && params == "" {
      MovedShows(s, p, 0, p.page.first);
    } else if Numbers(params).Some? && |Numbers(params).value| == 2 {
      var ns := Numbers(params).value;
      if final == 'H' {
        MovedShows(s, p, ns[1] as int - 1, p.page.first + ns[0] - 1);
      } else {
        MovedShows(s, p, s.x, p.page.first + ns[0]);
      }
    }
  }

  lemma StyledShows(s: State, p: Paper, params: string)
    requires Shows(s, p)
    ensures Shows(Styled(s, params), p.(fg := Style(p.fg, p.bg, params).0, bg := Style(p.fg, p.bg, params).1))
  {
    hide Views, Style;
  }

  lemma EscapedOthers(s: State, p: Paper, params: string, final: char)
    requires Shows(s, p) && final !in "GdCABDPHKXJr" && !Malformed(Sequence(params, final))
    ensures Escaped(s, params, final).Going?
    ensures Shows(Settled(Escaped(s, params, final).state), Obeyed(p, s.height, params, final))
  {
    hide Number, Numbers, Shows, Settled, Fits, Style, Toggled, Fit, Drop, BlankRows, ToggledOn, ToggledOff;
    ShowsFits(s, p);
    InPlace(s);
    if final == 'S' {
      ScrollShows(s, p, Number(params).value);
      ShowsFits(Escaped(s, params, final).state, Obeyed(p, s.height, params, final));
    } else if final == 'm' {
      StyledShows(s, p, params);
      ShowsFits(Escaped(s, params, final).state, Obeyed(p, s.height, params, final));
    } else if params == "?1049" && (final == 'h' || final == 'l') {
      ToggledShows(s, p);
      ShowsFits(Escaped(s, params, final).state, Obeyed(p, s.height, params, final));
    }
    InPlace(Escaped(s, params, final).state);
  }

  /** Every event that does not end the worker: what the screen does is what the sheet does, seen in the view. */
  lemma StepShows(s: State, p: Paper, e: Event)
    requires Shows(s, p) && !Malformed(e)
    ensures Step(s, e).Going? && Shows(Step(s, e).state, Written(p, s.height, e))
    ensures Step(s, e).state.height == s.height
  {
    StepIsSafe(s, e);
    hide Typed, Settled, Malformed, Escaped, Obeyed, Shows, Fits;
    ShowsFits(s, p);
    InPlace(s);
    match e
    case Plain(c) => TypedShows(s, p, c);
    case LoneEscape =>
    case Sequence(params, final) =>
      if final in "GdCABDP" {
        EscapedCounted(s, p, params, final);
      } else if final in "KXJ" {
        EscapedErases(s, p, params, final);
      } else if final == 'H' || final == 'r' {
        EscapedPlaced(s, p, params, final);
      } else {
        EscapedOthers(s, p, params, final);
      }
  }

  function AllWritten(p: Paper, height: nat, events: seq<Event>): Paper
    decreases |events|
  {
    if events == [] then p else AllWritten(Written(p, height, events[0]), height, events[1..])
  }

  lemma {:induction false} RunShows(s: State, p: Paper, events: seq<Event>)
    requires Shows(s, p)
    requires forall e :: e in events ==> !Malformed(e)
    ensures Run(s, events).Going? && Shows(Run(s, events).state, AllWritten(p, s.height, events))
    decreases |events|
  {
    ShowsFits(s, p);
    hide Shows, Step, Written, Fits, Malformed;
    if events != [] {
      StepShows(s, p, events[0]);
      RunShows(Step(s, events[0]).state, Written(p, s.height, events[0]), events[1..]);
    }
  }

  /**
   From a blank screen, for every run of characters and sequences that does not end the worker: the screen
   of a terminal of any size is a view of what the same run does on endless sheets, one for each buffer,
   on which rows are written and erased where they are and only the view moves.
   */
  lemma ScreenIsAWindow(width: nat, height: nat, events: seq<Event>)
    requires width > 0 && height > 0
    requires forall e :: e in events ==> !Malformed(e)
    ensures Fits(Blank(width, height))
    ensures Run(Blank(width, height), events).Going?
    ensures Shows(Run(Blank(width, height), events).state, AllWritten(Sheet(width), height, events))
  {
    BlankPage(width, height);
    BlankGrid(width, height);
    hide Views, Written, BlankRows;
    assert Shows(Blank(width, height), Sheet(width));
    RunShows(Blank(width, height), Sheet(width), events);
  }

  // ---------------------------------------------------------------------------------------------
  // Characters and styles alone
  // ---------------------------------------------------------------------------------------------

  predicate Simple(e: Event) {
    e.Plain? || (e.Sequence? && e.final == 'm')
  }

  /** The same sheet, perhaps seen from another row on. */
  predicate SameSheet(p: Paper, q: Paper) {
    q == p.(page := p.page.(first := q.page.first))
  }

  predicate CursorInView(p: Paper, height: nat) {
    p.page.first <= p.row < p.page.first + height && 0 <= p.x < p.width
  }

  lemma SimpleStep(p: Paper, q: Paper, one: nat, other: nat, e: Event)
    requires SameSheet(p, q) && CursorInView(p, one) && CursorInView(q, other) && Simple(e)
    ensures SameSheet(Written(p, one, e), Written(q, other, e))
    ensures CursorInView(Written(p, one, e), one) && CursorInView(Written(q, other, e), other)
  {
    hide CellAt, Style, Put, Goes;
    SameCells(p.page, q.page, p.row, p.x);
    if e.Plain? {
      forall cell, x | -1 <= x <= p.x + 1
        ensures SameSheet(Goes(Put(p, one, cell), one, x, p.row), Goes(Put(q, other, cell), other, x, q.row))
        ensures CursorInView(Goes(Put(p, one, cell), one, x, p.row), one)
        ensures CursorInView(Goes(Put(q, other, cell), other, x, q.row), other)
      {
        PutSame(p, q, one, other, cell);
        GoesSame(Put(p, one, cell), Put(q, other, cell), one, other, x, p.row);
      }
      GoesSame(p, q, one, other, 0, p.row + 1);
    }
  }

  lemma PutSame(p: Paper, q: Paper, one: nat, other: nat, cell: Cell)
    requires SameSheet(p, q) && CursorInView(p, one) && CursorInView(q, other)
    ensures SameSheet(Put(p, one, cell), Put(q, other, cell))
    ensures CursorInView(Put(p, one, cell), one) && CursorInView(Put(q, other, cell), other)
    ensures Put(p, one, cell).row == p.row && Put(q, other, cell).row == q.row && Put(p, one, cell).x == p.x
  {
  }

  lemma GoesSame(p: Paper, q: Paper, one: nat, other: nat, x: int, row: int)
    requires SameSheet(p, q) && CursorInView(p, one) && CursorInView(q, other)
    requires x <= p.x + 1 && (row == p.row || (row == p.row + 1 && x == 0))
    ensures SameSheet(Goes(p, one, x, row), Goes(q, other, x, row))
    ensures CursorInView(Goes(p, one, x, row), one) && CursorInView(Goes(q, other, x, row), other)
  {
  }

  lemma SameCells(a: Page, b: Page, row: int, x: int)
    requires a.cells == b.cells
    ensures CellAt(a, row, x) == CellAt(b, row, x)
  {
  }

  /** What characters and styles write does not depend on how many rows are in view. */
  lemma {:induction false} SimpleIgnoresHeight(p: Paper, q: Paper, one: nat, other: nat, events: seq<Event>)
    requires SameSheet(p, q) && CursorInView(p, one) && CursorInView(q, other)
    requires forall e :: e in events ==> Simple(e)
    ensures SameSheet(AllWritten(p, one, events), AllWritten(q, other, events))
    decreases |events|
  {
    hide Written, SameSheet, CursorInView, Simple;
    if events != [] {
      SimpleStep(p, q, one, other, events[0]);
      SimpleIgnoresHeight(Written(p, one, events[0]), Written(q, other, events[0]), one, other, events[1..]);
    }
  }
}
