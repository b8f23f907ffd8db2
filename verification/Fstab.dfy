/**
 The reversible rewriting of `/etc/fstab`: an update comments out the lines that encryption makes wrong
 and appends its own, and a restore undoes any number of updates.
 */
module Fstab {
  import opened Text

  const REMOVED: string := "# REMOVED_BY_AUTO_TPM_ENCRYPT "
  const ADDED: string := " # ADDED_BY_AUTO_TPM_ENCRYPT"
  const PARTSETS: string := "/dev/disk/by-partsets/"
  const BY_UUID: string := "UUID="
  const HOME_DEVICE: string := "/dev/mapper/tpm_encrypted_home"
  const VAR_DEVICE: string := "/dev/mapper/tpm_encrypted_var"
  const HOME_OPTIONS: string := "ext4 defaults,nofail 0 2"
  const VAR_OPTIONS: string := "ext4 defaults 0 2"
  const HOME_MOUNT: string := HOME_DEVICE + " " + "/home" + " " + HOME_OPTIONS
  const VAR_MOUNT: string := VAR_DEVICE + " " + "/var" + " " + VAR_OPTIONS

  /** What an update depends on: the system, the encrypted volumes, and which partitions there are. */
  datatype Setup = Setup(steamos: bool, uuids: set<string>, home: bool, varPart: bool)

  // ---------------------------------------------------------------------------------------------
  // What the two do
  // ---------------------------------------------------------------------------------------------

  lemma UuidWord(line: string)
    requires StartsWith(line, BY_UUID)
    ensures |FirstWord(line)| >= 5
  {
    assert forall i :: 0 <= i < 5 ==> line[i] == BY_UUID[i] && !IsSpace(line[i]);
  }

  /** The line mounts something that encryption replaces. */
  predicate Outdated(u: Setup, line: string) {
    || (u.steamos && StartsWith(line, PARTSETS))
    || (StartsWith(line, BY_UUID) && (UuidWord(line); FirstWord(line)[5..] in u.uuids))
  }

  /** A last empty line is not looked at. */
  function Considered(lines: seq<string>): seq<string> {
    if |lines| > 1 && lines[|lines| - 1] == "" then lines[..|lines| - 1] else lines
  }

  function FromLine(u: Setup, line: string): seq<string> {
    if EndsWith(line, ADDED) then [] else [if Outdated(u, line) then REMOVED + line else line]
  }

  function Kept(u: Setup, lines: seq<string>): seq<string> {
    if lines == [] then [] else FromLine(u, lines[0]) + Kept(u, lines[1..])
  }

  function Own(u: Setup): seq<string> {
    (if u.home then [HOME_MOUNT + ADDED] else []) + (if u.varPart then [VAR_MOUNT + ADDED] else [])
  }

  function Updated(u: Setup, lines: seq<string>): seq<string> {
    Kept(u, lines) + Own(u)
  }

  /** Without a home and a var partition the file is left alone. */
  predicate Touches(u: Setup) {
    u.home || u.varPart
  }

  function Update(u: Setup, text: string): string {
    var lines := Considered(Read(text));
    if !Touches(u) || Updated(u, lines) == lines then text else Print(Updated(u, lines))
  }

  function Restored(lines: seq<string>): seq<string> {
    if lines == [] then []
    else
      var line, rest := lines[0], Restored(lines[1..]);
      if StartsWith(line, REMOVED) then [line[|REMOVED|..]] + rest
      else if EndsWith(line, ADDED) then rest
      else [line] + rest
  }

  function Restore(text: string): string {
    Print(Restored(Read(text)))
  }

  // ---------------------------------------------------------------------------------------------
  // The tool's loops
  // ---------------------------------------------------------------------------------------------

  method KeepLines(u: Setup, original: seq<string>) returns (copy: seq<string>)
    ensures copy == Kept(u, original)
  {
    hide Outdated, EndsWith, REMOVED, ADDED, Kept;
    copy := [];
    var i := 0;
    while i < |original|
      invariant 0 <= i <= |original|
      invariant Kept(u, original) == copy + Kept(u, original[i..])
    {
      var line := original[i];
      FirstKept(u, original[i..]);
      assert original[i..][1..] == original[i + 1..];
      if !EndsWith(line, ADDED) {
        copy := copy + [if Outdated(u, line) then REMOVED + line else line];
      }
      i := i + 1;
    }
    assert original[i..] == [];
    FirstKept(u, []);
    assert copy + [] == copy;
  }

  method UpdateFstab(u: Setup, text: string) returns (result: string)
    ensures result == Update(u, text)
  {
    hide Outdated, HOME_MOUNT, VAR_MOUNT, ADDED, Kept, Read, Print;
    if !u.home && !u.varPart {
      return text;
    }
    var original := Read(text);
    if |original| > 1 && original[|original| - 1] == "" {
      original := original[..|original| - 1];
    }
    var copy := KeepLines(u, original);
    assert copy + [] == copy;
    ghost var kept := copy;
    if u.home {
      copy := copy + [HOME_MOUNT + ADDED];
    }
    if u.varPart {
      copy := copy + [VAR_MOUNT + ADDED];
    }
    assert copy == kept + Own(u);
    result := if copy != original then Print(copy) else text;
  }

  method RestoreFstab(text: string) returns (result: string)
    ensures result == Restore(text)
  {
    hide StartsWith, EndsWith, REMOVED, ADDED, Restored, Read, Print;
    var lines := Read(text);
    var buf := [];
    var i := 0;
    while i < |lines|
      invariant 0 <= i <= |lines|
      invariant Restored(lines) == buf + Restored(lines[i..])
    {
      var line := lines[i];
      assert lines[i..][1..] == lines[i + 1..];
      FirstRestored(lines[i..]);
      if StartsWith(line, REMOVED) {
        buf := buf + [line[|REMOVED|..]];
      } else if !EndsWith(line, ADDED) {
        buf := buf + [line];
      }
      i := i + 1;
    }
    assert lines[i..] == [];
    FirstRestored([]);
    assert buf + [] == buf;
    result := Print(buf);
  }

  lemma FirstKept(u: Setup, lines: seq<string>)
    ensures lines == [] ==> Kept(u, lines) == []
    ensures lines != [] ==> Kept(u, lines) == FromLine(u, lines[0]) + Kept(u, lines[1..])
  {
    hide FromLine;
  }

  lemma FirstRestored(lines: seq<string>)
    ensures lines == [] ==> Restored(lines) == []
    ensures lines != [] && StartsWith(lines[0], REMOVED) ==>
      |lines[0]| >= |REMOVED| && Restored(lines) == [lines[0][|REMOVED|..]] + Restored(lines[1..])
    ensures lines != [] && !StartsWith(lines[0], REMOVED) ==>
      Restored(lines) == (if EndsWith(lines[0], ADDED) then [] else [lines[0]]) + Restored(lines[1..])
  {
    hide EndsWith, ADDED, REMOVED;
  }

  // ---------------------------------------------------------------------------------------------
  // Lines
  // ---------------------------------------------------------------------------------------------

  /** The line carries none of the tool's marks. */
  predicate Foreign(line: string) {
    !StartsWith(line, REMOVED) && !EndsWith(line, ADDED)
  }

  /** No line carries both marks. */
  predicate NoDouble(lines: seq<string>) {
    forall line :: line in lines ==> !(StartsWith(line, REMOVED) && EndsWith(line, ADDED))
  }

  lemma MarkLetters()
    ensures '=' !in ADDED && '/' !in ADDED && |ADDED| == 28 && ADDED[27] == 'T' && '\n' !in ADDED
    ensures |REMOVED| == 30 && REMOVED[0] == '#' && REMOVED[29] == ' ' && '\n' !in REMOVED
    ensures PARTSETS[0] == '/' && |PARTSETS| > 4 && |BY_UUID| == 5 && BY_UUID[0] == 'U' && BY_UUID[4] == '='
  {
  }

  lemma InSuffix(s: string, suffix: string, k: nat)
    requires k < |s|
    ensures EndsWith(s, suffix) && k >= |s| - |suffix| ==> s[k] in suffix
  {
    if EndsWith(s, suffix) && k >= |s| - |suffix| {
      assert s[|s| - |suffix|..][k - (|s| - |suffix|)] == s[k];
    }
  }

  /** Commenting out a line does not make it look like one of the tool's own. */
  lemma StraddlesNot(line: string, at: nat)
    requires at < |line| && (line[at] == '=' || line[at] == '/')
    ensures EndsWith(REMOVED + line, ADDED) ==> EndsWith(line, ADDED)
  {
    MarkLetters();
    hide REMOVED, ADDED;
    var marked := REMOVED + line;
    InSuffix(marked, ADDED, |REMOVED| + at);
    assert marked[|REMOVED| + at] == line[at];
    if EndsWith(marked, ADDED) {
      assert marked[|marked| - |ADDED|..] == line[|line| - |ADDED|..];
    }
  }

  lemma PrefixLetters(line: string, prefix: string, k: nat)
    requires StartsWith(line, prefix) && k < |prefix|
    ensures k < |line| && line[k] == prefix[k]
  {
    assert line[..|prefix|][k] == line[k];
  }

  /** An outdated line has no mark of its own, and commenting it out gives it only the one. */
  lemma OutdatedLine(u: Setup, line: string)
    requires Outdated(u, line)
    ensures !StartsWith(line, REMOVED)
    ensures EndsWith(REMOVED + line, ADDED) ==> EndsWith(line, ADDED)
    ensures StartsWith(REMOVED + line, REMOVED) && (REMOVED + line)[|REMOVED|..] == line
    ensures !Outdated(u, REMOVED + line)
    ensures Tidy(line) ==> Tidy(REMOVED + line)
  {
    MarkLetters();
    hide REMOVED, ADDED, PARTSETS, BY_UUID, FirstWord;
    var marked := REMOVED + line;
    if StartsWith(line, BY_UUID) {
      PrefixLetters(line, BY_UUID, 0);
      PrefixLetters(line, BY_UUID, 4);
      StraddlesNot(line, 4);
    } else {
      PrefixLetters(line, PARTSETS, 0);
      StraddlesNot(line, 0);
    }
    assert marked[0] == '#' && marked[..|REMOVED|] == REMOVED && marked[|REMOVED|..] == line;
    assert marked[|marked| - 1] == line[|line| - 1];
    Letters(line);
    Letters(marked);
  }

  lemma Letters(line: string)
    ensures StartsWith(line, REMOVED) ==> line != "" && line[0] == '#'
    ensures StartsWith(line, PARTSETS) ==> line != "" && line[0] == '/'
    ensures StartsWith(line, BY_UUID) ==> line != "" && line[0] == 'U'
  {
    MarkLetters();
    hide REMOVED, PARTSETS, BY_UUID;
    if StartsWith(line, REMOVED) {
      PrefixLetters(line, REMOVED, 0);
    }
    if StartsWith(line, PARTSETS) {
      PrefixLetters(line, PARTSETS, 0);
    }
    if StartsWith(line, BY_UUID) {
      PrefixLetters(line, BY_UUID, 0);
    }
  }

  predicate OwnLine(line: string) {
    EndsWith(line, ADDED) && !StartsWith(line, REMOVED) && Tidy(line) && line != ""
  }

  lemma MountIsOwnLine(mount: string)
    requires mount != "" && mount[0] == '/' && '\n' !in mount
    ensures OwnLine(mount + ADDED)
  {
    MarkLetters();
    hide ADDED, REMOVED;
    var line := mount + ADDED;
    assert line[|line| - |ADDED|..] == ADDED;
    assert line[0] == '/' && line[|line| - 1] == 'T';
    Letters(line);
  }

  lemma OwnLines(u: Setup)
    ensures forall line :: line in Own(u) ==> OwnLine(line)
  {
    hide ADDED, OwnLine;
    MountIsOwnLine(HOME_MOUNT);
    MountIsOwnLine(VAR_MOUNT);
  }

  /** The lines that are not the tool's own. */
  function Bare(lines: seq<string>): seq<string> {
    if lines == [] then [] else (if EndsWith(lines[0], ADDED) then [] else [lines[0]]) + Bare(lines[1..])
  }

  lemma FirstBare(lines: seq<string>)
    ensures lines == [] ==> Bare(lines) == []
    ensures lines != [] ==> Bare(lines) == (if EndsWith(lines[0], ADDED) then [] else [lines[0]]) + Bare(lines[1..])
  {
  }

  lemma {:induction false} KeptAndRestored(u: Setup, lines: seq<string>)
    ensures Restored(Kept(u, lines)) == Restored(Bare(lines))
    decreases |lines|
  {
    hide Outdated, StartsWith, EndsWith, ADDED, REMOVED, Kept, Restored, Bare;
    FirstKept(u, lines);
    FirstBare(lines);
    if lines != [] {
      var line, rest := lines[0], lines[1..];
      KeptAndRestored(u, rest);
      if EndsWith(line, ADDED) {
        assert Kept(u, lines) == Kept(u, rest) && Bare(lines) == Bare(rest);
      } else {
        if Outdated(u, line) {
          OutdatedLine(u, line);
        }
        var first := if Outdated(u, line) then REMOVED + line else line;
        var kept, bare := [first] + Kept(u, rest), [line] + Bare(rest);
        assert Kept(u, lines) == kept && kept[0] == first && kept[1..] == Kept(u, rest);
        assert Bare(lines) == bare && bare[0] == line && bare[1..] == Bare(rest);
        FirstRestored(kept);
        FirstRestored(bare);
      }
    }
  }

  lemma {:induction false} BareAndRestored(lines: seq<string>)
    requires NoDouble(lines)
    ensures Restored(Bare(lines)) == Restored(lines)
    decreases |lines|
  {
    hide StartsWith, EndsWith, ADDED, REMOVED, Restored, Bare;
    FirstBare(lines);
    FirstRestored(lines);
    if lines != [] {
      var line, rest := lines[0], lines[1..];
      assert line in lines;
      BareAndRestored(rest);
      if EndsWith(line, ADDED) {
        assert Bare(lines) == Bare(rest);
      } else {
        var bare := [line] + Bare(rest);
        assert Bare(lines) == bare && bare[0] == line && bare[1..] == Bare(rest);
        FirstRestored(bare);
      }
    }
  }

  lemma {:induction false} RestoredJoins(a: seq<string>, b: seq<string>)
    ensures Restored(a + b) == Restored(a) + Restored(b)
    decreases |a|
  {
    hide StartsWith, EndsWith, ADDED, REMOVED, Restored;
    FirstRestored(a);
    FirstRestored(a + b);
    if a == [] {
      assert a + b == b;
    } else {
      RestoredJoins(a[1..], b);
      assert (a + b)[1..] == a[1..] + b;
    }
  }

  lemma {:induction false} OwnLinesGo(u: Setup, lines: seq<string>)
    requires forall line :: line in lines ==> OwnLine(line)
    ensures Restored(lines) == [] && Kept(u, lines) == []
    decreases |lines|
  {
    hide Outdated, StartsWith, EndsWith, ADDED, REMOVED, Restored, Kept;
    FirstRestored(lines);
    FirstKept(u, lines);
    if lines != [] {
      assert OwnLine(lines[0]);
      OwnLinesGo(u, lines[1..]);
      assert [] + Restored(lines[1..]) == [];
    }
  }

  /** For every file: what a restore gives after an update does not depend on the update. */
  lemma UpdateKeepsRestored(u: Setup, lines: seq<string>)
    ensures Restored(Updated(u, lines)) == Restored(Bare(lines)) && NoDouble(Updated(u, lines))
  {
    hide Outdated, StartsWith, EndsWith, ADDED, REMOVED, Restored, Kept, Own, Bare;
    KeptAndRestored(u, lines);
    KeptIsClean(u, lines);
    OwnLines(u);
    OwnLinesGo(u, Own(u));
    RestoredJoins(Kept(u, lines), Own(u));
    assert Restored(Bare(lines)) + [] == Restored(Bare(lines));
  }

  /** A second update with the same setup has nothing to do. */
  lemma {:induction false} KeptTwice(u: Setup, lines: seq<string>)
    requires forall line :: line in lines ==> !EndsWith(line, ADDED) && !Outdated(u, line)
    ensures Kept(u, lines) == lines
    decreases |lines|
  {
    hide Outdated, EndsWith, ADDED, REMOVED, Kept;
    FirstKept(u, lines);
    if lines != [] {
      KeptTwice(u, lines[1..]);
    }
  }

  lemma {:induction false} KeptJoins(u: Setup, a: seq<string>, b: seq<string>)
    ensures Kept(u, a + b) == Kept(u, a) + Kept(u, b)
    decreases |a|
  {
    hide FromLine, Kept;
    FirstKept(u, a);
    FirstKept(u, a + b);
    if a == [] {
      assert a + b == b;
    } else {
      KeptJoins(u, a[1..], b);
      assert (a + b)[1..] == a[1..] + b;
    }
  }

  lemma {:induction false} KeptIsClean(u: Setup, lines: seq<string>)
    ensures forall line :: line in Kept(u, lines) ==> !EndsWith(line, ADDED) && !Outdated(u, line)
    ensures (forall line :: line in lines ==> Tidy(line)) ==> forall line :: line in Kept(u, lines) ==> Tidy(line)
    decreases |lines|
  {
    hide Outdated, StartsWith, EndsWith, ADDED, REMOVED, Kept, Tidy;
    FirstKept(u, lines);
    if lines != [] {
      KeptIsClean(u, lines[1..]);
      if Outdated(u, lines[0]) {
        OutdatedLine(u, lines[0]);
      }
    }
  }

  lemma UpdatedIsTidy(u: Setup, lines: seq<string>)
    requires forall line :: line in lines ==> Tidy(line)
    ensures forall line :: line in Updated(u, lines) ==> Tidy(line)
  {
    hide Outdated, StartsWith, EndsWith, ADDED, REMOVED, Kept, Tidy, Own;
    KeptIsClean(u, lines);
    OwnLines(u);
    OwnIsTidy(u);
  }

  lemma OwnIsTidy(u: Setup)
    ensures forall line :: line in Own(u) ==> Tidy(line) && line != ""
  {
    hide Own, Tidy, EndsWith, StartsWith, ADDED, REMOVED;
    OwnLines(u);
  }

  // ---------------------------------------------------------------------------------------------
  // Files
  // ---------------------------------------------------------------------------------------------

  lemma OwnIsThere(u: Setup)
    ensures Touches(u) ==> Own(u) != []
  {
  }

  lemma OwnComesLast(u: Setup, kept: seq<string>)
    ensures Touches(u) ==> Considered(kept + Own(u)) == kept + Own(u) && kept + Own(u) != []
  {
    OwnIsThere(u);
    OwnIsTidy(u);
    hide Own;
    var own, w := Own(u), kept + Own(u);
    if own != [] {
      assert w[|w| - 1] == own[|own| - 1] && own[|own| - 1] in own;
    }
  }

  lemma UpdatedTwice(u: Setup, lines: seq<string>)
    ensures Updated(u, Updated(u, lines)) == Updated(u, lines)
  {
    hide Outdated, Kept, Own, OwnLine, EndsWith, ADDED;
    var kept, own := Kept(u, lines), Own(u);
    KeptIsClean(u, lines);
    KeptTwice(u, kept);
    OwnLines(u);
    OwnLinesGo(u, own);
    KeptJoins(u, kept, own);
    assert kept + [] == kept;
  }

  /** What an update writes is read as it was written, and none of it is left unconsidered. */
  lemma WrittenIsRead(u: Setup, text: string)
    requires Touches(u) && Updated(u, Considered(Read(text))) != Considered(Read(text))
    ensures var w := Updated(u, Considered(Read(text)));
      Read(Update(u, text)) == w && Considered(w) == w
  {
    hide Outdated, Kept, Own, Read, Print, Tidy;
    var lines := Considered(Read(text));
    ReadIsTidy(text);
    UpdatedIsTidy(u, lines);
    OwnComesLast(u, Kept(u, lines));
    ReadUndoesPrint(Updated(u, lines));
  }

  /** For every file, however it looks: repeating an update changes nothing. */
  lemma UpdateIsIdempotent(u: Setup, text: string)
    ensures Update(u, Update(u, text)) == Update(u, text)
  {
    hide Updated, Read, Print, Considered;
    var lines := Considered(Read(text));
    if Touches(u) && Updated(u, lines) != lines {
      WrittenIsRead(u, text);
      UpdatedTwice(u, lines);
    }
  }

  // ---------------------------------------------------------------------------------------------
  // Updates and one restore
  // ---------------------------------------------------------------------------------------------

  predicate AllForeign(lines: seq<string>) {
    forall line :: line in lines ==> Foreign(line)
  }

  /** The last of several lines is empty. */
  predicate EndsBlank(lines: seq<string>) {
    |lines| > 1 && lines[|lines| - 1] == ""
  }

  predicate SomeTouch(us: seq<Setup>) {
    exists u :: u in us && Touches(u)
  }

  function Updates(us: seq<Setup>, text: string): string
    decreases |us|
  {
    if us == [] then text else Updates(us[1..], Update(us[0], text))
  }

  /** The file was written by an update, and a restore gives `x`. */
  predicate Carries(lines: seq<string>, x: seq<string>) {
    NoDouble(lines) && Considered(lines) == lines && Restored(lines) == x
  }

  lemma UpdateCarries(u: Setup, text: string)
    ensures Update(u, text) == text || Carries(Read(Update(u, text)), Restored(Bare(Considered(Read(text)))))
  {
    hide Updated, Read, Print, Considered, Restored, Bare, NoDouble;
    var lines := Considered(Read(text));
    if Touches(u) && Updated(u, lines) != lines {
      WrittenIsRead(u, text);
      UpdateKeepsRestored(u, lines);
    }
  }

  lemma {:induction false} UpdatesKeepCarrying(us: seq<Setup>, text: string, x: seq<string>)
    requires Carries(Read(text), x)
    ensures Carries(Read(Updates(us, text)), x)
    decreases |us|
  {
    hide Update, Read, Restored, Bare, Considered, NoDouble;
    if us != [] {
      UpdateCarries(us[0], text);
      BareAndRestored(Read(text));
      UpdatesKeepCarrying(us[1..], Update(us[0], text), x);
    }
  }

  /** An update of a file without marks has its own lines to add. */
  lemma FirstTouchWrites(u: Setup, lines: seq<string>)
    requires Touches(u) && AllForeign(lines)
    ensures Updated(u, lines) != lines
  {
    hide Kept, Own, EndsWith, StartsWith, ADDED, REMOVED;
    OwnIsThere(u);
    OwnLines(u);
    var w := Updated(u, lines);
    assert w[|w| - 1] == Own(u)[|Own(u)| - 1] && Own(u)[|Own(u)| - 1] in Own(u);
    assert w[|w| - 1] in w;
  }

  lemma ConsideredIsPart(lines: seq<string>)
    ensures Considered(lines) == lines <==> !EndsBlank(lines)
    ensures Considered(lines) == lines <==> |Considered(lines)| == |lines|
    ensures |Considered(lines)| <= |lines| && (AllForeign(lines) ==> AllForeign(Considered(lines)))
  {
    hide Foreign;
  }

  lemma {:induction false} UpdatesCarry(us: seq<Setup>, text: string)
    ensures Updates(us, text) == text || Carries(Read(Updates(us, text)), Restored(Bare(Considered(Read(text)))))
    ensures AllForeign(Read(text)) && SomeTouch(us) ==>
      Carries(Read(Updates(us, text)), Restored(Bare(Considered(Read(text)))))
    ensures !SomeTouch(us) ==> Updates(us, text) == text
    decreases |us|
  {
    hide Read, Restored, Bare, Considered, Updated, Carries, AllForeign, Print;
    if us != [] {
      var u, next := us[0], Update(us[0], text);
      assert SomeTouch(us) <==> Touches(u) || SomeTouch(us[1..]);
      UpdateCarries(u, text);
      if Carries(Read(next), Restored(Bare(Considered(Read(text))))) {
        UpdatesKeepCarrying(us[1..], next, Restored(Bare(Considered(Read(text)))));
      }
      UpdatesCarry(us[1..], text);
      ConsideredIsPart(Read(text));
      if Touches(u) && AllForeign(Read(text)) {
        FirstTouchWrites(u, Considered(Read(text)));
        WrittenIsRead(u, text);
        UpdateKeepsRestored(u, Considered(Read(text)));
      }
    }
  }

  /** What is left of lines: not more of them, and when as many, none longer. */
  predicate Shrinks(x: seq<string>, lines: seq<string>) {
    && |x| <= |lines|
    && (|x| == |lines| ==> forall i :: 0 <= i < |x| ==> x[i] == lines[i] || |x[i]| < |lines[i]|)
  }

  lemma {:induction false} RestoredShrinks(lines: seq<string>)
    ensures Shrinks(Restored(lines), lines)
    decreases |lines|
  {
    MarkLetters();
    hide StartsWith, EndsWith, ADDED, REMOVED, Restored;
    FirstRestored(lines);
    if lines != [] {
      RestoredShrinks(lines[1..]);
    }
  }

  lemma {:induction false} BareIsPart(lines: seq<string>)
    ensures |Bare(lines)| <= |lines| && (|Bare(lines)| == |lines| ==> Bare(lines) == lines)
    ensures AllForeign(lines) ==> Bare(lines) == lines
    decreases |lines|
  {
    hide EndsWith, StartsWith, ADDED, REMOVED, Bare;
    FirstBare(lines);
    if lines != [] {
      BareIsPart(lines[1..]);
      assert lines == [lines[0]] + lines[1..];
      assert lines[0] in lines;
    }
  }

  /** A restore gives the lines back exactly when none of them carries a mark. */
  lemma {:induction false} RestoredExactly(lines: seq<string>)
    ensures Restored(lines) == lines <==> AllForeign(lines)
    decreases |lines|
  {
    MarkLetters();
    hide StartsWith, EndsWith, ADDED, REMOVED, Restored;
    FirstRestored(lines);
    if lines != [] {
      RestoredExactly(lines[1..]);
      RestoredShrinks(lines[1..]);
      assert lines == [lines[0]] + lines[1..];
      if Foreign(lines[0]) {
        assert Restored(lines)[1..] == Restored(lines[1..]);
      } else {
        assert lines[0] in lines;
      }
    }
  }

  /** The lines that a restore after the updates prints. */
  function Back(us: seq<Setup>, text: string): seq<string> {
    Restored(Read(Updates(us, text)))
  }

  lemma BackShrinks(us: seq<Setup>, text: string)
    ensures Shrinks(Back(us, text), Read(text))
  {
    hide Read, Restored, Bare, Updates;
    var lines := Read(text);
    UpdatesCarry(us, text);
    RestoredShrinks(lines);
    ConsideredIsPart(lines);
    BareIsPart(Considered(lines));
    RestoredShrinks(Bare(Considered(lines)));
  }

  /** Line by line, what comes back is what was there exactly under the condition on the original file. */
  lemma BackExactly(us: seq<Setup>, text: string)
    ensures Back(us, text) == Read(text) <==>
      AllForeign(Read(text)) && (SomeTouch(us) ==> !EndsBlank(Read(text)))
  {
    hide Read, Restored, Bare, Updates, SomeTouch, AllForeign, EndsBlank, Considered;
    var lines := Read(text);
    UpdatesCarry(us, text);
    RestoredExactly(lines);
    ConsideredIsPart(lines);
    BareIsPart(Considered(lines));
    RestoredExactly(Considered(lines));
    RestoredShrinks(Bare(Considered(lines)));
  }

  lemma {:induction false} RestoredHasNoNewlines(lines: seq<string>)
    requires forall line :: line in lines ==> '\n' !in line
    ensures forall line :: line in Restored(lines) ==> '\n' !in line
    decreases |lines|
  {
    hide StartsWith, EndsWith, ADDED, REMOVED, Restored;
    FirstRestored(lines);
    if lines != [] {
      RestoredHasNoNewlines(lines[1..]);
      var line := lines[0];
      assert line in lines;
    }
  }

  /** Printing tells lists of lines apart, but for no line and one empty line. */
  lemma PrintTellsApart(a: seq<string>, b: seq<string>)
    requires forall line :: line in a || line in b ==> '\n' !in line
    ensures Print(a) == Print(b) <==> a == b || (a == [] && b == [""]) || (a == [""] && b == [])
  {
    NoLinePrints();
    hide Print, Lines;
    LinesOfPrint(if a == [] then [""] else a);
    LinesOfPrint(if b == [] then [""] else b);
  }

  lemma NoLinePrints()
    ensures Print([]) == Print([""]) == "\n"
  {
  }

  /**
   For every file and any updates: one restore prints the original lines if and only if none of them
   looked like one of the tool's own and, when an update touched the file, the last of several lines was
   not empty.
   */
  lemma RestoreUndoesUpdatesExactly(us: seq<Setup>, text: string)
    ensures Restore(Updates(us, text)) == Print(Read(text)) <==>
      AllForeign(Read(text)) && (SomeTouch(us) ==> !EndsBlank(Read(text)))
  {
    hide Updates, Restored, Read, Print, SomeTouch;
    BackExactly(us, text);
    BackShrinks(us, text);
    ReadIsTidy(text);
    ReadIsTidy(Updates(us, text));
    RestoredHasNoNewlines(Read(Updates(us, text)));
    PrintTellsApart(Back(us, text), Read(text));
    BlankIsForeign();
  }

  lemma BlankIsForeign()
    ensures Foreign("")
  {
    MarkLetters();
  }

  lemma StrippedShrinks(x: seq<string>, lines: seq<string>)
    requires StripAll(x) == lines && Shrinks(x, lines)
    ensures x == lines
  {
    forall i | 0 <= i < |x|
      ensures x[i] == lines[i]
    {
      assert |Strip(x[i])| <= |x[i]|;
    }
  }

  /** The file comes back letter by letter if and only if, besides, it was written as the tool writes files. */
  lemma RestoreGivesTheFileBackExactly(us: seq<Setup>, text: string)
    ensures Restore(Updates(us, text)) == text <==>
      text == Print(Read(text)) && AllForeign(Read(text)) && (SomeTouch(us) ==> !EndsBlank(Read(text)))
  {
    hide Updates, Restored, Print, SomeTouch, Lines, StripAll;
    RestoreUndoesUpdatesExactly(us, text);
    if Restore(Updates(us, text)) == text {
      var x := Back(us, text);
      BackShrinks(us, text);
      ReadIsTidy(Updates(us, text));
      RestoredHasNoNewlines(Read(Updates(us, text)));
      NoLinePrints();
      LinesOfPrint(if x == [] then [""] else x);
      if x == [] {
        BackOfOneBlank(us, text);
      }
      StrippedShrinks(x, Read(text));
    }
  }

  lemma BackOfOneBlank(us: seq<Setup>, text: string)
    requires text == "\n"
    ensures Back(us, text) == [""]
  {
    hide Updates, Restored, Print, SomeTouch;
    NoLinePrints();
    ReadUndoesPrint([""]);
    BlankIsForeign();
    BackExactly(us, text);
  }

  /** What the code does not restore: an empty last line, once an update has touched the file. */
  lemma TrailingBlankIsLost(us: seq<Setup>, text: string)
    requires SomeTouch(us) && EndsBlank(Read(text))
    ensures Restore(Updates(us, text)) != Print(Read(text))
  {
    RestoreUndoesUpdatesExactly(us, text);
  }

  /** An empty file gets a newline, whatever the updates. */
  lemma EmptyFileIsNotRestored(us: seq<Setup>)
    ensures Restore(Updates(us, "")) == "\n"
  {
    RestoreUndoesUpdatesExactly(us, "");
  }
}
