/** What an updated `/etc/fstab` mounts, in the words of its lines. */
module FstabMounts {
  import opened Text
  import opened Fstab

  // ---------------------------------------------------------------------------------------------
  // Words
  // ---------------------------------------------------------------------------------------------

  /** The words of a line, between its spaces. */
  function Words(line: string): seq<string>
    decreases |line|
  {
    if line == "" then []
    else if IsSpace(line[0]) then Words(line[1..])
    else
      var n := Until(line, false);
      assert n > 0;
      [line[..n]] + Words(line[n..])
  }

  predicate Word(w: string) {
    w != "" && forall i :: 0 <= i < |w| ==> !IsSpace(w[i])
  }

  lemma NextWord(w: string, rest: string)
    requires Word(w)
    ensures FirstWord(w + " " + rest) == w && Words(w + " " + rest) == [w] + Words(rest)
  {
    var line := w + " " + rest;
    assert forall i :: 0 <= i < |w| ==> line[i] == w[i];
    assert line[|w|] == ' ';
    assert Until(line, false) == |w|;
    assert line[..|w|] == w && line[|w|..][0] == ' ' && line[|w|..][1..] == rest;
  }

  /** The line mounts the device on the directory. */
  predicate Mounts(line: string, device: string, dir: string) {
    |Words(line)| >= 2 && Words(line)[0] == device && Words(line)[1] == dir
  }

  lemma TwoWords(device: string, dir: string, options: string, rest: string)
    requires Word(device) && Word(dir)
    ensures Mounts(device + " " + dir + " " + options + rest, device, dir)
  {
    hide Words, Word;
    var more := dir + " " + (options + rest);
    assert device + " " + dir + " " + options + rest == device + " " + more;
    NextWord(device, more);
    NextWord(dir, options + rest);
  }

  lemma OwnWords()
    ensures Mounts(HOME_MOUNT + ADDED, HOME_DEVICE, "/home") && Mounts(VAR_MOUNT + ADDED, VAR_DEVICE, "/var")
  {
    hide Words, ADDED, Word, Mounts, HOME_OPTIONS, VAR_OPTIONS, HOME_DEVICE, VAR_DEVICE;
    AreWords();
    TwoWords(HOME_DEVICE, "/home", HOME_OPTIONS, ADDED);
    TwoWords(VAR_DEVICE, "/var", VAR_OPTIONS, ADDED);
  }

  lemma AreWords()
    ensures Word(HOME_DEVICE) && Word(VAR_DEVICE) && Word("/home") && Word("/var")
  {
    hide IsSpace;
    LettersAreNoSpaces();
  }

  lemma LettersAreNoSpaces()
    ensures forall c :: 'a' <= c <= 'z' || c == '/' || c == '_' ==> !IsSpace(c)
  {
  }

  // ---------------------------------------------------------------------------------------------
  // Lines that an update replaces
  // ---------------------------------------------------------------------------------------------

  /** The line names one of the encrypted volumes, or on SteamOS a partition set. */
  predicate Stale(u: Setup, line: string) {
    || (u.steamos && StartsWith(line, "/dev/disk/by-partsets/"))
    || (exists x :: x in u.uuids && FirstWord(line) == "UUID=" + x)
  }

  lemma OutdatedIsStale(u: Setup, line: string)
    ensures Outdated(u, line) <==> Stale(u, line)
  {
    var w := FirstWord(line);
    if StartsWith(line, BY_UUID) {
      UuidWord(line);
      assert w == w[..5] + w[5..] && w[..5] == line[..5];
    }
    forall x | x in u.uuids && w == "UUID=" + x
      ensures StartsWith(line, BY_UUID) && w[5..] == x
    {
      assert w[..5] == "UUID=" && w[..5] == line[..5] && w[5..] == x;
    }
  }

  /** What an update makes of a line that is not its own. */
  function Replaced(u: Setup, line: string): string {
    if Stale(u, line) then "# REMOVED_BY_AUTO_TPM_ENCRYPT " + line else line
  }

  function AllReplaced(u: Setup, lines: seq<string>): (r: seq<string>)
    ensures |r| == |lines| && forall i :: 0 <= i < |r| ==> r[i] == Replaced(u, lines[i])
  {
    if lines == [] then [] else [Replaced(u, lines[0])] + AllReplaced(u, lines[1..])
  }

  lemma {:induction false} KeptIsReplaced(u: Setup, lines: seq<string>)
    ensures Kept(u, lines) == AllReplaced(u, Bare(lines))
    decreases |lines|
  {
    hide Stale, Outdated, EndsWith, ADDED, Kept, Bare;
    FirstKept(u, lines);
    FirstBare(lines);
    if lines != [] {
      KeptIsReplaced(u, lines[1..]);
      OutdatedIsStale(u, lines[0]);
      var bare := [lines[0]] + Bare(lines[1..]);
      assert bare[1..] == Bare(lines[1..]);
    }
  }

  lemma {:induction false} BareKeeps(lines: seq<string>)
    requires forall line :: line in lines ==> !EndsWith(line, ADDED)
    ensures Bare(lines) == lines
    decreases |lines|
  {
    hide EndsWith, ADDED, Bare;
    FirstBare(lines);
    if lines != [] {
      BareKeeps(lines[1..]);
    }
  }

  lemma {:induction false} BareDrops(lines: seq<string>)
    requires forall line :: line in lines ==> EndsWith(line, ADDED)
    ensures Bare(lines) == []
    decreases |lines|
  {
    hide EndsWith, ADDED, Bare;
    FirstBare(lines);
    if lines != [] {
      BareDrops(lines[1..]);
    }
  }

  lemma {:induction false} BareJoins(a: seq<string>, b: seq<string>)
    ensures Bare(a + b) == Bare(a) + Bare(b)
    decreases |a|
  {
    hide EndsWith, ADDED, Bare;
    FirstBare(a);
    FirstBare(a + b);
    if a == [] {
      assert a + b == b;
    } else {
      BareJoins(a[1..], b);
      assert (a + b)[1..] == a[1..] + b;
    }
  }

  lemma BareOfUpdated(u: Setup, lines: seq<string>)
    ensures Bare(Updated(u, lines)) == AllReplaced(u, Bare(lines))
  {
    hide Outdated, Kept, Own, OwnLine, EndsWith, ADDED, Bare;
    KeptIsClean(u, lines);
    OwnLines(u);
    BareKeeps(Kept(u, lines));
    OwnAreMarked(u);
    BareDrops(Own(u));
    BareJoins(Kept(u, lines), Own(u));
    KeptIsReplaced(u, lines);
    assert Kept(u, lines) + [] == Kept(u, lines);
  }

  lemma OwnAreMarked(u: Setup)
    ensures forall line :: line in Own(u) ==> EndsWith(line, ADDED)
  {
    hide Own, ADDED;
    OwnLines(u);
  }

  // ---------------------------------------------------------------------------------------------
  // The tool's own lines
  // ---------------------------------------------------------------------------------------------

  /** How many lines with the tool's mark mount the device on the directory. */
  function Mounted(lines: seq<string>, device: string, dir: string): nat {
    if lines == [] then 0
    else
      (if EndsWith(lines[0], ADDED) && Mounts(lines[0], device, dir) then 1 else 0) + Mounted(lines[1..], device, dir)
  }

  lemma FirstMounted(lines: seq<string>, device: string, dir: string)
    ensures lines == [] ==> Mounted(lines, device, dir) == 0
    ensures lines != [] && EndsWith(lines[0], ADDED) && Mounts(lines[0], device, dir) ==>
      Mounted(lines, device, dir) == 1 + Mounted(lines[1..], device, dir)
    ensures lines != [] && !(EndsWith(lines[0], ADDED) && Mounts(lines[0], device, dir)) ==>
      Mounted(lines, device, dir) == Mounted(lines[1..], device, dir)
  {
  }

  lemma {:induction false} MountedJoins(a: seq<string>, b: seq<string>, device: string, dir: string)
    ensures Mounted(a + b, device, dir) == Mounted(a, device, dir) + Mounted(b, device, dir)
    decreases |a|
  {
    hide EndsWith, Mounts, Mounted;
    FirstMounted(a, device, dir);
    FirstMounted(a + b, device, dir);
    if a == [] {
      assert a + b == b;
    } else {
      MountedJoins(a[1..], b, device, dir);
      assert (a + b)[1..] == a[1..] + b;
    }
  }

  lemma {:induction false} UnmarkedMountNothing(lines: seq<string>, device: string, dir: string)
    requires forall line :: line in lines ==> !EndsWith(line, ADDED)
    ensures Mounted(lines, device, dir) == 0
    decreases |lines|
  {
    hide EndsWith, Mounts, Mounted;
    FirstMounted(lines, device, dir);
    if lines != [] {
      UnmarkedMountNothing(lines[1..], device, dir);
    }
  }

  lemma MountsOneThing(line: string, device: string, dir: string, other: string, elsewhere: string)
    requires EndsWith(line, ADDED) && Mounts(line, device, dir) && dir != elsewhere
    ensures Mounted([line], device, dir) == 1 && Mounted([line], other, elsewhere) == 0
  {
    hide EndsWith, Words, ADDED;
    assert [line][1..] == [];
  }

  lemma OwnMounts(u: Setup)
    ensures Mounted(Own(u), HOME_DEVICE, "/home") == if u.home then 1 else 0
    ensures Mounted(Own(u), VAR_DEVICE, "/var") == if u.varPart then 1 else 0
    ensures |Own(u)| == (if u.home then 1 else 0) + (if u.varPart then 1 else 0)
  {
    assert "/home" != "/var" by {
      assert "/home"[1] != "/var"[1];
    }
    OwnWords();
    OwnAreMarked(Setup(false, {}, true, true));
    hide EndsWith, Mounts, Mounted, ADDED, HOME_MOUNT, VAR_MOUNT, HOME_DEVICE, VAR_DEVICE;
    var h, v := HOME_MOUNT + ADDED, VAR_MOUNT + ADDED;
    assert Own(Setup(false, {}, true, true)) == [h, v];
    MountsOneThing(h, HOME_DEVICE, "/home", VAR_DEVICE, "/var");
    MountsOneThing(v, VAR_DEVICE, "/var", HOME_DEVICE, "/home");
    var a, b := if u.home then [h] else [], if u.varPart then [v] else [];
    FirstMounted([], HOME_DEVICE, "/home");
    FirstMounted([], VAR_DEVICE, "/var");
    MountedJoins(a, b, HOME_DEVICE, "/home");
    MountedJoins(a, b, VAR_DEVICE, "/var");
  }

  // ---------------------------------------------------------------------------------------------
  // The updated file
  // ---------------------------------------------------------------------------------------------

  /** The lines of the updated file, but for a last empty one, are those of the update. */
  lemma UpdatedLines(u: Setup, text: string)
    requires Touches(u)
    ensures Considered(Read(Update(u, text))) == Updated(u, Considered(Read(text)))
  {
    hide Updated, Read, Print, Considered;
    if Updated(u, Considered(Read(text))) != Considered(Read(text)) {
      WrittenIsRead(u, text);
    }
  }

  lemma StaleAreGone(u: Setup, lines: seq<string>)
    ensures forall line :: line in Updated(u, lines) ==> !Stale(u, line)
  {
    hide Outdated, Stale, Kept, Own, EndsWith, ADDED;
    KeptIsClean(u, lines);
    OwnAreNotStale(u);
    forall line | line in Updated(u, lines)
      ensures !Stale(u, line)
    {
      OutdatedIsStale(u, line);
    }
  }

  lemma OwnAreNotStale(u: Setup)
    ensures forall line :: line in Own(u) ==> !Outdated(u, line)
  {
    hide ADDED, Outdated, HOME_OPTIONS, VAR_OPTIONS;
    forall line | line in Own(u)
      ensures !Outdated(u, line)
    {
      assert line[0] == '/' && line[5] == 'm';
      if Outdated(u, line) {
        OutdatedLetters(u, line);
      }
    }
  }

  lemma OutdatedLetters(u: Setup, line: string)
    requires Outdated(u, line)
    ensures line != "" && (line[0] == 'U' || (|line| > 5 && line[5] == 'd'))
  {
    assert PARTSETS[5] == 'd' && BY_UUID[0] == 'U' && |PARTSETS| > 5 && |BY_UUID| > 0;
    hide PARTSETS, BY_UUID, FirstWord;
    if StartsWith(line, BY_UUID) {
      PrefixLetters(line, BY_UUID, 0);
    } else {
      PrefixLetters(line, PARTSETS, 5);
    }
  }

  /**
   For every file that an update touches, by the words of the lines: `/home` and `/var` are mounted by one
   marked line each exactly when the partition is there, and no other line is marked; no line names an
   encrypted volume any more; and the lines without a mark are still there in their order, those that did
   name one commented out.
   */
  lemma UpdatedFileMounts(u: Setup, text: string)
    requires Touches(u)
    ensures var lines, was := Considered(Read(Update(u, text))), Considered(Read(text));
      && Mounted(lines, "/dev/mapper/tpm_encrypted_home", "/home") == (if u.home then 1 else 0)
      && Mounted(lines, "/dev/mapper/tpm_encrypted_var", "/var") == (if u.varPart then 1 else 0)
      && |lines| == |Bare(lines)| + (if u.home then 1 else 0) + (if u.varPart then 1 else 0)
      && (forall line :: line in lines ==> !Stale(u, line))
      && |Bare(lines)| == |Bare(was)|
      && forall i :: 0 <= i < |Bare(was)| ==> Bare(lines)[i] == Replaced(u, Bare(was)[i])
  {
    hide Read, Update, Considered, Mounts, Mounted, Kept, Own, Outdated, Stale, EndsWith, ADDED, Bare, Replaced;
    var was := Considered(Read(text));
    UpdatedLines(u, text);
    StaleAreGone(u, was);
    BareOfUpdated(u, was);
    KeptIsReplaced(u, was);
    KeptIsClean(u, was);
    OwnMounts(u);
    UnmarkedMountNothing(Kept(u, was), HOME_DEVICE, "/home");
    UnmarkedMountNothing(Kept(u, was), VAR_DEVICE, "/var");
    MountedJoins(Kept(u, was), Own(u), HOME_DEVICE, "/home");
    MountedJoins(Kept(u, was), Own(u), VAR_DEVICE, "/var");
  }
}
