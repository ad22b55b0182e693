/** The known natures of call, and that their order does not matter. */
module KnownNatures {
  import opened Text
  import opened Natures

  const KNOWN_DISPATCH_NATURES: seq<Nature> := [
    Nature("Motor Vehicle Accident With Motorcycle", []),
    Nature("Residential Fire Alarm", []),
    Nature("Commercial Fire Alarm", []),
    Nature("Level of Consciousness", []),
    Nature("Difficulty Breathing", []),
    Nature("Smoke Investigation", []),
    Nature("Medical Assignment", []),
    Nature("Breathing Problems", []),
    Nature("Cardiac Problems", []),
    Nature("Cardiac Problem", []),
    Nature("Unknown Trouble", []),
    Nature("Motor Vehicle Accident", []),
    Nature("Vehicle Accident", []),
    Nature("Vehicle Crash", []),
    Nature("Structure Fire", []),
    Nature("Working Fire", []),
    Nature("Brush Fire", []),
    Nature("Trash Fire", []),
    Nature("House Fire", []),
    Nature("Injured Person", []),
    Nature("Animal Issue", []),
    Nature("Ill Person", ["Hill Person"]),
    Nature("Gas Leak", ["Natural Gas Leak"]),
    Nature("Sick Person", []),
    Nature("Welfare Check", []),
    Nature("Check Welfare", []),
    Nature("Overdose", []),
    Nature("Seizure", []),
    Nature("Assault", []),
    Nature("Hazmat", []),
    Nature("Stroke", []),
    Nature("Fall", [])
  ]

  predicate IsLetter(c: char) {
    'a' <= c <= 'z' || 'A' <= c <= 'Z'
  }

  /** Letters with single spaces inside. */
  predicate Plain(s: string) {
    && s != "" && IsLetter(s[0]) && IsLetter(s[|s| - 1])
    && (forall i | 0 <= i < |s| :: IsLetter(s[i]) || s[i] == ' ')
    && (forall i | 0 <= i < |s| - 1 :: s[i] != ' ' || s[i + 1] != ' ')
  }

  /** A number that survives normalizing and tells the spellings apart. */
  function Rank(s: string): int
    requires s != ""
  {
    |s| * 256 + Lower(s[0]) as int
  }

  function RowOf(rank: int): int {
    if rank == 9837 then 0
    else if rank == 5746 then 1
    else if rank == 5475 then 2
    else if rank == 5740 then 3
    else if rank == 5220 then 4
    else if rank == 4979 then 5
    else if rank == 4717 then 6
    else if rank == 4706 then 7
    else if rank == 4195 then 8
    else if rank == 3939 then 9
    else if rank == 3957 then 10
    else if rank == 5741 then 11
    else if rank == 4214 then 12
    else if rank == 3446 then 13
    else if rank == 3699 then 14
    else if rank == 3191 then 15
    else if rank == 2658 then 16
    else if rank == 2676 then 17
    else if rank == 2664 then 18
    else if rank == 3689 then 19
    else if rank == 3169 then 20
    else if rank == 2665 then 21
    else if rank == 2920 then 21
    else if rank == 2151 then 22
    else if rank == 4206 then 22
    else if rank == 2931 then 23
    else if rank == 3447 then 24
    else if rank == 3427 then 25
    else if rank == 2159 then 26
    else if rank == 1907 then 27
    else if rank == 1889 then 28
    else if rank == 1640 then 29
    else if rank == 1651 then 30
    else if rank == 1126 then 31
    else -1
  }

  predicate Spells(s: string, row: int) {
    Plain(s) && RowOf(Rank(s)) == row
  }

  predicate RowIs(nature: Nature, row: int) {
    forall j | 0 <= j < |nature.Spellings()| :: Spells(nature.Spellings()[j], row)
  }

  lemma Spellings0()
    ensures Spells("Motor Vehicle Accident With Motorcycle", 0)
    ensures Spells("Residential Fire Alarm", 1)
  {
  }

  lemma Spellings2()
    ensures Spells("Commercial Fire Alarm", 2)
  {
  }

  lemma Spellings3()
    ensures Spells("Level of Consciousness", 3)
    ensures Spells("Difficulty Breathing", 4)
    ensures Spells("Smoke Investigation", 5)
  {
  }

  lemma Spellings6()
    ensures Spells("Medical Assignment", 6)
    ensures Spells("Breathing Problems", 7)
    ensures Spells("Cardiac Problems", 8)
  {
  }

  lemma Spellings9()
    ensures Spells("Cardiac Problem", 9)
    ensures Spells("Unknown Trouble", 10)
    ensures Spells("Motor Vehicle Accident", 11)
  {
  }

  lemma Spellings12()
    ensures Spells("Vehicle Accident", 12)
    ensures Spells("Vehicle Crash", 13)
    ensures Spells("Structure Fire", 14)
  {
  }

  lemma Spellings15()
    ensures Spells("Working Fire", 15)
    ensures Spells("Brush Fire", 16)
    ensures Spells("Trash Fire", 17)
  {
  }

  lemma Spellings18()
    ensures Spells("House Fire", 18)
    ensures Spells("Injured Person", 19)
    ensures Spells("Animal Issue", 20)
  {
  }

  lemma Spellings21()
    ensures Spells("Ill Person", 21)
    ensures Spells("Hill Person", 21)
    ensures Spells("Gas Leak", 22)
  {
  }

  lemma Spellings24()
    ensures Spells("Natural Gas Leak", 22)
    ensures Spells("Sick Person", 23)
    ensures Spells("Welfare Check", 24)
  {
  }

  lemma Spellings27()
    ensures Spells("Check Welfare", 25)
    ensures Spells("Overdose", 26)
    ensures Spells("Seizure", 27)
  {
  }

  lemma Spellings30()
    ensures Spells("Assault", 28)
    ensures Spells("Hazmat", 29)
    ensures Spells("Stroke", 30)
  {
  }

  lemma Spellings33()
    ensures Spells("Fall", 31)
  {
  }

  lemma RowFromSpellings(nature: Nature, row: int)
    requires |nature.phrases| <= 1 && Spells(nature.canonical, row)
    requires nature.phrases != [] ==> Spells(nature.phrases[0], row)
    ensures RowIs(nature, row)
  {
  }

  lemma FirstRows()
    ensures forall i | 0 <= i < 16 :: RowIs(KNOWN_DISPATCH_NATURES[i], i)
  {
    Spellings0();
    Spellings2();
    Spellings3();
    Spellings6();
    Spellings9();
    Spellings12();
    Spellings15();
    forall i | 0 <= i < 16 ensures RowIs(KNOWN_DISPATCH_NATURES[i], i) {
      RowFromSpellings(KNOWN_DISPATCH_NATURES[i], i);
    }
  }

  lemma LastRows()
    ensures forall i | 16 <= i < 32 :: RowIs(KNOWN_DISPATCH_NATURES[i], i)
  {
    Spellings15();
    Spellings18();
    Spellings21();
    Spellings24();
    Spellings27();
    Spellings30();
    Spellings33();
    forall i | 16 <= i < 32 ensures RowIs(KNOWN_DISPATCH_NATURES[i], i) {
      RowFromSpellings(KNOWN_DISPATCH_NATURES[i], i);
    }
  }

  /** Only single spaces, and none at the end. */
  ghost predicate Gapless(s: string) {
    && (forall i | 0 <= i < |s| :: IsSpace(s[i]) ==> s[i] == ' ')
    && (forall i, j | 0 <= i < j < |s| && j == i + 1 :: s[i] != ' ' || s[j] != ' ')
    && (s != "" ==> s[|s| - 1] != ' ')
  }

  lemma GaplessTail(s: string)
    requires Gapless(s) && s != ""
    ensures Gapless(s[1..]) && (s[0] == ' ' ==> s[1..] != "" && s[1] != ' ')
  {
    var rest := s[1..];
    assert forall i | 0 <= i < |rest| :: rest[i] == s[i + 1];
  }

  lemma CloseBuilt(words: seq<string>, word: string)
    requires word != ""
    ensures Built(words + [word], "") == Built(words, word) + " "
  {
  }

  lemma AppendHead(b: string, s: string)
    requires s != ""
    ensures b + [s[0]] + s[1..] == b + s
  {
  }

  /** Splitting gapless text into words and joining them again loses nothing. */
  lemma {:induction false} JoinUndoesSplit(words: seq<string>, word: string, s: string)
    requires AllWords(words) && (word == "" || IsWord(word)) && Gapless(s)
    requires s == "" || s[0] == ' ' ==> word != ""
    ensures Join(WordsFrom(words, word, s)) == Built(words, word) + s
    decreases |s|
  {
    if s == "" {
      assert Built(words, word) + s == Built(words, word);
    } else {
      GaplessTail(s);
      AppendHead(Built(words, word), s);
      if IsSpace(s[0]) {
        CloseBuilt(words, word);
        JoinUndoesSplit(words + [word], "", s[1..]);
      } else {
        Extend(words, word, s[0]);
        JoinUndoesSplit(words, word + [s[0]], s[1..]);
      }
    }
  }

  lemma PlainKeepsRank(s: string)
    requires Plain(s)
    ensures |Join(Words(s))| == |s| && Rank(Join(Words(s))) == Rank(s)
  {
    JoinUndoesSplit([], "", Masked(s));
    assert Built([], "") == "";
  }

  lemma EntryHasRow(e: Entry) returns (row: nat)
    requires e in Entries(KNOWN_DISPATCH_NATURES)
    ensures row < |KNOWN_DISPATCH_NATURES| && e.canonical == KNOWN_DISPATCH_NATURES[row].canonical
    ensures Spells(e.phrase, row) && e.canonical != ""
  {
    var i, j :| 0 <= i < |KNOWN_DISPATCH_NATURES| && 0 <= j < |KNOWN_DISPATCH_NATURES[i].Spellings()|
                && e == Entry(KNOWN_DISPATCH_NATURES[i].canonical, KNOWN_DISPATCH_NATURES[i].Spellings()[j]);
    row := i;
    if i < 16 {
      FirstRows();
    } else {
      LastRows();
    }
    assert RowIs(KNOWN_DISPATCH_NATURES[i], i);
    assert Spells(KNOWN_DISPATCH_NATURES[i].Spellings()[0], i);
  }

  lemma KnownNaturesAreClean()
    ensures Clean(Entries(KNOWN_DISPATCH_NATURES))
  {
    var entries := Entries(KNOWN_DISPATCH_NATURES);
    forall e | e in entries ensures |Join(Words(e.phrase))| == |e.phrase| {
      var _ := EntryHasRow(e);
      PlainKeepsRank(e.phrase);
    }
    forall e, f | e in entries && f in entries && Words(e.phrase) == Words(f.phrase)
      ensures e.canonical == f.canonical
    {
      var row := EntryHasRow(e);
      var other := EntryHasRow(f);
      PlainKeepsRank(e.phrase);
      PlainKeepsRank(f.phrase);
    }
  }

  lemma MatchHasName(words: seq<string>, a: string)
    requires Matches(Entries(KNOWN_DISPATCH_NATURES), words, a)
    ensures a == "" <==> NoHit(Entries(KNOWN_DISPATCH_NATURES), words)
  {
    var entries := Entries(KNOWN_DISPATCH_NATURES);
    if !NoHit(entries, words) {
      var e, k: nat :| Wins(entries, words, e, k) && a == e.canonical;
      assert Wins(entries, words, e, k);
      var _ := EntryHasRow(e);
    }
  }

  /** Whatever order the known natures are listed in, every candidate gets the
      same name, and the empty one only if it contains none of them. */
  lemma AnyOrderAgrees(table: seq<Nature>, candidate: string, a: string, b: string)
    requires Entries(table) == Entries(KNOWN_DISPATCH_NATURES)
    requires Matches(Entries(KNOWN_DISPATCH_NATURES), Words(candidate), a)
    requires Matches(Entries(table), Words(candidate), b)
    ensures a == b
    ensures a == "" <==> NoHit(Entries(table), Words(candidate))
  {
    KnownNaturesAreClean();
    OrderIsIrrelevant(Entries(table), Words(candidate), a, b);
    MatchHasName(Words(candidate), a);
  }
}
