/** Finding a known nature of call in the words of a transcript. */
module Natures {
  import opened Text

  // ---------------------------------------------------------------- normal form

  predicate IsLetterOrDigit(c: char) {
    'a' <= c <= 'z' || '0' <= c <= '9'
  }

  /** strings.ToLower, as far as it can produce a letter or digit: besides
      A to Z, the dotted capital I and the Kelvin sign become ASCII letters. */
  function Lower(c: char): char {
    if 'A' <= c <= 'Z' then c - 'A' + 'a'
    else if c == '\U{0130}' then 'i'
    else if c == '\U{212A}' then 'k'
    else c
  }

  function Masked(s: string): (r: string)
    ensures |r| == |s|
    ensures forall i | 0 <= i < |s| :: r[i] == if IsLetterOrDigit(Lower(s[i])) then Lower(s[i]) else ' '
  {
    seq(|s|, i requires 0 <= i < |s| => if IsLetterOrDigit(Lower(s[i])) then Lower(s[i]) else ' ')
  }

  /** The maximal runs of letters and digits, in lower case. */
  function Words(s: string): (r: seq<string>)
    ensures AllWords(r)
  {
    WordsIn(Masked(s))
  }

  /** strings.TrimSpace */
  function TrimSpace(s: string): string
    decreases |s|
  {
    if s != "" && IsSpace(s[0]) then TrimSpace(s[1..])
    else if s != "" && IsSpace(s[|s| - 1]) then TrimSpace(s[..|s| - 1])
    else s
  }

  lemma TrimJoined(words: seq<string>)
    requires AllWords(words)
    ensures TrimSpace(Join(words)) == Join(words)
    ensures words != [] ==> TrimSpace(Join(words) + " ") == Join(words)
    ensures TrimSpace(" " + Join(words) + " ") == Join(words)
  {
    JoinIsCollapsed(words);
    var s := Join(words);
    assert (" " + s + " ")[1..] == s + " ";
    if words != [] {
      assert (s + " ")[0] == s[0] && (s + " ")[..|s|] == s;
    } else {
      assert s + " " == " " && " "[1..] == "";
    }
  }

  /** What the builder holds: closed words, the open word, and a space after
      closed words when none is open. */
  function Built(words: seq<string>, word: string): string {
    if word != "" then Join(words + [word])
    else if words == [] then ""
    else Join(words) + " "
  }

  method NormalizeNature(s: string) returns (r: string)
    ensures r == Join(Words(s))
  {
    var b := "";
    var lastSpace := true;
    ghost var words: seq<string>, word := [], "";
    for k := 0 to |s|
      invariant AllWords(words) && (word == "" || IsWord(word))
      invariant lastSpace <==> word == ""
      invariant b == Built(words, word)
      invariant WordsFrom(words, word, Masked(s)[k..]) == Words(s)
    {
      var c := Lower(s[k]);
      ghost var rest := Masked(s)[k..];
      assert rest[0] == Masked(s)[k] && rest[1..] == Masked(s)[k + 1..];
      if IsLetterOrDigit(c) {
        Extend(words, word, c);
        b := b + [c];
        lastSpace := false;
        word := word + [c];
        continue;
      }
      if !lastSpace {
        b := b + " ";
        lastSpace := true;
      }
      words, word := Close(words, word), "";
    }
    assert Masked(s)[|s|..] == "";
    TrimJoined(Close(words, word));
    r := TrimSpace(b);
  }

  lemma Extend(words: seq<string>, word: string, c: char)
    ensures Built(words, word + [c]) == Built(words, word) + [c]
  {
    assert (words + [word])[..|words|] == words && (words + [word + [c]])[..|words|] == words;
  }

  // ---------------------------------------------------------------- words and positions

  /** A space before every word and after the last. */
  function Pad(words: seq<string>): string {
    if words == [] then " " else " " + words[0] + Pad(words[1..])
  }

  /** Where the space before word k stands in the padded words. */
  function Offset(words: seq<string>, k: nat): nat
    requires k <= |words|
  {
    if k == 0 then 0 else |words[0]| + 1 + Offset(words[1..], k - 1)
  }

  predicate OccursAt(s: string, t: string, p: nat) {
    p + |t| <= |s| && s[p..p + |t|] == t
  }

  /** The words of the phrase stand at word k of the candidate. */
  predicate StandsAt(words: seq<string>, phrase: seq<string>, k: nat) {
    k + |phrase| <= |words| && words[k..k + |phrase|] == phrase
  }

  lemma {:induction false} PadSnoc(words: seq<string>, word: string)
    ensures Pad(words + [word]) == Pad(words) + word + " "
  {
    if words != [] {
      assert (words + [word])[1..] == words[1..] + [word];
      PadSnoc(words[1..], word);
    } else {
      assert ([] + [word])[1..] == words;
    }
  }

  lemma {:induction false} PadIsJoin(words: seq<string>)
    requires words != []
    ensures " " + Join(words) + " " == Pad(words)
  {
    var n := |words| - 1;
    assert words == words[..n] + [words[n]];
    PadSnoc(words[..n], words[n]);
    if n > 0 {
      PadIsJoin(words[..n]);
    }
  }

  lemma {:induction false} PadFrom(words: seq<string>, k: nat)
    requires k <= |words|
    ensures Offset(words, k) + |Pad(words[k..])| == |Pad(words)|
    ensures Pad(words)[Offset(words, k)..] == Pad(words[k..])
    decreases k
  {
    if k > 0 {
      PadFrom(words[1..], k - 1);
      assert words[1..][k - 1..] == words[k..];
    } else {
      assert words[0..] == words;
    }
  }

  /** Every space of the padded words stands before a word or at the end. */
  lemma {:induction false} SpaceIsOffset(words: seq<string>, p: nat) returns (k: nat)
    requires AllWords(words) && p < |Pad(words)| && Pad(words)[p] == ' '
    ensures k <= |words| && Offset(words, k) == p
  {
    if p == 0 {
      k := 0;
    } else {
      var w := words[0];
      assert forall i | 0 <= i < |w| :: Pad(words)[1 + i] == w[i];
      var j := SpaceIsOffset(words[1..], p - |w| - 1);
      k := j + 1;
    }
  }

  lemma {:induction false} OffsetGrows(words: seq<string>, j: nat, k: nat)
    requires AllWords(words) && j < k <= |words|
    ensures Offset(words, j) + 1 < Offset(words, k)
    decreases j
  {
    if j > 0 {
      OffsetGrows(words[1..], j - 1, k - 1);
    }
  }

  lemma NoTwoSpaces(words: seq<string>, p: nat)
    requires AllWords(words)
    ensures !OccursAt(Pad(words), "  ", p)
  {
    var s := Pad(words);
    if OccursAt(s, "  ", p) {
      assert s[p] == s[p..p + 2][0] && s[p + 1] == s[p..p + 2][1];
      var j := SpaceIsOffset(words, p);
      var k := SpaceIsOffset(words, p + 1);
      if j < k {
        OffsetGrows(words, j, k);
      } else if k < j {
        OffsetGrows(words, k, j);
      }
      assert false;
    }
  }

  /** The padded phrase begins the padded text exactly when its words do. */
  lemma {:induction false} PadPrefix(words: seq<string>, phrase: seq<string>)
    requires AllWords(words) && AllWords(phrase)
    ensures Pad(phrase) <= Pad(words) <==> phrase <= words
  {
    if phrase == [] {
      assert Pad(words)[0] == ' ';
    } else if words != [] {
      PadPrefix(words[1..], phrase[1..]);
      HeadsAgree(words, phrase);
    }
  }

  lemma HeadsAgree(words: seq<string>, phrase: seq<string>)
    requires AllWords(words) && AllWords(phrase) && words != [] && phrase != []
    ensures Pad(phrase) <= Pad(words) <==> words[0] == phrase[0] && Pad(phrase[1..]) <= Pad(words[1..])
  {
    var v, w := words[0], phrase[0];
    if Pad(phrase) <= Pad(words) {
      FirstSpaceEnds(v, Pad(words[1..]), w, Pad(phrase[1..]));
      assert Pad(phrase)[1 + |w|..] == Pad(phrase[1..]);
      assert Pad(words)[1 + |v|..] == Pad(words[1..]);
    }
  }

  lemma FirstSpaceEnds(v: string, x: string, w: string, y: string)
    requires IsWord(v) && IsWord(w) && x != "" && y != "" && x[0] == ' ' && y[0] == ' '
    requires " " + w + y <= " " + v + x
    ensures v == w
  {
    var a, b := " " + w + y, " " + v + x;
    assert forall i | 0 <= i < |a| :: a[i] == b[i];
    assert a[1 + |w|] == ' ' && b[1 + |v|] == ' ';
    assert forall i | 0 <= i < |w| :: a[1 + i] == w[i];
    assert forall i | 0 <= i < |v| :: b[1 + i] == v[i];
    assert |v| == |w|;
  }

  /** Substring positions of a padded phrase are word positions of its words. */
  lemma OccursIffStands(words: seq<string>, phrase: seq<string>, k: nat)
    requires AllWords(words) && AllWords(phrase) && k <= |words|
    ensures OccursAt(Pad(words), Pad(phrase), Offset(words, k)) <==> StandsAt(words, phrase, k)
  {
    PadFrom(words, k);
    PadPrefix(words[k..], phrase);
    var p, n := Offset(words, k), |Pad(phrase)|;
    if p + n <= |Pad(words)| {
      assert Pad(words)[p..p + n] == Pad(words)[p..][..n];
    }
    if k + |phrase| <= |words| {
      assert words[k..k + |phrase|] == words[k..][..|phrase|];
    }
  }

  // ---------------------------------------------------------------- the matcher

  datatype Nature = Nature(canonical: string, phrases: seq<string>)
  {
    /** The spellings in the order they are tried. */
    function Spellings(): seq<string> {
      [canonical] + phrases
    }
  }

  datatype Entry = Entry(canonical: string, phrase: string)

  /** Every spelling in the table with its canonical name. */
  ghost function Entries(table: seq<Nature>): set<Entry> {
    set i, j | 0 <= i < |table| && 0 <= j < |table[i].Spellings()| ::
      Entry(table[i].canonical, table[i].Spellings()[j])
  }

  /** The spelling's words, at least one, stand at word k of the candidate. */
  ghost predicate Hit(words: seq<string>, e: Entry, k: nat) {
    Words(e.phrase) != [] && StandsAt(words, Words(e.phrase), k)
  }

  /** The leftmost hit, and the longest of those. */
  ghost predicate Wins(entries: set<Entry>, words: seq<string>, e: Entry, k: nat) {
    && e in entries && Hit(words, e, k)
    && forall f, j: nat | f in entries && Hit(words, f, j) :: k < j || (k == j && |f.phrase| <= |e.phrase|)
  }

  ghost predicate NoHit(entries: set<Entry>, words: seq<string>) {
    forall f, j: nat | f in entries :: !Hit(words, f, j)
  }

  /** What the matcher returns for a set of spellings. */
  ghost predicate Matches(entries: set<Entry>, words: seq<string>, best: string) {
    if NoHit(entries, words) then best == ""
    else exists e, k: nat :: Wins(entries, words, e, k) && best == e.canonical
  }

  /** strings.Index */
  function Index(s: string, t: string): (r: int)
    ensures r == -1 <==> forall p: nat :: !OccursAt(s, t, p)
    ensures r != -1 ==> r >= 0 && OccursAt(s, t, r) && forall p: nat | OccursAt(s, t, p) :: r <= p
  {
    IndexFrom(s, t, 0)
  }

  function IndexFrom(s: string, t: string, from: nat): (r: int)
    requires from <= |s|
    ensures r == -1 <==> forall p: nat | from <= p :: !OccursAt(s, t, p)
    ensures r != -1 ==> r >= from && OccursAt(s, t, r) && forall p: nat | from <= p && OccursAt(s, t, p) :: r <= p
    decreases |s| - from
  {
    if OccursAt(s, t, from) then from
    else if from == |s| then -1
    else IndexFrom(s, t, from + 1)
  }

  /** The search finds the first hit of a phrase, as a position in the padded text. */
  ghost predicate FirstHit(words: seq<string>, phrase: seq<string>, index: int) {
    if index == -1 then forall j: nat :: !StandsAt(words, phrase, j)
    else
      exists k: nat | k <= |words| :: && index == Offset(words, k) && StandsAt(words, phrase, k)
                                      && forall j: nat | StandsAt(words, phrase, j) :: k <= j
  }

  lemma IndexIsFirstHit(words: seq<string>, phrase: seq<string>)
    requires AllWords(words) && AllWords(phrase)
    ensures FirstHit(words, phrase, Index(Pad(words), Pad(phrase)))
  {
    var r := Index(Pad(words), Pad(phrase));
    forall j: nat | StandsAt(words, phrase, j) ensures r != -1 && r <= Offset(words, j) {
      OccursIffStands(words, phrase, j);
    }
    if r != -1 {
      assert Pad(phrase)[0] == ' ' && Pad(words)[r..r + |Pad(phrase)|][0] == Pad(words)[r];
      var k := SpaceIsOffset(words, r);
      OccursIffStands(words, phrase, k);
      forall j: nat | StandsAt(words, phrase, j) ensures k <= j {
        if j < k {
          OffsetGrows(words, j, k);
        }
      }
    }
  }

  /** The best match among the spellings tried so far. */
  ghost predicate Progress(tried: set<Entry>, words: seq<string>, best: string, bestIndex: int, bestLength: nat) {
    if bestIndex == -1 then best == "" && NoHit(tried, words)
    else
      exists e, k: nat | k <= |words| ::
        Wins(tried, words, e, k) && bestIndex == Offset(words, k) && bestLength == |e.phrase| && best == e.canonical
  }

  predicate Better(index: int, length: nat, bestIndex: int, bestLength: nat) {
    index >= 0 && (bestIndex == -1 || index < bestIndex || (index == bestIndex && length > bestLength))
  }

  /** Where the search finds one spelling, or -1. */
  function Find(words: seq<string>, phrase: string): int {
    Index(Pad(words), " " + Join(Words(phrase)) + " ")
  }

  lemma FindIsFirstHit(words: seq<string>, e: Entry)
    requires AllWords(words)
    ensures var index := Find(words, e.phrase);
            if index == -1 then forall j: nat :: !Hit(words, e, j)
            else index >= 0
                 && exists k: nat | k <= |words| :: && index == Offset(words, k) && Hit(words, e, k)
                                                 && forall j: nat | Hit(words, e, j) :: k <= j
  {
    var phrase := Words(e.phrase);
    if phrase == [] {
      assert " " + Join(phrase) + " " == "  ";
      forall p: nat ensures !OccursAt(Pad(words), "  ", p) {
        NoTwoSpaces(words, p);
      }
    } else {
      PadIsJoin(phrase);
      IndexIsFirstHit(words, phrase);
    }
  }

  lemma NewWinner(tried: set<Entry>, words: seq<string>, best: string, bestIndex: int, bestLength: nat, e: Entry)
    requires AllWords(words) && Progress(tried, words, best, bestIndex, bestLength)
    requires Better(Find(words, e.phrase), |e.phrase|, bestIndex, bestLength)
    ensures Progress(tried + {e}, words, e.canonical, Find(words, e.phrase), |e.phrase|)
  {
    FindIsFirstHit(words, e);
    var index := Find(words, e.phrase);
    var k: nat :| k <= |words| && index == Offset(words, k) && Hit(words, e, k)
                  && forall j: nat | Hit(words, e, j) :: k <= j;
    if bestIndex != -1 {
      var f, m: nat :| m <= |words| && Wins(tried, words, f, m) && bestIndex == Offset(words, m)
                       && bestLength == |f.phrase| && best == f.canonical;
      if m < k {
        OffsetGrows(words, m, k);
      } else if k < m {
        OffsetGrows(words, k, m);
      }
    }
    assert Wins(tried + {e}, words, e, k);
  }

  lemma SameWinner(tried: set<Entry>, words: seq<string>, best: string, bestIndex: int, bestLength: nat, e: Entry)
    requires AllWords(words) && Progress(tried, words, best, bestIndex, bestLength)
    requires !Better(Find(words, e.phrase), |e.phrase|, bestIndex, bestLength)
    ensures Progress(tried + {e}, words, best, bestIndex, bestLength)
  {
    FindIsFirstHit(words, e);
    var index := Find(words, e.phrase);
    if bestIndex != -1 {
      var f, m: nat :| m <= |words| && Wins(tried, words, f, m) && bestIndex == Offset(words, m)
                       && bestLength == |f.phrase| && best == f.canonical;
      forall j: nat | Hit(words, e, j) ensures m < j || (m == j && |e.phrase| <= |f.phrase|) {
        var k: nat :| k <= |words| && index == Offset(words, k) && Hit(words, e, k)
                      && forall j: nat | Hit(words, e, j) :: k <= j;
        if k < m {
          OffsetGrows(words, k, m);
        } else if m < k {
        }
      }
      assert Wins(tried + {e}, words, f, m);
    }
  }

  ghost function Tried(nature: Nature, n: nat): set<Entry>
    requires n <= |nature.Spellings()|
  {
    set j | 0 <= j < n :: Entry(nature.canonical, nature.Spellings()[j])
  }

  lemma EntriesStep(table: seq<Nature>, i: nat)
    requires i < |table|
    ensures Entries(table[..i + 1]) == Entries(table[..i]) + Tried(table[i], |table[i].Spellings()|)
  {
    var a, b := Entries(table[..i + 1]), Entries(table[..i]) + Tried(table[i], |table[i].Spellings()|);
    forall e | e in a ensures e in b {
      var x, y :| 0 <= x < i + 1 && 0 <= y < |table[x].Spellings()|
                  && e == Entry(table[x].canonical, table[x].Spellings()[y]);
      if x < i {
        assert table[..i][x] == table[x];
      }
    }
    forall e | e in b ensures e in a {
      if e in Entries(table[..i]) {
        var x, y :| 0 <= x < i && 0 <= y < |table[..i][x].Spellings()|
                    && e == Entry(table[..i][x].canonical, table[..i][x].Spellings()[y]);
        assert table[..i + 1][x] == table[..i][x];
      } else {
        assert table[..i + 1][i] == table[i];
      }
    }
  }

  lemma Try(tried: set<Entry>, words: seq<string>, best: string, bestIndex: int, bestLength: nat,
            nature: Nature, j: nat)
    requires AllWords(words) && j < |nature.Spellings()|
    requires Progress(tried + Tried(nature, j), words, best, bestIndex, bestLength)
    ensures var phrase := nature.Spellings()[j];
            var index := Find(words, phrase);
            if Better(index, |phrase|, bestIndex, bestLength)
            then Progress(tried + Tried(nature, j + 1), words, nature.canonical, index, |phrase|)
            else Progress(tried + Tried(nature, j + 1), words, best, bestIndex, bestLength)
  {
    var e := Entry(nature.canonical, nature.Spellings()[j]);
    assert tried + Tried(nature, j + 1) == tried + Tried(nature, j) + {e};
    if Better(Find(words, e.phrase), |e.phrase|, bestIndex, bestLength) {
      NewWinner(tried + Tried(nature, j), words, best, bestIndex, bestLength, e);
    } else {
      SameWinner(tried + Tried(nature, j), words, best, bestIndex, bestLength, e);
    }
  }

  lemma NothingInNoWords(entries: set<Entry>)
    ensures NoHit(entries, [])
  {
  }

  lemma ProgressMatches(entries: set<Entry>, words: seq<string>, best: string, bestIndex: int, bestLength: nat)
    requires Progress(entries, words, best, bestIndex, bestLength)
    ensures Matches(entries, words, best)
  {
    if bestIndex != -1 {
      var e, k: nat :| Wins(entries, words, e, k) && best == e.canonical;
      assert Wins(entries, words, e, k);
      assert Hit(words, e, k);
    }
  }

  method MatchKnownNature(table: seq<Nature>, candidate: string) returns (best: string)
    ensures Matches(Entries(table), Words(candidate), best)
  {
    ghost var words := Words(candidate);
    var normalized := NormalizeNature(candidate);
    var normalizedCandidate := " " + normalized + " ";
    TrimJoined(words);
    JoinIsCollapsed(words);
    if TrimSpace(normalizedCandidate) == "" {
      NothingInNoWords(Entries(table));
      return "";
    }
    PadIsJoin(words);
    best := Search(table, words, normalizedCandidate);
  }

  method Search(table: seq<Nature>, ghost words: seq<string>, normalizedCandidate: string) returns (best: string)
    requires AllWords(words) && normalizedCandidate == Pad(words)
    ensures Matches(Entries(table), words, best)
  {
    best := "";
    var bestIndex: int, bestLength: nat := -1, 0;
    for i := 0 to |table|
      invariant Progress(Entries(table[..i]), words, best, bestIndex, bestLength)
    {
      var phrases := table[i].Spellings();
      ghost var before := Entries(table[..i]);
      assert before + Tried(table[i], 0) == before;
      for j := 0 to |phrases|
        invariant Progress(before + Tried(table[i], j), words, best, bestIndex, bestLength)
      {
        var phrase := phrases[j];
        var needle := NormalizeNature(phrase);
        var index := Index(normalizedCandidate, " " + needle + " ");
        Try(before, words, best, bestIndex, bestLength, table[i], j);
        if index < 0 {
          continue;
        }
        if bestIndex == -1 || index < bestIndex || (index == bestIndex && |phrase| > bestLength) {
          best := table[i].canonical;
          bestIndex := index;
          bestLength := |phrase|;
        }
      }
      EntriesStep(table, i);
    }
    assert table[..|table|] == table;
    ProgressMatches(Entries(table), words, best, bestIndex, bestLength);
  }

  // ---------------------------------------------------------------- normal form, continued

  predicate Lowered(s: string) {
    forall i | 0 <= i < |s| :: IsLetterOrDigit(s[i])
  }

  predicate AllLowered(words: seq<string>) {
    forall i | 0 <= i < |words| :: Lowered(words[i])
  }

  lemma {:induction false} FieldsAreLowered(words: seq<string>, word: string, s: string)
    requires AllWords(words) && (word == "" || IsWord(word)) && AllLowered(words) && Lowered(word)
    requires forall i | 0 <= i < |s| :: IsLetterOrDigit(s[i]) || s[i] == ' '
    ensures AllLowered(WordsFrom(words, word, s))
    decreases |s|
  {
    if s != "" {
      if IsSpace(s[0]) {
        FieldsAreLowered(Close(words, word), "", s[1..]);
      } else {
        FieldsAreLowered(words, word + [s[0]], s[1..]);
      }
    }
  }

  lemma {:induction false} JoinIsMasked(words: seq<string>)
    requires AllLowered(words)
    ensures Masked(Join(words)) == Join(words)
  {
    if |words| > 1 {
      JoinIsMasked(words[..|words| - 1]);
    }
  }

  /** Normalizing twice is normalizing once, and the result is lower-case
      letters and digits with single spaces between words. */
  lemma NormalForm(s: string)
    ensures Words(Join(Words(s))) == Words(s)
    ensures var r := Join(Words(s));
            forall i | 0 <= i < |r| ::
              IsLetterOrDigit(r[i]) || (r[i] == ' ' && 0 < i < |r| - 1 && r[i - 1] != ' ')
  {
    FieldsAreLowered([], "", Masked(s));
    JoinIsMasked(Words(s));
    JoinIsCollapsed(Words(s));
    FieldsOfJoin(Words(s));
    var r := Join(Words(s));
    forall i | 0 <= i < |r| ensures IsLetterOrDigit(r[i]) || (r[i] == ' ' && 0 < i < |r| - 1 && r[i - 1] != ' ') {
      assert Masked(r)[i] == r[i];
    }
  }

  // ---------------------------------------------------------------- order of the table

  /** Spellings keep their length when normalized, and no two names share one. */
  ghost predicate Clean(entries: set<Entry>) {
    && (forall e | e in entries :: |Join(Words(e.phrase))| == |e.phrase|)
    && (forall e, f | e in entries && f in entries && Words(e.phrase) == Words(f.phrase) :: e.canonical == f.canonical)
  }

  lemma {:induction false} JoinGrows(words: seq<string>, n: nat)
    requires AllWords(words) && n <= |words| && |Join(words[..n])| == |Join(words)|
    ensures n == |words|
  {
    var m := |words| - 1;
    if n < |words| {
      assert words[..m][..n] == words[..n];
      if n < m {
        JoinMonotone(words[..m], n);
      }
    }
  }

  lemma {:induction false} JoinMonotone(words: seq<string>, n: nat)
    requires AllWords(words) && n <= |words|
    ensures |Join(words[..n])| <= |Join(words)|
  {
    if n == |words| {
      assert words[..n] == words;
    } else {
      assert words[..|words| - 1][..n] == words[..n];
      JoinMonotone(words[..|words| - 1], n);
    }
  }

  /** The answer is determined by the set of spellings, so neither the order of
      the table nor the order of a nature's spellings matters. */
  lemma OrderIsIrrelevant(entries: set<Entry>, words: seq<string>, a: string, b: string)
    requires AllWords(words) && Clean(entries)
    requires Matches(entries, words, a) && Matches(entries, words, b)
    ensures a == b
  {
    if !NoHit(entries, words) {
      var e, j: nat :| Wins(entries, words, e, j) && a == e.canonical;
      var f, k: nat :| Wins(entries, words, f, k) && b == f.canonical;
      assert Wins(entries, words, e, j) && Wins(entries, words, f, k);
      assert Hit(words, e, j) && Hit(words, f, k);
      SameSpelling(words, e, f, k);
    }
  }

  lemma SameSpelling(words: seq<string>, e: Entry, f: Entry, k: nat)
    requires AllWords(words) && Hit(words, e, k) && Hit(words, f, k)
    requires |Join(Words(e.phrase))| == |Join(Words(f.phrase))|
    ensures Words(e.phrase) == Words(f.phrase)
  {
    var v, w := Words(e.phrase), Words(f.phrase);
    if |v| <= |w| {
      assert words[k..k + |w|][..|v|] == words[k..k + |v|];
      JoinGrows(w, |v|);
    } else {
      assert words[k..k + |v|][..|w|] == words[k..k + |w|];
      JoinGrows(v, |w|);
    }
  }
}
