/** The Units column of the feed: tokens of the form `name:` open a unit and
    the tokens up to the next such token are its status. The text is taken
    after HTML unescaping. */
module ParseUnits {
  import opened Text
  import opened Types

  type UnitTypes = string -> string

  function CommasToSpaces(s: string): (r: string)
    ensures |r| == |s|
    ensures forall i | 0 <= i < |s| :: r[i] == if s[i] == ',' then ' ' else s[i]
  {
    seq(|s|, i requires 0 <= i < |s| => if s[i] == ',' then ' ' else s[i])
  }

  predicate Blank(c: char) {
    c == ' ' || c == '\t' || c == '\n' || c == '\r' || c == '\U{00A0}'
  }

  /** A character stays if it is not blank or is the first of a run of blanks. */
  predicate Stays(s: string, i: nat)
    requires i < |s|
  {
    !Blank(s[i]) || i == 0 || !Blank(s[i - 1])
  }

  /** The positions before n that stay, in order. */
  function Remaining(s: string, n: nat): (r: seq<nat>)
    requires n <= |s|
    ensures forall k | 0 <= k < |r| :: r[k] < n
  {
    if n == 0 then []
    else if Stays(s, n - 1) then Remaining(s, n - 1) + [n - 1]
    else Remaining(s, n - 1)
  }

  lemma {:induction false} RemainingStay(s: string, n: nat)
    requires n <= |s|
    ensures forall i | 0 <= i < n :: i in Remaining(s, n) <==> Stays(s, i)
    ensures forall j, k | 0 <= j < k < |Remaining(s, n)| :: Remaining(s, n)[j] < Remaining(s, n)[k]
  {
    if n > 0 {
      RemainingStay(s, n - 1);
    }
  }

  /** b is the characters at these positions, with a space for every blank. */
  ghost predicate Reads(s: string, at: seq<nat>, b: string)
    requires forall k | 0 <= k < |at| :: at[k] < |s|
  {
    |b| == |at| && forall k | 0 <= k < |b| :: b[k] == if Blank(s[at[k]]) then ' ' else s[at[k]]
  }

  /** Blanks are single inner spaces. */
  predicate Single(s: string) {
    forall i | 0 <= i < |s| && Blank(s[i]) :: s[i] == ' ' && i > 0 && !Blank(s[i - 1])
  }

  lemma {:induction false} AllRemain(s: string, n: nat)
    requires n <= |s| && Single(s)
    ensures |Remaining(s, n)| == n && forall k | 0 <= k < n :: Remaining(s, n)[k] == k
  {
    if n > 0 {
      AllRemain(s, n - 1);
    }
  }

  /** Every run of blanks becomes one space, and nothing else changes; so text
      that has single inner spaces only is left alone. */
  method CollapseWhitespace(s: string) returns (b: string)
    ensures Reads(s, Remaining(s, |s|), b)
    ensures Single(s) ==> b == s
  {
    b := "";
    var prevSpace := false;
    for k := 0 to |s|
      invariant prevSpace == (k > 0 && Blank(s[k - 1]))
      invariant Reads(s, Remaining(s, k), b)
    {
      assert Remaining(s, k + 1) == if Stays(s, k) then Remaining(s, k) + [k] else Remaining(s, k);
      if Blank(s[k]) {
        if !prevSpace {
          b := b + " ";
          prevSpace := true;
        }
        continue;
      }
      b := b + [s[k]];
      prevSpace := false;
    }
    if Single(s) {
      AllRemain(s, |s|);
    }
  }

  // ---------------------------------------------------------------- tokens

  predicate EndsWithColon(token: string) {
    token != "" && token[|token| - 1] == ':'
  }

  /** strings.TrimSuffix(token, ":") */
  function TrimColon(token: string): string {
    if EndsWithColon(token) then token[..|token| - 1] else token
  }

  /** Token i opens a unit: it ends in a colon, or no unit is open because it
      is the first token or follows a bare colon. */
  predicate Opens(tokens: seq<string>, i: nat)
    requires i < |tokens|
  {
    tokens[i] != ":" && (EndsWithColon(tokens[i]) || i == 0 || tokens[i - 1] == ":")
  }

  /** The positions before n that open a unit, in order. */
  function Openings(tokens: seq<string>, n: nat): (r: seq<nat>)
    requires n <= |tokens|
    ensures forall k | 0 <= k < |r| :: r[k] < n && Opens(tokens, r[k])
    ensures forall i | 0 <= i < n && Opens(tokens, i) :: i in r
    ensures forall j, k | 0 <= j < k < |r| :: r[j] < r[k]
  {
    if n == 0 then []
    else if Opens(tokens, n - 1) then Openings(tokens, n - 1) + [n - 1]
    else Openings(tokens, n - 1)
  }

  /** The first position from i on whose token ends in a colon, or the end. */
  function NextColon(tokens: seq<string>, i: nat): (e: nat)
    requires i <= |tokens|
    ensures i <= e <= |tokens|
    ensures forall k | i <= k < e :: !EndsWithColon(tokens[k])
    ensures e == |tokens| || EndsWithColon(tokens[e])
    decreases |tokens| - i
  {
    if i == |tokens| || EndsWithColon(tokens[i]) then i else NextColon(tokens, i + 1)
  }

  /** The unit header at position i. */
  function UnitAt(tokens: seq<string>, i: nat, typeOf: UnitTypes): Unit
    requires i < |tokens|
  {
    var name := TrimColon(tokens[i]);
    Unit(name, Join(tokens[i + 1..NextColon(tokens, i + 1)]), typeOf(name))
  }

  /** What the parser returns: one unit for each opening position. */
  function UnitsIn(tokens: seq<string>, typeOf: UnitTypes): (r: seq<Unit>) {
    var at := Openings(tokens, |tokens|);
    seq(|at|, k requires 0 <= k < |at| => UnitAt(tokens, at[k], typeOf))
  }

  function Parsed(decoded: string, typeOf: UnitTypes): seq<Unit> {
    UnitsIn(WordsIn(CommasToSpaces(decoded)), typeOf)
  }

  /** The units already written and the unit still open after n tokens. */
  ghost predicate Progress(tokens: seq<string>, n: nat, typeOf: UnitTypes, out: seq<Unit>, unit: string,
                           parts: seq<string>)
    requires n <= |tokens|
  {
    var at := Openings(tokens, n);
    && (unit == "" ==> parts == [] && |at| == |out| && (n == 0 || tokens[n - 1] == ":"))
    && (unit != "" ==>
         && |at| == |out| + 1
         && n > 0 && tokens[n - 1] != ":"
         && unit == TrimColon(tokens[at[|out|]])
         && parts == tokens[at[|out|] + 1..n]
         && forall k | 0 <= k < |parts| :: !EndsWithColon(parts[k]))
    && forall k | 0 <= k < |out| :: out[k] == UnitAt(tokens, at[k], typeOf)
  }

  function Flushed(out: seq<Unit>, unit: string, parts: seq<string>, typeOf: UnitTypes): seq<Unit> {
    if unit == "" then out else out + [Unit(unit, Join(parts), typeOf(unit))]
  }

  method Flush(out: seq<Unit>, unit: string, parts: seq<string>, typeOf: UnitTypes) returns (r: seq<Unit>)
    requires AllWords(parts)
    ensures r == Flushed(out, unit, parts, typeOf)
  {
    if unit == "" {
      return out;
    }
    var joined := Join(parts);
    var status := CollapseWhitespace(joined);
    JoinIsCollapsed(parts);
    r := out + [Unit(unit, status, typeOf(unit))];
  }

  lemma {:induction false} NextColonIs(tokens: seq<string>, i: nat, e: nat)
    requires i <= e <= |tokens|
    requires forall k | i <= k < e :: !EndsWithColon(tokens[k])
    requires e == |tokens| || EndsWithColon(tokens[e])
    ensures NextColon(tokens, i) == e
    decreases e - i
  {
    if i < e {
      NextColonIs(tokens, i + 1, e);
    }
  }

  ghost predicate Written(tokens: seq<string>, n: nat, typeOf: UnitTypes, out: seq<Unit>)
    requires n <= |tokens|
  {
    var at := Openings(tokens, n);
    |at| == |out| && forall k | 0 <= k < |out| :: out[k] == UnitAt(tokens, at[k], typeOf)
  }

  /** At a token that ends in a colon, and at the end, flushing writes the open unit. */
  lemma FlushKeeps(tokens: seq<string>, n: nat, typeOf: UnitTypes, out: seq<Unit>, unit: string, parts: seq<string>)
    requires n <= |tokens| && Progress(tokens, n, typeOf, out, unit, parts)
    requires n == |tokens| || EndsWithColon(tokens[n])
    ensures Written(tokens, n, typeOf, Flushed(out, unit, parts, typeOf))
  {
    var at := Openings(tokens, n);
    if unit != "" {
      forall k | at[|out|] + 1 <= k < n ensures !EndsWithColon(tokens[k]) {
        assert tokens[k] == parts[k - (at[|out|] + 1)];
      }
      NextColonIs(tokens, at[|out|] + 1, n);
    }
  }

  /** A token that ends in a colon opens a unit, unless it is a bare colon. */
  lemma ColonOpens(tokens: seq<string>, n: nat, typeOf: UnitTypes, out: seq<Unit>)
    requires n < |tokens| && Written(tokens, n, typeOf, out) && EndsWithColon(tokens[n])
    ensures Progress(tokens, n + 1, typeOf, out, TrimColon(tokens[n]), [])
  {
    assert tokens[n] != ":" <==> Opens(tokens, n);
    assert |tokens[n]| == 1 ==> tokens[n] == ":";
    var at := Openings(tokens, n + 1);
    assert tokens[n] != ":" ==> at == Openings(tokens, n) + [n] && tokens[n + 1..n + 1] == [];
  }

  lemma BareTokenJoins(tokens: seq<string>, n: nat, typeOf: UnitTypes, out: seq<Unit>, unit: string, parts: seq<string>)
    requires n < |tokens| && tokens[n] != "" && !EndsWithColon(tokens[n])
    requires Progress(tokens, n, typeOf, out, unit, parts)
    ensures unit == "" ==> Progress(tokens, n + 1, typeOf, out, tokens[n], [])
    ensures unit != "" ==> Progress(tokens, n + 1, typeOf, out, unit, parts + [tokens[n]])
  {
    assert Opens(tokens, n) <==> unit == "";
    var at := Openings(tokens, n);
    if unit == "" {
      assert Openings(tokens, n + 1) == at + [n];
      assert tokens[n + 1..n + 1] == [];
    } else {
      assert tokens[at[|out|] + 1..n + 1] == tokens[at[|out|] + 1..n] + [tokens[n]];
    }
  }

  /** One round of the parser's loop on the units written, the open unit and
      its status. */
  function Step(out: seq<Unit>, unit: string, parts: seq<string>, token: string, typeOf: UnitTypes)
    : (seq<Unit>, string, seq<string>)
  {
    if EndsWithColon(token) then (Flushed(out, unit, parts, typeOf), TrimColon(token), [])
    else if unit == "" then (out, token, parts)
    else (out, unit, parts + [token])
  }

  lemma StepKeeps(tokens: seq<string>, n: nat, typeOf: UnitTypes, out: seq<Unit>, unit: string, parts: seq<string>)
    requires n < |tokens| && tokens[n] != "" && Progress(tokens, n, typeOf, out, unit, parts)
    ensures var r := Step(out, unit, parts, tokens[n], typeOf); Progress(tokens, n + 1, typeOf, r.0, r.1, r.2)
  {
    if EndsWithColon(tokens[n]) {
      FlushKeeps(tokens, n, typeOf, out, unit, parts);
      ColonOpens(tokens, n, typeOf, Flushed(out, unit, parts, typeOf));
    } else {
      BareTokenJoins(tokens, n, typeOf, out, unit, parts);
    }
  }

  /** The parser's variables after a token list. */
  function After(tokens: seq<string>, typeOf: UnitTypes): (seq<Unit>, string, seq<string>) {
    if tokens == [] then ([], "", [])
    else
      var n := |tokens| - 1;
      var before := After(tokens[..n], typeOf);
      Step(before.0, before.1, before.2, tokens[n], typeOf)
  }

  lemma {:induction false} AfterIsProgress(tokens: seq<string>, n: nat, typeOf: UnitTypes)
    requires n <= |tokens| && AllWords(tokens)
    ensures var r := After(tokens[..n], typeOf); Progress(tokens, n, typeOf, r.0, r.1, r.2)
  {
    if n > 0 {
      AfterIsProgress(tokens, n - 1, typeOf);
      assert tokens[..n][..n - 1] == tokens[..n - 1];
      var before := After(tokens[..n - 1], typeOf);
      StepKeeps(tokens, n - 1, typeOf, before.0, before.1, before.2);
    }
  }

  /** Reading token by token and flushing at the end finds the units at the
      opening positions, each with the tokens up to the next colon. */
  lemma LoopFindsUnits(tokens: seq<string>, typeOf: UnitTypes)
    requires AllWords(tokens)
    ensures var r := After(tokens, typeOf); Flushed(r.0, r.1, r.2, typeOf) == UnitsIn(tokens, typeOf)
  {
    var r := After(tokens, typeOf);
    assert tokens[..|tokens|] == tokens;
    AfterIsProgress(tokens, |tokens|, typeOf);
    FlushKeeps(tokens, |tokens|, typeOf, r.0, r.1, r.2);
  }

  method Parse(decoded: string, typeOf: UnitTypes) returns (out: seq<Unit>)
    ensures out == Parsed(decoded, typeOf)
  {
    var tokens := WordsIn(CommasToSpaces(decoded));
    if |tokens| == 0 {
      return [];
    }
    out := ParseTokens(tokens, typeOf);
  }

  method ParseTokens(tokens: seq<string>, typeOf: UnitTypes) returns (out: seq<Unit>)
    requires AllWords(tokens)
    ensures out == UnitsIn(tokens, typeOf)
  {
    out := [];
    var unit, statusParts := "", [];
    for n := 0 to |tokens|
      invariant AllWords(statusParts)
      invariant (out, unit, statusParts) == After(tokens[..n], typeOf)
    {
      var token := tokens[n];
      assert tokens[..n + 1][..n] == tokens[..n];
      if EndsWithColon(token) {
        out := Flush(out, unit, statusParts, typeOf);
        unit := TrimColon(token);
        statusParts := [];
        continue;
      }
      if unit == "" {
        unit := token;
        continue;
      }
      statusParts := statusParts + [token];
    }
    assert tokens[..|tokens|] == tokens;
    LoopFindsUnits(tokens, typeOf);
    out := Flush(out, unit, statusParts, typeOf);
  }

  // ---------------------------------------------------------------- round trip

  predicate NoComma(s: string) {
    forall i | 0 <= i < |s| :: s[i] != ','
  }

  /** A unit as the parser can produce it. */
  predicate WellFormed(u: Unit, typeOf: UnitTypes) {
    && IsWord(u.name) && NoComma(u.name) && NoComma(u.status)
    && u.unitType == typeOf(u.name)
    && u.status == Join(WordsIn(u.status))
    && forall k | 0 <= k < |WordsIn(u.status)| :: !EndsWithColon(WordsIn(u.status)[k])
  }

  predicate AllWellFormed(units: seq<Unit>, typeOf: UnitTypes) {
    forall i | 0 <= i < |units| :: WellFormed(units[i], typeOf)
  }

  function Render(units: seq<Unit>): string {
    if units == [] then ""
    else
      var u := units[|units| - 1];
      Render(units[..|units| - 1]) + " " + u.name + ": " + u.status
  }

  function TokensOf(units: seq<Unit>): seq<string> {
    if units == [] then []
    else
      var u := units[|units| - 1];
      TokensOf(units[..|units| - 1]) + [u.name + ":"] + WordsIn(u.status)
  }

  lemma RenderedUnit(front: string, name: string, status: string)
    requires IsWord(name)
    ensures WordsIn(front + " " + name + ": " + status) == WordsIn(front) + [name + ":"] + WordsIn(status)
  {
    var spaced := " " + status;
    assert spaced[1..] == status;
    FieldsOfSnoc(front, name + ":");
    FieldsFromSplit([], "", front + (" " + (name + ":")), spaced);
    assert front + " " + name + ": " + status == front + (" " + (name + ":")) + spaced;
  }

  lemma {:induction false} RenderedTokens(units: seq<Unit>, typeOf: UnitTypes)
    requires AllWellFormed(units, typeOf)
    ensures NoComma(Render(units)) && WordsIn(Render(units)) == TokensOf(units)
  {
    if units != [] {
      var n := |units| - 1;
      RenderedTokens(units[..n], typeOf);
      RenderedUnit(Render(units[..n]), units[n].name, units[n].status);
    }
  }

  lemma {:induction false} AfterStatus(tokens: seq<string>, parts: seq<string>, typeOf: UnitTypes)
    requires After(tokens, typeOf).1 != "" && After(tokens, typeOf).2 == []
    requires forall k | 0 <= k < |parts| :: !EndsWithColon(parts[k])
    ensures After(tokens + parts, typeOf) == (After(tokens, typeOf).0, After(tokens, typeOf).1, parts)
  {
    if parts == [] {
      assert tokens + parts == tokens;
    } else {
      var n := |parts| - 1;
      AfterStatus(tokens, parts[..n], typeOf);
      assert (tokens + parts)[..|tokens| + n] == tokens + parts[..n];
      assert parts == parts[..n] + [parts[n]];
    }
  }

  lemma AfterUnit(tokens: seq<string>, u: Unit, typeOf: UnitTypes)
    requires WellFormed(u, typeOf)
    ensures var r := After(tokens, typeOf);
            After(tokens + [u.name + ":"] + WordsIn(u.status), typeOf)
            == (Flushed(r.0, r.1, r.2, typeOf), u.name, WordsIn(u.status))
  {
    var header := tokens + [u.name + ":"];
    assert header[..|tokens|] == tokens;
    assert TrimColon(u.name + ":") == u.name;
    AfterStatus(header, WordsIn(u.status), typeOf);
  }

  lemma {:induction false} TokensRebuild(units: seq<Unit>, typeOf: UnitTypes)
    requires AllWellFormed(units, typeOf)
    ensures var r := After(TokensOf(units), typeOf); Flushed(r.0, r.1, r.2, typeOf) == units
  {
    if units != [] {
      var n := |units| - 1;
      TokensRebuild(units[..n], typeOf);
      AfterUnit(TokensOf(units[..n]), units[n], typeOf);
      assert units == units[..n] + [units[n]];
    }
  }

  lemma {:induction false} TokensAreWords(units: seq<Unit>, typeOf: UnitTypes)
    requires AllWellFormed(units, typeOf)
    ensures AllWords(TokensOf(units))
  {
    if units != [] {
      TokensAreWords(units[..|units| - 1], typeOf);
    }
  }

  /** Rendering well-formed units and parsing the text returns them. */
  lemma ParseUndoesRender(units: seq<Unit>, typeOf: UnitTypes)
    requires AllWellFormed(units, typeOf)
    ensures Parsed(Render(units), typeOf) == units
  {
    RenderedTokens(units, typeOf);
    assert CommasToSpaces(Render(units)) == Render(units);
    TokensAreWords(units, typeOf);
    TokensRebuild(units, typeOf);
    LoopFindsUnits(TokensOf(units), typeOf);
  }

  // ---------------------------------------------------------------- what the parser can return

  /** A token of comma-free text. */
  predicate IsToken(t: string) {
    IsWord(t) && NoComma(t)
  }

  predicate AllTokens(tokens: seq<string>) {
    forall i | 0 <= i < |tokens| :: IsToken(tokens[i])
  }

  predicate IsStatus(parts: seq<string>) {
    AllTokens(parts) && forall k | 0 <= k < |parts| :: !EndsWithColon(parts[k])
  }

  lemma {:induction false} FieldsAreTokens(words: seq<string>, word: string, s: string)
    requires AllTokens(words) && (word == "" || IsToken(word)) && NoComma(s)
    ensures AllTokens(WordsFrom(words, word, s))
    decreases |s|
  {
    if s != "" {
      if IsSpace(s[0]) {
        FieldsAreTokens(Close(words, word), "", s[1..]);
      } else {
        FieldsAreTokens(words, word + [s[0]], s[1..]);
      }
    }
  }

  lemma {:induction false} JoinHasNoComma(words: seq<string>)
    requires AllTokens(words)
    ensures NoComma(Join(words))
  {
    if |words| > 1 {
      JoinHasNoComma(words[..|words| - 1]);
    }
  }

  lemma FlushedIsWellFormed(out: seq<Unit>, unit: string, parts: seq<string>, typeOf: UnitTypes)
    requires AllWellFormed(out, typeOf) && (unit == "" || IsToken(unit)) && IsStatus(parts)
    ensures AllWellFormed(Flushed(out, unit, parts, typeOf), typeOf)
  {
    JoinHasNoComma(parts);
    FieldsOfJoin(parts);
  }

  lemma {:induction false} AfterIsWellFormed(tokens: seq<string>, typeOf: UnitTypes)
    requires AllTokens(tokens)
    ensures var r := After(tokens, typeOf);
            AllWellFormed(r.0, typeOf) && (r.1 == "" || IsToken(r.1)) && IsStatus(r.2)
  {
    if tokens != [] {
      var n := |tokens| - 1;
      AfterIsWellFormed(tokens[..n], typeOf);
      var r := After(tokens[..n], typeOf);
      FlushedIsWellFormed(r.0, r.1, r.2, typeOf);
      assert IsToken(tokens[n]);
    }
  }

  lemma ParsedIsWellFormed(decoded: string, typeOf: UnitTypes)
    ensures AllWellFormed(Parsed(decoded, typeOf), typeOf)
  {
    var tokens := WordsIn(CommasToSpaces(decoded));
    FieldsAreTokens([], "", CommasToSpaces(decoded));
    AfterIsWellFormed(tokens, typeOf);
    var r := After(tokens, typeOf);
    FlushedIsWellFormed(r.0, r.1, r.2, typeOf);
    LoopFindsUnits(tokens, typeOf);
  }

  /** For every text, rendering what was parsed and parsing again changes nothing. */
  lemma ReparseIsStable(decoded: string, typeOf: UnitTypes)
    ensures Parsed(Render(Parsed(decoded, typeOf)), typeOf) == Parsed(decoded, typeOf)
  {
    ParsedIsWellFormed(decoded, typeOf);
    ParseUndoesRender(Parsed(decoded, typeOf), typeOf);
  }

  // ---------------------------------------------------------------- conservation

  /** The tokens with one trailing colon off each, and without those that leaves empty. */
  function Kept(tokens: seq<string>): seq<string> {
    if tokens == [] then []
    else Close(Kept(tokens[..|tokens| - 1]), TrimColon(tokens[|tokens| - 1]))
  }

  function WordsOf(units: seq<Unit>): seq<string> {
    if units == [] then []
    else
      var u := units[|units| - 1];
      WordsOf(units[..|units| - 1]) + [u.name] + WordsIn(u.status)
  }

  lemma FlushedWords(out: seq<Unit>, unit: string, parts: seq<string>, typeOf: UnitTypes)
    requires AllWords(parts) && (unit == "" ==> parts == [])
    ensures WordsOf(Flushed(out, unit, parts, typeOf)) == Close(WordsOf(out), unit) + parts
  {
    if unit != "" {
      FieldsOfJoin(parts);
      assert Flushed(out, unit, parts, typeOf)[..|out|] == out;
    }
  }

  /** The words written and the words of the open unit are the words read. */
  ghost predicate Holds(r: (seq<Unit>, string, seq<string>), kept: seq<string>) {
    AllWords(r.2) && (r.1 == "" ==> r.2 == []) && Close(WordsOf(r.0), r.1) + r.2 == kept
  }

  lemma StepKeepsWords(out: seq<Unit>, unit: string, parts: seq<string>, token: string, kept: seq<string>,
                       typeOf: UnitTypes)
    requires Holds((out, unit, parts), kept) && IsWord(token)
    ensures Holds(Step(out, unit, parts, token, typeOf), Close(kept, TrimColon(token)))
  {
    FlushedWords(out, unit, parts, typeOf);
  }

  lemma {:induction false} AfterKeepsWords(tokens: seq<string>, typeOf: UnitTypes)
    requires AllWords(tokens)
    ensures Holds(After(tokens, typeOf), Kept(tokens))
  {
    if tokens != [] {
      var n := |tokens| - 1;
      AfterKeepsWords(tokens[..n], typeOf);
      var r := After(tokens[..n], typeOf);
      StepKeepsWords(r.0, r.1, r.2, tokens[n], Kept(tokens[..n]), typeOf);
    }
  }

  /** No word of the text is lost, added or moved: the names and status words
      in order are the tokens without their closing colons. */
  lemma WordsAreKept(tokens: seq<string>, typeOf: UnitTypes)
    requires AllWords(tokens)
    ensures WordsOf(UnitsIn(tokens, typeOf)) == Kept(tokens)
  {
    AfterKeepsWords(tokens, typeOf);
    var r := After(tokens, typeOf);
    FlushedWords(r.0, r.1, r.2, typeOf);
    LoopFindsUnits(tokens, typeOf);
  }
}
