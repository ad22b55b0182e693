/** Words, and the splitting and joining of text at white space. */
module Text {

  /** unicode.IsSpace */
  predicate IsSpace(c: char) {
    || c == ' ' || '\t' <= c <= '\r' || c == '\U{0085}' || c == '\U{00A0}' || c == '\U{1680}'
    || '\U{2000}' <= c <= '\U{200A}' || c == '\U{2028}' || c == '\U{2029}'
    || c == '\U{202F}' || c == '\U{205F}' || c == '\U{3000}'
  }

  /** A nonempty run of characters without white space. */
  predicate IsWord(s: string) {
    s != "" && forall i | 0 <= i < |s| :: !IsSpace(s[i])
  }

  predicate AllWords(words: seq<string>) {
    forall i | 0 <= i < |words| :: IsWord(words[i])
  }

  function Close(words: seq<string>, word: string): seq<string> {
    if word == "" then words else words + [word]
  }

  /** strings.Fields, with the words closed and the word open before s. */
  function WordsFrom(words: seq<string>, word: string, s: string): (r: seq<string>)
    requires AllWords(words) && (word == "" || IsWord(word))
    ensures AllWords(r)
    decreases |s|
  {
    if s == "" then Close(words, word)
    else if IsSpace(s[0]) then WordsFrom(Close(words, word), "", s[1..])
    else WordsFrom(words, word + [s[0]], s[1..])
  }

  function WordsIn(s: string): (r: seq<string>)
    ensures AllWords(r)
  {
    WordsFrom([], "", s)
  }

  /** strings.Join(words, " ") */
  function Join(words: seq<string>): string {
    if words == [] then ""
    else if |words| == 1 then words[0]
    else Join(words[..|words| - 1]) + " " + words[|words| - 1]
  }

  /** Joined words have single spaces between them and none around them. */
  lemma {:induction false} JoinIsCollapsed(words: seq<string>)
    requires AllWords(words)
    ensures var s := Join(words);
            && (forall i | 0 <= i < |s| && IsSpace(s[i]) :: s[i] == ' ' && i > 0 && !IsSpace(s[i - 1]))
            && (words == [] <==> s == "")
            && (s != "" ==> !IsSpace(s[|s| - 1]))
  {
    if |words| > 1 {
      JoinIsCollapsed(words[..|words| - 1]);
    }
  }

  lemma {:induction false} FieldsFromAppend(words: seq<string>, word: string, s: string)
    requires AllWords(words) && (word == "" || IsWord(word))
    ensures WordsFrom(words, word, s) == words + WordsFrom([], word, s)
    decreases |s|
  {
    if s != "" {
      if IsSpace(s[0]) {
        FieldsFromAppend(Close(words, word), "", s[1..]);
        FieldsFromAppend(Close([], word), "", s[1..]);
      } else {
        FieldsFromAppend(words, word + [s[0]], s[1..]);
      }
    }
  }

  lemma {:induction false} FieldsFromSplit(words: seq<string>, word: string, s: string, t: string)
    requires AllWords(words) && (word == "" || IsWord(word)) && (t == "" || IsSpace(t[0]))
    ensures WordsFrom(words, word, s + t) == WordsFrom(words, word, s) + WordsIn(t)
    decreases |s|
  {
    if s == "" {
      assert s + t == t;
      if t != "" {
        FieldsFromAppend(Close(words, word), "", t[1..]);
      }
    } else {
      assert (s + t)[1..] == s[1..] + t;
      if IsSpace(s[0]) {
        FieldsFromSplit(Close(words, word), "", s[1..], t);
      } else {
        FieldsFromSplit(words, word + [s[0]], s[1..], t);
      }
    }
  }

  lemma {:induction false} FieldsOfWord(word: string, rest: string)
    requires word == "" || IsWord(word)
    requires rest == "" || IsWord(rest)
    ensures WordsFrom([], word, rest) == Close([], word + rest)
    decreases |rest|
  {
    if rest == "" {
      assert word + rest == word;
    } else {
      FieldsOfWord(word + [rest[0]], rest[1..]);
      assert word + [rest[0]] + rest[1..] == word + rest;
    }
  }

  lemma FieldsOfSnoc(front: string, word: string)
    requires IsWord(word)
    ensures WordsIn(front + (" " + word)) == WordsIn(front) + [word]
  {
    var last := " " + word;
    assert last[1..] == word;
    FieldsFromSplit([], "", front, last);
    FieldsOfWord("", word);
    assert "" + word == word;
  }

  lemma JoinSnoc(words: seq<string>, word: string)
    requires words != []
    ensures Join(words + [word]) == Join(words) + (" " + word)
  {
    assert (words + [word])[..|words|] == words;
    assert Join(words) + " " + word == Join(words) + (" " + word);
  }

  /** Splitting undoes joining. */
  lemma {:induction false} FieldsOfJoin(words: seq<string>)
    requires AllWords(words)
    ensures WordsIn(Join(words)) == words
  {
    if |words| == 1 {
      FieldsOfWord("", words[0]);
      assert "" + words[0] == words[0];
    } else if words != [] {
      var n := |words| - 1;
      FieldsOfJoin(words[..n]);
      FieldsOfSnoc(Join(words[..n]), words[n]);
      assert words == words[..n] + [words[n]];
      JoinSnoc(words[..n], words[n]);
    }
  }
}
