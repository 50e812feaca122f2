/** Splitting text into lower-case search tokens.

    Text is a sequence of runes.  `wide` tells which runes beyond ASCII are letters or digits. */
module Tokenizer {
  import opened Text

  type Wide = char -> bool

  predicate IsWordRune(wide: Wide, c: char) {
    'a' <= c <= 'z' || 'A' <= c <= 'Z' || '0' <= c <= '9' || (c as int >= 128 && wide(c))
  }

  /** Bytes of a rune in UTF-8. */
  function Width(c: char): nat {
    var n := c as int;
    if n < 0x80 then 1 else if n < 0x800 then 2 else if n < 0x10000 then 3 else 4
  }

  function ByteLength(word: string): nat {
    if word == "" then 0 else Width(word[0]) + ByteLength(word[1..])
  }

  function Flush(word: string): seq<string> {
    if word == "" then [] else [word]
  }

  /** The maximal runs of word runes, where `current` is the run in progress. */
  function Words(wide: Wide, text: string, current: string): seq<string>
    decreases text
  {
    if text == "" then Flush(current)
    else if IsWordRune(wide, text[0]) then Words(wide, text[1..], current + [text[0]])
    else Flush(current) + Words(wide, text[1..], "")
  }

  predicate LongEnough(word: string) {
    ByteLength(word) >= 2
  }

  function Kept(words: seq<string>): seq<string> {
    if words == [] then []
    else
      var last := words[|words| - 1];
      if LongEnough(last) then Kept(words[..|words| - 1]) + [last] else Kept(words[..|words| - 1])
  }

  function Tokens(wide: Wide, text: string): seq<string> {
    Kept(Words(wide, ToLower(text), ""))
  }

  method Tokenize(wide: Wide, text: string) returns (tokens: seq<string>)
    ensures tokens == Tokens(wide, text)
  {
    var words := Words(wide, ToLower(text), "");
    tokens := [];
    var i := 0;
    while i < |words|
      invariant 0 <= i <= |words|
      invariant tokens == Kept(words[..i])
    {
      assert words[..i + 1][..i] == words[..i];
      if LongEnough(words[i]) {
        tokens := tokens + [words[i]];
      }
      i := i + 1;
    }
    assert words[..i] == words;
  }

  // ----- Meaning -----

  function WordRunes(wide: Wide, text: string): string {
    if text == "" then ""
    else (if IsWordRune(wide, text[0]) then [text[0]] else []) + WordRunes(wide, text[1..])
  }

  function Concatenated(words: seq<string>): string {
    if words == [] then "" else words[0] + Concatenated(words[1..])
  }

  /** Words are never empty and spell the word runes of the text, all of them and in order. */
  lemma {:induction false} WordsMeaning(wide: Wide, text: string, current: string)
    requires forall c | c in current :: IsWordRune(wide, c)
    ensures Concatenated(Words(wide, text, current)) == current + WordRunes(wide, text)
    ensures forall w | w in Words(wide, text, current) :: w != "" && forall c | c in w :: IsWordRune(wide, c)
    decreases text
  {
    if text == "" {
    } else if IsWordRune(wide, text[0]) {
      WordsMeaning(wide, text[1..], current + [text[0]]);
      assert current + [text[0]] + WordRunes(wide, text[1..]) == current + WordRunes(wide, text);
    } else {
      WordsMeaning(wide, text[1..], "");
      var rest := Words(wide, text[1..], "");
      if current != "" {
        assert (Flush(current) + rest)[1..] == rest;
      } else {
        assert Flush(current) + rest == rest;
      }
    }
  }

  // ----- A run of letters and digits is one word -----

  lemma {:induction false} RunStaysTogether(wide: Wide, run: string, current: string)
    requires forall c | c in run :: IsWordRune(wide, c)
    ensures Words(wide, run, current) == Flush(current + run)
    decreases run
  {
    if run == "" {
      assert current + run == current;
    } else {
      assert run[0] in run && forall c | c in run[1..] :: c in run;
      RunStaysTogether(wide, run[1..], current + [run[0]]);
      assert (current + [run[0]]) + run[1..] == current + run;
    }
  }

  /** A text of word runes only is a single word, whatever letters and digits it mixes. */
  lemma OneWord(wide: Wide, w: string)
    requires w != "" && forall c | c in w :: IsWordRune(wide, c)
    ensures Words(wide, w, "") == [w]
  {
    assert "" + w == w;
    RunStaysTogether(wide, w, "");
  }

  /** A rune takes one to four bytes, and one exactly when it is ASCII. */
  lemma {:induction false} ByteLengthMeaning(word: string)
    ensures |word| <= ByteLength(word) <= 4 * |word|
    ensures ByteLength(word) == |word| <==> forall c | c in word :: c as int < 128
  {
    if word != "" {
      ByteLengthMeaning(word[1..]);
      assert word[0] in word && forall c | c in word[1..] :: c in word;
      assert Width(word[0]) == 1 <==> word[0] as int < 128;
      if c :| c in word && c as int >= 128 {
        assert c == word[0] || c in word[1..];
      }
    }
  }

  lemma LowerKeepsWordRunes(wide: Wide, w: string)
    requires forall c | c in w :: IsWordRune(wide, c)
    ensures forall c | c in ToLower(w) :: IsWordRune(wide, c)
  {
    forall c | c in ToLower(w)
      ensures IsWordRune(wide, c)
    {
      var i :| 0 <= i < |w| && ToLower(w)[i] == c;
      assert w[i] in w;
    }
  }

  lemma KeptOne(word: string)
    ensures Kept([word]) == if ByteLength(word) >= 2 then [word] else []
  {
    assert [word][..0] == [];
    assert Kept([]) == [];
  }

  /** Such a text is one token, lower-cased, unless that is shorter than two bytes. */
  lemma OneToken(wide: Wide, w: string)
    requires w != "" && forall c | c in w :: IsWordRune(wide, c)
    ensures Tokens(wide, w) == if ByteLength(ToLower(w)) >= 2 then [ToLower(w)] else []
  {
    LowerKeepsWordRunes(wide, w);
    OneWord(wide, ToLower(w));
    KeptOne(ToLower(w));
  }

  /** In particular any two or more ASCII letters and digits. */
  lemma AlphanumericIsOneToken(wide: Wide, w: string)
    requires |w| >= 2 && forall c | c in w :: 'a' <= c <= 'z' || 'A' <= c <= 'Z' || '0' <= c <= '9'
    ensures Tokens(wide, w) == [ToLower(w)]
  {
    ByteLengthMeaning(ToLower(w));
    OneToken(wide, w);
  }

  // ----- Tokens of joined text -----

  lemma {:induction false} WordsJoin(wide: Wide, a: string, separator: char, b: string, current: string)
    requires !IsWordRune(wide, separator)
    ensures Words(wide, a + [separator] + b, current) == Words(wide, a, current) + Words(wide, b, "")
    decreases a
  {
    var whole := a + [separator] + b;
    if a == "" {
      assert whole[0] == separator && whole[1..] == b;
    } else {
      assert whole[0] == a[0] && whole[1..] == a[1..] + [separator] + b;
      if IsWordRune(wide, a[0]) {
        WordsJoin(wide, a[1..], separator, b, current + [a[0]]);
      } else {
        WordsJoin(wide, a[1..], separator, b, "");
      }
    }
  }

  lemma {:induction false} KeptJoins(a: seq<string>, b: seq<string>)
    ensures Kept(a + b) == Kept(a) + Kept(b)
    decreases b
  {
    if b == [] {
      assert a + b == a;
    } else {
      assert (a + b)[..|a + b| - 1] == a + b[..|b| - 1];
      KeptJoins(a, b[..|b| - 1]);
    }
  }

  /** Tokenizing commutes with joining by anything that is neither letter nor digit. */
  lemma TokensJoinAt(wide: Wide, a: string, separator: char, b: string)
    requires !IsWordRune(wide, separator)
    ensures Tokens(wide, a + [separator] + b) == Tokens(wide, a) + Tokens(wide, b)
  {
    assert ToLower(a + [separator] + b) == ToLower(a) + [separator] + ToLower(b);
    WordsJoin(wide, ToLower(a), separator, ToLower(b), "");
    KeptJoins(Words(wide, ToLower(a), ""), Words(wide, ToLower(b), ""));
  }

  lemma TokensJoin(wide: Wide, a: string, b: string)
    ensures Tokens(wide, a + " " + b) == Tokens(wide, a) + Tokens(wide, b)
  {
    TokensJoinAt(wide, a, ' ', b);
  }

  /** The two letters of a pair that differs only in case, or the same character. */
  predicate SameLetter(a: char, b: char) {
    || a == b
    || ('A' <= a <= 'Z' && 'a' <= b <= 'z' && a - 'A' == b - 'a')
    || ('a' <= a <= 'z' && 'A' <= b <= 'Z' && a - 'a' == b - 'A')
  }

  /** Texts that differ only in ASCII case have the same tokens, and these hold no capitals. */
  lemma TokensFoldCase(wide: Wide, a: string, b: string)
    requires |a| == |b| && forall i | 0 <= i < |a| :: SameLetter(a[i], b[i])
    ensures Tokens(wide, a) == Tokens(wide, b)
    ensures forall i | 0 <= i < |a| :: !('A' <= ToLower(a)[i] <= 'Z') && SameLetter(ToLower(a)[i], a[i])
  {
    assert ToLower(a) == ToLower(b);
  }

  lemma TokensIgnoreCase(wide: Wide, text: string)
    ensures Tokens(wide, ToLower(text)) == Tokens(wide, text)
  {
    assert ToLower(ToLower(text)) == ToLower(text);
  }

  /** The tokens of each part are among the tokens of the joined text. */
  lemma {:induction false} TokensOfPart(wide: Wide, parts: seq<string>, i: nat, t: string)
    requires i < |parts| && t in Tokens(wide, parts[i])
    ensures t in Tokens(wide, Join(parts, " "))
    decreases |parts|
  {
    if |parts| > 1 {
      TokensJoin(wide, parts[0], Join(parts[1..], " "));
      if i > 0 {
        TokensOfPart(wide, parts[1..], i - 1, t);
      }
    }
  }
}
