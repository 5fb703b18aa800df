/** Joining and splitting comma-separated lists (strings.Join and strings.Split as the sidecar uses them). */
module Words {

  const COMMA: char := ','

  /** strings.Join with a comma. */
  function Join(words: seq<string>): string {
    if words == [] then ""
    else if |words| == 1 then words[0]
    else words[0] + [COMMA] + Join(words[1..])
  }

  /** Between two words there is one comma. */
  lemma JoinIs(word: string, rest: seq<string>)
    ensures Join([word]) == word
    ensures rest != [] ==> Join([word] + rest) == word + "," + Join(rest)
  {
    assert ([word] + rest)[1..] == rest;
  }

  /** strings.Split at commas; the empty string has one empty word. */
  function Split(s: string): (words: seq<string>)
    ensures words != []
  {
    if s == [] then [""]
    else
      var rest := Split(s[1..]);
      if s[0] == COMMA then [""] + rest else [[s[0]] + rest[0]] + rest[1..]
  }

  predicate CommaFree(s: string) { COMMA !in s }

  lemma {:induction false} SplitWord(w: string)
    requires CommaFree(w)
    ensures Split(w) == [w]
  {
    if w != [] {
      SplitWord(w[1..]);
      assert [w[0]] + w[1..] == w;
    }
  }

  lemma {:induction false} SplitFirst(w: string, rest: string)
    requires CommaFree(w)
    ensures Split(w + [COMMA] + rest) == [w] + Split(rest)
  {
    if w == [] {
      assert (w + [COMMA] + rest)[1..] == rest;
    } else {
      SplitFirst(w[1..], rest);
      assert (w + [COMMA] + rest)[1..] == w[1..] + [COMMA] + rest;
      assert [w[0]] + w[1..] == w;
    }
  }

  function Commas(s: string): nat {
    if s == [] then 0 else (if s[0] == COMMA then 1 else 0) + Commas(s[1..])
  }

  lemma {:induction false} CommasConcat(s: string, t: string)
    ensures Commas(s + t) == Commas(s) + Commas(t)
  {
    if s == [] {
      assert s + t == t;
    } else {
      CommasConcat(s[1..], t);
      assert (s + t)[1..] == s[1..] + t;
    }
  }

  lemma {:induction false} CommaFreeIff(s: string)
    ensures CommaFree(s) <==> Commas(s) == 0
  {
    if s != [] {
      CommaFreeIff(s[1..]);
      assert s == [s[0]] + s[1..];
    }
  }

  lemma {:induction false} SplitCount(s: string)
    ensures |Split(s)| == 1 + Commas(s)
  {
    if s != [] {
      SplitCount(s[1..]);
    }
  }

  /** The joined list has a comma between words and those inside words. */
  lemma {:induction false} JoinCount(words: seq<string>)
    requires words != []
    ensures Commas(Join(words)) >= |words| - 1
    ensures Commas(Join(words)) == |words| - 1 <==> forall w :: w in words ==> CommaFree(w)
  {
    CommaFreeIff(words[0]);
    if |words| > 1 {
      JoinCount(words[1..]);
      CommasConcat(words[0] + [COMMA], Join(words[1..]));
      CommasConcat(words[0], [COMMA]);
      assert words == [words[0]] + words[1..];
    } else {
      assert words == [words[0]];
    }
  }

  lemma {:induction false} SplitJoined(words: seq<string>)
    requires words != [] && forall w :: w in words ==> CommaFree(w)
    ensures Split(Join(words)) == words
  {
    if |words| == 1 {
      SplitWord(words[0]);
    } else {
      SplitJoined(words[1..]);
      SplitFirst(words[0], Join(words[1..]));
      assert words == [words[0]] + words[1..];
    }
  }

  /** Splitting the joined list gives the list back exactly when there is at least one word and no
      word contains a comma. */
  lemma RoundTrip(words: seq<string>)
    ensures Split(Join(words)) == words <==> words != [] && forall w :: w in words ==> CommaFree(w)
  {
    if words != [] {
      JoinCount(words);
      SplitCount(Join(words));
      if forall w :: w in words ==> CommaFree(w) {
        SplitJoined(words);
      }
    }
  }
}
