/** Words joined by a separator that none of them contains. */
module Joins {
  function Join(words: seq<string>, sep: char): string {
    if words == [] then ""
    else if |words| == 1 then words[0]
    else Join(words[..|words| - 1], sep) + [sep] + words[|words| - 1]
  }

  ghost predicate PlainWord(w: string, sep: char) {
    w != "" && sep !in w
  }

  ghost predicate PlainWords(words: seq<string>, sep: char) {
    forall w :: w in words ==> PlainWord(w, sep)
  }

  lemma JoinNonEmpty(words: seq<string>, sep: char)
    requires words != [] && PlainWords(words, sep)
    ensures Join(words, sep) != ""
  {
    assert words[0] in words;
  }

  /** Joining loses nothing: the last separator marks the last word. */
  lemma {:induction false} JoinInjective(v: seq<string>, w: seq<string>, sep: char)
    requires PlainWords(v, sep) && PlainWords(w, sep) && Join(v, sep) == Join(w, sep)
    ensures v == w
    decreases |v|
  {
    if v == [] {
      if w != [] { JoinNonEmpty(w, sep); }
    } else if w == [] {
      JoinNonEmpty(v, sep);
    } else {
      SameTail(v, w, sep);
      JoinInjective(v[..|v| - 1], w[..|w| - 1], sep);
      assert v == v[..|v| - 1] + [v[|v| - 1]] && w == w[..|w| - 1] + [w[|w| - 1]];
    }
  }

  /** Equal joins end in the same word. */
  lemma SameTail(v: seq<string>, w: seq<string>, sep: char)
    requires v != [] && w != [] && PlainWords(v, sep) && PlainWords(w, sep) && Join(v, sep) == Join(w, sep)
    ensures v[|v| - 1] == w[|w| - 1] && Join(v[..|v| - 1], sep) == Join(w[..|w| - 1], sep)
  {
    var s, a, b := Join(v, sep), v[|v| - 1], w[|w| - 1];
    LastWord(v, sep);
    LastWord(w, sep);
    TailAtLeast(v, w, sep);
    TailAtLeast(w, v, sep);
    assert a == s[|s| - |a|..] == b;
    assert |v| == 1 <==> |w| == 1;
    assert |v| == 1 ==> Join(v[..|v| - 1], sep) == Join(w[..|w| - 1], sep) == "";
    hide Join;
  }

  lemma TailAtLeast(v: seq<string>, w: seq<string>, sep: char)
    requires v != [] && w != [] && PlainWords(v, sep) && PlainWords(w, sep) && Join(v, sep) == Join(w, sep)
    ensures |v[|v| - 1]| >= |w[|w| - 1]|
  {
    LastWord(v, sep);
    LastWord(w, sep);
    var s, a, b := Join(v, sep), v[|v| - 1], w[|w| - 1];
    assert sep !in b by { assert b in w && PlainWord(b, sep); }
    hide Join, PlainWord;
    SeparatorBefore(s, |a|, b, sep);
  }

  /** A separator lies outside the separator-free end of a string. */
  lemma SeparatorBefore(s: string, n: nat, b: string, sep: char)
    requires |b| <= |s| && s[|s| - |b|..] == b && sep !in b
    requires n < |s| ==> s[|s| - n - 1] == sep
    ensures n >= |b|
  {
  }

  lemma LastWord(v: seq<string>, sep: char)
    requires v != [] && PlainWords(v, sep)
    ensures var s, a := Join(v, sep), v[|v| - 1];
      && |a| <= |s| && s[|s| - |a|..] == a
      && (|v| == 1 <==> |s| == |a|)
      && (|v| > 1 ==> |s| > |a| && s[|s| - |a| - 1] == sep && Join(v[..|v| - 1], sep) == s[..|s| - |a| - 1])
  {
  }
}
