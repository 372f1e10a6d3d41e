/** Normalized artist names, for runes already stripped of combining marks.
    The Unicode tables are a parameter. */
module ArtistName {
  import opened Joins

  datatype Unicode = Unicode(isSpace: char -> bool, isDash: char -> bool, lower: char -> char)

  /** The name without leading and trailing spaces. */
  function Trim(u: Unicode, name: string): string {
    if name != "" && u.isSpace(name[0]) then Trim(u, name[1..])
    else if name != "" && u.isSpace(name[|name| - 1]) then Trim(u, name[..|name| - 1])
    else name
  }

  predicate Dropped(c: char) {
    c in {',', '\'', '"', '`', '\U{2018}', '\U{2019}', '\U{201C}', '\U{201D}'}
  }

  predicate Separates(u: Unicode, c: char) {
    c == '.' || c == '/' || u.isSpace(c) || u.isDash(c)
  }

  function Translate(u: Unicode, c: char): string {
    if c == '&' then "and" else if c in {'\U{D8}', '\U{F8}'} then "o" else [u.lower(c)]
  }

  /** A rune that stays as it is. */
  predicate Stable(u: Unicode, c: char) {
    !Dropped(c) && !Separates(u, c) && Translate(u, c) == [c]
  }

  /** What is assumed of the tables: lowercasing is idempotent and maps no plain rune
      to a separator, a dropped rune or an expanded one; the hyphen is a dash and the
      letters that expansions use are plain. */
  ghost predicate Sane(u: Unicode) {
    && (forall c :: !Dropped(c) && !Separates(u, c) && c !in {'&', '\U{D8}', '\U{F8}'} ==> Stable(u, u.lower(c)))
    && u.isDash('-') && forall c | c in {'a', 'n', 'd', 'o'} :: Stable(u, c)
  }

  /** One turn of the loop over the builder's content and the inSpace flag. */
  function Step(u: Unicode, out: string, inSpace: bool, c: char): (string, bool) {
    if Dropped(c) then (out, inSpace)
    else if Separates(u, c) then (out, inSpace || out != "")
    else (out + (if inSpace then "-" else "") + Translate(u, c), false)
  }

  function Fold(u: Unicode, s: string): (string, bool) {
    if s == "" then ("", false)
    else
      var (out, inSpace) := Fold(u, s[..|s| - 1]);
      Step(u, out, inSpace, s[|s| - 1])
  }

  function Normalized(u: Unicode, name: string): string {
    Fold(u, name).0
  }

  lemma FoldNext(u: Unicode, s: string, i: nat)
    requires i < |s|
    ensures Fold(u, s[..i + 1]) == Step(u, Fold(u, s[..i]).0, Fold(u, s[..i]).1, s[i])
  {
    assert s[..i + 1][..i] == s[..i];
  }

  method NormalizeArtistName(u: Unicode, name: string) returns (norm: string)
    ensures norm == Normalized(u, name)
  {
    norm := "";
    var inSpace := false;
    for i := 0 to |name|
      invariant (norm, inSpace) == Fold(u, name[..i])
    {
      var c := name[i];
      FoldNext(u, name, i);
      if Dropped(c) { continue; }
      if Separates(u, c) {
        if |norm| > 0 { inSpace := true; }
        continue;
      }
      assert norm + "" == norm;
      if inSpace {
        norm := norm + "-";
        inSpace := false;
      }
      norm := norm + Translate(u, c);
    }
    assert name[..|name|] == name;
  }

  // ----- fixed points -----

  /** Words of stable runes with one hyphen between two words. */
  ghost predicate Clean(u: Unicode, s: string) {
    && (s != "" ==> s[0] != '-' && s[|s| - 1] != '-')
    && (forall i :: 0 <= i < |s| - 1 && s[i] == '-' ==> s[i + 1] != '-')
    && forall i :: 0 <= i < |s| && s[i] != '-' ==> Stable(u, s[i])
  }

  lemma {:induction false} FoldClean(u: Unicode, s: string)
    requires Sane(u)
    ensures Clean(u, Fold(u, s).0) && (Fold(u, s).1 ==> Fold(u, s).0 != "")
  {
    if s != "" {
      FoldClean(u, s[..|s| - 1]);
      var (out, inSpace) := Fold(u, s[..|s| - 1]);
      var c := s[|s| - 1];
      if !Dropped(c) && !Separates(u, c) {
        var t := Translate(u, c);
        assert forall i :: 0 <= i < |t| ==> Stable(u, t[i]) && t[i] != '-';
      }
    }
  }

  /** A name is its own normal form exactly when it is clean. */
  lemma FixedIff(u: Unicode, s: string)
    requires Sane(u)
    ensures Normalized(u, s) == s <==> Clean(u, s)
  {
    if Clean(u, s) {
      CleanFold(u, s, |s|);
      assert s[..|s|] == s;
    }
    FoldClean(u, s);
  }

  /** After k runes of a clean name: a final hyphen is still pending. */
  function CleanState(s: string, k: nat): (string, bool)
    requires k <= |s|
  {
    if k > 0 && s[k - 1] == '-' then (s[..k - 1], true) else (s[..k], false)
  }

  lemma CleanStep(u: Unicode, s: string, k: nat)
    requires Sane(u) && Clean(u, s) && k < |s|
    ensures Step(u, CleanState(s, k).0, CleanState(s, k).1, s[k]) == CleanState(s, k + 1)
  {
    assert k > 0 && s[k - 1] == '-' ==> s[k] != '-';
    assert s[k] == '-' || Stable(u, s[k]);
    hide Clean, Sane;
    if k > 0 && s[k - 1] == '-' {
      assert s[..k - 1] + "-" + [s[k]] == s[..k + 1];
    } else {
      assert s[..k] + "" + [s[k]] == s[..k + 1];
    }
  }

  lemma {:induction false} CleanFold(u: Unicode, s: string, k: nat)
    requires Sane(u) && Clean(u, s) && k <= |s|
    ensures Fold(u, s[..k]) == CleanState(s, k)
  {
    hide Clean, Sane, Step;
    if k > 0 {
      CleanFold(u, s, k - 1);
      FoldNext(u, s, k - 1);
      CleanStep(u, s, k - 1);
    }
  }

  /** Normalizing is idempotent and yields no leading, trailing or doubled hyphen. */
  lemma NormalizedIsClean(u: Unicode, name: string)
    requires Sane(u)
    ensures var norm := Normalized(u, name);
      && Normalized(u, norm) == norm
      && (norm != "" ==> norm[0] != '-' && norm[|norm| - 1] != '-')
      && forall i :: 0 <= i < |norm| - 1 && norm[i] == '-' ==> norm[i + 1] != '-'
  {
    FoldClean(u, name);
    FixedIff(u, Normalized(u, name));
  }

  // ----- spellings that mean the same -----

  /** The loop, started in the middle of a name. */
  function FoldFrom(u: Unicode, state: (string, bool), s: string): (string, bool) {
    if s == "" then state
    else
      var (out, inSpace) := FoldFrom(u, state, s[..|s| - 1]);
      Step(u, out, inSpace, s[|s| - 1])
  }

  lemma {:induction false} FoldAppend(u: Unicode, a: string, b: string)
    ensures Fold(u, a + b) == FoldFrom(u, Fold(u, a), b)
    decreases |b|
  {
    hide Step;
    if b == "" {
      assert a + b == a;
    } else {
      assert (a + b)[..|a + b| - 1] == a + b[..|b| - 1];
      FoldAppend(u, a, b[..|b| - 1]);
    }
  }

  /** What the loop makes no difference between, the normal form does not either. */
  lemma SameInside(u: Unicode, a: string, x: string, y: string, b: string)
    requires FoldFrom(u, Fold(u, a), x) == FoldFrom(u, Fold(u, a), y)
    ensures Normalized(u, a + x + b) == Normalized(u, a + y + b)
  {
    hide Fold, FoldFrom;
    FoldAppend(u, a, x);
    FoldAppend(u, a, y);
    FoldAppend(u, a + x, b);
    FoldAppend(u, a + y, b);
  }

  lemma FoldOne(u: Unicode, state: (string, bool), c: char)
    ensures FoldFrom(u, state, [c]) == Step(u, state.0, state.1, c)
  {
    assert [c][..0] == "";
  }

  lemma FoldTwo(u: Unicode, state: (string, bool), c: char, d: char)
    ensures FoldFrom(u, state, [c, d]) == FoldFrom(u, FoldFrom(u, state, [c]), [d])
  {
    assert [c, d][..1] == [c];
    FoldOne(u, FoldFrom(u, state, [c]), d);
  }

  /** Commas, quotes and backquotes count for nothing. */
  lemma QuotesIgnored(u: Unicode, a: string, c: char, b: string)
    requires c == ',' || c == '\'' || c == '"' || c == '`'
      || c == '\U{2018}' || c == '\U{2019}' || c == '\U{201C}' || c == '\U{201D}'
    ensures Normalized(u, a + [c] + b) == Normalized(u, a + b)
  {
    FoldOne(u, Fold(u, a), c);
    SameInside(u, a, [c], "", b);
    assert a + "" == a;
  }

  /** Neither dropped nor written: a dot, a slash, a space or a dash. */
  ghost predicate IsBreak(u: Unicode, c: char) {
    (c == '.' || c == '/' || u.isSpace(c) || u.isDash(c))
    && c != ',' && c != '\'' && c != '"' && c != '`'
    && c != '\U{2018}' && c != '\U{2019}' && c != '\U{201C}' && c != '\U{201D}'
  }

  /** All of these separate alike, and several in a row like one. */
  lemma BreaksAlike(u: Unicode, a: string, c: char, d: char, b: string)
    requires IsBreak(u, c) && IsBreak(u, d)
    ensures Normalized(u, a + [c] + b) == Normalized(u, a + [d] + b) == Normalized(u, a + [c, d] + b)
  {
    FoldOne(u, Fold(u, a), c);
    FoldOne(u, Fold(u, a), d);
    FoldTwo(u, Fold(u, a), c, d);
    FoldOne(u, FoldFrom(u, Fold(u, a), [c]), d);
    SameInside(u, a, [c], [d], b);
    SameInside(u, a, [c], [c, d], b);
  }

  /** An ampersand reads as "and". */
  lemma AmpersandIsAnd(u: Unicode, a: string, b: string)
    requires Sane(u) && !u.isSpace('&') && !u.isDash('&')
    ensures Normalized(u, a + "&" + b) == Normalized(u, a + "and" + b)
  {
    var state := Fold(u, a);
    assert "and" == ['a', 'n', 'd'] && "and"[..2] == ['a', 'n'];
    FoldOne(u, state, '&');
    FoldOne(u, state, 'a');
    FoldTwo(u, state, 'a', 'n');
    FoldOne(u, FoldFrom(u, state, ['a']), 'n');
    assert FoldFrom(u, state, "and") == Step(u, FoldFrom(u, state, "an").0, FoldFrom(u, state, "an").1, 'd');
    assert Stable(u, 'a') && Stable(u, 'n') && Stable(u, 'd');
    assert ((state.0 + (if state.1 then "-" else "") + "a") + "" + "n") + "" + "d"
      == state.0 + (if state.1 then "-" else "") + "and";
    SameInside(u, a, "&", "and", b);
  }

  /** Both cases of the stroked o read as "o". */
  lemma StrokedIsO(u: Unicode, a: string, c: char, b: string)
    requires Sane(u) && (c == '\U{D8}' || c == '\U{F8}') && !u.isSpace(c) && !u.isDash(c)
    ensures Normalized(u, a + [c] + b) == Normalized(u, a + "o" + b)
  {
    FoldOne(u, Fold(u, a), c);
    FoldOne(u, Fold(u, a), 'o');
    assert Stable(u, 'o') && "o" == ['o'];
    SameInside(u, a, [c], "o", b);
  }

  /** Case counts for nothing. */
  lemma CaseIgnored(u: Unicode, a: string, c: char, b: string)
    requires Sane(u)
    requires !Dropped(c) && !Separates(u, c) && c != '&' && c != '\U{D8}' && c != '\U{F8}'
    ensures Normalized(u, a + [c] + b) == Normalized(u, a + [u.lower(c)] + b)
  {
    FoldOne(u, Fold(u, a), c);
    FoldOne(u, Fold(u, a), u.lower(c));
    assert Stable(u, u.lower(c));
    SameInside(u, a, [c], [u.lower(c)], b);
  }

  /** Trimming takes the spaces at both ends and nothing else. */
  lemma {:induction false} TrimIs(u: Unicode, name: string) returns (i: nat, j: nat)
    ensures i <= j <= |name| && Trim(u, name) == name[i..j]
    ensures forall k | 0 <= k < |name| && !(i <= k < j) :: u.isSpace(name[k])
    ensures i < j ==> !u.isSpace(name[i]) && !u.isSpace(name[j - 1])
    decreases |name|
  {
    i, j := 0, |name|;
    if name != "" && u.isSpace(name[0]) {
      i, j := TrimIs(u, name[1..]);
      assert name[1..][i..j] == name[i + 1..j + 1];
      assert forall k | 0 < k < |name| :: name[k] == name[1..][k - 1];
      i, j := i + 1, j + 1;
    } else if name != "" && u.isSpace(name[|name| - 1]) {
      i, j := TrimIs(u, name[..|name| - 1]);
      assert name[..|name| - 1][i..j] == name[i..j];
    }
  }

  // ----- the words of a name -----

  /** The translated words of a name; `open` tells whether the last one may grow. */
  function Words(u: Unicode, s: string): (words: seq<string>) {
    WordsOf(u, s).0
  }

  function WordsOf(u: Unicode, s: string): (r: (seq<string>, bool))
    ensures r.1 ==> r.0 != []
  {
    if s == "" then ([], false)
    else
      var (words, open) := WordsOf(u, s[..|s| - 1]);
      var c := s[|s| - 1];
      if Dropped(c) then (words, open)
      else if Separates(u, c) then (words, false)
      else if open then (words[|words| - 1 := words[|words| - 1] + Translate(u, c)], true)
      else (words + [Translate(u, c)], true)
  }

  /** The normal form is the words, joined by hyphens. */
  lemma {:induction false} NormalizedJoinsWords(u: Unicode, s: string)
    requires Sane(u)
    ensures Normalized(u, s) == Join(Words(u, s), '-')
    ensures forall w :: w in Words(u, s) ==> PlainWord(w, '-')
    ensures Fold(u, s).1 <==> Words(u, s) != [] && !WordsOf(u, s).1
  {
    if s != "" {
      var rest, c := s[..|s| - 1], s[|s| - 1];
      NormalizedJoinsWords(u, rest);
      FoldClean(u, rest);
      var (words, open) := WordsOf(u, rest);
      if words != [] { JoinNonEmpty(words, '-'); }
      if !Dropped(c) && !Separates(u, c) {
        PlainTranslation(u, c);
        if open {
          var last := words[|words| - 1];
          assert last in words;
          var grown := words[|words| - 1 := last + Translate(u, c)];
          assert grown[..|grown| - 1] == words[..|words| - 1];
          assert Join(grown, '-') == Join(words, '-') + Translate(u, c);
        } else {
          var more := words + [Translate(u, c)];
          assert more[..|more| - 1] == words;
        }
      }
    }
  }

  lemma PlainTranslation(u: Unicode, c: char)
    requires Sane(u) && !Dropped(c) && !Separates(u, c)
    ensures PlainWord(Translate(u, c), '-')
  {
  }

  /** Two names are the same artist exactly when they have the same words, whatever
      their case, punctuation and separators. */
  lemma SameNameIff(u: Unicode, a: string, b: string)
    requires Sane(u)
    ensures Normalized(u, a) == Normalized(u, b) <==> Words(u, a) == Words(u, b)
  {
    NormalizedJoinsWords(u, a);
    NormalizedJoinsWords(u, b);
    if Normalized(u, a) == Normalized(u, b) {
      JoinInjective(Words(u, a), Words(u, b), '-');
    }
  }
}
