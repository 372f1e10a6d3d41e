/** Which names the walk takes for media files and for disc folders. */
module WalkNames {
  import opened Basics
  import opened Tables
  import opened Walk

  // ----- extensions -----

  /** The extension starts at the last dot. */
  lemma {:induction false} ExtensionOf(stem: string, ext: string)
    requires ext != "" && ext[0] == '.' && '.' !in ext[1..]
    ensures Extension(stem + ext) == ext
    decreases |stem|
  {
    var name := stem + ext;
    if stem == "" {
      assert name == ext;
      assert forall i | 1 <= i < |name| :: name[i] == ext[1..][i - 1];
    } else {
      assert name[|stem|] == '.';
      assert name[1..] == stem[1..] + ext;
      ExtensionOf(stem[1..], ext);
    }
  }

  lemma {:induction false} NoExtension(name: string)
    requires '.' !in name
    ensures Extension(name) == ""
  {
  }

  const AUDIO := [".flac", ".mp3", ".ogg", ".m4a", ".aiff", ".aif", ".wav", ".opus", ".ape", ".wv"]
  const IMAGES := [".jpg", ".jpeg", ".png", ".gif", ".webp"]

  /** A name with one of the extensions, in any case, is of that kind. */
  lemma KindOf(stem: string, ext: string)
    requires ext != "" && ext[0] == '.' && '.' !in ext[1..]
    ensures ClassifyKind(stem + ext) == Some(Audio) <==> LowerAll(ext) in AUDIO
    ensures ClassifyKind(stem + ext) == Some(Image) <==> LowerAll(ext) in IMAGES
    ensures ClassifyKind(stem + ext) == None <==> LowerAll(ext) !in AUDIO && LowerAll(ext) !in IMAGES
  {
    ExtensionOf(stem, ext);
    forall i, j | 0 <= i < |AUDIO| && 0 <= j < |IMAGES| ensures AUDIO[i] != IMAGES[j] {
      KindsApart(i, j);
    }
  }

  lemma KindsApart(i: nat, j: nat)
    requires i < |AUDIO| && j < |IMAGES|
    ensures AUDIO[i] != IMAGES[j]
  {
    assert |AUDIO[i]| == |IMAGES[j]| ==> AUDIO[i][1] != IMAGES[j][1] || AUDIO[i][2] != IMAGES[j][2];
  }

  /** A name without a dot is no media file. */
  lemma NoDotNoKind(name: string)
    requires '.' !in name
    ensures ClassifyKind(name) == None
  {
    NoExtension(name);
  }

  // ----- disc folders -----

  lemma {:induction false} SkipTo(s: string, i: nat)
    requires i <= |s| && (forall k | 0 <= k < i :: Separator(s[k])) && (i == |s| || !Separator(s[i]))
    ensures SkipSeparators(s) == s[i..]
  {
    if i > 0 {
      SkipTo(s[1..], i - 1);
      assert s[1..][i - 1..] == s[i..];
    }
  }

  lemma {:induction false} SkipDigitsTo(s: string, i: nat)
    requires i <= |s| && (forall k | 0 <= k < i :: Digit(s[k])) && (i == |s| || !Digit(s[i]))
    ensures SkipDigits(s) == s[i..]
  {
    if i > 0 {
      SkipDigitsTo(s[1..], i - 1);
      assert s[1..][i - 1..] == s[i..];
    }
  }

  lemma {:induction false} SeparatorsEnd(s: string) returns (i: nat)
    ensures i <= |s| && (forall k | 0 <= k < i :: Separator(s[k])) && (i == |s| || !Separator(s[i]))
  {
    i := 0;
    if s != "" && Separator(s[0]) {
      var j := SeparatorsEnd(s[1..]);
      i := j + 1;
      assert forall k | 0 < k < i :: s[k] == s[1..][k - 1];
    }
  }

  lemma {:induction false} DigitsEnd(s: string) returns (i: nat)
    ensures i <= |s| && (forall k | 0 <= k < i :: Digit(s[k])) && (i == |s| || !Digit(s[i]))
  {
    i := 0;
    if s != "" && Digit(s[0]) {
      var j := DigitsEnd(s[1..]);
      i := j + 1;
      assert forall k | 0 < k < i :: s[k] == s[1..][k - 1];
    }
  }

  /** s is separators up to i, digits up to j, and then ends or goes on with a separator
      and no line break after it. */
  ghost predicate NumberAt(s: string, i: nat, j: nat) {
    && i < j <= |s|
    && (forall k | 0 <= k < i :: Separator(s[k])) && (forall k | i <= k < j :: Digit(s[k]))
    && (j < |s| ==> Separator(s[j]) && forall k | j < k < |s| :: s[k] != '\n')
  }

  lemma DiscNumberIff(s: string)
    ensures DiscNumber(s) <==> exists i: nat, j: nat :: NumberAt(s, i, j)
  {
    if i: nat, j: nat :| NumberAt(s, i, j) { NumberIsDisc(s, i, j); }
    if DiscNumber(s) {
      var i := SeparatorsEnd(s);
      SkipTo(s, i);
      var n := DigitsEnd(s[i..]);
      SkipDigitsTo(s[i..], n);
      assert s[i..][n..] == s[i + n..];
      assert n > 0;
      assert forall k | i <= k < i + n :: s[k] == s[i..][k - i];
      assert forall k | i + n < k < |s| :: s[k] == s[i + n..][k - i - n];
      assert NumberAt(s, i, i + n);
    }
  }

  lemma NumberIsDisc(s: string, i: nat, j: nat)
    requires NumberAt(s, i, j)
    ensures DiscNumber(s)
  {
    SkipTo(s, i);
    assert forall k | 0 <= k < j - i :: s[i..][k] == s[i + k];
    SkipDigitsTo(s[i..], j - i);
    assert s[i..][j - i..] == s[j..];
  }

  /** A word in any case. */
  ghost predicate SameLetters(a: string, word: string) {
    |a| == |word| && forall k | 0 <= k < |a| :: FoldCase(a[k]) == word[k]
  }

  ghost predicate DiscAt(name: string, w: nat, i: nat, j: nat) {
    && w <= |name| && (SameLetters(name[..w], "cd") || SameLetters(name[..w], "disc"))
    && NumberAt(name[w..], i, j)
  }

  /** A disc folder is "cd" or "disc" in any case and a number, perhaps after separators,
      with nothing behind it or a separator and anything on the same line. */
  lemma DiscNameIff(name: string)
    ensures IsDiscName(name) <==> exists w: nat, i: nat, j: nat :: DiscAt(name, w, i, j)
  {
    if IsDiscName(name) {
      if FoldCase(name[0]) == 'c' { NumberBehind(name, 2); } else { NumberBehind(name, 4); }
    }
    if w: nat, i: nat, j: nat :| DiscAt(name, w, i, j) {
      NumberIsDisc(name[w..], i, j);
      assert forall k | 0 <= k < w :: name[..w][k] == name[k];
    }
  }

  lemma NumberBehind(name: string, w: nat)
    requires (w == 2 || w == 4) && w <= |name| && DiscNumber(name[w..])
    requires SameLetters(name[..w], if w == 2 then "cd" else "disc")
    ensures exists i: nat, j: nat :: DiscAt(name, w, i, j)
  {
    DiscNumberIff(name[w..]);
    var i: nat, j: nat :| NumberAt(name[w..], i, j);
    assert DiscAt(name, w, i, j);
  }
}
