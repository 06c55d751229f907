/**
  Turning the raw build version into an image tag (`tidyBuildVersionAsTag`):
  every maximal run of characters outside `[a-zA-Z0-9_.-]` becomes a single
  dash, everything else passes through unchanged. The regular expression is
  matched over Go runes; a Dafny `char` plays the part of a rune.
 */
module TagSanitizer {

  /** The character class `[a-zA-Z0-9_.-]`. */
  predicate IsTagChar(c: char)
  {
    || ('a' <= c <= 'z')
    || ('A' <= c <= 'Z')
    || ('0' <= c <= '9')
    || c == '_' || c == '.' || c == '-'
  }

  /** A string made only of tag characters. */
  predicate IsTag(s: string)
  {
    forall i :: 0 <= i < |s| ==> IsTagChar(s[i])
  }

  /** `s` with its leading run of non-tag characters removed: a suffix of `s`. */
  function SkipRun(s: string): (rest: string)
    ensures |rest| <= |s|

  {
    if s == [] || IsTagChar(s[0]) then s else SkipRun(s[1..])
  }

  /** What `SkipRun` drops is a run of non-tag characters, and it is maximal:
      what remains is empty or starts with a tag character. */
  lemma {:induction false} SkipRunIsMaximal(s: string)
    ensures SkipRun(s) == [] || IsTagChar(SkipRun(s)[0])
    ensures forall i :: 0 <= i < |s| - |SkipRun(s)| ==> !IsTagChar(s[i])
    decreases |s|
  {
    if s != [] && !IsTagChar(s[0]) {
      SkipRunIsMaximal(s[1..]);
      assert forall i :: 1 <= i < |s| ==> s[i] == s[1..][i - 1];
    }
  }

  /** The replacement `[^a-zA-Z0-9_.\-]+` -> `-`, stated run by run: a tag
      character is copied, and a non-tag character starts a maximal run that
      is dropped in favour of one dash. */
  function Tidy(s: string): (r: string)
    ensures |r| <= |s|
    decreases |s|
  {
    if s == [] then ""
    else if IsTagChar(s[0]) then [s[0]] + Tidy(s[1..])
    else "-" + Tidy(SkipRun(s[1..]))
  }

  /** Every character of the result is a tag character. */
  lemma {:induction false} TidyIsTag(s: string)
    ensures IsTag(Tidy(s))
    decreases |s|
  {
    if s != [] {
      if IsTagChar(s[0]) {
        TidyIsTag(s[1..]);
      } else {
        TidyIsTag(SkipRun(s[1..]));
      }
    }
  }

  /** A string already made of tag characters is left alone. */
  lemma {:induction false} TidyKeepsTags(s: string)
    requires IsTag(s)
    ensures Tidy(s) == s
    decreases |s|
  {
    if s != [] {
      TidyKeepsTags(s[1..]);
      assert s == [s[0]] + s[1..];
    }
  }

  /** The sanitiser is the identity exactly on strings of tag characters. */
  lemma TidyIdentityIff(s: string)
    ensures Tidy(s) == s <==> IsTag(s)
  {
    TidyIsTag(s);
    if IsTag(s) {
      TidyKeepsTags(s);
    }
  }

  /** Sanitising twice is the same as sanitising once. */
  lemma TidyIdempotent(s: string)
    ensures Tidy(Tidy(s)) == Tidy(s)
  {
    TidyIsTag(s);
    TidyKeepsTags(Tidy(s));
  }

  /** The sanitiser never produces a `/`, so a sanitised tag never adds a
      path segment to an image reference. */
  lemma TidyHasNoSlash(s: string)
    ensures '/' !in Tidy(s)
  {
    TidyIsTag(s);
  }

  /** A leading run of tag characters is copied verbatim. */
  lemma {:induction false} TidyTagPrefix(a: string, b: string)
    requires IsTag(a)
    ensures Tidy(a + b) == a + Tidy(b)
    decreases |a|
  {
    if a != [] {
      var s := a + b;
      assert s[0] == a[0] && IsTagChar(s[0]);
      assert s[1..] == a[1..] + b;
      assert Tidy(s) == [a[0]] + Tidy(a[1..] + b);
      TidyTagPrefix(a[1..], b);
      assert a == [a[0]] + a[1..];
    } else {
      assert a + b == b;
    }
  }

  /** Skipping a run stops at the first tag character after it. */
  lemma {:induction false} SkipRunStops(x: string, b: string)
    requires forall i :: 0 <= i < |x| ==> !IsTagChar(x[i])
    requires b == [] || IsTagChar(b[0])
    ensures SkipRun(x + b) == b
    decreases |x|
  {
    if x != [] {
      assert (x + b)[1..] == x[1..] + b;
      SkipRunStops(x[1..], b);
    } else {
      assert x + b == b;
    }
  }

  /** A whole maximal run of non-tag characters becomes exactly one dash. */
  lemma TidyRunPrefix(x: string, b: string)
    requires |x| > 0
    requires forall i :: 0 <= i < |x| ==> !IsTagChar(x[i])
    requires b == [] || IsTagChar(b[0])
    ensures Tidy(x + b) == "-" + Tidy(b)
  {
    assert (x + b)[1..] == x[1..] + b;
    SkipRunStops(x[1..], b);
  }

  /** A version that is already a legal tag passes through unchanged. */
  lemma TidyLegalExample(v: string)
    requires v == "1.2.3-rc.1"
    ensures Tidy(v) == v
  {
    TidyKeepsTags(v);
  }

  /** Tag words separated by single non-tag characters come out joined by
      dashes. */
  lemma TidySeparators(a: string, x: char, b: string, y: char, c: string)
    requires IsTag(a) && IsTag(b) && IsTag(c) && b != [] && c != []
    requires !IsTagChar(x) && !IsTagChar(y)
    ensures Tidy(a + [x] + b + [y] + c) == a + "-" + b + "-" + c
  {
    TidyKeepsTags(c);
    TidyRunPrefix([y], c);
    var yc := [y] + c;
    TidyTagPrefix(b, yc);
    var byc := b + yc;
    assert byc[0] == b[0];
    TidyRunPrefix([x], byc);
    var xbyc := [x] + byc;
    TidyTagPrefix(a, xbyc);
    assert a + [x] + b + [y] + c == a + xbyc;
    assert a + "-" + b + "-" + c == a + ("-" + (b + ("-" + c)));
  }

  /** A slash and a space each become a dash. */
  lemma TidyBranchExample(v: string)
    requires v == "feature/foo bar"
    ensures Tidy(v) == "feature-foo-bar"
  {
    var a: string, b: string, c: string := "feature", "foo", "bar";
    assert IsTag(a) && IsTag(b) && IsTag(c);
    assert v == a + ['/'] + b + [' '] + c;
    TidySeparators(a, '/', b, ' ', c);
    assert a + "-" + b + "-" + c == "feature-foo-bar";
  }

  /** One step of the definition at a tag character. */
  lemma TidyTagStep(s: string)
    requires s != [] && IsTagChar(s[0])
    ensures SkipRun(s) == s
    ensures Tidy(s) == [s[0]] + Tidy(s[1..])
  {
  }

  /** One step of the definition at a non-tag character. */
  lemma TidyRunStep(s: string)
    requires s != [] && !IsTagChar(s[0])
    ensures SkipRun(s) == SkipRun(s[1..])
    ensures Tidy(s) == "-" + Tidy(SkipRun(s[1..]))
  {
  }

  /** The left-to-right scan a regular-expression replacement performs: one
      pass, remembering whether the previous character was already part of a
      replaced run. */
  method TidyScan(s: string) returns (r: string)
    ensures r == Tidy(s)
  {
    r := "";
    var inRun := false;
    var i := 0;
    assert s[i..] == s;
    assert r + Tidy(s[i..]) == Tidy(s);
    while i < |s|
      invariant 0 <= i <= |s|
      invariant !inRun ==> r + Tidy(s[i..]) == Tidy(s)
      invariant inRun ==> r + Tidy(SkipRun(s[i..])) == Tidy(s)
    {
      var rest := s[i..];
      assert rest[0] == s[i] && rest[1..] == s[i + 1..];
      if IsTagChar(s[i]) {
        TidyTagStep(rest);
        assert r + Tidy(rest) == (r + [s[i]]) + Tidy(s[i + 1..]);
        r := r + [s[i]];
        inRun := false;
      } else {
        TidyRunStep(rest);
        if !inRun {
          assert r + Tidy(rest) == (r + "-") + Tidy(SkipRun(s[i + 1..]));
          r := r + "-";
          inRun := true;
        }
      }
      i := i + 1;
    }
    assert s[i..] == [];
  }
}
