/**
  The three string helpers the extension leans on: Go's `strings.Split` and
  `strings.Join` with a one-character separator, and the linear `contains`
  search over a slice of strings.
 */
module Strings {

  /** Go's `strings.Split(s, string(sep))`: the pieces between separators,
      in order. There is always at least one piece, even for the empty string. */
  function Split(s: string, sep: char): (parts: seq<string>)
    ensures |parts| >= 1
    ensures forall p :: p in parts ==> sep !in p
    decreases |s|
  {
    if s == [] then [""]
    else
      var rest := Split(s[1..], sep);
      if s[0] == sep then [""] + rest
      else [[s[0]] + rest[0]] + rest[1..]
  }

  /** Go's `strings.Join(parts, string(sep))`. */
  function Join(parts: seq<string>, sep: char): string
  {
    if |parts| == 0 then ""
    else if |parts| == 1 then parts[0]
    else parts[0] + [sep] + Join(parts[1..], sep)
  }

  /** Joining what was split gives back the original string. */
  lemma {:induction false} JoinSplit(s: string, sep: char)
    ensures Join(Split(s, sep), sep) == s
    decreases |s|
  {
    if s != [] {
      var rest := Split(s[1..], sep);
      JoinSplit(s[1..], sep);
      if |rest| >= 2 {
        assert Join(rest, sep) == rest[0] + [sep] + Join(rest[1..], sep);
      }
      if s[0] != sep && |rest| >= 2 {
        assert Split(s, sep)[1..] == rest[1..];
      }
      assert s == [s[0]] + s[1..];
    }
  }

  /** A string without the separator is split into itself alone. */
  lemma {:induction false} SplitNoSep(s: string, sep: char)
    requires sep !in s
    ensures Split(s, sep) == [s]
    decreases |s|
  {
    if s != [] {
      assert sep !in s[1..];
      SplitNoSep(s[1..], sep);
      assert s == [s[0]] + s[1..];
    }
  }

  /** Splitting distributes over a separator occurrence. */
  lemma {:induction false} SplitAround(a: string, b: string, sep: char)
    ensures Split(a + [sep] + b, sep) == Split(a, sep) + Split(b, sep)
    decreases |a|
  {
    if a == [] {
      assert a + [sep] + b == [sep] + b;
      assert ([sep] + b)[1..] == b;
    } else {
      var s := a + [sep] + b;
      assert s[0] == a[0];
      assert s[1..] == a[1..] + [sep] + b;
      SplitAround(a[1..], b, sep);
      var ra := Split(a[1..], sep);
      assert a[0] != sep ==> Split(a, sep) == [[a[0]] + ra[0]] + ra[1..];
    }
  }

  /** Splitting what was joined gives back the pieces, provided none of them
      contains the separator. */
  lemma {:induction false} SplitJoin(parts: seq<string>, sep: char)
    requires |parts| >= 1
    requires forall p :: p in parts ==> sep !in p
    ensures Split(Join(parts, sep), sep) == parts
    decreases |parts|
  {
    if |parts| == 1 {
      SplitNoSep(parts[0], sep);
    } else {
      assert parts[0] in parts;
      SplitNoSep(parts[0], sep);
      assert forall p :: p in parts[1..] ==> p in parts;
      SplitJoin(parts[1..], sep);
      SplitAround(parts[0], Join(parts[1..], sep), sep);
      assert parts == [parts[0]] + parts[1..];
    }
  }

  /** There is more than one piece exactly when the separator occurs. */
  lemma {:induction false} SplitManyIffSep(s: string, sep: char)
    ensures |Split(s, sep)| > 1 <==> sep in s
    decreases |s|
  {
    if s != [] {
      SplitManyIffSep(s[1..], sep);
      assert s == [s[0]] + s[1..];
    }
  }

  /** The first piece is the longest separator-free prefix: it is a prefix of
      `s`, and it is followed by the end of `s` or by a separator. */
  lemma {:induction false} SplitFirstPiece(s: string, sep: char)
    ensures Split(s, sep)[0] <= s
    ensures |Split(s, sep)[0]| == |s| || s[|Split(s, sep)[0]|] == sep
    decreases |s|
  {
    if s != [] {
      SplitFirstPiece(s[1..], sep);
      assert s == [s[0]] + s[1..];
    }
  }

  /** The `contains` helper: a linear search for `value` in `values`. */
  function Contains(values: seq<string>, value: string): (found: bool)
    ensures found <==> value in values
  {
    if |values| == 0 then false
    else if values[0] == value then true
    else
      assert values == [values[0]] + values[1..];
      Contains(values[1..], value)
  }
}
