/**
 * Splitting and joining strings on a separator character. Paths are split on
 * '/' (the kernel's path resolution drops empty components) and command
 * lines on ' '.
 */
module Text {

  /** Length of the leading run of characters of `s` that are not `c`. */
  function FieldLength(s: string, c: char): (n: nat)
    ensures n <= |s|
    ensures forall i :: 0 <= i < n ==> s[i] != c
    ensures n < |s| ==> s[n] == c
  {
    if s == [] || s[0] == c then 0 else 1 + FieldLength(s[1..], c)
  }

  /** The non-empty fields of `s` between occurrences of `c`, in order. */
  function Split(s: string, c: char): (r: seq<string>)
    ensures forall i :: 0 <= i < |r| ==> r[i] != [] && c !in r[i]
    decreases |s|
  {
    if s == [] then []
    else if s[0] == c then Split(s[1..], c)
    else
      var n := FieldLength(s, c);
      [s[..n]] + Split(s[n..], c)
  }

  /** `parts` joined with `c` between neighbours (PHP's implode). */
  function Join(parts: seq<string>, c: char): string
  {
    if parts == [] then []
    else if |parts| == 1 then parts[0]
    else parts[0] + [c] + Join(parts[1..], c)
  }

  /** A word that survives splitting on `c` as itself. */
  predicate Plain(w: string, c: char)
  {
    w != [] && c !in w
  }

  lemma {:induction false} FieldLengthAround(a: string, b: string, c: char)
    ensures FieldLength(a + [c] + b, c) == FieldLength(a, c)
    decreases |a|
  {
    if a == [] {
      assert (a + [c] + b)[0] == c;
    } else if a[0] == c {
      assert (a + [c] + b)[0] == c;
    } else {
      assert (a + [c] + b)[1..] == a[1..] + [c] + b;
      FieldLengthAround(a[1..], b, c);
    }
  }

  /** Splitting at a separator splits the two sides independently. */
  lemma {:induction false} SplitAround(a: string, b: string, c: char)
    ensures Split(a + [c] + b, c) == Split(a, c) + Split(b, c)
    decreases |a|, 1
  {
    var s := a + [c] + b;
    if a == [] {
      assert s[0] == c && s[1..] == b;
    } else if a[0] == c {
      assert s[0] == c && s[1..] == a[1..] + [c] + b;
      SplitAround(a[1..], b, c);
    } else {
      SplitAroundField(a, b, c);
    }
  }

  /** The case where `a` starts with a field: that field comes first on both sides. */
  lemma {:induction false} SplitAroundField(a: string, b: string, c: char)
    requires a != [] && a[0] != c
    ensures Split(a + [c] + b, c) == Split(a, c) + Split(b, c)
    decreases |a|, 0
  {
    var s := a + [c] + b;
    var n := FieldLength(a, c);
    FieldLengthAround(a, b, c);
    assert s[..n] == a[..n];
    assert s[n..] == a[n..] + [c] + b;
    SplitAround(a[n..], b, c);
  }

  lemma SplitPlain(w: string, c: char)
    requires Plain(w, c)
    ensures Split(w, c) == [w]
  {
    var n := FieldLength(w, c);
    assert n == |w|;
    assert w[..n] == w && w[n..] == [];
  }

  /** Splitting undoes joining, for words free of the separator. */
  lemma {:induction false} SplitJoin(parts: seq<string>, c: char)
    requires forall i :: 0 <= i < |parts| ==> Plain(parts[i], c)
    ensures Split(Join(parts, c), c) == parts
    decreases |parts|
  {
    if parts == [] {
    } else if |parts| == 1 {
      SplitPlain(parts[0], c);
    } else {
      SplitAround(parts[0], Join(parts[1..], c), c);
      SplitPlain(parts[0], c);
      SplitJoin(parts[1..], c);
    }
  }
}
