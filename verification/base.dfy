/** Small shared vocabulary: optional values, the order Go gives strings, and a counting bound. */
module Base {

  datatype Option<+T> = None | Some(value: T)

  datatype Result<+T, +E> = Ok(value: T) | Err(error: E)

  /** Go compares strings byte by byte; on UTF-8 that is the order of the code points.
      Dafny's own `<` on strings is the proper-prefix relation, hence this definition. */
  predicate StringLess(a: string, b: string)
    decreases |a|
  {
    && |b| > 0
    && (|a| == 0 || a[0] < b[0] || (a[0] == b[0] && StringLess(a[1..], b[1..])))
  }

  /** It is the lexicographic order: the first difference decides, and a proper prefix comes first. */
  lemma {:induction false} StringLessIsLexicographic(a: string, b: string, k: nat)
    requires k <= |a| && k <= |b| && a[..k] == b[..k]
    ensures k == |a| < |b| ==> StringLess(a, b)
    ensures k < |a| && k < |b| && a[k] != b[k] ==> (StringLess(a, b) <==> a[k] < b[k])
    decreases k
  {
    if k > 0 {
      assert a[0] == a[..k][0] == b[..k][0] == b[0];
      assert a[1..][..k - 1] == a[..k][1..] == b[..k][1..] == b[1..][..k - 1];
      StringLessIsLexicographic(a[1..], b[1..], k - 1);
    }
  }

  lemma {:induction false} StringLessIsTotal(a: string, b: string)
    ensures StringLess(a, b) || a == b || StringLess(b, a)
    ensures !(StringLess(a, b) && StringLess(b, a))
    ensures StringLess(a, b) ==> a != b
    decreases |a|
  {
    if |a| > 0 && |b| > 0 && a[0] == b[0] {
      StringLessIsTotal(a[1..], b[1..]);
      assert a == [a[0]] + a[1..] && b == [b[0]] + b[1..];
    }
  }

  lemma {:induction false} StringLessIsTransitive(a: string, b: string, c: string)
    requires StringLess(a, b) && StringLess(b, c)
    ensures StringLess(a, c)
    decreases |a|
  {
    if |a| > 0 && a[0] == b[0] == c[0] {
      StringLessIsTransitive(a[1..], b[1..], c[1..]);
    }
  }

  /** A sequence without repetition drawn from a finite set is no longer than the set. */
  lemma {:induction false} DistinctFitsIn<T>(xs: seq<T>, s: set<T>)
    requires forall i | 0 <= i < |xs| :: xs[i] in s
    requires forall i, j | 0 <= i < j < |xs| :: xs[i] != xs[j]
    ensures |xs| <= |s|
  {
    if xs != [] {
      var last := |xs| - 1;
      DistinctFitsIn(xs[..last], s - {xs[last]});
    }
  }

  predicate Distinct<T(==)>(xs: seq<T>) {
    forall i, j | 0 <= i < j < |xs| :: xs[i] != xs[j]
  }

  /** First occurrences, in order. */
  function Dedup(names: seq<string>): (r: seq<string>)
    ensures Distinct(r)
    ensures forall n :: n in r <==> n in names
  {
    if names == [] then []
    else
      var head := Dedup(names[..|names| - 1]);
      var last := names[|names| - 1];
      assert names == names[..|names| - 1] + [last];
      if last in head then head else head + [last]
  }

  lemma DedupOneMore(names: seq<string>, name: string)
    ensures Dedup(names + [name]) == Dedup(names) + (if name in names then [] else [name])
  {
    assert (names + [name])[..|names|] == names;
  }

  /** A name that comes first among them also appears first. */
  lemma {:induction false} DedupKeepsOrder(names: seq<string>, i: nat, j: nat)
    requires i < j < |Dedup(names)|
    ensures exists p: nat :: p < |names| && names[p] == Dedup(names)[i]
                             && forall q: nat | q <= p :: names[q] != Dedup(names)[j]
  {
    var n := |names| - 1;
    var head := Dedup(names[..n]);
    if j < |head| {
      DedupKeepsOrder(names[..n], i, j);
      var p: nat :| p < n && names[..n][p] == head[i] && forall q: nat | q <= p :: names[..n][q] != head[j];
      assert names[p] == head[i];
      assert forall q: nat | q <= p :: names[..n][q] == names[q];
    } else {
      assert head[i] in names[..n] && names[n] !in names[..n];
      var p: nat :| p < n && names[..n][p] == head[i];
      assert forall q: nat | q <= p :: names[..n][q] == names[q] && names[..n][q] in names[..n];
    }
  }

  function Max(a: int, b: int): (m: int)
    ensures m >= a && m >= b && (m == a || m == b)
  {
    if a < b then b else a
  }

  function Min(a: int, b: int): (m: int)
    ensures m <= a && m <= b && (m == a || m == b)
  {
    if a < b then a else b
  }

  function Abs(a: int): (m: nat)
    ensures m == a || m == -a
  {
    if a < 0 then -a else a
  }
}
