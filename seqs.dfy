/**
 * List operations the application writes with `Array.prototype.filter`,
 * `new Set(...)` and `slice`, with the facts the rest of the model needs.
 */
module Seqs {

  /** `a` is `b` with some elements deleted: its elements occur in `b` in the same order. */
  predicate IsSubsequence<T(==)>(a: seq<T>, b: seq<T>)
    decreases |b|
  {
    if a == [] then true
    else if b == [] then false
    else (a[0] == b[0] && IsSubsequence(a[1..], b[1..])) || IsSubsequence(a, b[1..])
  }

  /** No element occurs twice. */
  predicate NoDuplicates<T(==)>(s: seq<T>) {
    forall i, j :: 0 <= i < j < |s| ==> s[i] != s[j]
  }

  /** The test `y => y !== x`. */
  function NotEqual<T(==)>(x: T): T -> bool {
    y => y != x
  }

  /** The test `y => !xs.includes(y)`. */
  function NotIn<T(==)>(xs: seq<T>): T -> bool {
    y => y !in xs
  }

  /** `s.filter(keep)`: the elements that pass, in their original order. */
  function Filter<T(==)>(s: seq<T>, keep: T -> bool): (r: seq<T>)
    ensures |r| <= |s|
    ensures forall x | x in r :: x in s && keep(x)
    ensures forall x | x in s && keep(x) :: x in r
    ensures IsSubsequence(r, s)
  {
    if s == [] then []
    else if keep(s[0]) then [s[0]] + Filter(s[1..], keep)
    else Filter(s[1..], keep)
  }

  /** A filter every element passes changes nothing. */
  lemma {:induction false} FilterKeepsAll<T>(s: seq<T>, keep: T -> bool)
    requires forall x :: x in s ==> keep(x)
    ensures Filter(s, keep) == s
  {
    if s != [] {
      FilterKeepsAll(s[1..], keep);
    }
  }

  /** Two tests that agree everywhere filter alike. */
  lemma {:induction false} FilterSameTest<T>(s: seq<T>, p: T -> bool, q: T -> bool)
    requires forall x :: p(x) == q(x)
    ensures Filter(s, p) == Filter(s, q)
  {
    if s != [] {
      FilterSameTest(s[1..], p, q);
    }
  }

  /** Filtering distributes over concatenation. */
  lemma {:induction false} FilterConcat<T>(a: seq<T>, b: seq<T>, keep: T -> bool)
    ensures Filter(a + b, keep) == Filter(a, keep) + Filter(b, keep)
  {
    if a == [] {
      assert a + b == b;
    } else {
      assert (a + b)[1..] == a[1..] + b;
      FilterConcat(a[1..], b, keep);
    }
  }

  /** A filter keeps every element exactly when every element passes it. */
  lemma {:induction false} FilterFullLength<T>(s: seq<T>, keep: T -> bool)
    ensures |Filter(s, keep)| == |s| <==> forall x | x in s :: keep(x)
  {
    if s != [] {
      FilterFullLength(s[1..], keep);
      assert forall x | x in s :: x == s[0] || x in s[1..];
    }
  }

  /** A filter no element passes leaves nothing. */
  lemma FilterKeepsNone<T>(s: seq<T>, keep: T -> bool)
    requires forall x :: x in s ==> !keep(x)
    ensures Filter(s, keep) == []
  {
  }

  /**
   * Two tests that never both hold split a filter's length: what passes
   * either one is counted once for the test it passes.
   */
  lemma {:induction false} FilterUnionCount<T>(s: seq<T>, p: T -> bool, q: T -> bool, either: T -> bool)
    requires forall x :: either(x) == (p(x) || q(x))
    requires forall x :: !(p(x) && q(x))
    ensures |Filter(s, either)| == |Filter(s, p)| + |Filter(s, q)|
  {
    if s != [] {
      FilterUnionCount(s[1..], p, q, either);
    }
  }

  /** Filtering a duplicate-free list gives a duplicate-free list. */
  lemma {:induction false} FilterNoDuplicates<T>(s: seq<T>, keep: T -> bool)
    requires NoDuplicates(s)
    ensures NoDuplicates(Filter(s, keep))
  {
    if s != [] {
      assert NoDuplicates(s[1..]) by {
        forall i, j | 0 <= i < j < |s[1..]| ensures s[1..][i] != s[1..][j] {
          assert s[1..][i] == s[i + 1] && s[1..][j] == s[j + 1];
        }
      }
      FilterNoDuplicates(s[1..], keep);
      if keep(s[0]) {
        var rest := Filter(s[1..], keep);
        assert s[0] !in s[1..] by {
          forall k | 0 <= k < |s[1..]| ensures s[1..][k] != s[0] {
            assert s[1..][k] == s[k + 1];
          }
        }
        assert s[0] !in rest;
        var r := [s[0]] + rest;
        forall i, j | 0 <= i < j < |r| ensures r[i] != r[j] {
          if i == 0 {
            assert r[j] == rest[j - 1] && rest[j - 1] in rest;
          } else {
            assert r[i] == rest[i - 1] && r[j] == rest[j - 1];
          }
        }
      }
    }
  }

  /**
   * `[...new Set(s)]`: the distinct elements of `s`, each at the place of its
   * first occurrence.
   */
  function Dedup<T(==)>(s: seq<T>): (r: seq<T>)
    ensures NoDuplicates(r)
    ensures forall x | x in r :: x in s
    ensures forall x | x in s :: x in r
    decreases |s|
  {
    if s == [] then []
    else
      var d := Dedup(s[..|s| - 1]);
      assert s == s[..|s| - 1] + [s[|s| - 1]];
      if s[|s| - 1] in d then d else d + [s[|s| - 1]]
  }

  /** A list that is already duplicate-free is returned unchanged by the Set round trip. */
  lemma {:induction false} DedupOfDuplicateFree<T>(s: seq<T>)
    requires NoDuplicates(s)
    ensures Dedup(s) == s
    decreases |s|
  {
    if s != [] {
      var init := s[..|s| - 1];
      assert NoDuplicates(init) by {
        forall i, j | 0 <= i < j < |init| ensures init[i] != init[j] {
          assert init[i] == s[i] && init[j] == s[j];
        }
      }
      DedupOfDuplicateFree(init);
      assert s[|s| - 1] !in init by {
        forall k | 0 <= k < |init| ensures init[k] != s[|s| - 1] {
          assert init[k] == s[k];
        }
      }
      assert init + [s[|s| - 1]] == s;
    }
  }

  /**
   * De-duplicating `p + q` keeps de-duplicated `p` as a prefix and appends the
   * first occurrences of the elements of `q` that are not in `p`, in order.
   */
  lemma {:induction false} DedupAppend<T>(p: seq<T>, q: seq<T>)
    ensures Dedup(p + q) == Dedup(p) + Filter(Dedup(q), NotIn(p))
    decreases |q|
  {
    if q == [] {
      assert p + q == p;
    } else {
      var q' := q[..|q| - 1];
      var y := q[|q| - 1];
      assert (p + q)[..|p + q| - 1] == p + q';
      assert (p + q)[|p + q| - 1] == y;
      assert q[..|q| - 1] == q';
      DedupAppend(p, q');
      var d := Dedup(p + q');
      assert y in d <==> y in p || y in q';
      if y in q' {
        assert y in Dedup(q');
      } else {
        assert y !in Dedup(q');
        FilterConcat(Dedup(q'), [y], NotIn(p));
        if y in p {
          assert Filter([y], NotIn(p)) == [];
        } else {
          assert Filter([y], NotIn(p)) == [y];
        }
      }
    }
  }

  /** De-duplicating a prefix of `s` gives a prefix of `Dedup(s)`: later elements never move earlier ones. */
  lemma DedupPrefix<T>(s: seq<T>, k: nat)
    requires k <= |s|
    ensures |Dedup(s[..k])| <= |Dedup(s)|
    ensures Dedup(s[..k]) == Dedup(s)[..|Dedup(s[..k])|]
  {
    assert s[..k] + s[k..] == s;
    DedupAppend(s[..k], s[k..]);
  }

  /**
   * `Dedup` keeps first occurrences in their order: the first occurrence of
   * `s[i]` is placed right after the distinct elements before it, and one
   * that comes earlier in `s` comes earlier in the result.
   */
  lemma DedupKeepsFirstOccurrenceOrder<T>(s: seq<T>, i: nat, j: nat)
    requires i < j < |s|
    requires s[i] !in s[..i] && s[j] !in s[..j]
    ensures |Dedup(s[..i])| < |Dedup(s[..j])| < |Dedup(s)|
    ensures Dedup(s)[|Dedup(s[..i])|] == s[i]
    ensures Dedup(s)[|Dedup(s[..j])|] == s[j]
  {
    forall k: nat | k < |s| && s[k] !in s[..k]
      ensures |Dedup(s[..k])| < |Dedup(s)| && Dedup(s)[|Dedup(s[..k])|] == s[k]
    {
      assert s[..k + 1][..k] == s[..k];
      assert Dedup(s[..k + 1]) == Dedup(s[..k]) + [s[k]];
      DedupPrefix(s, k + 1);
    }
    assert s[..j][..i + 1] == s[..i + 1];
    assert s[..i + 1][..i] == s[..i];
    assert Dedup(s[..i + 1]) == Dedup(s[..i]) + [s[i]];
    DedupPrefix(s[..j], i + 1);
  }

  /** `prev.includes(x) ? prev.filter(y => y !== x) : [...prev, x]` */
  function Toggled<T(==)>(s: seq<T>, x: T): (r: seq<T>)
    ensures x in r <==> x !in s
    ensures forall y | y in r && y != x :: y in s
    ensures forall y | y in s && y != x :: y in r
  {
    if x in s then Filter(s, NotEqual(x)) else s + [x]
  }

  /** Toggling an absent element twice gives back the very same list. */
  lemma ToggleTwiceRestores<T>(s: seq<T>, x: T)
    requires x !in s
    ensures Toggled(Toggled(s, x), x) == s
  {
    FilterConcat(s, [x], NotEqual(x));
    FilterKeepsAll(s, NotEqual(x));
    assert Filter([x], NotEqual(x)) == [];
  }

  /** Toggling keeps a selection duplicate-free. */
  lemma ToggledNoDuplicates<T>(s: seq<T>, x: T)
    requires NoDuplicates(s)
    ensures NoDuplicates(Toggled(s, x))
  {
    if x in s {
      FilterNoDuplicates(s, NotEqual(x));
    }
  }

  /** Clamps a `slice` argument the way JavaScript does: negative counts from the end. */
  function SliceIndex(i: int, n: nat): (k: nat)
    ensures k <= n
    ensures 0 <= i <= n ==> k == i
    ensures i > n ==> k == n
    ensures i < 0 ==> k == if n + i < 0 then 0 else n + i
  {
    if i < 0 then (if n + i < 0 then 0 else n + i) else if i > n then n else i
  }

  /** `s.slice(start, end)` in JavaScript. */
  function JsSlice<T>(s: seq<T>, start: int, end: int): seq<T> {
    var a := SliceIndex(start, |s|);
    var b := SliceIndex(end, |s|);
    if a < b then s[a..b] else []
  }
}
