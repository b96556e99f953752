/**
  Python's ordering of tuples of integers, as used when firmware versions
  such as `(2, 1, 4)` are compared with `>=`, `<=` and `==`.

  Python compares two tuples element by element: the first position where
  they differ decides, and when one tuple is a prefix of the other the
  shorter one is the smaller.
*/
module PyTuple {

  datatype Ordering = Less | Equal | Greater

  function Flip(o: Ordering): Ordering {
    match o
    case Less => Greater
    case Equal => Equal
    case Greater => Less
  }

  /** Three-way comparison of `a` and `b`; `Equal` exactly when the tuples are equal. */
  function Compare(a: seq<int>, b: seq<int>): (o: Ordering)
    ensures o == Equal <==> a == b
    decreases |a|
  {
    if a == [] || b == [] then
      if |a| < |b| then Less else if |a| == |b| then Equal else Greater
    else if a[0] < b[0] then Less
    else if a[0] > b[0] then Greater
    else
      var o := Compare(a[1..], b[1..]);
      assert a == [a[0]] + a[1..] && b == [b[0]] + b[1..];
      o
  }

  /** Python's `a <= b` on tuples. */
  predicate Le(a: seq<int>, b: seq<int>) {
    Compare(a, b) != Greater
  }

  /** Python's `a >= b` on tuples. */
  predicate Ge(a: seq<int>, b: seq<int>) {
    Compare(a, b) != Less
  }

  /**
    The reference reading of "`a` is smaller than `b`": after a common prefix
    of length `k`, either `a` has a smaller element at `k`, or `a` ends there
    while `b` goes on.
  */
  ghost predicate SmallerAt(a: seq<int>, b: seq<int>, k: nat) {
    && k <= |a| && k <= |b|
    && a[..k] == b[..k]
    && ((k < |a| && k < |b| && a[k] < b[k]) || (k == |a| && k < |b|))
  }

  /** Swapping the operands flips the comparison. */
  lemma {:induction false} CompareFlip(a: seq<int>, b: seq<int>)
    ensures Compare(b, a) == Flip(Compare(a, b))
    decreases |a|
  {
    if a != [] && b != [] && a[0] == b[0] {
      CompareFlip(a[1..], b[1..]);
    }
  }

  /** `Compare` says `Less` exactly when the first difference favours `b`. */
  lemma {:induction false} CompareLessExactly(a: seq<int>, b: seq<int>)
    ensures Compare(a, b) == Less <==> exists k: nat :: SmallerAt(a, b, k)
    decreases |a|
  {
    if a == [] || b == [] {
      if Compare(a, b) == Less {
        assert SmallerAt(a, b, 0);
      }
      forall k: nat | SmallerAt(a, b, k) ensures Compare(a, b) == Less {
        assert k == 0;
      }
    } else if a[0] < b[0] {
      assert SmallerAt(a, b, 0);
    } else if a[0] > b[0] {
      forall k: nat ensures !SmallerAt(a, b, k) {
        if k > 0 && k <= |a| && k <= |b| {
          assert a[..k][0] == a[0] && b[..k][0] == b[0];
        }
      }
    } else {
      CompareLessExactly(a[1..], b[1..]);
      if Compare(a, b) == Less {
        var k: nat :| SmallerAt(a[1..], b[1..], k);
        assert a[..k + 1] == [a[0]] + a[1..][..k];
        assert b[..k + 1] == [b[0]] + b[1..][..k];
        assert SmallerAt(a, b, k + 1);
      }
      forall k: nat | SmallerAt(a, b, k) ensures Compare(a, b) == Less {
        assert k > 0;
        assert a[1..][..k - 1] == a[..k][1..];
        assert b[1..][..k - 1] == b[..k][1..];
        assert SmallerAt(a[1..], b[1..], k - 1);
      }
    }
  }

  /** Python's `<=` on tuples is a total order: transitive. */
  lemma {:induction false} LeTransitive(a: seq<int>, b: seq<int>, c: seq<int>)
    requires Le(a, b) && Le(b, c)
    ensures Le(a, c)
    decreases |a|
  {
    if a != [] && b != [] && c != [] && a[0] == b[0] && b[0] == c[0] {
      LeTransitive(a[1..], b[1..], c[1..]);
    }
  }

  /** ... antisymmetric ... */
  lemma LeAntisymmetric(a: seq<int>, b: seq<int>)
    requires Le(a, b) && Le(b, a)
    ensures a == b
  {
    CompareFlip(a, b);
  }

  /** ... and total; `>=` is `<=` with its operands swapped. */
  lemma LeTotal(a: seq<int>, b: seq<int>)
    ensures Le(a, b) || Le(b, a)
    ensures Ge(a, b) <==> Le(b, a)
  {
    CompareFlip(a, b);
  }
}
