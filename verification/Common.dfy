/** Values shared by the whole model: optional columns and sums over tables. */
module Common {

  /** A nullable column or an absent row. */
  datatype Option<+T> = None | Some(value: T)

  /** SQL's COALESCE of two columns. */
  function Coalesce<T>(first: Option<T>, second: Option<T>): Option<T> {
    if first.Some? then first else second
  }

  function Min(a: int, b: int): int { if a <= b then a else b }

  function Max(a: int, b: int): int { if a <= b then b else a }

  /** No value occurs twice. */
  ghost predicate Distinct<T(!new)>(s: seq<T>) {
    forall i, j :: 0 <= i < j < |s| ==> s[i] != s[j]
  }

  /** The sum of all the entries of a table of weights. */
  ghost function Total(weights: map<int, nat>): nat
    decreases |weights|
  {
    if k :| k in weights then
      RemovingShrinks(weights, k);
      weights[k] + Total(weights - {k})
    else 0
  }

  lemma RemovingShrinks(weights: map<int, nat>, k: int)
    requires k in weights
    ensures |weights - {k}| < |weights|
  {
    assert (weights - {k}).Keys == weights.Keys - {k};
    assert |weights.Keys - {k}| < |weights.Keys|;
  }

  /** The entry `Total` takes out first. */
  lemma FirstTaken(weights: map<int, nat>, k: int) returns (p: int)
    requires k in weights
    ensures p in weights && Total(weights) == weights[p] + Total(weights - {p})
  {
    assert exists p :: p in weights && Total(weights) == weights[p] + Total(weights - {p});
    p :| p in weights && Total(weights) == weights[p] + Total(weights - {p});
  }

  /** Any entry may be taken out first. */
  lemma {:induction false} TotalWithout(weights: map<int, nat>, k: int)
    requires k in weights
    ensures Total(weights) == weights[k] + Total(weights - {k})
    decreases |weights|
  {
    var p := FirstTaken(weights, k);
    if p != k {
      RemovingShrinks(weights, p);
      RemovingShrinks(weights, k);
      TotalWithout(weights - {p}, k);
      TotalWithout(weights - {k}, p);
      assert weights - {p} - {k} == weights - {k} - {p};
    }
  }

  /** Every entry of the second table is zero or bounded by the first table's entry. */
  ghost predicate Below(small: map<int, nat>, large: map<int, nat>) {
    forall k :: k in small ==> small[k] == 0 || (k in large && small[k] <= large[k])
  }

  /** Lowering every entry lowers the sum. */
  lemma {:induction false} TotalMonotone(small: map<int, nat>, large: map<int, nat>)
    requires Below(small, large)
    ensures Total(small) <= Total(large)
    decreases |small|
  {
    if k :| k in small {
      RemovingShrinks(small, k);
      TotalWithout(small, k);
      if k in large {
        TotalWithout(large, k);
        TotalMonotone(small - {k}, large - {k});
      } else {
        TotalMonotone(small - {k}, large);
      }
    }
  }

  /** Lowering one entry by `drop` more lowers the sum by at least `drop`. */
  lemma TotalDrops(small: map<int, nat>, large: map<int, nat>, k: int, drop: nat)
    requires Below(small, large)
    requires k in large
    requires (if k in small then small[k] else 0) + drop <= large[k]
    ensures Total(small) + drop <= Total(large)
  {
    TotalWithout(large, k);
    if k in small {
      TotalWithout(small, k);
      TotalMonotone(small - {k}, large - {k});
    } else {
      TotalMonotone(small, large - {k});
    }
  }

  /** The least element of a set. */
  function Least(s: set<int>): (x: int)
    requires s != {}
    ensures x in s && forall y :: y in s ==> x <= y
  {
    LeastExists(s);
    var x :| x in s && forall y :: y in s ==> x <= y;
    x
  }

  lemma {:induction false} LeastExists(s: set<int>)
    requires s != {}
    ensures exists x :: x in s && forall y :: y in s ==> x <= y
    decreases |s|
  {
    if x :| x in s {
      var rest := s - {x};
      if rest != {} {
        LeastExists(rest);
        var m :| m in rest && forall y :: y in rest ==> m <= y;
        var least := if x <= m then x else m;
        assert least in s && forall y :: y in s ==> least <= y by {
          assert forall y :: y in s ==> y == x || y in rest;
        }
      } else {
        assert forall y :: y in s ==> y == x || y in rest;
      }
    } else {
      var none: set<int> := {};
      assert forall x :: x in s <==> x in none;
    }
  }

  /** A set with at most one more element. */
  lemma OneMore(before: set<int>, after: set<int>, k: int, more: bool)
    requires forall i :: i in after <==> i in before || (i == k && more)
    requires k !in before
    ensures |after| == |before| + if more then 1 else 0
  {
    if more {
      assert forall i :: i in after <==> i in before + {k};
      assert after == before + {k};
    } else {
      assert forall i :: i in after <==> i in before;
      assert after == before;
    }
  }
}
