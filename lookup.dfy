/** The `try_from` that `back_to_enum!` generates: a `match` with one arm per
    declared variant, in declaration order, taken when the raw value equals
    that variant's discriminant; anything else is `Err(())`. */
module Lookup {
  import opened Wrappers

  /** The generated `try_from(v)` for an enum whose variants, in declaration
      order, are `variants` and whose discriminants are given by `value`. */
  function Exact<E>(variants: seq<E>, value: E -> int, v: int): (r: Result<E, ()>)
    ensures r.Ok? ==> r.value in variants && value(r.value) == v
    ensures r.Err? <==> forall i :: 0 <= i < |variants| ==> value(variants[i]) != v
  {
    if |variants| == 0 then Err(())
    else if value(variants[0]) == v then Ok(variants[0])
    else Exact(variants[1..], value, v)
  }

  /** The discriminants increase strictly in declaration order (one step at a time). */
  ghost predicate Ascending<E>(variants: seq<E>, value: E -> int)
  {
    forall i :: 0 < i < |variants| ==> value(variants[i - 1]) < value(variants[i])
  }

  /** Ascending discriminants are pairwise distinct: no two arms of the match can
      compete for the same value. */
  lemma {:induction false} AscendingStrict<E>(variants: seq<E>, value: E -> int, i: nat, j: nat)
    requires Ascending(variants, value)
    requires i < j < |variants|
    ensures value(variants[i]) < value(variants[j])
    decreases j - i
  {
    if i + 1 < j {
      AscendingStrict(variants, value, i + 1, j);
    }
  }

  /** No two variants share a discriminant, which is all Rust itself demands
      of an enum. */
  ghost predicate Distinct<E>(variants: seq<E>, value: E -> int)
  {
    forall i, j :: 0 <= i < j < |variants| ==> value(variants[i]) != value(variants[j])
  }

  /** An ascending table has distinct discriminants. */
  lemma AscendingDistinct<E>(variants: seq<E>, value: E -> int)
    requires Ascending(variants, value)
    ensures Distinct(variants, value)
  {
    forall i, j | 0 <= i < j < |variants| ensures value(variants[i]) != value(variants[j]) {
      AscendingStrict(variants, value, i, j);
    }
  }

  /** Round trip: with distinct discriminants, looking up a variant's own
      discriminant finds exactly that variant. */
  lemma {:induction false} ExactRoundTrip<E>(variants: seq<E>, value: E -> int, k: nat)
    requires Distinct(variants, value)
    requires k < |variants|
    ensures Exact(variants, value, value(variants[k])) == Ok(variants[k])
  {
    if k > 0 {
      assert value(variants[0]) != value(variants[k]);
      assert Distinct(variants[1..], value) by {
        forall i, j | 0 <= i < j < |variants| - 1
          ensures value(variants[1..][i]) != value(variants[1..][j])
        {
          assert variants[1..][i] == variants[i + 1] && variants[1..][j] == variants[j + 1];
        }
      }
      ExactRoundTrip(variants[1..], value, k - 1);
    }
  }

  /** Lookup is exact: it yields `x` precisely when `x` is declared and its
      discriminant equals the raw value. */
  lemma ExactIff<E>(variants: seq<E>, value: E -> int, v: int, x: E)
    requires Ascending(variants, value)
    ensures Exact(variants, value, v) == Ok(x) <==> x in variants && value(x) == v
  {
    if x in variants && value(x) == v {
      var k :| 0 <= k < |variants| && variants[k] == x;
      AscendingDistinct(variants, value);
      ExactRoundTrip(variants, value, k);
    }
  }

  /** Every value of the enum type is one of the declared variants. */
  ghost predicate Complete<E(!new)>(variants: seq<E>)
  {
    forall x: E :: x in variants
  }

  /** Over a complete table the lookup fails exactly when no value of the enum
      has the raw value as its discriminant. */
  lemma ExactErrIff<E(!new)>(variants: seq<E>, value: E -> int, v: int)
    requires Complete(variants)
    ensures Exact(variants, value, v).Err? <==> forall x: E :: value(x) != v
  {
    if Exact(variants, value, v).Err? {
      forall x: E ensures value(x) != v {
        assert x in variants;
        var k :| 0 <= k < |variants| && variants[k] == x;
      }
    }
  }

  /** A raw value strictly between two neighbouring discriminants matches no arm. */
  lemma ExactGap<E>(variants: seq<E>, value: E -> int, k: nat, v: int)
    requires Ascending(variants, value)
    requires 0 < k < |variants|
    requires value(variants[k - 1]) < v < value(variants[k])
    ensures Exact(variants, value, v).Err?
  {
    forall i | 0 <= i < |variants| ensures value(variants[i]) != v {
      if i < k - 1 {
        AscendingStrict(variants, value, i, k - 1);
      } else if k < i {
        AscendingStrict(variants, value, k, i);
      }
    }
  }
}
