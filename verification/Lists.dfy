/** Taking one element out of a list. */
module Lists {

  function Remove<T(==)>(xs: seq<T>, x: T): (r: seq<T>)
    ensures x !in xs ==> r == xs
  {
    if xs == [] then [] else if xs[0] == x then xs[1..] else [xs[0]] + Remove(xs[1..], x)
  }

  function Cut<T>(xs: seq<T>, k: nat): (r: seq<T>)
    requires k < |xs|
    ensures |r| == |xs| - 1
    ensures forall i :: 0 <= i < |r| ==> r[i] == if i < k then xs[i] else xs[i + 1]
  {
    xs[..k] + xs[k + 1..]
  }

  /** The first cell that holds x is the one removed. */
  lemma {:induction false} RemoveAt<T>(xs: seq<T>, x: T, k: nat)
    requires k < |xs| && xs[k] == x && x !in xs[..k]
    ensures Remove(xs, x) == Cut(xs, k)
  {
    if k > 0 {
      assert xs[0] == xs[..k][0] && xs[1..][..k - 1] == xs[..k][1..];
      RemoveAt(xs[1..], x, k - 1);
      assert [xs[0]] + Cut(xs[1..], k - 1) == Cut(xs, k);
    }
  }

  lemma {:induction false} CutElements<T>(xs: seq<T>, k: nat)
    requires k < |xs| && forall i, j :: 0 <= i < j < |xs| ==> xs[i] != xs[j]
    ensures var r := Cut(xs, k);
            (forall i, j :: 0 <= i < j < |r| ==> r[i] != r[j]) && forall x :: x in r <==> x in xs && x != xs[k]
  {
    var r := Cut(xs, k);
    forall x | x in xs && x != xs[k] ensures x in r {
      var i :| 0 <= i < |xs| && xs[i] == x;
      assert r[if i < k then i else i - 1] == x;
    }
  }

  lemma {:induction false} RemoveElements<T>(xs: seq<T>, x: T)
    requires forall i, j :: 0 <= i < j < |xs| ==> xs[i] != xs[j]
    ensures forall i, j :: 0 <= i < j < |Remove(xs, x)| ==> Remove(xs, x)[i] != Remove(xs, x)[j]
    ensures forall y :: y in Remove(xs, x) <==> y in xs && y != x
  {
    if k :| 0 <= k < |xs| && xs[k] == x {
      assert x !in xs[..k];
      RemoveAt(xs, x, k);
      CutElements(xs, k);
    }
  }
}
