/** Ordered first-match search, the model of `Array.prototype.find`. */
module Search {
  import opened Results

  /** The index of the first element satisfying `p`, or `None` when no
      element does. */
  function FirstIndex<T>(s: seq<T>, p: T -> bool): (r: Option<nat>)
    ensures r.Some? ==> r.value < |s| && p(s[r.value])
    ensures r.Some? ==> forall j :: 0 <= j < r.value ==> !p(s[j])
    ensures r.None? <==> forall j :: 0 <= j < |s| ==> !p(s[j])
    decreases |s|
  {
    if |s| == 0 then None
    else if p(s[0]) then Some(0)
    else Shift(FirstIndex(s[1..], p))
  }

  /** An index found in a tail, seen from one position earlier. */
  function Shift(r: Option<nat>): Option<nat>
  {
    match r
    case None => None
    case Some(i) => Some(i + 1)
  }

  /** The contract of `FirstIndex` determines its result: an index where `p`
      holds with no earlier hit is the answer. */
  lemma FirstIndexIsFirstHit<T>(s: seq<T>, p: T -> bool, i: nat)
    requires i < |s| && p(s[i])
    requires forall j :: 0 <= j < i ==> !p(s[j])
    ensures FirstIndex(s, p) == Some(i)
  {
  }

  /** Searching `[x] + xs` either stops at `x` or continues in `xs`, one
      position further along. */
  lemma FirstIndexCons<T>(x: T, xs: seq<T>, p: T -> bool)
    ensures p(x) ==> FirstIndex([x] + xs, p) == Some(0)
    ensures !p(x) ==> FirstIndex([x] + xs, p) == Shift(FirstIndex(xs, p))
  {
    assert ([x] + xs)[0] == x;
    assert ([x] + xs)[1..] == xs;
  }

  /** Two predicates that agree on every element find the same index. */
  lemma {:induction false} FirstIndexAgree<T>(s: seq<T>, p: T -> bool, q: T -> bool)
    requires forall j :: 0 <= j < |s| ==> p(s[j]) == q(s[j])
    ensures FirstIndex(s, p) == FirstIndex(s, q)
    decreases |s|
  {
    if |s| > 0 {
      FirstIndexAgree(s[1..], p, q);
    }
  }
}
