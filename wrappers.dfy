/** The optional value used wherever the source has `null`, `undefined` or a
    "not available" result. */
module Wrappers {

  datatype Option<+T> = None | Some(value: T) {

    /** The value, or `default` when there is none (the source's `x || d`
        and `getOrDefault`). */
    function GetOr(default: T): T {
      match this
      case Some(v) => v
      case None => default
    }
  }

  function Min(a: int, b: int): int { if a <= b then a else b }

  function Max(a: int, b: int): int { if a >= b then a else b }

  function OptionToSeq<T>(o: Option<T>): (r: seq<T>)
    ensures |r| <= 1
  {
    match o
    case Some(v) => [v]
    case None => []
  }
  /** The values present among the first `k` options, in order. */
  function Present<T>(os: seq<Option<T>>, k: nat): (r: seq<T>)
    requires k <= |os|
    ensures |r| <= k
  {
    if k == 0 then [] else Present(os, k - 1) + OptionToSeq(os[k - 1])
  }
  /** The positions, among the first `k`, that hold a value, in order. */
  function PresentIndices<T>(os: seq<Option<T>>, k: nat): (idx: seq<nat>)
    requires k <= |os|
    ensures forall j :: 0 <= j < |idx| ==> idx[j] < k
  {
    if k == 0 then [] else PresentIndices(os, k - 1) + (if os[k - 1].Some? then [k - 1] else [])
  }
  /** The j-th present value sits at the j-th present position. */
  lemma {:induction false} PresentIndexed<T>(os: seq<Option<T>>, k: nat)
    requires k <= |os|
    ensures var r := Present(os, k);
      var idx := PresentIndices(os, k);
      && |r| == |idx|
      && (forall j :: 0 <= j < |r| ==> os[idx[j]] == Some(r[j]))
  {
    if k > 0 {
      PresentIndexed(os, k - 1);
      var prev, pidx := Present(os, k - 1), PresentIndices(os, k - 1);
      var r, idx := Present(os, k), PresentIndices(os, k);
      if os[k - 1].Some? {
        assert r == prev + [os[k - 1].value];
        assert idx == pidx + [k - 1];
        forall j | 0 <= j < |r| ensures os[idx[j]] == Some(r[j]) {
          if j < |prev| {
            assert r[j] == prev[j] && idx[j] == pidx[j];
          }
        }
      } else {
        assert r == prev;
        assert idx == pidx;
      }
    }
  }
  /** The present positions strictly increase and are exactly those holding a value. */
  lemma {:induction false} PresentIncreasing<T>(os: seq<Option<T>>, k: nat)
    requires k <= |os|
    ensures var idx := PresentIndices(os, k);
      && (forall j1, j2 :: 0 <= j1 < j2 < |idx| ==> idx[j1] < idx[j2])
      && (forall i :: 0 <= i < k ==> (os[i].Some? <==> i in idx))
  {
    if k > 0 {
      PresentIncreasing(os, k - 1);
      var pidx := PresentIndices(os, k - 1);
      var idx := PresentIndices(os, k);
      if os[k - 1].Some? {
        assert idx == pidx + [k - 1];
        forall j1, j2 | 0 <= j1 < j2 < |idx| ensures idx[j1] < idx[j2] {
          assert idx[j1] == pidx[j1];
          if j2 < |pidx| {
            assert idx[j2] == pidx[j2];
          }
        }
      } else {
        assert idx == pidx;
        assert k - 1 !in pidx;
      }
    }
  }

  /** One more option adds its value, if any, at the end. */
  lemma PresentStep<T>(os: seq<Option<T>>, k: nat)
    requires k < |os|
    ensures Present(os, k + 1) == Present(os, k) + OptionToSeq(os[k])
  {
  }

  /** A loop that appends the value of the `k`-th option, if any, to `acc`
      plus the values of the first `k` options holds the first `k + 1`. */
  lemma PresentLoopStep<T>(acc: seq<T>, before: seq<T>, after: seq<T>, os: seq<Option<T>>, k: nat, o: Option<T>)
    requires k < |os| && o == os[k] && before == acc + Present(os, k)
    requires after == if o.Some? then before + [o.value] else before
    ensures after == acc + Present(os, k + 1)
  {
    PresentStep(os, k);
    assert acc + Present(os, k + 1) == acc + (Present(os, k) + OptionToSeq(os[k]));
  }

  /** Appending to a sequence that is `d + r` extends `r`. */
  lemma AppendStep<T>(d: seq<T>, r: seq<T>, s: seq<T>, p: seq<T>)
    requires s == d + r
    ensures s + p == d + (r + p)
  {
  }

  /** Appends to `acc`, in order, the value of every option that holds one. */
  method AppendPresent<T>(acc: seq<T>, os: seq<Option<T>>) returns (r: seq<T>)
    ensures r == acc + Present(os, |os|)
  {
    r := acc;
    var k := 0;
    while k < |os|
      invariant 0 <= k <= |os|
      invariant r == acc + Present(os, k)
    {
      ghost var before := r;
      if os[k].Some? {
        r := r + [os[k].value];
      }
      PresentLoopStep(acc, before, r, os, k, os[k]);
      k := k + 1;
    }
  }
}
