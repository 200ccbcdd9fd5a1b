/**
 * The minimum search both recognisers perform: scan the candidates in order and
 * replace the current best only on a strictly smaller distance
 * (`if d < best: best = d`), starting from +infinity.
 */
module FirstMinimum {
  import opened Common

  /** A Python float distance whose starting value is `float('inf')`. */
  datatype Distance = Inf | Fin(d: real)

  /** `d < best` where best may still be +infinity. */
  predicate Improves(d: real, best: Distance)
  {
    best.Inf? || d < best.d
  }

  /** Index of the candidate the scan ends on, or None when there is none. */
  function ArgMin(ds: seq<real>): (r: Option<nat>)
    ensures r.None? <==> ds == []
    ensures r.Some? ==> r.value < |ds|
  {
    if ds == [] then None
    else
      var p := ArgMin(ds[..|ds| - 1]);
      if p.None? || ds[|ds| - 1] < ds[p.value] then Some(|ds| - 1) else p
  }

  /** k holds the smallest value, and every earlier entry is strictly larger. */
  predicate IsFirstMinimum(ds: seq<real>, k: int)
  {
    && 0 <= k < |ds|
    && (forall j :: 0 <= j < |ds| ==> ds[k] <= ds[j])
    && (forall j :: 0 <= j < k ==> ds[j] > ds[k])
  }

  /** The scan picks the first of the tied minima. */
  lemma {:induction false} ArgMinIsFirstMinimum(ds: seq<real>)
    requires ds != []
    ensures ArgMin(ds).Some? && IsFirstMinimum(ds, ArgMin(ds).value)
  {
    var n := |ds| - 1;
    var init := ds[..n];
    if init != [] {
      ArgMinIsFirstMinimum(init);
      var p := ArgMin(init).value;
      assert forall j :: 0 <= j < n ==> init[j] == ds[j];
    }
  }

  /** One more step of the scan. */
  lemma ArgMinSnoc(ds: seq<real>, d: real)
    ensures ArgMin(ds + [d])
         == if ArgMin(ds).None? || d < ds[ArgMin(ds).value] then Some(|ds|) else ArgMin(ds)
  {
    assert (ds + [d])[..|ds|] == ds;
  }
}
