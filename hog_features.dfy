/**
 * Length normalisation of the HOG descriptor in extract_hog_3060
 * (backend/app/utils/hog_features.py). The descriptor itself comes from skimage's
 * `hog` and is an input here.
 */
module HogFeatures {
  import opened Common

  /** The length every descriptor is brought to. */
  const DescriptorLength: nat := 3060

  /** numpy `np.tile(s, reps)` on a one-dimensional array. */
  function Tile<T>(s: seq<T>, reps: nat): (r: seq<T>)
  {
    if reps == 0 then [] else s + Tile(s, reps - 1)
  }

  /** numpy `a[:n]`: the first n entries, or all of them when there are fewer. */
  function TakeUpTo<T>(s: seq<T>, n: nat): (r: seq<T>)
  {
    if |s| <= n then s else s[..n]
  }

  /** `int(np.ceil(a / b))` for positive b, which is exact for these small integers. */
  function CeilDiv(a: nat, b: nat): nat
    requires b > 0
  {
    (a + b - 1) / b
  }

  lemma {:induction false} TileLength<T>(s: seq<T>, reps: nat)
    ensures |Tile(s, reps)| == reps * |s|
  {
    if reps > 0 {
      TileLength(s, reps - 1);
      assert reps * |s| == |s| + (reps - 1) * |s|;
    }
  }

  /** Tiling once fewer gives a prefix of the tiling. */
  lemma {:induction false} TilePrefix<T>(s: seq<T>, reps: nat)
    requires reps > 0
    ensures Tile(s, reps - 1) <= Tile(s, reps)
  {
    if reps > 1 {
      TilePrefix(s, reps - 1);
    }
  }

  /** A tiled array starts with s and repeats with period |s|. */
  lemma {:induction false} TilePeriodic<T>(s: seq<T>, reps: nat, i: nat)
    requires reps > 0 && |s| <= i < |Tile(s, reps)|
    ensures Tile(s, reps)[i] == Tile(s, reps)[i - |s|]
  {
    TilePrefix(s, reps);
    TileLength(s, reps - 1);
    TileLength(s, reps);
  }

  lemma TileShape<T>(s: seq<T>, reps: nat)
    requires reps > 0
    ensures |s| <= |Tile(s, reps)| && Tile(s, reps)[..|s|] == s
    ensures forall i :: |s| <= i < |Tile(s, reps)| ==> Tile(s, reps)[i] == Tile(s, reps)[i - |s|]
  {
    forall i | |s| <= i < |Tile(s, reps)| ensures Tile(s, reps)[i] == Tile(s, reps)[i - |s|] {
      TilePeriodic(s, reps, i);
    }
  }

  lemma CeilDivCovers(a: nat, b: nat)
    requires b > 0
    ensures CeilDiv(a, b) * b >= a
  {
    var q, r := (a + b - 1) / b, (a + b - 1) % b;
    assert q * b + r == a + b - 1;
  }

  /** extract_hog_3060's fallback: tile a short descriptor, truncate a long one. */
  function NormalizeLength(feat: seq<real>): (out: seq<real>)
    ensures |feat| == DescriptorLength ==> out == feat
    ensures |feat| > DescriptorLength ==> out == feat[..DescriptorLength]
    ensures feat != [] ==> |out| == DescriptorLength
    ensures 0 < |feat| < DescriptorLength ==> out[..|feat|] == feat
    ensures 0 < |feat| < DescriptorLength ==>
              forall i :: |feat| <= i < |out| ==> out[i] == out[i - |feat|]
    ensures feat == [] ==> out == []
  {
    if |feat| == DescriptorLength then feat
    else if |feat| < DescriptorLength then
      var reps := CeilDiv(DescriptorLength, MaxI(1, |feat|));
      var tiled := Tile(feat, reps);
      TileLength(feat, reps);
      CeilDivCovers(DescriptorLength, MaxI(1, |feat|));
      TileShape(feat, reps);
      TakeUpTo(tiled, DescriptorLength)
    else
      TakeUpTo(feat, DescriptorLength)
  }
}
