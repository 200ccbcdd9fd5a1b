/**
 * Face / periocular fusion scoring of backend/app/utils/embedding_client.py.
 * Cosine distance is a parameter (`cos`): the model does not look inside it.
 */
module EmbeddingClient {
  import opened Common
  import opened FirstMinimum

  type Embedding = seq<real>
  type CosineDistance = (Embedding, Embedding) -> real

  /** The `match_method` strings 'none', 'fusion', 'face_only' and 'periocular_only'. */
  datatype MatchMethod = NoMatch | Fusion | FaceOnly | PeriocularOnly

  datatype FusionScore = FusionScore(fused: real, faceWeight: real)

  /** One examined distance and the method that produced it. */
  datatype Scored = Scored(dist: real, via: MatchMethod)

  datatype Best = Best(distance: Distance, via: MatchMethod)

  /** Weight given to the full-face distance; the periocular distance gets the rest. */
  function FaceWeight(glasses: bool, confidence: real): (w: real)
    ensures !glasses ==> w == 0.7
    ensures glasses ==> 0.2 <= w
    ensures glasses && 0.0 <= confidence ==> w <= 0.5
    ensures glasses && confidence <= 1.0 ==> w == 0.5 - 0.3 * confidence
    ensures glasses && confidence >= 1.0 ==> w == 0.2
  {
    if glasses then MaxR(0.2, 0.5 - confidence * 0.3) else 0.7
  }

  function ComputeFusionScore(faceDist: real, periDist: real, glasses: bool, confidence: real)
    : (r: FusionScore)
    ensures r.faceWeight == FaceWeight(glasses, confidence)
    ensures !glasses || 0.0 <= confidence ==> 0.2 <= r.faceWeight <= 0.7
    ensures !glasses || 0.0 <= confidence ==>
              MinR(faceDist, periDist) <= r.fused <= MaxR(faceDist, periDist)
    ensures faceDist == periDist ==> r.fused == faceDist
  {
    var faceWeight := FaceWeight(glasses, confidence);
    var periWeight := 1.0 - faceWeight;
    ConvexBetween(faceWeight, faceDist, periDist);
    FusionScore(faceWeight * faceDist + periWeight * periDist, faceWeight)
  }

  /** A weighted average with a weight in [0, 1] lies between the two values. */
  lemma ConvexBetween(w: real, a: real, b: real)
    ensures 0.0 <= w <= 1.0 ==> MinR(a, b) <= w * a + (1.0 - w) * b <= MaxR(a, b)
    ensures a == b ==> w * a + (1.0 - w) * b == a
  {
    if 0.0 <= w <= 1.0 {
      MulNonNeg(w, if a <= b then b - a else a - b);
      MulNonNeg(1.0 - w, if a <= b then b - a else a - b);
    }
  }

  lemma Distributes(w: real, a: real, b: real)
    ensures w * (b - a) == w * b - w * a
  {
  }

  lemma MulNonNeg(x: real, y: real)
    requires 0.0 <= x && 0.0 <= y
    ensures 0.0 <= x * y
  {
  }

  /**
   * The fused distance is monotone in both inputs: a closer face or periocular
   * match never makes the fused score worse.
   */
  lemma FusionMonotone(f1: real, p1: real, f2: real, p2: real, glasses: bool, confidence: real)
    requires f1 <= f2 && p1 <= p2
    requires !glasses || 0.0 <= confidence
    ensures ComputeFusionScore(f1, p1, glasses, confidence).fused
         <= ComputeFusionScore(f2, p2, glasses, confidence).fused
  {
    var w := FaceWeight(glasses, confidence);
    assert ComputeFusionScore(f2, p2, glasses, confidence).fused - ComputeFusionScore(f1, p1, glasses, confidence).fused
        == w * (f2 - f1) + (1.0 - w) * (p2 - p1) by {
      Distributes(w, f1, f2);
      Distributes(1.0 - w, p1, p2);
    }
    MulNonNeg(w, f2 - f1);
    MulNonNeg(1.0 - w, p2 - p1);
  }

  /** Number of scores examined per face encoding in Case 1. */
  function RowWidth(peris: seq<Embedding>): nat
  {
    if |peris| > 0 then |peris| else 1
  }

  /** Scores examined for one inmate face encoding when both query embeddings exist. */
  function PairRow(qFace: Embedding, qPeri: Embedding, faceEnc: Embedding, peris: seq<Embedding>,
                   glasses: bool, confidence: real, cos: CosineDistance): (row: seq<Scored>)
    ensures |row| == RowWidth(peris)
  {
    var faceDist := cos(qFace, faceEnc);
    if |peris| > 0 then
      seq(|peris|, j requires 0 <= j < |peris| =>
        Scored(ComputeFusionScore(faceDist, cos(qPeri, peris[j]), glasses, confidence).fused, Fusion))
    else [Scored(faceDist, FaceOnly)]
  }

  /** Case 1: the rows of all face encodings, in loop order. */
  function PairScores(qFace: Embedding, qPeri: Embedding, faces: seq<Embedding>, peris: seq<Embedding>,
                      glasses: bool, confidence: real, cos: CosineDistance): (s: seq<Scored>)
  {
    if faces == [] then []
    else PairScores(qFace, qPeri, faces[..|faces| - 1], peris, glasses, confidence, cos)
         + PairRow(qFace, qPeri, faces[|faces| - 1], peris, glasses, confidence, cos)
  }

  /** Every score compute_best_match_with_fusion examines, in the order it examines them. */
  function Candidates(qFace: Option<Embedding>, qPeri: Option<Embedding>,
                      faces: seq<Embedding>, peris: seq<Embedding>,
                      glasses: bool, confidence: real, cos: CosineDistance): seq<Scored>
  {
    if qFace.Some? && qPeri.Some? then
      PairScores(qFace.value, qPeri.value, faces, peris, glasses, confidence, cos)
    else if qFace.Some? then FaceScores(qFace.value, faces, cos)
    else if qPeri.Some? && |peris| > 0 then PeriScores(qPeri.value, peris, cos)
    else []
  }

  function Dists(s: seq<Scored>): (ds: seq<real>)
    ensures |ds| == |s|
    ensures forall i :: 0 <= i < |s| ==> ds[i] == s[i].dist
  {
    seq(|s|, i requires 0 <= i < |s| => s[i].dist)
  }

  /** What the scan over the candidates ends with: the first minimum, or (+inf, 'none'). */
  function BestOf(s: seq<Scored>): Best
  {
    match ArgMin(Dists(s))
    case None => Best(Inf, NoMatch)
    case Some(k) => Best(Fin(s[k].dist), s[k].via)
  }

  lemma BestOfSnoc(s: seq<Scored>, c: Scored)
    ensures BestOf(s + [c])
         == if Improves(c.dist, BestOf(s).distance) then Best(Fin(c.dist), c.via) else BestOf(s)
  {
    assert Dists(s + [c]) == Dists(s) + [c.dist];
    ArgMinSnoc(Dists(s), c.dist);
  }

  /** The inner loop of Case 1: fuse one face distance with every periocular distance. */
  method ScanFusionRow(faceDist: real, qPeri: Embedding, peris: seq<Embedding>,
                       glasses: bool, confidence: real, cos: CosineDistance,
                       bestIn: Distance, viaIn: MatchMethod, ghost before: seq<Scored>, ghost row: seq<Scored>)
    returns (bestDistance: Distance, matchMethod: MatchMethod)
    requires Best(bestIn, viaIn) == BestOf(before)
    requires row == seq(|peris|, j requires 0 <= j < |peris| =>
                      Scored(ComputeFusionScore(faceDist, cos(qPeri, peris[j]), glasses, confidence).fused, Fusion))
    ensures Best(bestDistance, matchMethod) == BestOf(before + row)
  {
    bestDistance, matchMethod := bestIn, viaIn;
    var j := 0;
    assert before + row[..0] == before;
    while j < |peris|
      invariant 0 <= j <= |peris|
      invariant Best(bestDistance, matchMethod) == BestOf(before + row[..j])
    {
      var periDist := cos(qPeri, peris[j]);
      var fusion := ComputeFusionScore(faceDist, periDist, glasses, confidence);
      assert row[j] == Scored(fusion.fused, Fusion);
      BestOfSnoc(before + row[..j], row[j]);
      assert before + row[..j + 1] == before + row[..j] + [row[j]];
      if Improves(fusion.fused, bestDistance) {
        bestDistance, matchMethod := Fin(fusion.fused), Fusion;
      }
      j := j + 1;
    }
    assert row[..j] == row;
  }

  /** Case 1, the outer loop over the inmate's face encodings. */
  method ScanPairs(qFace: Embedding, qPeri: Embedding, faces: seq<Embedding>, peris: seq<Embedding>,
                   glasses: bool, confidence: real, cos: CosineDistance)
    returns (bestDistance: Distance, matchMethod: MatchMethod)
    ensures Best(bestDistance, matchMethod) == BestOf(PairScores(qFace, qPeri, faces, peris, glasses, confidence, cos))
  {
    bestDistance, matchMethod := Inf, NoMatch;
    ghost var scores := [];
    var i := 0;
    while i < |faces|
      invariant 0 <= i <= |faces|
      invariant scores == PairScores(qFace, qPeri, faces[..i], peris, glasses, confidence, cos)
      invariant Best(bestDistance, matchMethod) == BestOf(scores)
    {
      var faceDist := cos(qFace, faces[i]);
      ghost var row := PairRow(qFace, qPeri, faces[i], peris, glasses, confidence, cos);
      if |peris| > 0 {
        bestDistance, matchMethod := ScanFusionRow(faceDist, qPeri, peris, glasses, confidence, cos,
                                                   bestDistance, matchMethod, scores, row);
      } else {
        assert row == [Scored(faceDist, FaceOnly)];
        BestOfSnoc(scores, row[0]);
        if Improves(faceDist, bestDistance) {
          bestDistance, matchMethod := Fin(faceDist), FaceOnly;
        }
      }
      assert faces[..i + 1][..i] == faces[..i];
      scores := scores + row;
      i := i + 1;
    }
    assert faces[..i] == faces;
  }

  /** Case 2: face distances only. */
  function FaceScores(qFace: Embedding, faces: seq<Embedding>, cos: CosineDistance): (s: seq<Scored>)
    ensures |s| == |faces|
    ensures forall i :: 0 <= i < |faces| ==> s[i] == Scored(cos(qFace, faces[i]), FaceOnly)
  {
    seq(|faces|, i requires 0 <= i < |faces| => Scored(cos(qFace, faces[i]), FaceOnly))
  }

  /** Case 3: periocular distances only. */
  function PeriScores(qPeri: Embedding, peris: seq<Embedding>, cos: CosineDistance): (s: seq<Scored>)
    ensures |s| == |peris|
    ensures forall j :: 0 <= j < |peris| ==> s[j] == Scored(cos(qPeri, peris[j]), PeriocularOnly)
  {
    seq(|peris|, j requires 0 <= j < |peris| => Scored(cos(qPeri, peris[j]), PeriocularOnly))
  }

  method ScanFaces(qFace: Embedding, faces: seq<Embedding>, cos: CosineDistance)
    returns (bestDistance: Distance, matchMethod: MatchMethod)
    ensures Best(bestDistance, matchMethod) == BestOf(FaceScores(qFace, faces, cos))
  {
    bestDistance, matchMethod := Inf, NoMatch;
    ghost var all := FaceScores(qFace, faces, cos);
    var i := 0;
    while i < |faces|
      invariant 0 <= i <= |faces|
      invariant Best(bestDistance, matchMethod) == BestOf(all[..i])
    {
      var faceDist := cos(qFace, faces[i]);
      BestOfSnoc(all[..i], all[i]);
      assert all[..i + 1] == all[..i] + [all[i]];
      if Improves(faceDist, bestDistance) {
        bestDistance, matchMethod := Fin(faceDist), FaceOnly;
      }
      i := i + 1;
    }
    assert all[..i] == all;
  }

  method ScanPeriocular(qPeri: Embedding, peris: seq<Embedding>, cos: CosineDistance)
    returns (bestDistance: Distance, matchMethod: MatchMethod)
    ensures Best(bestDistance, matchMethod) == BestOf(PeriScores(qPeri, peris, cos))
  {
    bestDistance, matchMethod := Inf, NoMatch;
    ghost var all := PeriScores(qPeri, peris, cos);
    var j := 0;
    while j < |peris|
      invariant 0 <= j <= |peris|
      invariant Best(bestDistance, matchMethod) == BestOf(all[..j])
    {
      var periDist := cos(qPeri, peris[j]);
      BestOfSnoc(all[..j], all[j]);
      assert all[..j + 1] == all[..j] + [all[j]];
      if Improves(periDist, bestDistance) {
        bestDistance, matchMethod := Fin(periDist), PeriocularOnly;
      }
      j := j + 1;
    }
    assert all[..j] == all;
  }

  /** compute_best_match_with_fusion: the three cases, tried in order. */
  method BestMatchWithFusion(qFace: Option<Embedding>, qPeri: Option<Embedding>,
                             faces: seq<Embedding>, peris: seq<Embedding>,
                             glasses: bool, confidence: real, cos: CosineDistance)
    returns (bestDistance: Distance, matchMethod: MatchMethod)
    ensures Best(bestDistance, matchMethod)
         == BestOf(Candidates(qFace, qPeri, faces, peris, glasses, confidence, cos))
  {
    if qFace.Some? && qPeri.Some? {
      bestDistance, matchMethod := ScanPairs(qFace.value, qPeri.value, faces, peris, glasses, confidence, cos);
    } else if qFace.Some? {
      bestDistance, matchMethod := ScanFaces(qFace.value, faces, cos);
    } else if qPeri.Some? && |peris| > 0 {
      bestDistance, matchMethod := ScanPeriocular(qPeri.value, peris, cos);
    } else {
      bestDistance, matchMethod := Inf, NoMatch;
    }
  }

  // ---------------------------------------------------------------------------
  // Properties of the specification

  /**
   * With no candidate the result is (+inf, 'none'); otherwise it is the first
   * minimum of the examined scores: no larger than any of them, equal to one of
   * them, and strictly smaller than every score examined before it.
   */
  lemma BestOfIsFirstMinimum(s: seq<Scored>)
    ensures s == [] ==> BestOf(s) == Best(Inf, NoMatch)
    ensures s != [] ==> exists k :: IsFirstMinimum(Dists(s), k)
                                 && BestOf(s) == Best(Fin(s[k].dist), s[k].via)
    ensures s != [] ==> (BestOf(s).distance.Fin?
                         && forall i :: 0 <= i < |s| ==> BestOf(s).distance.d <= s[i].dist)
  {
    if s != [] {
      ArgMinIsFirstMinimum(Dists(s));
    }
  }

  lemma {:induction false} PairScoresLength(qFace: Embedding, qPeri: Embedding, faces: seq<Embedding>,
                                            peris: seq<Embedding>, glasses: bool, confidence: real,
                                            cos: CosineDistance)
    ensures |PairScores(qFace, qPeri, faces, peris, glasses, confidence, cos)| == |faces| * RowWidth(peris)
  {
    if faces != [] {
      var n := |faces| - 1;
      var w := RowWidth(peris);
      PairScoresLength(qFace, qPeri, faces[..n], peris, glasses, confidence, cos);
      assert |PairScores(qFace, qPeri, faces, peris, glasses, confidence, cos)|
          == |PairScores(qFace, qPeri, faces[..n], peris, glasses, confidence, cos)|
           + |PairRow(qFace, qPeri, faces[n], peris, glasses, confidence, cos)|;
      OneMoreRow(n, w);
    }
  }

  /** One more row of width w adds w scores. */
  lemma OneMoreRow(n: nat, w: nat)
    ensures (n + 1) * w == n * w + w
  {
  }

  /** The rows of the first i face encodings, followed by row i, start the Case 1 scores. */
  lemma {:induction false} PairScoresPrefix(qFace: Embedding, qPeri: Embedding, faces: seq<Embedding>,
                                            peris: seq<Embedding>, glasses: bool, confidence: real,
                                            cos: CosineDistance, i: nat)
    requires i < |faces|
    ensures PairScores(qFace, qPeri, faces[..i], peris, glasses, confidence, cos)
            + PairRow(qFace, qPeri, faces[i], peris, glasses, confidence, cos)
            <= PairScores(qFace, qPeri, faces, peris, glasses, confidence, cos)
  {
    var n := |faces| - 1;
    assert PairScores(qFace, qPeri, faces, peris, glasses, confidence, cos)
        == PairScores(qFace, qPeri, faces[..n], peris, glasses, confidence, cos)
         + PairRow(qFace, qPeri, faces[n], peris, glasses, confidence, cos);
    if i < n {
      PairScoresPrefix(qFace, qPeri, faces[..n], peris, glasses, confidence, cos, i);
      assert faces[..n][..i] == faces[..i];
      assert faces[..n][i] == faces[i];
    } else {
      assert faces[..i] == faces[..n];
    }
  }

  /**
   * Case 1 examines the fused score of every (face, periocular) pair, face-major:
   * pair (i, j) comes right after the rows of the first i face encodings, at offset j.
   */
  lemma PairScoresAt(qFace: Embedding, qPeri: Embedding, faces: seq<Embedding>,
                     peris: seq<Embedding>, glasses: bool, confidence: real,
                     cos: CosineDistance, i: nat, j: nat)
    requires i < |faces| && j < |peris|
    ensures var k := |PairScores(qFace, qPeri, faces[..i], peris, glasses, confidence, cos)| + j;
            && k < |PairScores(qFace, qPeri, faces, peris, glasses, confidence, cos)|
            && PairScores(qFace, qPeri, faces, peris, glasses, confidence, cos)[k]
               == Scored(ComputeFusionScore(cos(qFace, faces[i]), cos(qPeri, peris[j]), glasses, confidence).fused,
                         Fusion)
  {
    PairScoresPrefix(qFace, qPeri, faces, peris, glasses, confidence, cos, i);
    var pre := PairScores(qFace, qPeri, faces[..i], peris, glasses, confidence, cos);
    var row := PairRow(qFace, qPeri, faces[i], peris, glasses, confidence, cos);
    assert (pre + row)[|pre| + j] == row[j];
  }

  /** When the inmate has no periocular encodings, Case 1 examines each face distance once. */
  lemma {:induction false} PairScoresFaceOnly(qFace: Embedding, qPeri: Embedding, faces: seq<Embedding>,
                                              peris: seq<Embedding>, glasses: bool, confidence: real,
                                              cos: CosineDistance)
    requires peris == []
    ensures PairScores(qFace, qPeri, faces, peris, glasses, confidence, cos) == FaceScores(qFace, faces, cos)
  {
    if faces != [] {
      PairScoresFaceOnly(qFace, qPeri, faces[..|faces| - 1], peris, glasses, confidence, cos);
    }
  }

  /** Which method each examined score carries, depending on what is available. */
  lemma {:induction false} PairScoresMethods(qFace: Embedding, qPeri: Embedding, faces: seq<Embedding>,
                                             peris: seq<Embedding>, glasses: bool, confidence: real,
                                             cos: CosineDistance)
    ensures forall c :: c in PairScores(qFace, qPeri, faces, peris, glasses, confidence, cos) ==>
              c.via == (if |peris| > 0 then Fusion else FaceOnly)
  {
    if faces != [] {
      PairScoresMethods(qFace, qPeri, faces[..|faces| - 1], peris, glasses, confidence, cos);
    }
  }

  /**
   * 'fusion' needs both query embeddings and at least one inmate periocular encoding;
   * 'periocular_only' needs a missing query face, a query periocular embedding and
   * inmate periocular encodings; 'face_only' needs a query face and, when a query
   * periocular embedding exists, an inmate without periocular encodings.
   * 'none' is reported exactly when nothing was examined, with distance +inf.
   */
  lemma MatchMethodConditions(qFace: Option<Embedding>, qPeri: Option<Embedding>,
                              faces: seq<Embedding>, peris: seq<Embedding>,
                              glasses: bool, confidence: real, cos: CosineDistance)
    ensures var s := Candidates(qFace, qPeri, faces, peris, glasses, confidence, cos);
            var r := BestOf(s);
            && (r.via == Fusion ==> qFace.Some? && qPeri.Some? && |peris| > 0 && |faces| > 0)
            && (r.via == PeriocularOnly ==> qFace.None? && qPeri.Some? && |peris| > 0)
            && (r.via == FaceOnly ==> qFace.Some? && |faces| > 0 && (qPeri.None? || peris == []))
            && (r.via == NoMatch <==> s == [])
            && (r.via == NoMatch <==> r.distance.Inf?)
  {
    var s := Candidates(qFace, qPeri, faces, peris, glasses, confidence, cos);
    if qFace.Some? && qPeri.Some? {
      PairScoresMethods(qFace.value, qPeri.value, faces, peris, glasses, confidence, cos);
      PairScoresLength(qFace.value, qPeri.value, faces, peris, glasses, confidence, cos);
    }
    BestOfIsFirstMinimum(s);
    if s != [] {
      var k :| IsFirstMinimum(Dists(s), k) && BestOf(s) == Best(Fin(s[k].dist), s[k].via);
      assert s[k] in s;
    }
  }

  /**
   * With both query embeddings, fusion is used exactly when the inmate has face and
   * periocular encodings; with periocular encodings missing, the face distances alone decide.
   */
  lemma FusionIffBothEncodings(qFace: Embedding, qPeri: Embedding, faces: seq<Embedding>,
                               peris: seq<Embedding>, glasses: bool, confidence: real,
                               cos: CosineDistance)
    ensures (BestOf(Candidates(Some(qFace), Some(qPeri), faces, peris, glasses, confidence, cos)).via
               == Fusion) <==> |faces| > 0 && |peris| > 0
    ensures peris == [] ==>
              BestOf(Candidates(Some(qFace), Some(qPeri), faces, peris, glasses, confidence, cos))
              == BestOf(Candidates(Some(qFace), None, faces, peris, glasses, confidence, cos))
  {
    var s := Candidates(Some(qFace), Some(qPeri), faces, peris, glasses, confidence, cos);
    MatchMethodConditions(Some(qFace), Some(qPeri), faces, peris, glasses, confidence, cos);
    PairScoresMethods(qFace, qPeri, faces, peris, glasses, confidence, cos);
    PairScoresLength(qFace, qPeri, faces, peris, glasses, confidence, cos);
    if |faces| > 0 && |peris| > 0 {
      BestOfIsFirstMinimum(s);
      var k :| IsFirstMinimum(Dists(s), k) && BestOf(s) == Best(Fin(s[k].dist), s[k].via);
      assert s[k] in s;
    }
    if peris == [] {
      PairScoresFaceOnly(qFace, qPeri, faces, peris, glasses, confidence, cos);
    }
  }

  /**
   * A query face with no inmate face encodings yields (+inf, 'none'), even when
   * both sides have periocular data.
   */
  lemma NoInmateFacesNoMatch(qFace: Embedding, qPeri: Option<Embedding>, peris: seq<Embedding>,
                             glasses: bool, confidence: real, cos: CosineDistance)
    ensures BestOf(Candidates(Some(qFace), qPeri, [], peris, glasses, confidence, cos))
         == Best(Inf, NoMatch)
  {
    assert Candidates(Some(qFace), qPeri, [], peris, glasses, confidence, cos) == [];
  }

  /**
   * In the fusion case the result is no larger than the fused score of any
   * (face, periocular) pair.
   */
  lemma FusionBestBelowEveryPair(qFace: Embedding, qPeri: Embedding, faces: seq<Embedding>,
                                 peris: seq<Embedding>, glasses: bool, confidence: real,
                                 cos: CosineDistance, i: nat, j: nat)
    requires i < |faces| && j < |peris|
    ensures var r := BestOf(Candidates(Some(qFace), Some(qPeri), faces, peris, glasses, confidence, cos));
            r.distance.Fin? && r.via == Fusion
            && r.distance.d
               <= ComputeFusionScore(cos(qFace, faces[i]), cos(qPeri, peris[j]), glasses, confidence).fused
  {
    var s := Candidates(Some(qFace), Some(qPeri), faces, peris, glasses, confidence, cos);
    PairScoresAt(qFace, qPeri, faces, peris, glasses, confidence, cos, i, j);
    BestOfIsFirstMinimum(s);
    FusionIffBothEncodings(qFace, qPeri, faces, peris, glasses, confidence, cos);
  }
}
