/**
 * The decision logic of the embedding microservice, backend/app/utils/embedding_service.py:
 * data-URL stripping, the median-kernel fix, the exposure parameters, the shape of the
 * /encode_multiple and /encode_full results, and the box clamping and face filtering of
 * /detect_all_faces. Decoding, the detectors and the embedding network are abstract:
 * their outcomes are inputs.
 */
module EmbeddingService {
  import opened Common

  type Vector = seq<real>

  /** Index of the first comma in s, if any. */
  function FirstComma(s: string): (r: Option<nat>)
    ensures r.Some? ==> r.value < |s| && s[r.value] == ',' && forall i :: 0 <= i < r.value ==> s[i] != ','
    ensures r.None? ==> forall i :: 0 <= i < |s| ==> s[i] != ','
  {
    if s == [] then None
    else if s[0] == ',' then Some(0)
    else
      var t := FirstComma(s[1..]);
      if t.None? then None else Some(t.value + 1)
  }

  /** `if "," in b64: b64 = b64.split(",", 1)[1]`: drop everything up to the first comma. */
  function StripDataUrl(b64: string): (r: string)
    ensures |r| <= |b64| && r == b64[|b64| - |r|..]
    ensures (forall i :: 0 <= i < |b64| ==> b64[i] != ',') ==> r == b64
    ensures (exists i :: 0 <= i < |b64| && b64[i] == ',') ==>
              |r| < |b64| && b64[|b64| - |r| - 1] == ','
              && forall i :: 0 <= i < |b64| - |r| - 1 ==> b64[i] != ','
  {
    var c := FirstComma(b64);
    if c.None? then b64 else b64[c.value + 1..]
  }

  /** A `data:<mime>;base64,` header (which has no comma of its own) is removed exactly. */
  lemma StripDataUrlHeader(header: string, payload: string)
    requires forall i :: 0 <= i < |header| ==> header[i] != ','
    ensures StripDataUrl(header + "," + payload) == payload
  {
    var s := header + "," + payload;
    assert s[|header|] == ',';
    var c := FirstComma(s);
    assert c.Some?;
    assert forall i :: 0 <= i < |header| ==> s[i] == header[i];
    assert s[|header| + 1..] == payload;
  }

  /** remove_salt_pepper_noise: an even kernel size is increased by one. */
  function OddKernel(kernelSize: int): (k: int)
    ensures k % 2 == 1
    ensures kernelSize % 2 == 1 ==> k == kernelSize
    ensures kernelSize % 2 == 0 ==> k == kernelSize + 1
  {
    if kernelSize % 2 == 0 then kernelSize + 1 else kernelSize
  }

  /** The service's normalize_exposure (alpha, beta) for a mean V-channel brightness. */
  function ServiceExposureParams(brightness: real): (p: (real, int))
    ensures brightness < 50.0 ==> p == (1.5, 30)
    ensures brightness > 200.0 ==> p == (0.7, -20)
    ensures 0.7 <= p.0 <= 1.5
    ensures 50.0 <= brightness <= 200.0 ==> p.1 == 0
  {
    if brightness < 50.0 then (1.5, 30)
    else if brightness > 200.0 then (0.7, -20)
    else (Clip(127.0 / MaxR(brightness, 1.0), 0.7, 1.5), 0)
  }

  /** Inside the normal band, 127 is reached exactly whenever alpha is not clipped. */
  lemma ServiceExposureReachesTarget(brightness: real)
    requires 50.0 <= brightness <= 200.0
    requires 127.0 / 1.5 <= brightness <= 127.0 / 0.7
    ensures ServiceExposureParams(brightness).0 * brightness == 127.0
  {
    var a := 127.0 / brightness;
    assert a * brightness == 127.0;
    assert (a - 0.7) * brightness == 127.0 - 0.7 * brightness;
    assert (1.5 - a) * brightness == 1.5 * brightness - 127.0;
  }

  datatype EncodeMultipleResponse = NoImagesProvided | Embeddings(embeddings: seq<Option<Vector>>)

  /**
   * /encode_multiple: one entry per image, in order. `encode` is the whole decode /
   * detect / embed pipeline on the stripped payload, None where any step fails.
   */
  method EncodeMultiple(images: seq<string>, encode: string -> Option<Vector>)
    returns (r: EncodeMultipleResponse)
    ensures images == [] <==> r == NoImagesProvided
    ensures r.Embeddings? ==>
              |r.embeddings| == |images|
              && forall i :: 0 <= i < |images| ==> r.embeddings[i] == encode(StripDataUrl(images[i]))
  {
    if images == [] {
      return NoImagesProvided;
    }
    var embeddings: seq<Option<Vector>> := [];
    var i := 0;
    while i < |images|
      invariant 0 <= i <= |images|
      invariant |embeddings| == i
      invariant forall j :: 0 <= j < i ==> embeddings[j] == encode(StripDataUrl(images[j]))
    {
      var b64 := images[i];
      var c := FirstComma(b64);
      if c.Some? {
        b64 := b64[c.value + 1..];
      }
      embeddings := embeddings + [encode(b64)];
      i := i + 1;
    }
    r := Embeddings(embeddings);
  }

  datatype Glasses = Glasses(detected: bool, confidence: real, kind: string)

  /** What the periocular extractor reports for one image. */
  datatype PeriocularResult = PeriocularResult(success: bool, combined: Option<Vector>, glasses: Option<Glasses>)

  datatype FullResult = FullResult(
    faceEmbedding: Option<Vector>, periocularEmbedding: Option<Vector>,
    glassesDetected: bool, glassesConfidence: real, glassesType: string)

  datatype EncodeFullResponse = NoEmbeddings | Full(result: FullResult)

  /**
   * /encode_full once the image is decoded: `face` is the face embedding (None if it
   * failed), `peri` the extractor's report (None if the extractor is unavailable or failed),
   * `embedPeri` the embedding of the periocular crop.
   */
  function EncodeFull(face: Option<Vector>, peri: Option<PeriocularResult>, embedPeri: Vector -> Vector)
    : (r: EncodeFullResponse)
    ensures r == NoEmbeddings <==>
              face.None? && (peri.None? || !peri.value.success || peri.value.combined.None?)
    ensures r.Full? ==> r.result.faceEmbedding == face
    ensures r.Full? ==>
              (r.result.periocularEmbedding.Some? <==>
                 peri.Some? && peri.value.success && peri.value.combined.Some?)
    ensures r.Full? && (peri.None? || peri.value.glasses.None?) ==>
              !r.result.glassesDetected && r.result.glassesConfidence == 0.0 && r.result.glassesType == "none"
    ensures r.Full? && peri.Some? && peri.value.success && peri.value.combined.Some? ==>
              r.result.periocularEmbedding == Some(embedPeri(peri.value.combined.value))
    ensures r.Full? && peri.Some? && peri.value.glasses.Some? ==>
              && r.result.glassesDetected == peri.value.glasses.value.detected
              && r.result.glassesConfidence == peri.value.glasses.value.confidence
              && r.result.glassesType == peri.value.glasses.value.kind
  {
    var periEmb :=
      if peri.Some? && peri.value.success && peri.value.combined.Some?
      then Some(embedPeri(peri.value.combined.value)) else None;
    var g := if peri.Some? && peri.value.glasses.Some? then peri.value.glasses.value
             else Glasses(false, 0.0, "none");
    if face.None? && periEmb.None? then NoEmbeddings
    else Full(FullResult(face, periEmb, g.detected, g.confidence, g.kind))
  }

  /** One MTCNN detection: the box [x1, y1, x2, y2] and its probability (None possible). */
  datatype Detection = Detection(x1: real, y1: real, x2: real, y2: real, prob: Option<real>)

  datatype Box = Box(x: int, y: int, width: int, height: int)

  /** The padded crop [y1:y2, x1:x2] handed to the embedder. */
  datatype Crop = Crop(x1: int, y1: int, x2: int, y2: int)

  /** What the embedders produce for one crop. */
  datatype CropAnalysis = CropAnalysis(face: Option<Vector>, peri: Option<PeriocularResult>)

  datatype FaceData = FaceData(
    faceIndex: nat, bbox: Box, confidence: real,
    faceEmbedding: Option<Vector>, periocularEmbedding: Option<Vector>,
    glassesDetected: bool, glassesConfidence: real)

  /** The box clamped to the image, after truncating each coordinate toward zero. */
  function ClampedBox(d: Detection, w: int, h: int): (b: Box)
    ensures 0 <= b.x && 0 <= b.y
    ensures b.x + b.width <= w && b.y + b.height <= h
    ensures b.x == MaxI(0, Trunc(d.x1)) && b.y == MaxI(0, Trunc(d.y1))
    ensures b.x + b.width == MinI(w, Trunc(d.x2)) && b.y + b.height == MinI(h, Trunc(d.y2))
  {
    var x1, y1 := MaxI(0, Trunc(d.x1)), MaxI(0, Trunc(d.y1));
    var x2, y2 := MinI(w, Trunc(d.x2)), MinI(h, Trunc(d.y2));
    Box(x1, y1, x2 - x1, y2 - y1)
  }

  /** `int(max(bbox_width, bbox_height) * 0.2)`. */
  function Padding(b: Box): int
  {
    Trunc(MaxI(b.width, b.height) as real * 0.2)
  }

  /** The padded crop, clamped to the image on every side. */
  function CropOf(b: Box, w: int, h: int): (c: Crop)
    requires 0 <= w && 0 <= h
    ensures 0 <= c.x1 && 0 <= c.y1 && c.x2 <= w && c.y2 <= h
    ensures 0 <= b.x && 0 <= b.y && MaxI(b.width, b.height) >= 0 ==> c.x1 <= b.x && c.y1 <= b.y
  {
    var p := Padding(b);
    Crop(MaxI(0, b.x - p), MaxI(0, b.y - p), MinI(w, b.x + b.width + p), MinI(h, b.y + b.height + p))
  }

  /** The crop is empty when it spans no row or no column. */
  predicate CropEmpty(c: Crop)
  {
    c.x2 <= c.x1 || c.y2 <= c.y1
  }

  /** The face record kept for detection i, or None when the detection is dropped. */
  function FaceOf(i: nat, d: Detection, w: int, h: int, analyse: (nat, Crop) -> CropAnalysis,
                  embedPeri: Vector -> Vector): (r: Option<FaceData>)
    requires 0 <= w && 0 <= h
    ensures r.Some? ==>
              && d.prob.Some? && d.prob.value >= 0.5
              && r.value.faceIndex == i && r.value.confidence == d.prob.value
              && r.value.bbox == ClampedBox(d, w, h)
              && !CropEmpty(CropOf(ClampedBox(d, w, h), w, h))
              && r.value.faceEmbedding == analyse(i, CropOf(ClampedBox(d, w, h), w, h)).face
              && r.value.faceEmbedding.Some?
    ensures r.Some? ==>
              var a := analyse(i, CropOf(ClampedBox(d, w, h), w, h));
              && (r.value.periocularEmbedding.Some? <==> a.peri.Some? && a.peri.value.success && a.peri.value.combined.Some?)
              && (r.value.periocularEmbedding.Some? ==> r.value.periocularEmbedding == Some(embedPeri(a.peri.value.combined.value)))
              && (a.peri.Some? && a.peri.value.glasses.Some? ==>
                    r.value.glassesDetected == a.peri.value.glasses.value.detected
                    && r.value.glassesConfidence == a.peri.value.glasses.value.confidence)
              && (a.peri.None? || a.peri.value.glasses.None? ==> !r.value.glassesDetected && r.value.glassesConfidence == 0.0)
    ensures r.None? <==>
              || d.prob.None? || d.prob.value < 0.5
              || CropEmpty(CropOf(ClampedBox(d, w, h), w, h))
              || analyse(i, CropOf(ClampedBox(d, w, h), w, h)).face.None?
  {
    if d.prob.None? || d.prob.value < 0.5 then None
    else
      var b := ClampedBox(d, w, h);
      var c := CropOf(b, w, h);
      if CropEmpty(c) then None
      else
        var a := analyse(i, c);
        if a.face.None? then None
        else
          var periEmb :=
            if a.peri.Some? && a.peri.value.success && a.peri.value.combined.Some?
            then Some(embedPeri(a.peri.value.combined.value)) else None;
          var g := if a.peri.Some? && a.peri.value.glasses.Some? then a.peri.value.glasses.value
                   else Glasses(false, 0.0, "none");
          Some(FaceData(i, b, d.prob.value, a.face, periEmb, g.detected, g.confidence))
  }

  /** The faces kept from the first |ds| detections, in detection order. */
  function Faces(ds: seq<Detection>, w: int, h: int, analyse: (nat, Crop) -> CropAnalysis,
                 embedPeri: Vector -> Vector): (fs: seq<FaceData>)
    requires 0 <= w && 0 <= h
    ensures |fs| <= |ds|
  {
    if ds == [] then []
    else
      var n := |ds| - 1;
      var f := FaceOf(n, ds[n], w, h, analyse, embedPeri);
      Faces(ds[..n], w, h, analyse, embedPeri) + (if f.Some? then [f.value] else [])
  }

  /** Reported faces carry indices of the detections, in increasing order. */
  lemma {:induction false} FacesInOrder(ds: seq<Detection>, w: int, h: int, analyse: (nat, Crop) -> CropAnalysis,
                                        embedPeri: Vector -> Vector)
    requires 0 <= w && 0 <= h
    ensures forall k :: 0 <= k < |Faces(ds, w, h, analyse, embedPeri)| ==>
              Faces(ds, w, h, analyse, embedPeri)[k].faceIndex < |ds|
    ensures forall k, l :: 0 <= k < l < |Faces(ds, w, h, analyse, embedPeri)| ==>
              Faces(ds, w, h, analyse, embedPeri)[k].faceIndex < Faces(ds, w, h, analyse, embedPeri)[l].faceIndex
  {
    if ds != [] {
      var n := |ds| - 1;
      FacesInOrder(ds[..n], w, h, analyse, embedPeri);
    }
  }

  /** Every reported face is the face of its own detection. */
  lemma {:induction false} FacesSound(ds: seq<Detection>, w: int, h: int, analyse: (nat, Crop) -> CropAnalysis,
                                      embedPeri: Vector -> Vector)
    requires 0 <= w && 0 <= h
    ensures forall k :: 0 <= k < |Faces(ds, w, h, analyse, embedPeri)| ==>
              var f := Faces(ds, w, h, analyse, embedPeri)[k];
              f.faceIndex < |ds| && FaceOf(f.faceIndex, ds[f.faceIndex], w, h, analyse, embedPeri) == Some(f)
  {
    FacesInOrder(ds, w, h, analyse, embedPeri);
    if ds != [] {
      var n := |ds| - 1;
      var prev := Faces(ds[..n], w, h, analyse, embedPeri);
      FacesSound(ds[..n], w, h, analyse, embedPeri);
      assert forall k :: 0 <= k < |prev| ==> ds[..n][prev[k].faceIndex] == ds[prev[k].faceIndex];
    }
  }

  /** Every detection that passes all filters is reported. */
  lemma {:induction false} FacesComplete(ds: seq<Detection>, w: int, h: int, analyse: (nat, Crop) -> CropAnalysis,
                                         embedPeri: Vector -> Vector, i: nat)
    requires 0 <= w && 0 <= h
    requires i < |ds| && FaceOf(i, ds[i], w, h, analyse, embedPeri).Some?
    ensures exists k :: 0 <= k < |Faces(ds, w, h, analyse, embedPeri)| && Faces(ds, w, h, analyse, embedPeri)[k].faceIndex == i
  {
    var n := |ds| - 1;
    var prev := Faces(ds[..n], w, h, analyse, embedPeri);
    if i == n {
      assert Faces(ds, w, h, analyse, embedPeri)[|prev|].faceIndex == i;
    } else {
      assert ds[..n][i] == ds[i];
      FacesComplete(ds[..n], w, h, analyse, embedPeri, i);
      var k :| 0 <= k < |prev| && prev[k].faceIndex == i;
      assert Faces(ds, w, h, analyse, embedPeri)[k] == prev[k];
    }
  }

  datatype DetectResponse = NoFacesDetected | Detected(totalFaces: nat, faces: seq<FaceData>)

  /**
   * /detect_all_faces once the image is decoded and MTCNN has run: `boxes` is None when
   * MTCNN found nothing.
   */
  method DetectAllFaces(boxes: Option<seq<Detection>>, w: nat, h: nat,
                        analyse: (nat, Crop) -> CropAnalysis, embedPeri: Vector -> Vector)
    returns (r: DetectResponse)
    ensures boxes.None? || boxes.value == [] <==> r == NoFacesDetected
    ensures r.Detected? ==>
              r.faces == Faces(boxes.value, w, h, analyse, embedPeri) && r.totalFaces == |r.faces|
  {
    if boxes.None? || boxes.value == [] {
      return NoFacesDetected;
    }
    var ds := boxes.value;
    var faceResults: seq<FaceData> := [];
    var i := 0;
    while i < |ds|
      invariant 0 <= i <= |ds|
      invariant faceResults == Faces(ds[..i], w, h, analyse, embedPeri)
    {
      assert ds[..i + 1][..i] == ds[..i];
      var d := ds[i];
      if d.prob.Some? && d.prob.value >= 0.5 {
        var b := ClampedBox(d, w, h);
        var c := CropOf(b, w, h);
        if !CropEmpty(c) {
          var face := FaceOf(i, d, w, h, analyse, embedPeri);
          if face.Some? {
            faceResults := faceResults + [face.value];
          }
        }
      }
      i := i + 1;
    }
    assert ds[..i] == ds;
    r := Detected(|faceResults|, faceResults);
  }

  /**
   * Length of numpy's `a[start:stop]` on an axis of length n, for start >= 0: a negative
   * stop counts from the end of the axis.
   */
  function NumpySliceLen(start: int, stop: int, n: nat): (len: nat)
    requires start >= 0
  {
    var e := if stop < 0 then MaxI(stop + n, 0) else MinI(stop, n);
    var b := MinI(start, n);
    if e > b then e - b else 0
  }

  /** The emptiness test as written: `face_crop_bgr.size == 0` on the numpy slice. */
  predicate NumpyCropEmpty(c: Crop, w: nat, h: nat)
    requires c.x1 >= 0 && c.y1 >= 0
  {
    NumpySliceLen(c.y1, c.y2, h) == 0 || NumpySliceLen(c.x1, c.x2, w) == 0
  }

  /**
   * A box lying wholly left of the image: the clamped right edge is negative, so numpy
   * reads the slice stop from the end and the crop is 80 columns of unrelated pixels
   * instead of being empty.
   */
  lemma NegativeStopCropNotEmpty()
    ensures var b := ClampedBox(Detection(-50.0, 10.0, -30.0, 60.0, Some(0.9)), 100, 100);
            var c := CropOf(b, 100, 100);
            b.width == -30 && CropEmpty(c) && !NumpyCropEmpty(c, 100, 100)
  {
    var b := ClampedBox(Detection(-50.0, 10.0, -30.0, 60.0, Some(0.9)), 100, 100);
    assert b == Box(0, 10, -30, 50);
    assert Padding(b) == 10;
    var c := CropOf(b, 100, 100);
    assert c == Crop(0, 0, -20, 70);
    assert NumpySliceLen(c.x1, c.x2, 100) == 80;
  }

  /**
   * Any padded crop whose right or bottom edge stops before the image does is read by
   * numpy from the far side of the image: numpy keeps a crop the corrected test drops.
   */
  lemma NegativeStopReadFromEnd(c: Crop, w: nat, h: nat)
    requires 0 <= c.x1 < c.x2 + w && c.x2 < 0
    requires 0 <= c.y1 < c.y2 <= h
    ensures CropEmpty(c) && !NumpyCropEmpty(c, w, h)
    ensures NumpySliceLen(c.x1, c.x2, w) == c.x2 + w - c.x1
  {
  }

  /**
   * The corrected filter: a detection whose padded crop ends at or before the image's
   * left or top edge, so that it holds no pixel of the image, is skipped.
   */
  lemma OutsideCropSkipped(i: nat, d: Detection, w: nat, h: nat, analyse: (nat, Crop) -> CropAnalysis,
                           embedPeri: Vector -> Vector)
    requires var c := CropOf(ClampedBox(d, w, h), w, h); c.x2 <= 0 || c.y2 <= 0
    ensures FaceOf(i, d, w, h, analyse, embedPeri).None?
  {
    var c := CropOf(ClampedBox(d, w, h), w, h);
    assert 0 <= c.x1 && 0 <= c.y1;
  }

  /** For a crop inside the image, the corrected test and numpy's agree. */
  lemma CropEmptyAgreesInside(c: Crop, w: nat, h: nat)
    requires 0 <= c.x1 && 0 <= c.y1 && 0 <= c.x2 <= w && 0 <= c.y2 <= h
    ensures CropEmpty(c) <==> NumpyCropEmpty(c, w, h)
  {
  }
}
