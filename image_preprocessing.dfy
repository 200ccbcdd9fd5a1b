/**
 * The decision logic of backend/app/utils/image_preprocessing.py: which augmentations
 * are generated and in which order, when the selective preprocessor denoises or
 * sharpens, the exposure parameters, and the rotation gate. The pixel transforms and
 * the noise/blur/eye estimators are abstract: their outputs are inputs here.
 */
module ImagePreprocessing {
  import opened Common

  /** The tag of one generated augmentation (its image is an OpenCV transform). */
  datatype Augmentation =
    | Original
    | Rotate(angle: int)
    | Darker
    | Brighter
    | HighContrast
    | LowContrast
    | Grayscale
    | Noise(sigma: int)
    | RotateNoise
    | Blur(kernel: int)

  /** The name paired with each augmented image. */
  function Name(a: Augmentation): string
  {
    match a
    case Original => "original"
    case Rotate(angle) => "rotate_" + IntToString(angle)
    case Darker => "darker"
    case Brighter => "brighter"
    case HighContrast => "high_contrast"
    case LowContrast => "low_contrast"
    case Grayscale => "grayscale"
    case Noise(sigma) => "noise_" + IntToString(sigma)
    case RotateNoise => "rotate_noise"
    case Blur(kernel) => "blur_" + IntToString(kernel)
  }

  const RotationAngles: seq<int> := [-30, -15, 15, 30]
  const RotationGroup: seq<Augmentation> := [Rotate(-30), Rotate(-15), Rotate(15), Rotate(30)]
  const BrightnessGroup: seq<Augmentation> := [Darker, Brighter, HighContrast, LowContrast]
  const NoiseGroup: seq<Augmentation> := [Noise(10), Noise(20), Noise(30), RotateNoise]
  const BlurGroup: seq<Augmentation> := [Blur(5), Blur(9)]

  /** A group of augmentations when its option is enabled. */
  function Group(enabled: bool, g: seq<Augmentation>): (r: seq<Augmentation>)
    ensures |r| == if enabled then |g| else 0
  {
    if enabled then g else []
  }

  /** The list generate_augmentations builds, one group per enabled option, in fixed order. */
  function Layout(rotations: bool, brightness: bool, grayscale: bool, noise: bool, blur: bool)
    : (r: seq<Augmentation>)
    ensures |r| == 1 + (if rotations then 4 else 0) + (if brightness then 4 else 0)
                     + (if grayscale then 1 else 0) + (if noise then 4 else 0) + (if blur then 2 else 0)
    ensures |r| <= 16
    ensures r[0] == Original
    ensures rotations ==> r[1..5] == RotationGroup
  {
    [Original] + Group(rotations, RotationGroup) + Group(brightness, BrightnessGroup)
      + Group(grayscale, [Grayscale]) + Group(noise, NoiseGroup) + Group(blur, BlurGroup)
  }

  /** generate_augmentations: appends each enabled group to the list. */
  method GenerateAugmentations(rotations: bool, brightness: bool, grayscale: bool, noise: bool, blur: bool)
    returns (augs: seq<Augmentation>)
    ensures augs == Layout(rotations, brightness, grayscale, noise, blur)
  {
    augs := [Original];
    if rotations {
      var k := 0;
      while k < |RotationAngles|
        invariant 0 <= k <= |RotationAngles|
        invariant augs == [Original] + RotationGroup[..k]
      {
        augs := augs + [Rotate(RotationAngles[k])];
        k := k + 1;
      }
    }
    assert augs == [Original] + Group(rotations, RotationGroup);
    if brightness {
      ghost var before := augs;
      augs := augs + [Darker];
      augs := augs + [Brighter];
      augs := augs + [HighContrast];
      augs := augs + [LowContrast];
      assert augs == before + BrightnessGroup;
    }
    assert augs == [Original] + Group(rotations, RotationGroup) + Group(brightness, BrightnessGroup);
    if grayscale {
      augs := augs + [Grayscale];
    }
    ghost var beforeNoise := augs;
    if noise {
      augs := augs + [Noise(10)];
      augs := augs + [Noise(20)];
      augs := augs + [Noise(30)];
      augs := augs + [RotateNoise];
      assert augs == beforeNoise + NoiseGroup;
    }
    assert augs == [Original] + Group(rotations, RotationGroup) + Group(brightness, BrightnessGroup)
                 + Group(grayscale, [Grayscale]) + Group(noise, NoiseGroup);
    if blur {
      ghost var before := augs;
      augs := augs + [Blur(5)];
      augs := augs + [Blur(9)];
      assert augs == before + BlurGroup;
    }
  }

  /** One image operation the selective preprocessor applies to the copy. */
  datatype Op = AggressiveDenoise | NlMeansDenoise(strength: int) | StrongDeblur | Deblur

  /** The `operations` dictionary returned beside the image. */
  datatype Operations = Operations(
    noiseDetected: bool, noiseLevel: real, blurDetected: bool, blurLevel: real,
    denoisingApplied: bool, sharpeningApplied: bool)

  /** The denoising step chosen for a noise level above the threshold. */
  function DenoiseStep(noiseLevel: real): (op: Op)
    ensures op == AggressiveDenoise <==> noiseLevel > 40.0
    ensures noiseLevel <= 40.0 ==> op.NlMeansDenoise? && op.strength <= 15
    ensures 0.0 <= noiseLevel <= 40.0 ==> op.strength >= 0
    ensures 0.0 <= noiseLevel <= 30.0 ==> op.strength == Trunc(noiseLevel / 2.0)
  {
    if noiseLevel > 40.0 then AggressiveDenoise
    else NlMeansDenoise(MinI(Trunc(noiseLevel / 2.0), 15))
  }

  /** The sharpening step chosen for a blur score below the threshold. */
  function SharpenStep(blurLevel: real): (op: Op)
    ensures op == StrongDeblur <==> blurLevel < 25.0
    ensures op == Deblur <==> blurLevel >= 25.0
  {
    if blurLevel < 25.0 then StrongDeblur else Deblur
  }

  /**
   * selective_preprocess with the estimates already made: `ops` are the operations
   * applied to the copy of the input, in order.
   */
  method SelectivePreprocess(noiseLevel: real, blurLevel: real, noiseThreshold: real, blurThreshold: real,
                             round: real -> real)
    returns (ops: seq<Op>, info: Operations)
    ensures info.denoisingApplied <==> noiseLevel > noiseThreshold
    ensures info.noiseDetected == info.denoisingApplied
    ensures info.sharpeningApplied <==> blurLevel < blurThreshold && !(noiseLevel > 30.0)
    ensures info.blurDetected == info.sharpeningApplied
    ensures info.noiseLevel == round(noiseLevel) && info.blurLevel == round(blurLevel)
    ensures ops == (if info.denoisingApplied then [DenoiseStep(noiseLevel)] else [])
                 + (if info.sharpeningApplied then [SharpenStep(blurLevel)] else [])
    ensures !info.denoisingApplied && !info.sharpeningApplied ==> ops == []
    ensures AggressiveDenoise in ops ==> ops == [AggressiveDenoise]
  {
    ops := [];
    info := Operations(false, 0.0, false, 0.0, false, false);
    info := info.(noiseLevel := round(noiseLevel));
    info := info.(blurLevel := round(blurLevel));
    if noiseLevel > noiseThreshold {
      info := info.(noiseDetected := true);
      if noiseLevel > 40.0 {
        ops := ops + [AggressiveDenoise];
      } else {
        var strength := MinI(Trunc(noiseLevel / 2.0), 15);
        ops := ops + [NlMeansDenoise(strength)];
      }
      info := info.(denoisingApplied := true);
    }
    if blurLevel < blurThreshold && !(noiseLevel > 30.0) {
      info := info.(blurDetected := true);
      if blurLevel < 25.0 {
        ops := ops + [StrongDeblur];
      } else {
        ops := ops + [Deblur];
      }
      info := info.(sharpeningApplied := true);
    }
  }

  /** With the default threshold 15, a moderate denoise has strength between 7 and 15. */
  lemma DefaultDenoiseStrength(noiseLevel: real)
    requires 15.0 < noiseLevel <= 40.0
    ensures DenoiseStep(noiseLevel).NlMeansDenoise?
    ensures 7 <= DenoiseStep(noiseLevel).strength <= 15
  {
    var t := Trunc(noiseLevel / 2.0);
    assert t as real > noiseLevel / 2.0 - 1.0;
  }

  /** normalize_exposure's (alpha, beta) for a mean V-channel brightness. */
  function ExposureParams(brightness: real, target: real): (p: (real, int))
    ensures brightness < 10.0 ==> p == (2.0, 50)
    ensures brightness > 240.0 ==> p == (0.7, -30)
    ensures 0.5 <= p.0 <= 2.0
    ensures 10.0 <= brightness <= 240.0 ==> p.1 == 0
  {
    if brightness < 10.0 then (2.0, 50)
    else if brightness > 240.0 then (0.7, -30)
    else (Clip(target / MaxR(brightness, 1.0), 0.5, 2.0), 0)
  }

  /** Inside the normal band, a target within the clip range is reached exactly. */
  lemma ExposureReachesTarget(brightness: real, target: real)
    requires 10.0 <= brightness <= 240.0
    requires 0.5 * brightness <= target <= 2.0 * brightness
    ensures ExposureParams(brightness, target).0 * brightness == target
  {
    var a := target / brightness;
    assert a * brightness == target;
    assert (a - 0.5) * brightness == target - 0.5 * brightness;
    assert (2.0 - a) * brightness == 2.0 * brightness - target;
  }

  /**
   * auto_rotate_face's gate: given the number of detected eyes and the angle between the
   * first two (left to right), the angle the image is rotated by, 0 meaning unrotated.
   */
  function RotationApplied(eyes: nat, angle: real): (r: real)
    ensures r != 0.0 ==> eyes >= 2 && r == angle
    ensures r != 0.0 <==> eyes >= 2 && 2.0 < Abs(angle) < 45.0
  {
    if eyes >= 2 && Abs(angle) > 2.0 && Abs(angle) < 45.0 then angle else 0.0
  }

  function Abs(x: real): real
  {
    if x < 0.0 then -x else x
  }
}
