/** The threshold tables of the three signal profiles. */
module Profiles {
  import opened Options

  datatype Horizon = FiveMinutes | TenMinutes

  datatype ProfileName = Balanced | Conservative | Aggressive

  datatype Thresholds = Thresholds(
    longThreshold: real,
    shortThreshold: real,
    minConfidence: real,
    maxChopRisk: real,
    minTrendAbs: real,
    minVolatilityBandwidth: real,
    maxExtremeVolatilityBandwidth: real,
    maxExtremeAtrRatio: real,
    minMacdHistogramAtrRatio: real,
    minEmaSlopeRatio: real,
    minDirectionalVolumeScore: real,
    strongMomentumBypassAbs: real,
    volumeConfirmWeight: real)

  /** The lookup with its default: no name means the balanced profile. */
  function GetSignalProfile(name: Option<ProfileName>): ProfileName { name.GetOr(Balanced) }

  function ThresholdsOf(profile: ProfileName, horizon: Horizon): Thresholds {
    match (profile, horizon)
    case (Balanced, FiveMinutes) =>
      Thresholds(0.68, -0.68, 0.46, 0.68, 0.28, 0.006, 0.045, 0.012, 0.0002, 0.00004, 0.1, 0.72, 0.1)
    case (Balanced, TenMinutes) =>
      Thresholds(0.65, -0.65, 0.44, 0.62, 0.44, 0.0075, 0.05, 0.013, 0.00018, 0.000035, 0.1, 0.72, 0.1)
    case (Conservative, FiveMinutes) =>
      Thresholds(0.76, -0.76, 0.56, 0.52, 0.42, 0.008, 0.038, 0.01, 0.00028, 0.00006, 0.24, 0.82, 0.12)
    case (Conservative, TenMinutes) =>
      Thresholds(0.72, -0.72, 0.52, 0.5, 0.52, 0.0085, 0.043, 0.011, 0.00024, 0.000055, 0.24, 0.8, 0.12)
    case (Aggressive, FiveMinutes) =>
      Thresholds(0.62, -0.62, 0.4, 0.72, 0.22, 0.0045, 0.05, 0.014, 0.00014, 0.00003, 0.0, 0.62, 0.08)
    case (Aggressive, TenMinutes) =>
      Thresholds(0.6, -0.6, 0.38, 0.68, 0.36, 0.0055, 0.055, 0.015, 0.00012, 0.00003, 0.0, 0.6, 0.08)
  }

  /** Every gate of `t` is at least as permissive as the same gate of `s`. */
  predicate Looser(t: Thresholds, s: Thresholds) {
    && t.longThreshold <= s.longThreshold && t.shortThreshold >= s.shortThreshold
    && t.minConfidence <= s.minConfidence && t.maxChopRisk >= s.maxChopRisk
    && t.minTrendAbs <= s.minTrendAbs
    && t.minVolatilityBandwidth <= s.minVolatilityBandwidth
    && t.maxExtremeVolatilityBandwidth >= s.maxExtremeVolatilityBandwidth
    && t.maxExtremeAtrRatio >= s.maxExtremeAtrRatio
    && t.minMacdHistogramAtrRatio <= s.minMacdHistogramAtrRatio
    && t.minEmaSlopeRatio <= s.minEmaSlopeRatio
    && t.minDirectionalVolumeScore <= s.minDirectionalVolumeScore
    && t.strongMomentumBypassAbs <= s.strongMomentumBypassAbs
  }

  /** What the tables keep from one profile to the next looser one: every gate loosens, the volume weight
      drops by 0.02, the score threshold by at least 0.05 and the confidence threshold by at least 0.06. */
  predicate StepDown(s: Thresholds, t: Thresholds) {
    && Looser(t, s)
    && s.volumeConfirmWeight - t.volumeConfirmWeight == 0.02
    && s.longThreshold - t.longThreshold >= 0.05
    && s.minConfidence - t.minConfidence >= 0.06
    && Sound(s) && Sound(t)
  }

  /** What every table row satisfies. */
  predicate Sound(t: Thresholds) {
    && t.shortThreshold == -t.longThreshold && t.longThreshold >= 0.6 && t.minConfidence > 0.0
    && t.minTrendAbs > 0.0 && t.volumeConfirmWeight in {0.08, 0.1, 0.12}
  }

  /** The next profile down in strictness. */
  predicate NextLooser(strict: ProfileName, loose: ProfileName) {
    (strict == Conservative && loose == Balanced) || (strict == Balanced && loose == Aggressive)
  }

  lemma TablesStepDown(strict: ProfileName, loose: ProfileName, h: Horizon)
    requires NextLooser(strict, loose)
    ensures StepDown(ThresholdsOf(strict, h), ThresholdsOf(loose, h))
  {
  }

  lemma TablesSound(profile: ProfileName, h: Horizon)
    ensures Sound(ThresholdsOf(profile, h))
  {
  }
}
