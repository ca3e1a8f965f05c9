/** The risk banding of the predicted probability (the `if/elif` on `risk_score` in `main`). */
module Risk {

  datatype RiskBand = Low | Medium | High

  /** Fixed thresholds on the 0..100 risk score. */
  const MediumFrom: real := 25.0
  const HighFrom: real := 35.0

  /** `risk_score = probability * 100`: a probability in [0, 1] becomes a score in [0, 100]. */
  function RiskScore(probability: real): (s: real)
    ensures 0.0 <= probability <= 1.0 ==> 0.0 <= s <= 100.0
    ensures s / 100.0 == probability
  {
    probability * 100.0
  }

  /** The band of a risk score: below 25 is Low, from 25 below 35 is Medium, from 35 on is High. */
  function Band(score: real): (b: RiskBand)
    ensures b == Low <==> score < MediumFrom
    ensures b == Medium <==> MediumFrom <= score < HighFrom
    ensures b == High <==> HighFrom <= score
  {
    if score < MediumFrom then Low
    else if score < HighFrom then Medium
    else High
  }

  /** Bands in increasing order of risk. */
  function Rank(b: RiskBand): nat
  {
    match b
    case Low => 0
    case Medium => 1
    case High => 2
  }

  /** A higher score never gets a lower band. */
  lemma BandMonotone(s1: real, s2: real)
    requires s1 <= s2
    ensures Rank(Band(s1)) <= Rank(Band(s2))
  {
  }

  /** The thresholds belong to the upper band: 25 is Medium and 35 is High. */
  lemma BandBoundaries()
    ensures Band(MediumFrom) == Medium && Band(HighFrom) == High
    ensures forall s :: s < MediumFrom ==> Band(s) == Low
    ensures forall s :: MediumFrom <= s < HighFrom ==> Band(s) == Medium
  {
  }

  /** The band of the predicted probability itself: Low below 0.25, Medium from 0.25 below 0.35, High from 0.35. */
  function ProbabilityBand(probability: real): (b: RiskBand)
    ensures b == Low <==> probability < 0.25
    ensures b == Medium <==> 0.25 <= probability < 0.35
    ensures b == High <==> 0.35 <= probability
  {
    Band(RiskScore(probability))
  }
}
