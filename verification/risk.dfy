/**
 * The colony-health classification of app.py: the varroa-to-bee ratio of the
 * unique counts and the four risk bands it falls into. The e-mail summary of
 * the same repository applies the same bands to a session's overall ratio.
 */
module Risk {

  datatype RiskLevel = Unknown | Low | Moderate | High | Critical

  /** Upper bounds (exclusive) of the Low, Moderate and High bands. */
  const LowBound: real := 0.05
  const ModerateBound: real := 0.10
  const HighBound: real := 0.15

  /** unique_varroa / unique_bees, or exactly 0 when there is no bee to divide by. */
  function InfestationRatio(uniqueVarroa: int, uniqueBees: int): (r: real)
    ensures uniqueBees <= 0 ==> r == 0.0
    ensures uniqueVarroa >= 0 ==> r >= 0.0
  {
    if uniqueBees > 0 then uniqueVarroa as real / uniqueBees as real else 0.0
  }

  /** With at least one bee the ratio is the quotient: times the bees it gives the varroa. */
  lemma RatioTimesBees(uniqueVarroa: int, uniqueBees: int)
    requires uniqueBees > 0
    ensures InfestationRatio(uniqueVarroa, uniqueBees) * uniqueBees as real == uniqueVarroa as real
  {
  }

  /** The band a ratio falls into; each band is closed below and open above. */
  function Classify(ratio: real): RiskLevel {
    if ratio < LowBound then Low
    else if ratio < ModerateBound then Moderate
    else if ratio < HighBound then High
    else Critical
  }

  /** Severity order of the bands. */
  function Severity(level: RiskLevel): nat {
    match level
    case Unknown => 0
    case Low => 1
    case Moderate => 2
    case High => 3
    case Critical => 4
  }

  /** A larger ratio never lands in a milder band, and Unknown is never produced. */
  lemma ClassifyMonotone(a: real, b: real)
    requires a <= b
    ensures Classify(a) != Unknown
    ensures Severity(Classify(a)) <= Severity(Classify(b))
  {
  }

  /** A ratio exactly at a threshold falls in the higher band. */
  lemma ClassifyBoundaries()
    ensures Classify(0.049999) == Low && Classify(0.05) == Moderate
    ensures Classify(0.099999) == Moderate && Classify(0.10) == High
    ensures Classify(0.149999) == High && Classify(0.15) == Critical
  {
  }

  /** The same bands decided on the integer counts, without any division:
      Low when 20·v < b, Moderate when 10·v < b, High when 20·v < 3·b. */
  function ClassifyCounts(uniqueVarroa: int, uniqueBees: int): RiskLevel {
    if 20 * uniqueVarroa < uniqueBees then Low
    else if 10 * uniqueVarroa < uniqueBees then Moderate
    else if 20 * uniqueVarroa < 3 * uniqueBees then High
    else Critical
  }

  /** For a positive divisor, comparing a quotient with `t` is comparing the dividend with `t·b`. */
  lemma QuotientBelow(v: real, b: real, t: real)
    requires b > 0.0
    ensures v / b < t <==> v < t * b
  {
    var r := v / b;
    assert r * b == v;
    if r < t {
      assert (t - r) * b > 0.0;
      assert t * b - r * b > 0.0;
    } else {
      assert (r - t) * b >= 0.0;
      assert r * b - t * b >= 0.0;
    }
  }

  /** Classifying the ratio agrees with the division-free decision on the counts
      whenever there is at least one bee, and is Low when there is none. */
  lemma {:induction false} ClassifyAgreesWithCounts(uniqueVarroa: int, uniqueBees: int)
    ensures uniqueBees > 0 ==>
      Classify(InfestationRatio(uniqueVarroa, uniqueBees)) == ClassifyCounts(uniqueVarroa, uniqueBees)
    ensures uniqueBees <= 0 ==> Classify(InfestationRatio(uniqueVarroa, uniqueBees)) == Low
  {
    if uniqueBees > 0 {
      var b := uniqueBees as real;
      var v := uniqueVarroa as real;
      var r := InfestationRatio(uniqueVarroa, uniqueBees);
      assert r == v / b;
      QuotientBelow(v, b, LowBound);
      QuotientBelow(v, b, ModerateBound);
      QuotientBelow(v, b, HighBound);
      assert v < LowBound * b <==> 20.0 * v < b;
      assert v < ModerateBound * b <==> 10.0 * v < b;
      assert v < HighBound * b <==> 20.0 * v < 3.0 * b;
    }
  }
}
