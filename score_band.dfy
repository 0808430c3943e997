/**
 * The rating shown under the gauge ("The selected client has a ... profile"):
 * the band of the conventional 300 to 850 credit-score scale a score falls in.
 */
module ScoreBand {

  datatype Band = Poor | Fair | Good | VeryGood | Exceptional

  function Label(b: Band): string
  {
    match b
    case Poor => "POOR"
    case Fair => "FAIR"
    case Good => "GOOD"
    case VeryGood => "VERY GOOD"
    case Exceptional => "EXCEPTIONAL"
  }

  /** Position of a band on the scale, worst first. */
  function Rank(b: Band): nat
  {
    match b
    case Poor => 0
    case Fair => 1
    case Good => 2
    case VeryGood => 3
    case Exceptional => 4
  }

  /**
   * The band of an integer score. Every score outside the four named ranges is
   * POOR, including scores above 850.
   */
  function BandOf(score: int): (b: Band)
    ensures b == Fair <==> 580 <= score <= 669
    ensures b == Good <==> 670 <= score <= 739
    ensures b == VeryGood <==> 740 <= score <= 799
    ensures b == Exceptional <==> 800 <= score <= 850
    ensures b == Poor <==> score < 580 || 850 < score
  {
    if 580 <= score <= 669 then Fair
    else if 670 <= score <= 739 then Good
    else if 740 <= score <= 799 then VeryGood
    else if 800 <= score <= 850 then Exceptional
    else Poor
  }

  /** `cs_text`: starts as "POOR" and is overwritten by the first range that holds. */
  method ProfileText(score: int) returns (text: string)
    ensures text == Label(BandOf(score))
  {
    text := "POOR";
    if 580 <= score <= 669 {
      text := "FAIR";
    } else if 670 <= score <= 739 {
      text := "GOOD";
    } else if 740 <= score <= 799 {
      text := "VERY GOOD";
    } else if 800 <= score <= 850 {
      text := "EXCEPTIONAL";
    }
  }

  /** Different bands have different labels, so the text determines the band. */
  lemma LabelInjective(a: Band, b: Band)
    ensures Label(a) == Label(b) <==> a == b
  {
  }

  /** On the gauge's scale a higher score never gets a worse band. */
  lemma BandMonotoneOnScale(s: int, t: int)
    requires 300 <= s <= t <= 850
    ensures Rank(BandOf(s)) <= Rank(BandOf(t))
  {
  }

  /** Above the scale the band drops back to POOR: the rule is not monotone past 850. */
  lemma AboveScaleIsPoor()
    ensures BandOf(850) == Exceptional && BandOf(851) == Poor
  {
  }
}
