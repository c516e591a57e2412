/** Classification of a violation's policy threat level, and the
    Policy/Action label of a consolidated row. */
module Severity {
  import opened Wrappers
  import opened Strings

  datatype Band = Critical | Severe | Moderate | Low {
    function Name(): string {
      match this
      case Critical => "Critical"
      case Severe => "Severe"
      case Moderate => "Moderate"
      case Low => "Low"
    }

    /** Position in the order Low < Moderate < Severe < Critical. */
    function Rank(): nat {
      match this
      case Low => 0
      case Moderate => 1
      case Severe => 2
      case Critical => 3
    }
  }

  /** The band of threat level `t`; every band's bounds are inclusive below. */
  function Classify(t: int): (b: Band)
    ensures b == Critical <==> 7 <= t
    ensures b == Severe <==> 4 <= t < 7
    ensures b == Moderate <==> 1 <= t < 4
    ensures b == Low <==> t < 1
  {
    if t >= 7 then Critical else if t >= 4 then Severe else if t >= 1 then Moderate else Low
  }

  /** A missing `policyThreatLevel` counts as 0. */
  function ThreatLevel(level: Option<int>): int {
    level.GetOr(0)
  }

  /** A higher threat level never lands in a lower band. */
  lemma ClassifyMonotone(t1: int, t2: int)
    requires t1 <= t2
    ensures Classify(t1).Rank() <= Classify(t2).Rank()
  {
  }

  /** The band names are pairwise distinct. */
  lemma BandNamesDistinct(b1: Band, b2: Band)
    ensures b1.Name() == b2.Name() <==> b1 == b2
  {
    if b1 != b2 {
      assert b1.Name()[0] != b2.Name()[0] || |b1.Name()| != |b2.Name()|;
    }
  }

  const SecurityWord: string := "SECURITY"

  /** `category.upper() == "SECURITY"`. */
  predicate IsSecurity(category: string) {
    Upper(category) == SecurityWord
  }

  /** The category is SECURITY in any mix of cases: eight characters, each
      of which upper-cases to the letter of SECURITY at its place. */
  lemma IsSecurityExactly(category: string)
    ensures IsSecurity(category) <==>
      |category| == 8 && forall k :: 0 <= k < 8 ==> UpperChar(category[k]) == SecurityWord[k]
  {
    UpperEquals(category, SecurityWord);
  }

  /** The label of the SECURITY category for each band. The label of the
      4..6 band is the literal text of the source. */
  function SecurityLabel(b: Band): string {
    match b
    case Critical => "Security-Critical"
    case Severe => "Security-CVSS score than or equals 7"
    case _ => "Security-Moderate"
  }

  /** The Policy/Action label of a violation with threat category
      `category` (a missing category reads as "") and threat level `t`. */
  function PolicyAction(category: Option<string>, t: int): string {
    var c := category.GetOr("");
    if IsSecurity(c) then SecurityLabel(Classify(t))
    else if c != "" then c + "-" + Classify(t).Name()
    else Classify(t).Name()
  }

  /** The labels by category and threat level: in the SECURITY category
      (in any case) one fixed label per band, with levels below 1 labelled
      like the Moderate band; otherwise the category, a dash and the band's
      name, or the band's name alone when the category is empty. */
  lemma PolicyActionLabels(category: Option<string>, t: int)
    ensures IsSecurity(category.GetOr("")) ==>
      && (t >= 7 ==> PolicyAction(category, t) == "Security-Critical")
      && (4 <= t < 7 ==> PolicyAction(category, t) == "Security-CVSS score than or equals 7")
      && (t < 4 ==> PolicyAction(category, t) == "Security-Moderate")
    ensures !IsSecurity(category.GetOr("")) && category.GetOr("") != "" ==>
      PolicyAction(category, t) == category.value + "-" + Classify(t).Name()
    ensures !IsSecurity(category.GetOr("")) && category.GetOr("") == "" ==>
      PolicyAction(category, t) == Classify(t).Name()
  {
  }

  /** The label depends on the threat level only through its band. */
  lemma PolicyActionByBand(category: Option<string>, t1: int, t2: int)
    requires Classify(t1) == Classify(t2)
    ensures PolicyAction(category, t1) == PolicyAction(category, t2)
  {
  }

  /** Outside the SECURITY category the label names the band: it ends with
      the band's name, so two levels in different bands get different labels. */
  lemma OtherLabelsSeparateBands(category: Option<string>, t1: int, t2: int)
    requires !IsSecurity(category.GetOr(""))
    requires Classify(t1) != Classify(t2)
    ensures PolicyAction(category, t1) != PolicyAction(category, t2)
  {
    var n1, n2 := Classify(t1).Name(), Classify(t2).Name();
    var c := category.GetOr("");
    var p := if c != "" then c + "-" else "";
    assert PolicyAction(category, t1) == p + n1;
    assert PolicyAction(category, t2) == p + n2;
    BandNamesDistinct(Classify(t1), Classify(t2));
    assert (p + n1)[|p|..] == n1 && (p + n2)[|p|..] == n2;
  }

  /** In the SECURITY category the Low band is not told apart from the
      Moderate band: both get `Security-Moderate`. */
  lemma SecurityMergesLowIntoModerate(category: Option<string>, t: int)
    requires IsSecurity(category.GetOr("")) && t < 4
    ensures PolicyAction(category, t) == PolicyAction(category, 1)
  {
    PolicyActionLabels(category, t);
    PolicyActionLabels(category, 1);
  }
}
