/**
 * The static type chart of the action advisor (ai.js:16-35) and its
 * product-of-factors effectiveness lookup (ai.js:37-45). Type names arrive as
 * strings from the species table; a name that is not one of the eighteen
 * chart rows or columns contributes a neutral factor.
 */
module TypeChart {
  import opened Common

  datatype PokeType =
    | Normal | Fire | Water | Electric | Grass | Ice | Fighting | Poison | Ground
    | Flying | Psychic | Bug | Rock | Ghost | Dragon | Dark | Steel | Fairy

  /** The chart's key for a type name; None for any name the chart does not list. */
  function ParseType(name: string): Option<PokeType> {
    if name == "Normal" then Some(Normal) else if name == "Fire" then Some(Fire)
    else if name == "Water" then Some(Water) else if name == "Electric" then Some(Electric)
    else if name == "Grass" then Some(Grass) else if name == "Ice" then Some(Ice)
    else if name == "Fighting" then Some(Fighting) else if name == "Poison" then Some(Poison)
    else if name == "Ground" then Some(Ground) else if name == "Flying" then Some(Flying)
    else if name == "Psychic" then Some(Psychic) else if name == "Bug" then Some(Bug)
    else if name == "Rock" then Some(Rock) else if name == "Ghost" then Some(Ghost)
    else if name == "Dragon" then Some(Dragon) else if name == "Dark" then Some(Dark)
    else if name == "Steel" then Some(Steel) else if name == "Fairy" then Some(Fairy)
    else None
  }

  /** TYPE_CHART[a][d], with 1 for a pairing the row does not list. */
  function ChartEntry(a: PokeType, d: PokeType): (v: real)
    ensures v == 0.0 || v == 0.5 || v == 1.0 || v == 2.0
  {
    match a
    case Normal => (match d case Rock => 0.5 case Ghost => 0.0 case Steel => 0.5 case _ => 1.0)
    case Fire => (match d case Fire => 0.5 case Water => 0.5 case Grass => 2.0 case Ice => 2.0 case Bug => 2.0 case Rock => 0.5 case Dragon => 0.5 case Steel => 2.0 case _ => 1.0)
    case Water => (match d case Fire => 2.0 case Water => 0.5 case Grass => 0.5 case Ground => 2.0 case Rock => 2.0 case Dragon => 0.5 case _ => 1.0)
    case Electric => (match d case Water => 2.0 case Electric => 0.5 case Grass => 0.5 case Ground => 0.0 case Flying => 2.0 case Dragon => 0.5 case _ => 1.0)
    case Grass => (match d case Fire => 0.5 case Water => 2.0 case Grass => 0.5 case Poison => 0.5 case Ground => 2.0 case Flying => 0.5 case Bug => 0.5 case Rock => 2.0 case Dragon => 0.5 case Steel => 0.5 case _ => 1.0)
    case Ice => (match d case Fire => 0.5 case Water => 0.5 case Grass => 2.0 case Ice => 0.5 case Ground => 2.0 case Flying => 2.0 case Dragon => 2.0 case Steel => 0.5 case _ => 1.0)
    case Fighting => (match d case Normal => 2.0 case Ice => 2.0 case Poison => 0.5 case Flying => 0.5 case Psychic => 0.5 case Bug => 0.5 case Rock => 2.0 case Ghost => 0.0 case Dark => 2.0 case Steel => 2.0 case Fairy => 0.5 case _ => 1.0)
    case Poison => (match d case Grass => 2.0 case Poison => 0.5 case Ground => 0.5 case Rock => 0.5 case Ghost => 0.5 case Steel => 0.0 case Fairy => 2.0 case _ => 1.0)
    case Ground => (match d case Fire => 2.0 case Electric => 2.0 case Grass => 0.5 case Poison => 2.0 case Flying => 0.0 case Bug => 0.5 case Rock => 2.0 case Steel => 2.0 case _ => 1.0)
    case Flying => (match d case Electric => 0.5 case Grass => 2.0 case Fighting => 2.0 case Bug => 2.0 case Rock => 0.5 case Steel => 0.5 case _ => 1.0)
    case Psychic => (match d case Fighting => 2.0 case Poison => 2.0 case Psychic => 0.5 case Dark => 0.0 case Steel => 0.5 case _ => 1.0)
    case Bug => (match d case Fire => 0.5 case Grass => 2.0 case Fighting => 0.5 case Poison => 0.5 case Flying => 0.5 case Psychic => 2.0 case Ghost => 0.5 case Dark => 2.0 case Steel => 0.5 case Fairy => 0.5 case _ => 1.0)
    case Rock => (match d case Fire => 2.0 case Ice => 2.0 case Fighting => 0.5 case Ground => 0.5 case Flying => 2.0 case Bug => 2.0 case Steel => 0.5 case _ => 1.0)
    case Ghost => (match d case Normal => 0.0 case Psychic => 2.0 case Ghost => 2.0 case Dark => 0.5 case _ => 1.0)
    case Dragon => (match d case Dragon => 2.0 case Steel => 0.5 case Fairy => 0.0 case _ => 1.0)
    case Dark => (match d case Fighting => 0.5 case Psychic => 2.0 case Ghost => 2.0 case Dark => 0.5 case Fairy => 0.5 case _ => 1.0)
    case Steel => (match d case Fire => 0.5 case Water => 0.5 case Electric => 0.5 case Ice => 2.0 case Rock => 2.0 case Fairy => 2.0 case Steel => 0.5 case _ => 1.0)
    case Fairy => (match d case Fire => 0.5 case Fighting => 2.0 case Poison => 0.5 case Dragon => 2.0 case Dark => 2.0 case Steel => 0.5 case _ => 1.0)
  }

  /** One defender type's factor: 1 when the attacking type has no row or
      the row has no entry for the defending type. */
  function Factor(attType: string, defType: string): (v: real)
    ensures v == 0.0 || v == 0.5 || v == 1.0 || v == 2.0
    ensures ParseType(attType).None? || ParseType(defType).None? ==> v == 1.0
  {
    match (ParseType(attType), ParseType(defType))
    case (Some(a), Some(d)) => ChartEntry(a, d)
    case _ => 1.0
  }

  /** The product of one factor per defender type, in list order. */
  function Effect(attType: string, defTypes: seq<string>): real {
    if |defTypes| == 0 then 1.0
    else Effect(attType, defTypes[..|defTypes| - 1]) * Factor(attType, defTypes[|defTypes| - 1])
  }

  /** typeEffect: multiplies the running product m by each defender type's factor. */
  method TypeEffect(attType: string, defTypes: seq<string>) returns (m: real)
    ensures m == Effect(attType, defTypes)
  {
    hide Factor, ParseType, ChartEntry;
    m := 1.0;
    var i := 0;
    while i < |defTypes|
      invariant 0 <= i <= |defTypes|
      invariant m == Effect(attType, defTypes[..i])
    {
      assert defTypes[..i + 1][..i] == defTypes[..i];
      m := m * Factor(attType, defTypes[i]);
      i := i + 1;
    }
    assert defTypes[..i] == defTypes;
  }

  lemma {:induction false} EffectNonNegative(attType: string, defTypes: seq<string>)
    ensures Effect(attType, defTypes) >= 0.0
  {
    hide Factor, ParseType, ChartEntry;
    if |defTypes| > 0 {
      EffectNonNegative(attType, defTypes[..|defTypes| - 1]);
    }
  }

  /** An attacking type the chart does not know is neutral against everything. */
  lemma {:induction false} UnknownAttackerNeutral(attType: string, defTypes: seq<string>)
    requires ParseType(attType).None?
    ensures Effect(attType, defTypes) == 1.0
  {
    if |defTypes| > 0 {
      UnknownAttackerNeutral(attType, defTypes[..|defTypes| - 1]);
    }
  }

  /** A single-typed defender takes 0, 1/2, 1 or 2 times. */
  lemma SingleTypeValues(attType: string, d: string)
    ensures var e := Effect(attType, [d]); e == 0.0 || e == 0.5 || e == 1.0 || e == 2.0
  {
    assert [d][..0] == [];
  }

  /** A dual-typed defender takes 0, 1/4, 1/2, 1, 2 or 4 times. */
  lemma DualTypeValues(attType: string, d1: string, d2: string)
    ensures var e := Effect(attType, [d1, d2]);
      e == 0.0 || e == 0.25 || e == 0.5 || e == 1.0 || e == 2.0 || e == 4.0
  {
    hide Factor, ParseType, ChartEntry;
    EffectSnoc(attType, [d1], d2);
    EffectSnoc(attType, [], d1);
    assert [] + [d1] == [d1];
    assert [d1] + [d2] == [d1, d2];
    ProductOfFactors(Factor(attType, d1), Factor(attType, d2));
  }

  lemma EffectSnoc(attType: string, p: seq<string>, d: string)
    ensures Effect(attType, p + [d]) == Effect(attType, p) * Factor(attType, d)
  {
    hide Factor, ParseType, ChartEntry;
    assert (p + [d])[..|p|] == p;
  }

  lemma ProductOfFactors(f1: real, f2: real)
    requires f1 == 0.0 || f1 == 0.5 || f1 == 1.0 || f1 == 2.0
    requires f2 == 0.0 || f2 == 0.5 || f2 == 1.0 || f2 == 2.0
    ensures var e := f1 * f2;
      e == 0.0 || e == 0.25 || e == 0.5 || e == 1.0 || e == 2.0 || e == 4.0
  {
  }
}
