/** The records and enumerations shared by the session controller and the result card
    (types.ts). The analysis record is an immutable value: it is produced once per
    successful analysis and only ever stored or discarded whole. */
module Types {

  /** A value that may be absent: the controller's `null`. */
  datatype Option<+T> = None | Some(value: T)

  /** The five screens of a scanning session (types.ts:19-25). */
  datatype AppState = IDLE | SCANNING | ANALYZING | RESULT | ERROR

  /** The four French verdicts of the response schema (types.ts:5). */
  datatype Verdict = Excellent | Bon | Mediocre | Mauvais

  /** The effect of one nutrient on health (types.ts:10). */
  datatype Impact = Positive | Neutral | Negative

  /** One line of the nutrition profile (types.ts:7-11); `name` is the source's `label`, a
      reserved word here. The impact is kept as the text the response carries, because the
      response is cast without validation and the card compares it as text. */
  datatype Nutrient = Nutrient(name: string, value: string, impact: string)

  /** The structured assessment returned by a successful analysis (types.ts:2-17).
      `healthScore` is documented as 0 to 100 but nothing enforces it, so it is any integer;
      `verdict` is kept as text for the same reason as `Nutrient.impact`. */
  datatype HealthAnalysis = HealthAnalysis(
    productName: string,
    healthScore: int,
    verdict: string,
    calories: string,
    nutrients: seq<Nutrient>,
    pros: seq<string>,
    cons: seq<string>,
    additives: seq<string>,
    recommendation: string,
    alternatives: seq<string>)

  /** The text a verdict carries in the response (types.ts:5). */
  function VerdictLabel(v: Verdict): (r: string)
    ensures r in VerdictLabels
  {
    match v
    case Excellent => "Excellent"
    case Bon => "Bon"
    case Mediocre => "Médiocre"
    case Mauvais => "Mauvais"
  }

  const VerdictLabels: set<string> := {"Excellent", "Bon", "Médiocre", "Mauvais"}

  /** The text an impact carries in the response (types.ts:10). */
  function ImpactLabel(i: Impact): (r: string)
    ensures r in ImpactLabels
  {
    match i
    case Positive => "positive"
    case Neutral => "neutral"
    case Negative => "negative"
  }

  const ImpactLabels: set<string> := {"positive", "neutral", "negative"}

  /** Distinct verdicts are sent as distinct texts, so the card can tell them apart. */
  lemma VerdictLabelInjective(v1: Verdict, v2: Verdict)
    ensures VerdictLabel(v1) == VerdictLabel(v2) <==> v1 == v2
  {
  }

  /** Distinct impacts are sent as distinct texts. */
  lemma ImpactLabelInjective(i1: Impact, i2: Impact)
    ensures ImpactLabel(i1) == ImpactLabel(i2) <==> i1 == i2
  {
  }
}
