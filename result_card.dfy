/** The presentation rules of the result card (components/ResultCard.tsx): the colour band of
    the health score, the style of the verdict badge, the colour of a nutrient's impact dot,
    and when the additives section appears. All are total functions of the record. */
module ResultCard {
  import opened Types

  const ScoreEmerald: string := "text-emerald-500"
  const ScoreLime: string := "text-lime-500"
  const ScoreAmber: string := "text-amber-500"
  const ScoreRose: string := "text-rose-500"

  /** The score's colour: four bands with lower bounds 80, 60 and 40; everything below 40,
      negative scores included, is rose. Every integer gets exactly one of the four. */
  function ScoreColor(score: int): (r: string)
    ensures r in {ScoreEmerald, ScoreLime, ScoreAmber, ScoreRose}
    ensures r == ScoreEmerald <==> score >= 80
    ensures r == ScoreLime <==> 60 <= score < 80
    ensures r == ScoreAmber <==> 40 <= score < 60
    ensures r == ScoreRose <==> score < 40
  {
    if score >= 80 then ScoreEmerald
    else if score >= 60 then ScoreLime
    else if score >= 40 then ScoreAmber
    else ScoreRose
  }

  /** How good a score colour is: rose 0, amber 1, lime 2, emerald 3. */
  function ScoreRank(color: string): int
  {
    if color == ScoreEmerald then 3
    else if color == ScoreLime then 2
    else if color == ScoreAmber then 1
    else 0
  }

  /** A higher score never gets a worse colour. */
  lemma ScoreColorMonotone(s1: int, s2: int)
    requires s1 <= s2
    ensures ScoreRank(ScoreColor(s1)) <= ScoreRank(ScoreColor(s2))
  {
  }

  /** The blurred halo behind the score uses the same colour as a background class: the
      first "text" of the score class becomes "bg" (ResultCard.tsx:44). */
  function ScoreHalo(score: int): (r: string)
    ensures |r| >= 2 && r[..2] == "bg"
    ensures "text" + r[2..] == ScoreColor(score)
  {
    var c := ScoreColor(score);
    "bg" + c[4..]
  }

  const BadgeExcellent: string := "bg-emerald-500 text-white shadow-emerald-100"
  const BadgeBon: string := "bg-lime-500 text-white shadow-lime-100"
  const BadgeMediocre: string := "bg-amber-500 text-white shadow-amber-100"
  const BadgeMauvais: string := "bg-rose-500 text-white shadow-rose-100"
  const BadgeDefault: string := "bg-slate-500 text-white"

  /** The verdict badge's style. The verdict arrives as unvalidated text, so the mapping is
      total: any text other than the four verdicts falls to the slate default. */
  function VerdictStyles(verdict: string): (r: string)
    ensures verdict !in VerdictLabels <==> r == BadgeDefault
    ensures verdict == "Excellent" ==> r == BadgeExcellent
    ensures verdict == "Bon" ==> r == BadgeBon
    ensures verdict == "Médiocre" ==> r == BadgeMediocre
    ensures verdict == "Mauvais" ==> r == BadgeMauvais
  {
    if verdict == "Excellent" then BadgeExcellent
    else if verdict == "Bon" then BadgeBon
    else if verdict == "Médiocre" then BadgeMediocre
    else if verdict == "Mauvais" then BadgeMauvais
    else BadgeDefault
  }

  /** The four verdicts get four different badges, none of them the default. */
  lemma VerdictStylesDistinct(v1: Verdict, v2: Verdict)
    ensures VerdictStyles(VerdictLabel(v1)) != BadgeDefault
    ensures VerdictStyles(VerdictLabel(v1)) == VerdictStyles(VerdictLabel(v2)) <==> v1 == v2
  {
  }

  const DotEmerald: string := "bg-emerald-500"
  const DotRose: string := "bg-rose-500"
  const DotAmber: string := "bg-amber-400"

  /** The colour of a nutrient's impact dot: "positive" is emerald, "negative" is rose, and
      every other text, "neutral" included, is amber. */
  function ImpactDot(impact: string): (r: string)
    ensures r in {DotEmerald, DotRose, DotAmber}
    ensures r == DotEmerald <==> impact == "positive"
    ensures r == DotRose <==> impact == "negative"
    ensures r == DotAmber <==> impact != "positive" && impact != "negative"
  {
    if impact == "positive" then DotEmerald
    else if impact == "negative" then DotRose
    else DotAmber
  }

  /** The three impacts of the schema get three different dots. */
  lemma ImpactDotDistinct(i1: Impact, i2: Impact)
    ensures ImpactDot(ImpactLabel(i1)) == ImpactDot(ImpactLabel(i2)) <==> i1 == i2
  {
  }

  /** The additives section: absent when the list is empty, otherwise it lists every additive
      in the order received. */
  function AdditivesSection(data: HealthAnalysis): (r: Option<seq<string>>)
    ensures r.None? <==> |data.additives| == 0
    ensures r.Some? ==> r.value == data.additives
  {
    if |data.additives| > 0 then Some(data.additives) else None
  }

  /** The colours of the nutrition profile, one per nutrient and in the same order. */
  function NutrientDots(nutrients: seq<Nutrient>): (r: seq<string>)
    ensures |r| == |nutrients|
    ensures forall i :: 0 <= i < |r| ==> r[i] == ImpactDot(nutrients[i].impact)
  {
    if nutrients == [] then []
    else [ImpactDot(nutrients[0].impact)] + NutrientDots(nutrients[1..])
  }
}
