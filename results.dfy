/**
 * The classification vocabulary: the three categories, the record the
 * generative service returns per task, and the label each category is shown
 * with in the report.
 */
module Results {
  import opened Wrappers

  /** The closed set of classification outcomes. */
  datatype Category = AiOptimal | Hybrid | HumanEssential

  /** One classified task, as the response schema describes it. */
  datatype AnalysisResult = AnalysisResult(task: string, category: Category, reason: string, prescription: string)

  /** The literal that stands for a category in the response schema's enum. */
  function Token(c: Category): string {
    match c
    case AiOptimal => "AI_OPTIMAL"
    case Hybrid => "HYBRID"
    case HumanEssential => "HUMAN_ESSENTIAL"
  }

  /** The category a schema literal denotes; any other text denotes none. */
  function ParseToken(s: string): (r: Option<Category>)
    ensures r.Some? ==> Token(r.value) == s
    ensures r.None? ==> s != "AI_OPTIMAL" && s != "HYBRID" && s != "HUMAN_ESSENTIAL"
  {
    if s == "AI_OPTIMAL" then Some(AiOptimal)
    else if s == "HYBRID" then Some(Hybrid)
    else if s == "HUMAN_ESSENTIAL" then Some(HumanEssential)
    else None
  }

  /** Every category's literal reads back as that category. */
  lemma ParseTokenRoundTrip(c: Category)
    ensures ParseToken(Token(c)) == Some(c)
  {
  }

  /**
   * The `label` entry of the colour table, keyed by schema literal. The
   * table's other entries (CSS classes and icons) are presentation only.
   */
  const ColorLabels: map<string, string> := map[
    "AI_OPTIMAL" := "AI最適 (AI_OPTIMAL)",
    "HYBRID" := "協働 (HYBRID)",
    "HUMAN_ESSENTIAL" := "人間必須 (HUMAN)"]

  /** The label shown on a result card for its category: the table entry keyed by its literal. */
  function Label(c: Category): string {
    ColorLabels[Token(c)]
  }

  /**
   * The colour table has an entry exactly for the three schema literals, and
   * that entry is the label of the category the literal denotes; any other
   * text is not one of the table's own keys.
   */
  lemma ColorLookup(s: string)
    ensures s in ColorLabels <==> ParseToken(s).Some?
    ensures s in ColorLabels ==> ColorLabels[s] == Label(ParseToken(s).value)
  {
  }

  /** Different categories are shown with different labels. */
  lemma LabelInjective(c1: Category, c2: Category)
    ensures Label(c1) == Label(c2) ==> c1 == c2
  {
    assert Label(AiOptimal)[0] == 'A' && Label(Hybrid)[0] == '協' && Label(HumanEssential)[0] == '人';
  }

  /** The labels of the result cards, one per record, in the order the records arrived. */
  function CardLabels(rs: seq<AnalysisResult>): (labels: seq<string>)
    ensures |labels| == |rs|
    ensures forall i :: 0 <= i < |rs| ==> labels[i] == Label(rs[i].category)
  {
    if rs == [] then [] else [Label(rs[0].category)] + CardLabels(rs[1..])
  }

  /** Records of pairwise different categories get pairwise different labels. */
  lemma CardLabelsDistinct(rs: seq<AnalysisResult>, i: nat, j: nat)
    requires i < |rs| && j < |rs| && rs[i].category != rs[j].category
    ensures CardLabels(rs)[i] != CardLabels(rs)[j]
  {
    LabelInjective(rs[i].category, rs[j].category);
  }
}
