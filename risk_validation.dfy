/**
 * riskFormSchema of src/lib/validations/risk.ts as an acceptance predicate
 * over form data: the field bounds the form checks before anything reaches
 * the store.
 */
module RiskValidation {
  import opened Wrappers
  import opened RiskTypes
  import opened RiskUtils

  const TitleMaxLength: nat := 200
  const DescriptionMaxLength: nat := 1000
  const ScaleMin: int := 1
  const ScaleMax: int := 5

  /** Title: required, 1 to 200 characters. */
  predicate TitleAccepted(title: string)
  {
    1 <= |title| <= TitleMaxLength
  }

  /** Description: optional, at most 1000 characters when present. */
  predicate DescriptionAccepted(description: Option<string>)
  {
    description.None? || |description.value| <= DescriptionMaxLength
  }

  /** Category: one of the six RiskCategory values. */
  predicate CategoryAccepted(category: string)
  {
    category in CategoryNames
  }

  /** Likelihood and impact: between 1 and 5 inclusive. */
  predicate ScaleAccepted(v: int)
  {
    ScaleMin <= v <= ScaleMax
  }

  /** Two factors on the 1..5 scale give a product on 1..25. */
  lemma ScaleProductInBands(x: int, y: int)
    requires ScaleAccepted(x) && ScaleAccepted(y)
    ensures InBands(x * y)
  {
    assert 1 * y <= x * y <= 5 * y;
  }

  /**
   * The schema accepts a form exactly when every field is within its bounds;
   * an accepted form has a score that one of the four bands covers.
   */
  predicate FormAccepted(form: FormData): (ok: bool)
    ensures ok ==> InBands(form.likelihood * form.impact)
  {
    var ok := TitleAccepted(form.title)
      && DescriptionAccepted(form.description)
      && CategoryAccepted(form.category)
      && ScaleAccepted(form.likelihood)
      && ScaleAccepted(form.impact);
    if ok then ScaleProductInBands(form.likelihood, form.impact); ok else ok
  }

  /**
   * Closed world: for an accepted form the classifier decides by the band of
   * the score and never reaches its fallback branch.
   */
  lemma AcceptedFormNeverFallsBack(form: FormData)
    requires FormAccepted(form)
    ensures var score := form.likelihood * form.impact;
      && InBands(score)
      && BandLow(CalculateRiskLevel(score)) <= score <= BandHigh(CalculateRiskLevel(score))
  {
  }
}
