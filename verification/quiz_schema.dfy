/**
 * The back end's schema for a submitted quiz: which fields must be present
 * and the bounds each must respect before a request is accepted.
 */
module QuizSchema {
  import opened Wrappers
  import opened QuizSteps

  datatype Height = Height(ft: int, inches: Option<int>)

  datatype Sizes = Sizes(tops: string, bottoms: string)

  /** Prices are floating-point numbers in the source; only their comparisons with 0 matter here. */
  datatype Budget = Budget(min: real, max: real)

  datatype QuizInput = QuizInput(
    occasion: seq<string>,
    styleVibe: seq<string>,
    colorsLike: Option<seq<string>>,
    height: Option<Height>,
    sizes: Sizes,
    budget: Budget)

  /** The schema's field names, in declaration order, as the request spells them. */
  const QuizInputFields: seq<string> := ["occasion", "style_vibe", "colors_like", "height", "sizes", "budget"]
  /** The fields without a default: a request missing one is refused. */
  const MandatoryFields: set<string> := {"occasion", "style_vibe", "sizes", "budget"}
  const HeightFields: seq<string> := ["ft", "in_"]
  const SizesFields: seq<string> := ["tops", "bottoms"]
  const BudgetFields: seq<string> := ["min", "max"]

  /** Feet between 3 and 8; inches, when given, between 0 and 11. */
  predicate ValidHeight(h: Height) {
    3 <= h.ft <= 8 && (h.inches.Some? ==> 0 <= h.inches.value <= 11)
  }

  predicate ValidSizes(s: Sizes) {
    |s.tops| >= 1 && |s.bottoms| >= 1
  }

  /** A non-negative minimum and a positive maximum, with no order between them. */
  predicate ValidBudget(b: Budget) {
    b.min >= 0.0 && b.max > 0.0
  }

  /** Every constraint of the schema holds. */
  predicate ValidQuizInput(q: QuizInput) {
    && |q.occasion| >= 1
    && |q.styleVibe| >= 1
    && (q.height.Some? ==> ValidHeight(q.height.value))
    && ValidSizes(q.sizes)
    && ValidBudget(q.budget)
  }

  /**
   * The locations the validator reports, one per violated constraint, in
   * field order (`height.ft` before `height.in_`, and so on).
   */
  function Violations(q: QuizInput): (errors: seq<string>)
  {
    (if |q.occasion| >= 1 then [] else ["occasion"])
    + (if |q.styleVibe| >= 1 then [] else ["style_vibe"])
    + (match q.height
       case None => []
       case Some(h) =>
         (if 3 <= h.ft <= 8 then [] else ["height.ft"])
         + (if h.inches.None? || 0 <= h.inches.value <= 11 then [] else ["height.in_"]))
    + (if |q.sizes.tops| >= 1 then [] else ["sizes.tops"])
    + (if |q.sizes.bottoms| >= 1 then [] else ["sizes.bottoms"])
    + (if q.budget.min >= 0.0 then [] else ["budget.min"])
    + (if q.budget.max > 0.0 then [] else ["budget.max"])
  }

  /** A request is accepted exactly when the validator reports nothing. */
  lemma AcceptedIffNoViolations(q: QuizInput)
    ensures ValidQuizInput(q) <==> Violations(q) == []
  {
  }

  /** A minimum above the maximum is accepted. */
  lemma MinAboveMaxAccepted(q: QuizInput)
    requires |q.occasion| >= 1 && |q.styleVibe| >= 1 && q.height.None?
    requires q.sizes == Sizes("M", "30")
    requires q.budget == Budget(200.0, 50.0)
    ensures ValidQuizInput(q)
  {
  }

  /** Without inches, a height is valid exactly when its feet are in range. */
  lemma InchesOptional(ft: int)
    ensures ValidHeight(Height(ft, None)) <==> 3 <= ft <= 8
  {
  }

  /**
   * The quiz the front end walks through names the schema's fields: the step
   * keys are the request's fields in order, and the height, size and budget
   * steps name the fields of the nested objects.
   */
  lemma CatalogMatchesSchema()
    ensures StepKeys() == QuizInputFields
    ensures StepFieldNames(Steps()[3]) == HeightFields
    ensures StepFieldNames(Steps()[4]) == SizesFields
    ensures StepFieldNames(Steps()[5]) == BudgetFields
    ensures Steps()[3].key == "height" && Steps()[4].key == "sizes" && Steps()[5].key == "budget"
  {
    CatalogKeys();
  }

  /**
   * The steps the front end insists on are exactly the fields the schema
   * makes mandatory; colours and height are optional on both sides.
   */
  lemma RequiredStepsAreMandatoryFields()
    ensures forall i | 0 <= i < |Steps()| :: Steps()[i].required <==> Steps()[i].key in MandatoryFields
  {
  }
}
