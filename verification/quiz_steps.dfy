/** The fixed script of the style quiz: six steps, each with its answer shape. */
module QuizSteps {
  import opened Wrappers

  /** How a step is answered: option toggles (`multi`) or named text fields (`pair`, `inputs`, `range`). */
  datatype StepType = Multi | Pair | Inputs | Range

  datatype QuizField = QuizField(name: string, fieldLabel: string, placeholder: Option<string>)

  /** One quiz step; an absent `required` flag is modelled as `false`. */
  datatype QuizStep = QuizStep(
    id: int,
    key: string,
    title: string,
    stepType: StepType,
    options: Option<seq<string>>,
    fields: Option<seq<QuizField>>,
    required: bool)

  /** Steps answered through named fields rather than option toggles. */
  predicate HasFields(t: StepType) {
    t == Pair || t == Inputs || t == Range
  }

  function FieldNames(fields: seq<QuizField>): (names: seq<string>)
    ensures |names| == |fields|
    ensures forall k | 0 <= k < |fields| :: names[k] == fields[k].name
  {
    if fields == [] then [] else [fields[0].name] + FieldNames(fields[1..])
  }

  /** The names of a step's fields, empty for an option step. */
  function StepFieldNames(step: QuizStep): seq<string> {
    match step.fields
    case Some(fs) => FieldNames(fs)
    case None => []
  }

  /** The quiz catalog, in the order the user walks through it. */
  function Steps(): (steps: seq<QuizStep>)
    ensures |steps| == 6
    ensures forall i | 0 <= i < |steps| :: steps[i].id == i + 1
    ensures forall i, j | 0 <= i < j < |steps| :: steps[i].key != steps[j].key
    ensures forall i | 0 <= i < |steps| ::
      steps[i].stepType == Multi ==> steps[i].options.Some? && steps[i].fields.None?
    ensures forall i | 0 <= i < |steps| ::
      HasFields(steps[i].stepType) ==> steps[i].fields.Some? && steps[i].options.None?
    ensures forall i | 0 <= i < |steps| ::
      steps[i].required <==> steps[i].key in {"occasion", "style_vibe", "sizes", "budget"}
    ensures StepFieldNames(steps[3]) == ["ft", "in_"]
    ensures StepFieldNames(steps[4]) == ["tops", "bottoms"]
    ensures StepFieldNames(steps[5]) == ["min", "max"]
  {
    [
      QuizStep(1, "occasion", "What are you shopping for?", Multi,
        Some(["Work", "Casual", "Date", "Party", "Travel", "Formal"]), None, true),
      QuizStep(2, "style_vibe", "Which style describes you best?", Multi,
        Some(["Minimal", "Street", "Smart-casual", "Athleisure", "Classic", "Trendy"]), None, true),
      QuizStep(3, "colors_like", "Which colors do you love?", Multi,
        Some(["Black", "White", "Beige", "Navy", "Grey", "Olive", "Brown", "Denim"]), None, false),
      QuizStep(4, "height", "How tall are you?", Pair,
        None, Some([QuizField("ft", "Ft", None), QuizField("in_", "In_", None)]), false),
      QuizStep(5, "sizes", "Your sizes", Inputs,
        None, Some([QuizField("tops", "Top size", Some("M")), QuizField("bottoms", "Bottom size", Some("30"))]), true),
      QuizStep(6, "budget", "Price range per item", Range,
        None, Some([QuizField("min", "Min (€)", None), QuizField("max", "Max (€)", None)]), true)
    ]
  }

  /** The step keys, which name the entries of the answers map. */
  function StepKeys(): (keys: seq<string>)
    ensures |keys| == |Steps()|
    ensures forall i | 0 <= i < |keys| :: keys[i] == Steps()[i].key
  {
    seq(|Steps()|, i requires 0 <= i < |Steps()| => Steps()[i].key)
  }

  /** The step keys in catalog order. */
  lemma CatalogKeys()
    ensures StepKeys() == ["occasion", "style_vibe", "colors_like", "height", "sizes", "budget"]
  {
  }
}
