/**
 * The quiz flow controller: a linear stepper over the catalog that collects one
 * answer per step, gates forward moves on the answer validator, and submits the
 * collected answers once from the last step.
 */
module QuizForm {
  import opened Wrappers
  import opened QuizSteps
  import opened Products
  import Seqs

  /**
   * An in-progress answer as the form holds it: JavaScript `null`, the array of
   * selected options, or the object from field name to the typed text.
   */
  datatype Answer = Null | Selection(items: seq<string>) | Fields(values: map<string, string>)

  /** Step key to that step's answer. */
  type Answers = map<string, Answer>

  /** What the recommendation endpoint returns for a submission. */
  datatype QuizResult = QuizResult(recommendation: string, products: seq<Product>)

  /**
   * How the one submission request ended. `detail` is the error detail the
   * back end sent, the empty string when there was none.
   */
  datatype SubmitOutcome = Delivered(result: QuizResult) | Failed(detail: string)

  const InvalidAnswerMessage := "Please answer this question before continuing"
  const SubmitFailedMessage := "Failed to submit quiz. Please try again."

  /**
   * Whether the answer lets the user leave the step. Only required steps are
   * checked; a present answer (an array or object, even an empty one) is then
   * checked by shape. For field steps the check is that the answer has at least
   * one key and every present value is a non-empty string: fields never typed
   * into are not looked at. An array answer on a field step is treated as
   * JavaScript's `Object.keys`/`Object.values` treat it: its indices and elements.
   */
  predicate IsAnswerValid(step: QuizStep, answer: Answer) {
    if !step.required then true
    else match answer
      case Null => false
      case Selection(items) =>
        if step.stepType == Multi then |items| > 0
        else |items| > 0 && forall k | 0 <= k < |items| :: items[k] != ""
      case Fields(values) =>
        if step.stepType == Multi then false
        else |values| > 0 && forall f | f in values :: values[f] != ""
  }

  /** `answers[key] || null`: the answer stored for a step, or null. */
  function Stored(answers: Answers, key: string): Answer {
    if key in answers then answers[key] else Null
  }

  /** The answer shapes a step of the given type can hold. */
  predicate Fits(t: StepType, a: Answer) {
    match a
    case Null => true
    case Selection(_) => t == Multi
    case Fields(_) => HasFields(t)
  }

  /** Every stored answer belongs to a catalog step and has that step's shape. */
  ghost predicate AnswersFitCatalog(answers: Answers) {
    && (forall k | k in answers :: k in StepKeys())
    && (forall i | 0 <= i < |Steps()| && Steps()[i].key in answers ::
          Fits(Steps()[i].stepType, answers[Steps()[i].key]))
  }

  /** `current || []` as a list of selected options. */
  function SelectionOf(a: Answer): seq<string> {
    if a.Selection? then a.items else []
  }

  /** `current || {}` as a field map. */
  function FieldsOf(a: Answer): map<string, string> {
    if a.Fields? then a.values else map[]
  }

  /** `current.filter(o => o !== option)`. */
  function Without(current: seq<string>, option: string): seq<string> {
    Seqs.Filter(current, o => o != option)
  }

  /** Selecting an option that is not selected appends it; selecting a selected one drops every copy. */
  function Toggle(current: seq<string>, option: string): seq<string> {
    if option in current then Without(current, option) else current + [option]
  }

  /** The message shown after a failed submission: the back end's detail, or a generic one. */
  function SubmitErrorMessage(detail: string): (msg: string)
    ensures msg != ""
    ensures detail != "" ==> msg == detail
    ensures detail == "" ==> msg == SubmitFailedMessage
  {
    if detail != "" then detail else SubmitFailedMessage
  }

  /** A step that is not required accepts any answer, null included. */
  lemma OptionalStepAlwaysValid(step: QuizStep, answer: Answer)
    requires !step.required
    ensures IsAnswerValid(step, answer)
  {
  }

  /** A required step rejects a null answer. */
  lemma RequiredStepRejectsNull(step: QuizStep)
    requires step.required
    ensures !IsAnswerValid(step, Null)
  {
  }

  /** A required option step accepts exactly a non-empty selection. */
  lemma RequiredMultiValid(step: QuizStep, answer: Answer)
    requires step.required && step.stepType == Multi
    ensures IsAnswerValid(step, answer) <==> answer.Selection? && answer.items != []
  {
  }

  /**
   * A required field step accepts a field map exactly when it has a key and no
   * present value is empty; the declared fields are not consulted.
   */
  lemma RequiredFieldsValid(step: QuizStep, values: map<string, string>)
    requires step.required && HasFields(step.stepType)
    ensures IsAnswerValid(step, Fields(values)) <==> values != map[] && "" !in values.Values
  {
    if values != map[] && "" !in values.Values {
      forall f | f in values ensures values[f] != "" {
        assert values[f] in values.Values;
      }
    }
  }

  /** The sizes step accepts a top size alone, and the budget step accepts the text "0". */
  lemma PartialFieldAnswersPass()
    ensures IsAnswerValid(Steps()[4], Fields(map["tops" := "M"]))
    ensures IsAnswerValid(Steps()[5], Fields(map["min" := "0", "max" := "200"]))
    ensures !IsAnswerValid(Steps()[4], Fields(map["tops" := "M", "bottoms" := ""]))
  {
    assert "bottoms" in map["tops" := "M", "bottoms" := ""];
  }

  /** Toggling flips membership of the option and leaves membership of every other option alone. */
  lemma ToggleMembership(current: seq<string>, option: string, x: string)
    ensures option in Toggle(current, option) <==> option !in current
    ensures x != option ==> (x in Toggle(current, option) <==> x in current)
  {
    Seqs.FilterMembership(current, o => o != option, option);
    Seqs.FilterMembership(current, o => o != option, x);
  }

  /**
   * Toggling a selected option removes every copy of it and keeps the other
   * selections, with their counts, in their order.
   */
  lemma ToggleRemovesAll(current: seq<string>, option: string, x: string)
    requires option in current
    ensures multiset(Toggle(current, option))[option] == 0
    ensures x != option ==> multiset(Toggle(current, option))[x] == multiset(current)[x]
    ensures Seqs.IsSubsequence(Toggle(current, option), current)
  {
    Seqs.FilterCount(current, o => o != option, option);
    Seqs.FilterCount(current, o => o != option, x);
    Seqs.FilterIsSubsequence(current, o => o != option);
  }

  /** Toggling an option that is not selected twice gives back the original selection. */
  lemma ToggleTwice(current: seq<string>, option: string)
    requires option !in current
    ensures Toggle(current, option) == current + [option]
    ensures Toggle(Toggle(current, option), option) == current
  {
    var keep := o => o != option;
    var once := current + [option];
    assert option in once;
    Seqs.FilterAppend(current, [option], keep);
    Seqs.FilterKeepsAll(current, keep);
    assert Seqs.Filter([option], keep) == [];
  }

  /** The quiz form's state: its position in the catalog, the collected answers and the answer being edited. */
  class QuizController {
    var step: nat
    var answers: Answers
    var currentAnswer: Answer
    var loading: bool
    var error: Option<string>

    ghost predicate Valid()
      reads this
    {
      && step < |Steps()|
      && AnswersFitCatalog(answers)
      && Fits(Steps()[step].stepType, currentAnswer)
    }

    /** A fresh form on the first step with nothing answered. */
    constructor ()
      ensures Valid()
      ensures step == 0 && answers == map[] && currentAnswer == Null
      ensures !loading && error == None
    {
      step := 0;
      answers := map[];
      currentAnswer := Stored(map[], Steps()[0].key);
      loading := false;
      error := None;
    }

    /** Recording the edited answer under the current step's key keeps the stored answers well shaped. */
    lemma MergeFits()
      requires Valid()
      ensures AnswersFitCatalog(answers[Steps()[step].key := currentAnswer])
    {
      var key := Steps()[step].key;
      var merged := answers[key := currentAnswer];
      assert StepKeys()[step] == key;
      forall i | 0 <= i < |Steps()| && Steps()[i].key in merged
        ensures Fits(Steps()[i].stepType, merged[Steps()[i].key])
      {
        if i != step {
          assert Steps()[i].key != key;
        }
      }
    }

    /**
     * "Next" / "Complete". An invalid answer only sets the error. A valid one is
     * recorded under the step's key; before the last step the form moves one
     * step on and reloads that step's stored answer; on the last step it starts
     * loading and returns the answers map it submits.
     */
    method Next() returns (submission: Option<Answers>)
      requires Valid() && !loading
      modifies this
      ensures Valid()
      ensures !IsAnswerValid(Steps()[old(step)], old(currentAnswer)) ==>
        && error == Some(InvalidAnswerMessage)
        && step == old(step) && answers == old(answers) && currentAnswer == old(currentAnswer)
        && !loading && submission == None
      ensures IsAnswerValid(Steps()[old(step)], old(currentAnswer)) ==>
        && error == None
        && answers == old(answers)[Steps()[old(step)].key := old(currentAnswer)]
        && currentAnswer == Stored(answers, Steps()[step].key)
      ensures IsAnswerValid(Steps()[old(step)], old(currentAnswer)) && old(step) < |Steps()| - 1 ==>
        step == old(step) + 1 && !loading && submission == None
      ensures IsAnswerValid(Steps()[old(step)], old(currentAnswer)) && old(step) == |Steps()| - 1 ==>
        step == old(step) && loading && submission == Some(answers)
    {
      var current := Steps()[step];
      if !IsAnswerValid(current, currentAnswer) {
        error := Some(InvalidAnswerMessage);
        submission := None;
        return;
      }
      error := None;
      MergeFits();
      var newAnswers := answers[current.key := currentAnswer];
      answers := newAnswers;
      if step == |Steps()| - 1 {
        loading := true;
        submission := Some(newAnswers);
      } else {
        step := step + 1;
        submission := None;
      }
      currentAnswer := Stored(answers, Steps()[step].key);
    }

    /**
     * The end of the submission started by Next: the result is handed on, or
     * the failure message is shown and reported; loading stops either way.
     */
    method FinishSubmission(outcome: SubmitOutcome) returns (completed: Option<QuizResult>, notice: Option<string>)
      requires Valid() && loading
      modifies this`loading, this`error
      ensures Valid() && !loading
      ensures outcome.Delivered? ==> completed == Some(outcome.result) && notice == None && error == old(error)
      ensures outcome.Failed? ==>
        completed == None && error == Some(SubmitErrorMessage(outcome.detail)) && notice == error
    {
      match outcome {
        case Delivered(result) =>
          completed, notice := Some(result), None;
        case Failed(detail) =>
          var message := SubmitErrorMessage(detail);
          error := Some(message);
          completed, notice := None, Some(message);
      }
      loading := false;
    }

    /**
     * "Back": records the edited answer without validating it and moves one
     * step back unless already on the first step.
     */
    method Prev()
      requires Valid() && !loading
      modifies this
      ensures Valid()
      ensures error == None
      ensures answers == old(answers)[Steps()[old(step)].key := old(currentAnswer)]
      ensures step == if old(step) > 0 then old(step) - 1 else old(step)
      ensures currentAnswer == Stored(answers, Steps()[step].key)
      ensures !loading
    {
      error := None;
      MergeFits();
      answers := answers[Steps()[step].key := currentAnswer];
      if step != 0 {
        step := step - 1;
      }
      currentAnswer := Stored(answers, Steps()[step].key);
    }

    /** Clicking an option button of an option step. */
    method ToggleOption(option: string)
      requires Valid() && Steps()[step].stepType == Multi
      modifies this`currentAnswer
      ensures Valid()
      ensures currentAnswer == Selection(Toggle(SelectionOf(old(currentAnswer)), option))
    {
      var current := SelectionOf(currentAnswer);
      if option in current {
        currentAnswer := Selection(Without(current, option));
      } else {
        currentAnswer := Selection(current + [option]);
      }
    }

    /** Typing into one input of a field step. */
    method SetField(name: string, value: string)
      requires Valid() && HasFields(Steps()[step].stepType)
      modifies this`currentAnswer
      ensures Valid()
      ensures currentAnswer == Fields(FieldsOf(old(currentAnswer))[name := value])
    {
      currentAnswer := Fields(FieldsOf(currentAnswer)[name := value]);
    }
  }

  /**
   * The walk-through in which occasion is answered and style is left empty:
   * the second Next is refused and the form stays on the style step.
   */
  method EmptyStyleIsRefused()
  {
    var form := new QuizController();
    form.ToggleOption("Work");
    form.ToggleOption("Casual");
    assert form.currentAnswer == Selection(["Work", "Casual"]);
    var sent := form.Next();
    assert form.step == 1 && sent == None;
    assert form.answers == map["occasion" := Selection(["Work", "Casual"])];
    assert form.currentAnswer == Null;
    sent := form.Next();
    assert form.step == 1 && form.error == Some(InvalidAnswerMessage) && sent == None;
  }
}
