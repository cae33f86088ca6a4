/**
 * The questionnaire store: a step counter over five question pages (0..4)
 * and the answers given on each page. The four list pages keep lists of
 * chosen options; the zodiac page keeps a single string.
 */
module FormStore {

  datatype FormState = FormState(
    currentStep: int,
    general: seq<string>,
    big5: seq<string>,
    dark: seq<string>,
    mbti: seq<string>,
    zodiac: string)

  /** The last page of the questionnaire. */
  const LastStep: int := 4

  /** The store as created: first page, nothing answered. */
  const Initial: FormState := FormState(0, [], [], [], [], "")

  /** The step counter is on one of the five pages. */
  predicate StepInRange(s: FormState) {
    0 <= s.currentStep <= LastStep
  }

  /** The answer fields, one per page. */
  datatype AnswerKey = General | Big5 | Dark | Mbti | Zodiac

  /** A stored answer: a list of options, or the single string of the zodiac page. */
  datatype Answers = Many(items: seq<string>) | One(text: string)

  /** The zodiac field holds a string and the other four hold lists. */
  predicate Fits(key: AnswerKey, answers: Answers) {
    (key == Zodiac) == answers.One?
  }

  /** The value of one answer field. */
  function Get(s: FormState, key: AnswerKey): (a: Answers)
    ensures Fits(key, a)
  {
    match key
    case General => Many(s.general)
    case Big5 => Many(s.big5)
    case Dark => Many(s.dark)
    case Mbti => Many(s.mbti)
    case Zodiac => One(s.zodiac)
  }

  /** Moves to the next page, unless already on the last one. */
  function NextStep(s: FormState): (r: FormState)
    ensures s.currentStep < LastStep <==> r.currentStep == s.currentStep + 1
    ensures s.currentStep >= LastStep <==> r == s
    ensures r.(currentStep := s.currentStep) == s
    ensures StepInRange(s) ==> StepInRange(r)
  {
    if s.currentStep < LastStep then s.(currentStep := s.currentStep + 1) else s
  }

  /** Moves to the previous page, unless already on the first one. */
  function PrevStep(s: FormState): (r: FormState)
    ensures s.currentStep > 0 <==> r.currentStep == s.currentStep - 1
    ensures s.currentStep <= 0 <==> r == s
    ensures r.(currentStep := s.currentStep) == s
    ensures StepInRange(s) ==> StepInRange(r)
  {
    if s.currentStep > 0 then s.(currentStep := s.currentStep - 1) else s
  }

  /** Replaces one answer field; the step and the other fields are untouched. */
  function UpdateAnswers(s: FormState, key: AnswerKey, answers: Answers): (r: FormState)
    requires Fits(key, answers)
    ensures Get(r, key) == answers
    ensures forall k :: k != key ==> Get(r, k) == Get(s, k)
    ensures r.currentStep == s.currentStep
  {
    match key
    case General => s.(general := answers.items)
    case Big5 => s.(big5 := answers.items)
    case Dark => s.(dark := answers.items)
    case Mbti => s.(mbti := answers.items)
    case Zodiac => s.(zodiac := answers.text)
  }

  /** Back to the first page with nothing answered. */
  function ResetForm(s: FormState): (r: FormState)
    ensures r.currentStep == 0
    ensures forall k :: Get(r, k) == (if k == Zodiac then One("") else Many([]))
  {
    Initial
  }

  /** An action on the store. */
  datatype Action = Next | Prev | Update(key: AnswerKey, answers: Answers) | Reset

  predicate Allowed(a: Action) {
    a.Update? ==> Fits(a.key, a.answers)
  }

  function Apply(s: FormState, a: Action): FormState
    requires Allowed(a)
  {
    match a
    case Next => NextStep(s)
    case Prev => PrevStep(s)
    case Update(key, answers) => UpdateAnswers(s, key, answers)
    case Reset => ResetForm(s)
  }

  /** The state after a sequence of actions, first action first. */
  function Run(s: FormState, actions: seq<Action>): FormState
    requires forall i :: 0 <= i < |actions| ==> Allowed(actions[i])
    decreases |actions|
  {
    if actions == [] then s else Run(Apply(s, actions[0]), actions[1..])
  }

  /** The step counter stays on one of the five pages whatever happens. */
  lemma {:induction false} RunKeepsStepInRange(s: FormState, actions: seq<Action>)
    requires StepInRange(s)
    requires forall i :: 0 <= i < |actions| ==> Allowed(actions[i])
    ensures StepInRange(Run(s, actions))
    decreases |actions|
  {
    if actions != [] {
      assert Allowed(actions[0]);
      RunKeepsStepInRange(Apply(s, actions[0]), actions[1..]);
    }
  }

  /** Resetting is the same as starting afresh, and doing it twice is doing it once. */
  lemma ResetIsInitial(s: FormState)
    ensures ResetForm(s) == Initial
    ensures ResetForm(ResetForm(s)) == ResetForm(s)
  {
  }

  /** `n` presses of "next" from the first page stop at the last page. */
  function NextTimes(s: FormState, n: nat): FormState {
    if n == 0 then s else NextStep(NextTimes(s, n - 1))
  }

  lemma {:induction false} NextTimesSaturates(s: FormState, n: nat)
    requires StepInRange(s)
    ensures NextTimes(s, n).currentStep
         == (if s.currentStep + n <= LastStep then s.currentStep + n else LastStep)
  {
    if n > 0 {
      NextTimesSaturates(s, n - 1);
    }
  }
}
