/**
 * The selection logic of the questionnaire page: which answers the current
 * page shows, what a click on an option does, when "next" is enabled and
 * where "next" leads.
 */
module FormPage {
  import opened Common
  import opened FormStore

  /** Only the first page allows several options at once. */
  predicate MultiSelect(step: int) {
    step == 0
  }

  /** The answer field each page writes. */
  function KeyOf(step: int): (k: AnswerKey)
    requires 0 <= step <= LastStep
    ensures (k == Zodiac) <==> step == LastStep
  {
    if step == 0 then General
    else if step == 1 then Big5
    else if step == 2 then Dark
    else if step == 3 then Mbti
    else Zodiac
  }

  /** `[zodiac].filter(Boolean)`: the empty string counts as no answer. */
  function ZodiacAsList(zodiac: string): (r: seq<string>)
    ensures zodiac == "" ==> r == []
    ensures zodiac != "" ==> r == [zodiac]
  {
    if zodiac == "" then [] else [zodiac]
  }

  /** The options shown as selected on the current page. */
  function CurrentAnswers(s: FormState): (r: seq<string>)
    requires StepInRange(s)
    ensures s.currentStep < LastStep ==> Get(s, KeyOf(s.currentStep)) == Many(r)
    ensures s.currentStep == LastStep ==> r == ZodiacAsList(s.zodiac)
  {
    match KeyOf(s.currentStep)
    case General => s.general
    case Big5 => s.big5
    case Dark => s.dark
    case Mbti => s.mbti
    case Zodiac => ZodiacAsList(s.zodiac)
  }

  /** Different pages write different fields. */
  lemma KeyOfInjective(a: int, b: int)
    requires 0 <= a <= LastStep && 0 <= b <= LastStep
    requires KeyOf(a) == KeyOf(b)
    ensures a == b
  {
  }

  /** `xs` with every occurrence of `x` removed, order kept. */
  function RemoveAll(xs: seq<string>, x: string): (r: seq<string>)
    ensures x !in r
    ensures forall y :: y != x ==> multiset(r)[y] == multiset(xs)[y]
    ensures |r| == |xs| - multiset(xs)[x]
  {
    if xs == [] then []
    else
      assert xs == [xs[0]] + xs[1..];
      (if xs[0] == x then [] else [xs[0]]) + RemoveAll(xs[1..], x)
  }

  /**
   * The multi-select click: a selected option is unselected (every copy of it),
   * an unselected one is added at the end.
   */
  function Toggle(current: seq<string>, option: string): (r: seq<string>)
    ensures option in r <==> option !in current
    ensures option !in current ==> r == current + [option]
    ensures forall y :: y != option ==> multiset(r)[y] == multiset(current)[y]
  {
    if option in current then RemoveAll(current, option) else current + [option]
  }

  /** Clicking an option on the current page. */
  function HandleSelect(s: FormState, option: string): (r: FormState)
    requires StepInRange(s)
    ensures StepInRange(r) && r.currentStep == s.currentStep
    ensures forall k :: k != KeyOf(s.currentStep) ==> Get(r, k) == Get(s, k)
    ensures MultiSelect(s.currentStep) ==> CurrentAnswers(r) == Toggle(CurrentAnswers(s), option)
    ensures 0 < s.currentStep < LastStep ==> CurrentAnswers(r) == [option]
    ensures s.currentStep == LastStep ==> r.zodiac == option && CurrentAnswers(r) == ZodiacAsList(option)
  {
    var key := KeyOf(s.currentStep);
    if MultiSelect(s.currentStep) then
      UpdateAnswers(s, key, Many(Toggle(CurrentAnswers(s), option)))
    else
      UpdateAnswers(s, key, if s.currentStep == LastStep then One(option) else Many([option]))
  }

  /** "Next" is enabled when the current page has at least one answer. */
  predicate CanProceed(s: FormState)
    requires StepInRange(s)
  {
    |CurrentAnswers(s)| > 0
  }

  /** Where "next" leads: the results page from the last page, the next page otherwise. */
  datatype NextOutcome = ToResults | Advance(state: FormState)

  function HandleNext(s: FormState): (o: NextOutcome)
    requires StepInRange(s)
    ensures o.ToResults? <==> s.currentStep == LastStep
    ensures o.Advance? ==> o.state == NextStep(s) && o.state.currentStep == s.currentStep + 1
  {
    if s.currentStep == LastStep then ToResults else Advance(NextStep(s))
  }

  /** Selecting an absent option and then selecting it again leaves the list as it was. */
  lemma ToggleTwiceRestores(current: seq<string>, option: string)
    requires option !in current
    ensures Toggle(Toggle(current, option), option) == current
  {
    RemoveAllAbsent(current, option);
    RemoveAllAppend(current, [option], option);
  }

  lemma {:induction false} RemoveAllAbsent(xs: seq<string>, x: string)
    requires x !in xs
    ensures RemoveAll(xs, x) == xs
  {
    if xs != [] {
      RemoveAllAbsent(xs[1..], x);
    }
  }

  /** Removing from a list with a known head. */
  lemma RemoveAllCons(h: string, t: seq<string>, x: string)
    ensures RemoveAll([h] + t, x) == (if h == x then [] else [h]) + RemoveAll(t, x)
  {
    assert ([h] + t)[0] == h;
    assert ([h] + t)[1..] == t;
  }

  lemma {:induction false} RemoveAllAppend(xs: seq<string>, ys: seq<string>, x: string)
    ensures RemoveAll(xs + ys, x) == RemoveAll(xs, x) + RemoveAll(ys, x)
    decreases |xs|
  {
    if xs == [] {
      assert xs + ys == ys;
    } else {
      var h := xs[0];
      var rest := xs[1..];
      var hx: seq<string> := if h == x then [] else [h];
      assert xs == [h] + rest;
      assert xs + ys == [h] + (rest + ys);
      RemoveAllCons(h, rest + ys, x);
      RemoveAllCons(h, rest, x);
      RemoveAllAppend(rest, ys, x);
      AppendAssoc(hx, RemoveAll(rest, x), RemoveAll(ys, x));
    }
  }

  /**
   * After a click on a single-choice page "next" is enabled, except for the
   * empty string on the zodiac page; on the first page it is enabled after
   * adding an option.
   */
  lemma SelectEnablesNext(s: FormState, option: string)
    requires StepInRange(s)
    ensures 0 < s.currentStep < LastStep ==> CanProceed(HandleSelect(s, option))
    ensures s.currentStep == LastStep ==> (CanProceed(HandleSelect(s, option)) <==> option != "")
    ensures s.currentStep == 0 && option !in CurrentAnswers(s) ==> CanProceed(HandleSelect(s, option))
  {
  }

  /** Nothing is answered on a fresh questionnaire, so "next" starts disabled. */
  lemma InitialCannotProceed()
    ensures StepInRange(Initial) && !CanProceed(Initial)
  {
  }
}
