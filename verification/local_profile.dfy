/**
 * The questionnaire profile kept in the browser's storage: its default value,
 * how a stored copy is read back (soft-merged over the default) and the payload
 * built from it for the matching back end.
 */
module LocalProfile {
  import opened Common

  /** The age field: a number, or the empty string before it is filled in. */
  datatype Age = AgeNumber(years: int) | AgeBlank

  /** Answers are numbers or `null` (not answered yet). */
  type Answer = Option<int>

  datatype Big5 = Big5(O: Answer, C: Answer, E: Answer, A: Answer, N: Answer)
  datatype Dark = Dark(M: Answer, N: Answer, P: Answer)
  datatype Mbti = Mbti(EI: Answer, SN: Answer, TF: Answer, JP: Answer)

  datatype Profile = Profile(
    step: int,
    name: string,
    email: string,
    university: string,
    city: string,
    age: Age,
    fg: seq<Answer>,
    big5: Big5,
    dark: Dark,
    mbti: Mbti,
    zodiac: string)

  /** Number of general questions. */
  const GeneralQuestions: nat := 20

  /** A fresh profile: first step, blank texts and age, every answer `null`. */
  function DefaultProfile(): (p: Profile)
    ensures p.step == 0 && p.age == AgeBlank && p.zodiac == ""
    ensures p.name == "" && p.email == "" && p.university == "" && p.city == ""
    ensures |p.fg| == GeneralQuestions && forall i :: 0 <= i < |p.fg| ==> p.fg[i] == None
    ensures p.big5 == Big5(None, None, None, None, None)
    ensures p.dark == Dark(None, None, None)
    ensures p.mbti == Mbti(None, None, None, None)
  {
    Profile(0, "", "", "", "", AgeBlank, seq(GeneralQuestions, _ => None),
            Big5(None, None, None, None, None), Dark(None, None, None),
            Mbti(None, None, None, None), "")
  }

  /**
   * The top-level keys found in a parsed stored object; `None` is a key that
   * is not there. Nested records are replaced whole, as a shallow spread does.
   */
  datatype Stored = Stored(
    step: Option<int>,
    name: Option<string>,
    email: Option<string>,
    university: Option<string>,
    city: Option<string>,
    age: Option<Age>,
    fg: Option<seq<Answer>>,
    big5: Option<Big5>,
    dark: Option<Dark>,
    mbti: Option<Mbti>,
    zodiac: Option<string>)

  const NoKeys: Stored := Stored(None, None, None, None, None, None, None, None, None, None, None)

  /** Every key of `p`, as a stored copy of the whole profile has them. */
  function AllKeys(p: Profile): Stored {
    Stored(Some(p.step), Some(p.name), Some(p.email), Some(p.university), Some(p.city),
           Some(p.age), Some(p.fg), Some(p.big5), Some(p.dark), Some(p.mbti), Some(p.zodiac))
  }

  /** `{ ...base, ...stored }`: a key present in `stored` wins, any other keeps `base`'s value. */
  function SoftMerge(base: Profile, stored: Stored): (r: Profile)
    ensures stored.step.Some? ==> r.step == stored.step.value
    ensures stored.step.None? ==> r.step == base.step
    ensures stored.name.Some? ==> r.name == stored.name.value
    ensures stored.name.None? ==> r.name == base.name
    ensures stored.email.Some? ==> r.email == stored.email.value
    ensures stored.email.None? ==> r.email == base.email
    ensures stored.university.Some? ==> r.university == stored.university.value
    ensures stored.university.None? ==> r.university == base.university
    ensures stored.city.Some? ==> r.city == stored.city.value
    ensures stored.city.None? ==> r.city == base.city
    ensures stored.age.Some? ==> r.age == stored.age.value
    ensures stored.age.None? ==> r.age == base.age
    ensures stored.fg.Some? ==> r.fg == stored.fg.value
    ensures stored.fg.None? ==> r.fg == base.fg
    ensures stored.big5.Some? ==> r.big5 == stored.big5.value
    ensures stored.big5.None? ==> r.big5 == base.big5
    ensures stored.dark.Some? ==> r.dark == stored.dark.value
    ensures stored.dark.None? ==> r.dark == base.dark
    ensures stored.mbti.Some? ==> r.mbti == stored.mbti.value
    ensures stored.mbti.None? ==> r.mbti == base.mbti
    ensures stored.zodiac.Some? ==> r.zodiac == stored.zodiac.value
    ensures stored.zodiac.None? ==> r.zodiac == base.zodiac
  {
    Profile(stored.step.GetOr(base.step), stored.name.GetOr(base.name),
            stored.email.GetOr(base.email), stored.university.GetOr(base.university),
            stored.city.GetOr(base.city), stored.age.GetOr(base.age),
            stored.fg.GetOr(base.fg), stored.big5.GetOr(base.big5),
            stored.dark.GetOr(base.dark), stored.mbti.GetOr(base.mbti),
            stored.zodiac.GetOr(base.zodiac))
  }

  /**
   * Reads the profile back. `raw` is what storage holds under the profile key
   * (`None` when nothing is there); `parse` stands for `JSON.parse` and answers
   * `None` when it throws. A missing or empty entry and an unparsable one all
   * give the default profile.
   */
  function LoadLocalProfile(raw: Option<string>, parse: string -> Option<Stored>): (r: Profile)
    ensures raw.None? || raw == Some("") ==> r == DefaultProfile()
    ensures raw.Some? && raw.value != "" && parse(raw.value).None? ==> r == DefaultProfile()
    ensures raw.Some? && raw.value != "" && parse(raw.value).Some? ==>
              r == SoftMerge(DefaultProfile(), parse(raw.value).value)
  {
    if raw.None? || raw.value == "" then DefaultProfile()
    else
      match parse(raw.value)
      case None => DefaultProfile()
      case Some(stored) => SoftMerge(DefaultProfile(), stored)
  }

  /** The questionnaire part of the submitted payload. */
  datatype SubmitProfile = SubmitProfile(
    fg: seq<int>, big5: Big5, dark: Dark, mbti: Mbti, zodiac: string, city: string, age: int)

  datatype SubmitPayload = SubmitPayload(
    name: string, email: string, university: string, profile: SubmitProfile)

  /** `null` general answers are sent as 0, and so is a blank age. */
  function BuildSubmitPayload(p: Profile): (r: SubmitPayload)
    ensures r.name == p.name && r.email == p.email && r.university == p.university
    ensures r.profile.zodiac == p.zodiac && r.profile.city == p.city
    ensures r.profile.big5 == p.big5 && r.profile.dark == p.dark && r.profile.mbti == p.mbti
    ensures |r.profile.fg| == |p.fg|
    ensures forall i :: 0 <= i < |p.fg| && p.fg[i].Some? ==> r.profile.fg[i] == p.fg[i].value
    ensures forall i :: 0 <= i < |p.fg| && p.fg[i].None? ==> r.profile.fg[i] == 0
    ensures p.age.AgeNumber? ==> r.profile.age == p.age.years
    ensures p.age.AgeBlank? ==> r.profile.age == 0
  {
    var fg := seq(|p.fg|, i requires 0 <= i < |p.fg| => p.fg[i].GetOr(0));
    var age := if p.age.AgeNumber? then p.age.years else 0;
    SubmitPayload(p.name, p.email, p.university,
                  SubmitProfile(fg, p.big5, p.dark, p.mbti, p.zodiac, p.city, age))
  }

  /** A stored object with none of the profile keys loads as the default. */
  lemma LoadNoKeys(raw: string, parse: string -> Option<Stored>)
    requires raw != "" && parse(raw) == Some(NoKeys)
    ensures LoadLocalProfile(Some(raw), parse) == DefaultProfile()
  {
  }

  /** A stored copy of a whole profile loads back as that profile. */
  lemma LoadSavedProfile(p: Profile, raw: string, parse: string -> Option<Stored>)
    requires raw != "" && parse(raw) == Some(AllKeys(p))
    ensures LoadLocalProfile(Some(raw), parse) == p
  {
  }

  /**
   * A stored copy from an older version missing some keys gets those keys
   * from the default and keeps the ones it has.
   */
  lemma LoadFillsMissingKeys(raw: string, parse: string -> Option<Stored>)
    requires raw != "" && parse(raw).Some?
    ensures var p := LoadLocalProfile(Some(raw), parse);
            var s := parse(raw).value;
            && (s.step.None? ==> p.step == 0) && (s.step.Some? ==> p.step == s.step.value)
            && (s.name.None? ==> p.name == "") && (s.name.Some? ==> p.name == s.name.value)
            && (s.email.None? ==> p.email == "") && (s.email.Some? ==> p.email == s.email.value)
            && (s.university.None? ==> p.university == "")
            && (s.university.Some? ==> p.university == s.university.value)
            && (s.city.None? ==> p.city == "") && (s.city.Some? ==> p.city == s.city.value)
            && (s.age.None? ==> p.age == AgeBlank) && (s.age.Some? ==> p.age == s.age.value)
            && (s.fg.None? ==> |p.fg| == GeneralQuestions && forall i :: 0 <= i < |p.fg| ==> p.fg[i] == None)
            && (s.fg.Some? ==> p.fg == s.fg.value)
            && (s.big5.None? ==> p.big5 == Big5(None, None, None, None, None))
            && (s.big5.Some? ==> p.big5 == s.big5.value)
            && (s.dark.None? ==> p.dark == Dark(None, None, None)) && (s.dark.Some? ==> p.dark == s.dark.value)
            && (s.mbti.None? ==> p.mbti == Mbti(None, None, None, None))
            && (s.mbti.Some? ==> p.mbti == s.mbti.value)
            && (s.zodiac.None? ==> p.zodiac == "") && (s.zodiac.Some? ==> p.zodiac == s.zodiac.value)
  {
  }

  /** The payload of a fresh profile: twenty zeros, age 0, blank texts. */
  lemma DefaultPayload()
    ensures var r := BuildSubmitPayload(DefaultProfile());
            r.profile.fg == seq(GeneralQuestions, _ => 0) && r.profile.age == 0 &&
            r.name == "" && r.email == "" && r.university == "" && r.profile.zodiac == ""
  {
    var r := BuildSubmitPayload(DefaultProfile());
    assert r.profile.fg == seq(GeneralQuestions, _ => 0);
  }

  /** The step reached in the questionnaire is not sent. */
  lemma PayloadIgnoresStep(p: Profile, step: int)
    ensures BuildSubmitPayload(p.(step := step)) == BuildSubmitPayload(p)
  {
  }

  /** The payload cannot tell an unanswered question from an answer of 0, nor a blank age from 0. */
  lemma PayloadConflatesNullAndZero(p: Profile, i: nat)
    requires i < |p.fg| && p.fg[i] == None
    ensures BuildSubmitPayload(p.(fg := p.fg[i := Some(0)])) == BuildSubmitPayload(p)
    ensures BuildSubmitPayload(p.(age := AgeNumber(0))) == BuildSubmitPayload(p.(age := AgeBlank))
  {
    var q := p.(fg := p.fg[i := Some(0)]);
    assert BuildSubmitPayload(q).profile.fg == BuildSubmitPayload(p).profile.fg;
  }
}
