/**
 * The profile store: a basic record (name, email, university, city, age,
 * photo) and an extra record (hobbies, bio). An update spreads one partial
 * record into both, so each record can pick up the other's keys; every record
 * is therefore modelled with all eight keys, `None` meaning the key is absent.
 */
module ProfileStore {
  import opened Common

  datatype Fields = Fields(
    name: Option<string>,
    email: Option<string>,
    university: Option<string>,
    city: Option<string>,
    age: Option<int>,
    photo: Option<string>,
    hobbies: Option<seq<string>>,
    bio: Option<string>)

  datatype ProfileState = ProfileState(basic: Fields, extra: Fields)

  const NoFields: Fields := Fields(None, None, None, None, None, None, None, None)

  /** Blank texts and age 18; the hobbies and bio keys are not there. */
  const InitialBasic: Fields := Fields(Some(""), Some(""), Some(""), Some(""), Some(18), Some(""), None, None)

  /** No hobbies and an empty bio; the basic keys are not there. */
  const InitialExtra: Fields := NoFields.(hobbies := Some([]), bio := Some(""))

  const Initial: ProfileState := ProfileState(InitialBasic, InitialExtra)

  /** All six basic keys are present. */
  predicate HasBasicKeys(f: Fields) {
    f.name.Some? && f.email.Some? && f.university.Some? && f.city.Some? && f.age.Some? && f.photo.Some?
  }

  /** Both extra keys are present. */
  predicate HasExtraKeys(f: Fields) {
    f.hobbies.Some? && f.bio.Some?
  }

  function Over<T>(base: Option<T>, patch: Option<T>): (r: Option<T>)
    ensures patch.Some? ==> r == patch
    ensures patch.None? ==> r == base
  {
    if patch.Some? then patch else base
  }

  /** `{ ...base, ...patch }`: keys present in `patch` win, the rest keep `base`. */
  function Spread(base: Fields, patch: Fields): (r: Fields)
    ensures patch == NoFields ==> r == base
    ensures (patch.name.Some? ==> r.name == patch.name) && (patch.name.None? ==> r.name == base.name)
    ensures (patch.email.Some? ==> r.email == patch.email) && (patch.email.None? ==> r.email == base.email)
    ensures (patch.university.Some? ==> r.university == patch.university)
         && (patch.university.None? ==> r.university == base.university)
    ensures (patch.city.Some? ==> r.city == patch.city) && (patch.city.None? ==> r.city == base.city)
    ensures (patch.age.Some? ==> r.age == patch.age) && (patch.age.None? ==> r.age == base.age)
    ensures (patch.photo.Some? ==> r.photo == patch.photo) && (patch.photo.None? ==> r.photo == base.photo)
    ensures (patch.hobbies.Some? ==> r.hobbies == patch.hobbies) && (patch.hobbies.None? ==> r.hobbies == base.hobbies)
    ensures (patch.bio.Some? ==> r.bio == patch.bio) && (patch.bio.None? ==> r.bio == base.bio)
    ensures HasBasicKeys(base) ==> HasBasicKeys(r)
    ensures HasExtraKeys(base) ==> HasExtraKeys(r)
  {
    Fields(Over(base.name, patch.name), Over(base.email, patch.email),
           Over(base.university, patch.university), Over(base.city, patch.city),
           Over(base.age, patch.age), Over(base.photo, patch.photo),
           Over(base.hobbies, patch.hobbies), Over(base.bio, patch.bio))
  }

  /** Spreads the same partial record into both records. */
  function UpdateProfile(s: ProfileState, patch: Fields): (r: ProfileState)
    ensures r.basic == Spread(s.basic, patch) && r.extra == Spread(s.extra, patch)
    ensures patch == NoFields ==> r == s
    ensures HasBasicKeys(s.basic) ==> HasBasicKeys(r.basic)
    ensures HasExtraKeys(s.extra) ==> HasExtraKeys(r.extra)
  {
    ProfileState(Spread(s.basic, patch), Spread(s.extra, patch))
  }

  function Run(s: ProfileState, patches: seq<Fields>): ProfileState
    decreases |patches|
  {
    if patches == [] then s else Run(UpdateProfile(s, patches[0]), patches[1..])
  }

  /** Whatever is spread in, the basic record keeps its keys and the extra record keeps its. */
  lemma {:induction false} RunKeepsKeys(s: ProfileState, patches: seq<Fields>)
    requires HasBasicKeys(s.basic) && HasExtraKeys(s.extra)
    ensures HasBasicKeys(Run(s, patches).basic) && HasExtraKeys(Run(s, patches).extra)
    decreases |patches|
  {
    if patches != [] {
      RunKeepsKeys(UpdateProfile(s, patches[0]), patches[1..]);
    }
  }

  /** Applying the same update twice is applying it once. */
  lemma UpdateIdempotent(s: ProfileState, patch: Fields)
    ensures UpdateProfile(UpdateProfile(s, patch), patch) == UpdateProfile(s, patch)
  {
  }

  /** Two updates in a row are one update with the later keys winning. */
  lemma UpdateComposes(s: ProfileState, p: Fields, q: Fields)
    ensures UpdateProfile(UpdateProfile(s, p), q) == UpdateProfile(s, Spread(p, q))
  {
  }

  /** A bio update also lands in the basic record, and a name update in the extra record. */
  lemma UpdateCrossesRecords(bio: string, name: string)
    ensures UpdateProfile(Initial, NoFields.(bio := Some(bio))).basic.bio == Some(bio)
    ensures UpdateProfile(Initial, NoFields.(name := Some(name))).extra.name == Some(name)
    ensures InitialBasic.bio.None? && InitialExtra.name.None?
  {
  }
}
