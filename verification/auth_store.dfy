/**
 * The mock sign-in store: logging in with an email makes up a user whose
 * name is the part of the email before the first `@`, with a fixed id and
 * session token; logging out clears both.
 */
module AuthStore {
  import opened Common

  datatype User = User(id: string, email: string, name: string)

  datatype AuthState = AuthState(user: Option<User>, session: Option<string>)

  const Initial: AuthState := AuthState(None, None)
  const MockUserId: string := "1"
  const MockSession: string := "mock-session-token"

  /** `email.split('@')[0]`: everything before the first `@`, or all of it when there is none. */
  function NameFromEmail(email: string): (r: string)
    ensures IsPrefix(r, email)
    ensures '@' !in r
    ensures |r| == |email| || email[|r|] == '@'
  {
    if email == [] || email[0] == '@' then []
    else [email[0]] + NameFromEmail(email[1..])
  }

  function Login(s: AuthState, email: string): (r: AuthState)
    ensures r.user == Some(User(MockUserId, email, NameFromEmail(email)))
    ensures r.session == Some(MockSession)
  {
    AuthState(Some(User(MockUserId, email, NameFromEmail(email))), Some(MockSession))
  }

  function Logout(s: AuthState): (r: AuthState)
    ensures r.user.None? && r.session.None?
  {
    Initial
  }

  /** Signed in exactly when both a user and a session are present. */
  predicate SignedIn(s: AuthState) {
    s.user.Some? && s.session.Some?
  }

  /** The name is fixed by the email alone: the characterisation above has one solution. */
  lemma {:induction false} NameFromEmailUnique(email: string, n: string)
    requires IsPrefix(n, email) && '@' !in n && (|n| == |email| || email[|n|] == '@')
    ensures n == NameFromEmail(email)
  {
    if n != [] {
      assert email[0] == n[0];
      assert n[1..] == email[1..][..|n| - 1];
      NameFromEmailUnique(email[1..], n[1..]);
    } else if email != [] {
      assert email[0] == '@';
    }
  }

  /** An email with an `@` after a local part gives that local part as the name. */
  lemma NameOfAddress(local: string, domain: string)
    requires '@' !in local
    ensures NameFromEmail(local + "@" + domain) == local
  {
    var e := local + "@" + domain;
    assert e[..|local|] == local;
    assert e[|local|] == '@';
    NameFromEmailUnique(e, local);
  }

  /** Logging in then out returns to the signed-out start, whoever logged in before. */
  lemma LoginLogout(s: AuthState, email: string)
    ensures SignedIn(Login(s, email))
    ensures Logout(Login(s, email)) == Initial && !SignedIn(Initial)
    ensures Logout(Logout(s)) == Logout(s)
  {
  }

  /** A second login replaces the first user entirely. */
  lemma LoginReplaces(s: AuthState, a: string, b: string)
    ensures Login(Login(s, a), b) == Login(s, b)
  {
  }
}
