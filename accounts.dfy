/** The two searches over the `users` list that registration and login perform. */
module Accounts {
  import opened Types
  import opened Credentials

  /** No two stored users share an email. */
  predicate UniqueEmails(users: seq<StoredUser>) {
    forall i, j :: 0 <= i < j < |users| ==> users[i].email != users[j].email
  }

  /** The duplicate test of registration: some stored user has exactly this email. */
  function EmailTaken(users: seq<StoredUser>, email: string): (r: bool)
    ensures r <==> exists i :: 0 <= i < |users| && users[i].email == email
  {
    if |users| == 0 then false
    else if users[0].email == email then true
    else
      var rest := EmailTaken(users[1..], email);
      assert forall i :: 1 <= i < |users| ==> users[i] == users[1..][i - 1];
      rest
  }

  /** The login test applied to one stored user. */
  predicate Matches(u: StoredUser, email: string, password: string) {
    u.email == email && u.password == SimpleHash(password)
  }

  /** The search of login: the index of the first stored user with exactly this email
      whose stored password equals the transform of the supplied one, if any. */
  function FindAccount(users: seq<StoredUser>, email: string, password: string): (r: Option<nat>)
    ensures r.Some? ==> r.value < |users| && Matches(users[r.value], email, password)
    ensures r.Some? ==> forall j :: 0 <= j < r.value ==> !Matches(users[j], email, password)
    ensures r.None? <==> forall j :: 0 <= j < |users| ==> !Matches(users[j], email, password)
  {
    if |users| == 0 then None
    else if Matches(users[0], email, password) then Some(0)
    else
      var rest := FindAccount(users[1..], email, password);
      assert forall i :: 1 <= i < |users| ==> users[i] == users[1..][i - 1];
      match rest
      case None => None
      case Some(k) => Some(k + 1)
  }

  /** Appending a user whose email is not yet taken keeps emails unique. */
  lemma {:induction false} AppendKeepsEmailsUnique(users: seq<StoredUser>, u: StoredUser)
    requires UniqueEmails(users)
    requires !EmailTaken(users, u.email)
    ensures UniqueEmails(users + [u])
  {
    var after := users + [u];
    forall i, j | 0 <= i < j < |after| ensures after[i].email != after[j].email {
      if j == |users| {
        assert after[i] == users[i];
      } else {
        assert after[i] == users[i] && after[j] == users[j];
      }
    }
  }

  /** Login compares plaintexts: a user stored with the transform of `p` matches the supplied
      password `q` exactly when `p == q`. */
  lemma LoginComparesPlaintext(u: StoredUser, p: string, email: string, q: string)
    requires u.password == SimpleHash(p)
    ensures Matches(u, email, q) <==> u.email == email && p == q
  {
    HashInjective(p, q);
  }

  /** An unknown email and a wrong password fail alike: with unique emails, login finds the one
      account with that email when its password matches, and nothing otherwise. */
  lemma {:induction false} FindAccountUnique(users: seq<StoredUser>, i: nat, email: string, password: string)
    requires UniqueEmails(users)
    requires i < |users| && users[i].email == email
    ensures FindAccount(users, email, password) ==
              if users[i].password == SimpleHash(password) then Some(i) else None
  {
    var r := FindAccount(users, email, password);
    assert forall j :: 0 <= j < |users| && j != i ==> users[j].email != users[i].email;
    if r.Some? {
      assert users[r.value].email == email;
    } else {
      assert !Matches(users[i], email, password);
    }
  }

  /** Login with an email no stored user has always fails. */
  lemma UnknownEmailFails(users: seq<StoredUser>, email: string, password: string)
    requires !EmailTaken(users, email)
    ensures FindAccount(users, email, password) == None
  {
  }
}
