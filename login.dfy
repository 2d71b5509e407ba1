/** Signing in against the built-in demo accounts. */
module Login {
  import opened Common
  import opened Session

  datatype User = User(id: string, email: string, password: string, name: string)

  /** The demo accounts, in their listed order. */
  const MockUsers: seq<User> := [
    User("1", "admin@example.com", "password", "Admin User"),
    User("2", "tj@example.com", "123456", "tj")
  ]

  const FillInAll := "Please fill in all fields"
  const InvalidCredentials := "Invalid email or password"

  predicate Matches(u: User, email: string, password: string)
  {
    u.email == email && u.password == password
  }

  /** `users.find(u => u.email === email && u.password === password)`. */
  function FindUser(users: seq<User>, email: string, password: string): (r: Option<User>)
    ensures r.None? <==> forall i :: 0 <= i < |users| ==> !Matches(users[i], email, password)
    ensures r.Some? ==> exists i :: 0 <= i < |users| && users[i] == r.value && Matches(r.value, email, password)
                                    && forall j :: 0 <= j < i ==> !Matches(users[j], email, password)
  {
    if users == [] then None
    else if Matches(users[0], email, password) then Some(users[0])
    else
      var r := FindUser(users[1..], email, password);
      assert r.Some? ==> exists i :: 0 <= i < |users| - 1 && users[1..][i] == r.value
                                     && forall j :: 0 <= j < i ==> !Matches(users[1..][j], email, password);
      assert forall i :: 0 < i < |users| ==> users[i] == users[1..][i - 1];
      r
  }

  /** What a submit decides. */
  datatype Decision = EmptyFields | NoMatch | SignedIn(user: User)

  /** The decision for the entered email and password: empty fields are
      refused before any lookup; otherwise the first demo account whose
      email and password both equal the entered ones signs in. */
  function Decide(email: string, password: string): (r: Decision)
    ensures r == EmptyFields <==> email == "" || password == ""
    ensures r.SignedIn? ==> r.user in MockUsers && Matches(r.user, email, password)
    ensures r == NoMatch <==> email != "" && password != "" && FindUser(MockUsers, email, password).None?
  {
    if email == "" || password == "" then EmptyFields
    else match FindUser(MockUsers, email, password)
      case None => NoMatch
      case Some(u) => SignedIn(u)
  }

  /** The two demo accounts sign in with their own passwords and no other
      close variant does. */
  lemma DemoAccounts()
    ensures Decide("admin@example.com", "password") == SignedIn(MockUsers[0])
    ensures Decide("tj@example.com", "123456") == SignedIn(MockUsers[1])
    ensures Decide("Admin@example.com", "password") == NoMatch
    ensures Decide("tj@example.com", "password") == NoMatch
  {
    assert Matches(MockUsers[0], "admin@example.com", "password");
    assert !Matches(MockUsers[0], "tj@example.com", "123456");
    assert Matches(MockUsers[1], "tj@example.com", "123456");
    assert !Matches(MockUsers[0], "Admin@example.com", "password");
    assert !Matches(MockUsers[1], "Admin@example.com", "password");
    assert !Matches(MockUsers[0], "tj@example.com", "password");
    assert !Matches(MockUsers[1], "tj@example.com", "password");
  }

  /** The session after a submit: only a successful sign-in writes to it. */
  function SessionAfter(store: Store, d: Decision): (r: Store)
    ensures d.SignedIn? ==> r == SignIn(store, d.user.email, d.user.name, d.user.id)
    ensures !d.SignedIn? ==> r == store
  {
    if d.SignedIn? then SignIn(store, d.user.email, d.user.name, d.user.id) else store
  }

  class LoginForm {
    var email: string
    var password: string
    var error: string
    var loading: bool

    constructor()
      ensures email == "" && password == "" && error == "" && !loading
    {
      email := "";
      password := "";
      error := "";
      loading := false;
    }

    /** `handleSubmit`. The message shown afterwards depends only on the
        entered values, never on an earlier message; the page moves to the
        dashboard exactly when the session was written. */
    method HandleSubmit(store: Store) returns (next: Store, navigateTo: Option<string>)
      modifies this`error, this`loading
      ensures var d := Decide(email, password);
              next == SessionAfter(store, d)
              && (d == EmptyFields ==> error == FillInAll)
              && (d == NoMatch ==> error == InvalidCredentials)
              && (d.SignedIn? ==> error == "")
      ensures navigateTo.Some? <==> Decide(email, password).SignedIn?
      ensures navigateTo.Some? ==> navigateTo.value == "/dashboard"
      ensures !loading
    {
      error := "";
      loading := true;
      if email == "" || password == "" {
        error := FillInAll;
        loading := false;
        return store, None;
      }
      var user := FindUser(MockUsers, email, password);
      if user.Some? {
        next := SignIn(store, user.value.email, user.value.name, user.value.id);
        navigateTo := Some("/dashboard");
      } else {
        error := InvalidCredentials;
        next := store;
        navigateTo := None;
      }
      loading := false;
    }
  }

  /** A successful sign-in leaves the user authenticated under the matched
      account's email, name and id; a failed one leaves the session as it
      was. */
  lemma SignInWritesSession(store: Store, email: string, password: string)
    ensures var d := Decide(email, password);
            var r := SessionAfter(store, d);
            (d.SignedIn? ==> GetItem(r, AuthKey) == Some("true") && GetItem(r, EmailKey) == Some(email)
                             && GetItem(r, NameKey) == Some(d.user.name) && GetItem(r, IdKey) == Some(d.user.id))
            && (!d.SignedIn? ==> r == store)
  {
  }
}
