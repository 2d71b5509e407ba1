/** Creating an account: the form's checks in their order, the duplicate
    email check against the stored users, the new user sent to the server
    and the automatic sign-in afterwards. */
module Register {
  import opened Common
  import opened Session

  datatype Field = Name | Email | Password | ConfirmPassword

  datatype RegisterData = RegisterData(name: string, email: string, password: string, confirmPassword: string)

  const EmptyForm := RegisterData("", "", "", "")

  function Get(d: RegisterData, f: Field): string
  {
    match f
    case Name => d.name
    case Email => d.email
    case Password => d.password
    case ConfirmPassword => d.confirmPassword
  }

  /** `handleChange`: the named field takes the new value, the others stay. */
  function WithField(d: RegisterData, f: Field, value: string): (r: RegisterData)
    ensures Get(r, f) == value
    ensures forall g :: g != f ==> Get(r, g) == Get(d, g)
  {
    match f
    case Name => d.(name := value)
    case Email => d.(email := value)
    case Password => d.(password := value)
    case ConfirmPassword => d.(confirmPassword := value)
  }

  const MinPasswordLength := 6
  const FillInAll := "Please fill in all fields"
  const PasswordsDiffer := "Passwords do not match"
  const PasswordTooShort := "Password must be at least 6 characters long"
  const DuplicateEmail := "User with this email already exists"
  const CreatePrefix := "Failed to create account: "
  const UsersCheckFailed := "Failed to check existing users"

  /** The checks made before any request, in their order; the first that
      fails gives the message. */
  function FormError(d: RegisterData): (r: Option<string>)
    ensures (d.name == "" || d.email == "" || d.password == "") <==> r == Some(FillInAll)
    ensures r == Some(PasswordsDiffer) <==>
              d.name != "" && d.email != "" && d.password != "" && d.password != d.confirmPassword
    ensures r == Some(PasswordTooShort) <==>
              d.name != "" && d.email != "" && d.password != "" && d.password == d.confirmPassword
              && JsLength(d.password) < MinPasswordLength
    ensures r.None? <==>
              d.name != "" && d.email != "" && d.password == d.confirmPassword && JsLength(d.password) >= MinPasswordLength
  {
    if d.name == "" || d.email == "" || d.password == "" then Some(FillInAll)
    else if d.password != d.confirmPassword then Some(PasswordsDiffer)
    else if JsLength(d.password) < MinPasswordLength then Some(PasswordTooShort)
    else None
  }

  /** A mismatch is reported even for a password that is also too short:
      the match check comes first. */
  lemma MismatchBeforeLength()
    ensures FormError(RegisterData("tj", "tj@example.com", "abc", "abd")) == Some(PasswordsDiffer)
  {
  }

  /** Three emoji make a password of six code units, which is long enough. */
  lemma AstralPasswordLongEnough()
    ensures var pw := "\U{1F600}\U{1F600}\U{1F600}";
            FormError(RegisterData("tj", "tj@example.com", pw, pw)).None?
  {
    var e := "\U{1F600}";
    assert e[..0] == [] && JsLength(e) == 2;
    assert (e + e)[..1] == e && JsLength(e + e) == 4;
    assert (e + e + e)[..2] == e + e && JsLength(e + e + e) == 6;
    assert e + e + e == "\U{1F600}\U{1F600}\U{1F600}";
  }

  datatype User = User(id: nat, name: string, email: string, password: string)

  /** What came back from a request: it failed to reach the server (with
      the error's message), the server answered with an error status, or it
      answered with a body. */
  datatype Response<T> = Unreachable(message: string) | Status(code: nat) | Ok(body: T)

  /** `users.find(u => u.email === email)` found something. */
  predicate EmailTaken(users: seq<User>, email: string)
  {
    exists i :: 0 <= i < |users| && users[i].email == email
  }

  /** The decimal digits of `n`, as `n.toString()` writes them. */
  function Digits(n: nat): (r: string)
    ensures r != []
    ensures forall i :: 0 <= i < |r| ==> '0' <= r[i] <= '9'
    decreases n
  {
    var last := ['0' + (n % 10) as char];
    if n < 10 then last else Digits(n / 10) + last
  }

  /** The user sent to the server: the form's name, email and password
      unchanged, with the drawn id. */
  function NewUser(d: RegisterData, id: nat): (r: User)
    ensures r.name == d.name && r.email == d.email && r.password == d.password && r.id == id
  {
    User(id, d.name, d.email, d.password)
  }

  /** How a submit ends. */
  datatype Result = Refused(message: string) | Created(sent: User, created: User)

  /** `handleSubmit` after its opening checks: the list of users from the
      server, the drawn id and the answer to the creation request are
      inputs. A failed request's message is wrapped in `CreatePrefix`; the
      creation request's own error text already starts with it. */
  function Submit(d: RegisterData, users: Response<seq<User>>, id: nat, created: Response<User>): (r: Result)
    ensures FormError(d).Some? ==> r == Refused(FormError(d).value)
    ensures r.Created? ==> FormError(d).None? && users.Ok? && !EmailTaken(users.body, d.email)
                           && r.sent == NewUser(d, id) && created == Ok(r.created)
    ensures FormError(d).None? && users.Ok? && EmailTaken(users.body, d.email) ==> r == Refused(DuplicateEmail)
    ensures FormError(d).None? && users.Status? ==> r == Refused(CreatePrefix + UsersCheckFailed)
    ensures FormError(d).None? && users.Unreachable? ==> r == Refused(CreatePrefix + users.message)
    ensures FormError(d).None? && users.Ok? && !EmailTaken(users.body, d.email) && created.Status? ==>
              r == Refused(CreatePrefix + CreatePrefix + Digits(created.code))
    ensures FormError(d).None? && users.Ok? && !EmailTaken(users.body, d.email) && created.Unreachable? ==>
              r == Refused(CreatePrefix + created.message)
    ensures FormError(d).None? && users.Ok? && !EmailTaken(users.body, d.email) && created.Ok? ==>
              r == Created(NewUser(d, id), created.body)
  {
    if FormError(d).Some? then Refused(FormError(d).value)
    else match users
      case Unreachable(m) => Refused(CreatePrefix + m)
      case Status(_) => Refused(CreatePrefix + UsersCheckFailed)
      case Ok(list) =>
        if EmailTaken(list, d.email) then Refused(DuplicateEmail)
        else match created
          case Unreachable(m) => Refused(CreatePrefix + m)
          case Status(code) => Refused(CreatePrefix + CreatePrefix + Digits(code))
          case Ok(u) => Created(NewUser(d, id), u)
  }

  /** The session after a submit: only a created account signs in, under
      the email, name and id the server returned. */
  function SessionAfter(store: Store, r: Result): (s: Store)
    ensures r.Refused? ==> s == store
    ensures r.Created? ==> GetItem(s, AuthKey) == Some("true") && GetItem(s, EmailKey) == Some(r.created.email)
                           && GetItem(s, NameKey) == Some(r.created.name) && GetItem(s, IdKey) == Some(Digits(r.created.id))
  {
    match r
    case Refused(_) => store
    case Created(_, u) => SignIn(store, u.email, u.name, Digits(u.id))
  }

  /** When the server stores the user as sent, the session holds the
      form's email and name. */
  lemma EchoedUserSignsIn(store: Store, d: RegisterData, users: Response<seq<User>>, id: nat)
    requires FormError(d).None? && users.Ok? && !EmailTaken(users.body, d.email)
    ensures var r := Submit(d, users, id, Ok(NewUser(d, id)));
            r.Created? && GetItem(SessionAfter(store, r), EmailKey) == Some(d.email)
            && GetItem(SessionAfter(store, r), NameKey) == Some(d.name)
  {
  }

  class RegisterForm {
    var formData: RegisterData
    var error: string
    var loading: bool

    constructor()
      ensures formData == EmptyForm && error == "" && !loading
    {
      formData := EmptyForm;
      error := "";
      loading := false;
    }

    method HandleChange(f: Field, value: string)
      modifies this`formData
      ensures formData == WithField(old(formData), f, value)
    {
      formData := WithField(formData, f, value);
    }

    /** `handleSubmit`: the message is cleared, then set by the outcome;
        `sent` is the user posted to the server, if the request was made. */
    method HandleSubmit(store: Store, users: Response<seq<User>>, id: nat, created: Response<User>)
      returns (next: Store, sent: Option<User>, navigateTo: Option<string>)
      modifies this`error, this`loading
      ensures var r := Submit(formData, users, id, created);
              next == SessionAfter(store, r)
              && (r.Refused? ==> error == r.message && navigateTo.None?)
              && (r.Created? ==> error == "" && navigateTo == Some("/dashboard"))
      ensures sent.Some? <==> FormError(formData).None? && users.Ok? && !EmailTaken(users.body, formData.email)
      ensures sent.Some? ==> sent.value == NewUser(formData, id)
      ensures !loading
    {
      error := "";
      loading := true;
      var check := FormError(formData);
      if check.Some? {
        error := check.value;
        loading := false;
        return store, None, None;
      }
      var r := Submit(formData, users, id, created);
      if users.Ok? && !EmailTaken(users.body, formData.email) {
        sent := Some(NewUser(formData, id));
      } else {
        sent := None;
      }
      next := SessionAfter(store, r);
      if r.Refused? {
        error := r.message;
        navigateTo := None;
      } else {
        navigateTo := Some("/dashboard");
      }
      loading := false;
    }
  }
}
