/** The login form's controller: the field values, the per-field error
    messages, the loading flag and the error banner, the validator run on
    submit, and the two event handlers that change that state. */
module LoginForm {
  import opened EmailShape

  /** The two inputs of the form, identified by their `name` attribute. */
  datatype Field = Email | Password

  /** The `formData` state: what the user has typed so far. */
  datatype FormData = FormData(email: string, password: string) {
    function Get(f: Field): string {
      match f
      case Email => email
      case Password => password
    }

    /** `{...formData, [name]: value}` */
    function With(f: Field, value: string): (d: FormData)
      ensures d.Get(f) == value
      ensures forall g :: g != f ==> d.Get(g) == Get(g)
    {
      match f
      case Email => this.(email := value)
      case Password => this.(password := value)
    }
  }

  const EmailRequired := "Email requis"
  const EmailInvalid := "Email invalide"
  const PasswordRequired := "Mot de passe requis"
  const PasswordTooShort := "Le mot de passe doit contenir au moins 6 caractères"
  const MinPasswordLength := 6

  /** The messages the validator can put under field `f`, and the blank that
      typing leaves behind. */
  predicate KnownMessage(f: Field, m: string) {
    m == "" ||
    match f
    case Email => m == EmailRequired || m == EmailInvalid
    case Password => m == PasswordRequired || m == PasswordTooShort
  }

  predicate WellFormedErrors(errors: map<Field, string>) {
    forall f :: f in errors ==> KnownMessage(f, errors[f])
  }

  /** `validateForm`: one entry per field that breaks its rule. The email entry
      depends only on the email and the password entry only on the password, so
      both can be present at once. */
  function Validate(d: FormData): (r: map<Field, string>)
    ensures Email in r <==> d.email == "" || !MatchesShape(d.email)
    ensures Email in r ==> r[Email] == if d.email == "" then EmailRequired else EmailInvalid
    ensures Password in r <==> |d.password| < MinPasswordLength
    ensures Password in r ==> r[Password] == if d.password == "" then PasswordRequired else PasswordTooShort
    ensures WellFormedErrors(r)
  {
    var emailEntry :=
      if d.email == "" then map[Email := EmailRequired]
      else if !HasEmailShape(d.email) then map[Email := EmailInvalid]
      else map[];
    var passwordEntry :=
      if d.password == "" then map[Password := PasswordRequired]
      else if |d.password| < MinPasswordLength then map[Password := PasswordTooShort]
      else map[];
    emailEntry + passwordEntry
  }

  /** The form is accepted exactly when both rules hold. */
  lemma ValidateEmptyIff(d: FormData)
    ensures Validate(d) == map[] <==>
              d.email != "" && MatchesShape(d.email) && |d.password| >= MinPasswordLength
  {
  }

  /** A well-formed address with a long enough password passes. */
  lemma AcceptsWellFormedInput()
    ensures Validate(FormData("user@test.com", "secret1")) == map[]
  {
    var s := "user@test.com";
    assert ShapeAt(s, 4, 9);
    ValidateEmptyIff(FormData(s, "secret1"));
  }

  /** An empty email and a short password give both messages at once. */
  lemma ReportsBothFields()
    ensures Validate(FormData("", "abc")) == map[Email := EmailRequired, Password := PasswordTooShort]
  {
  }

  /** An address without any '.' after its '@' is rejected as invalid, not as missing. */
  lemma RejectsAddressWithoutDot()
    ensures Validate(FormData("user@test", "secret1")) == map[Email := EmailInvalid]
  {
  }

  /** The component's state cells. */
  class Form {
    var formData: FormData
    var errors: map<Field, string>
    var loading: bool
    var showError: bool

    /** Between handler calls, with each handler taken as one atomic step:
        `loading` is false, every error message is one the validator or a
        keystroke can produce, and the banner is only up for data that passed
        validation (it is raised after a valid submission and dropped by the
        next keystroke). Keystrokes while the attempt is awaited fall outside
        this model. */
    ghost predicate Valid()
      reads this
    {
      !loading && WellFormedErrors(errors) && (showError ==> Validate(formData) == map[])
    }

    constructor ()
      ensures Valid()
      ensures formData == FormData("", "") && errors == map[] && !loading && !showError
    {
      formData := FormData("", "");
      errors := map[];
      loading := false;
      showError := false;
    }

    /** `handleChange`: store the typed value, blank that field's message if it
        had a non-empty one, and drop the banner. */
    method HandleChange(name: Field, value: string)
      requires Valid()
      modifies this
      ensures Valid()
      ensures formData == old(formData).With(name, value)
      ensures formData.Get(name) == value
      ensures forall g :: g != name ==> formData.Get(g) == old(formData).Get(g)
      ensures name in old(errors) && old(errors)[name] != "" ==> errors == old(errors)[name := ""]
      ensures !(name in old(errors) && old(errors)[name] != "") ==> errors == old(errors)
      ensures loading == old(loading) && !showError
    {
      formData := formData.With(name, value);
      if name in errors && errors[name] != "" {
        errors := errors[name := ""];
      }
      showError := false;
    }

    /** `handleSubmit`: on a validation failure, show the messages and stop;
        otherwise raise `loading`, make the attempt, which always throws, raise
        the banner, and lower `loading`. `attempted` tells whether the attempt
        was made. */
    method HandleSubmit() returns (attempted: bool)
      requires Valid()
      modifies this
      ensures Valid()
      ensures formData == old(formData)
      ensures attempted <==> Validate(formData) == map[]
      ensures !attempted ==> errors == Validate(formData) && errors != map[]
      ensures !attempted ==> loading == old(loading) && showError == old(showError)
      ensures attempted ==> errors == old(errors) && !loading && showError
    {
      var newErrors := Validate(formData);
      if |newErrors| > 0 {
        errors := newErrors;
        attempted := false;
        return;
      }
      attempted := true;
      loading := true;
      showError := false;
      // the attempt always throws 'Identifiants incorrects'; the catch raises the banner
      showError := true;
      // finally
      loading := false;
    }
  }
}
