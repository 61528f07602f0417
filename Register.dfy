/** The registration screen: password strength meter, local validation order and the call to `register`. */
module Register {
  import opened Common

  datatype Field = Name | Email | Password | ConfirmPassword

  datatype RegisterForm = RegisterForm(name: string, email: string, password: string, confirmPassword: string) {
    function Get(f: Field): string {
      match f
      case Name => name
      case Email => email
      case Password => password
      case ConfirmPassword => confirmPassword
    }

    /** `{...formData, [name]: value}`. */
    function With(f: Field, value: string): (r: RegisterForm)
      ensures r.Get(f) == value
      ensures forall g :: g != f ==> r.Get(g) == Get(g)
    {
      match f
      case Name => this.(name := value)
      case Email => this.(email := value)
      case Password => this.(password := value)
      case ConfirmPassword => this.(confirmPassword := value)
    }
  }

  // ---------------------------------------------------------------------------------------------
  // Password strength

  /** `/[a-z]/.test(p)`, `/[A-Z]/.test(p)` and `/[0-9]/.test(p)`. */
  predicate HasLower(p: string) { exists i :: 0 <= i < |p| && 'a' <= p[i] <= 'z' }
  predicate HasUpper(p: string) { exists i :: 0 <= i < |p| && 'A' <= p[i] <= 'Z' }
  predicate HasDigit(p: string) { exists i :: 0 <= i < |p| && '0' <= p[i] <= '9' }

  /** How many of the four criteria the password meets: length of at least 8, a lower-case letter, an
      upper-case letter, a digit. */
  function CriteriaMet(p: string): (n: nat)
    ensures n <= 4
  {
    (if |p| >= 8 then 1 else 0) + (if HasLower(p) then 1 else 0) +
    (if HasUpper(p) then 1 else 0) + (if HasDigit(p) then 1 else 0)
  }

  /** `calculatePasswordStrength`: adds 25 for each criterion met. */
  method CalculatePasswordStrength(password: string) returns (strength: nat)
    ensures strength == 25 * CriteriaMet(password)
    ensures strength in {0, 25, 50, 75, 100}
  {
    strength := 0;
    if |password| >= 8 {
      strength := strength + 25;
    }
    if HasLower(password) {
      strength := strength + 25;
    }
    if HasUpper(password) {
      strength := strength + 25;
    }
    if HasDigit(password) {
      strength := strength + 25;
    }
  }

  /** Typing one more character never weakens the password. */
  lemma CriteriaMonotone(p: string, c: char)
    ensures CriteriaMet(p + [c]) >= CriteriaMet(p)
  {
    var q := p + [c];
    assert forall i :: 0 <= i < |p| ==> q[i] == p[i];
    if HasLower(p) {
      var i :| 0 <= i < |p| && 'a' <= p[i] <= 'z';
      assert 'a' <= q[i] <= 'z';
    }
    if HasUpper(p) {
      var i :| 0 <= i < |p| && 'A' <= p[i] <= 'Z';
      assert 'A' <= q[i] <= 'Z';
    }
    if HasDigit(p) {
      var i :| 0 <= i < |p| && '0' <= p[i] <= '9';
      assert '0' <= q[i] <= '9';
    }
  }

  /** `getPasswordStrengthText`. */
  function StrengthText(strength: int): string {
    if strength < 25 then "Weak"
    else if strength < 50 then "Fair"
    else if strength < 75 then "Good"
    else "Strong"
  }

  /** `getPasswordStrengthColor`. */
  function StrengthColor(strength: int): string {
    if strength < 25 then "bg-red-500"
    else if strength < 50 then "bg-yellow-500"
    else if strength < 75 then "bg-blue-500"
    else "bg-green-500"
  }

  /** The text and the bar colour use the same thresholds, so each text always comes with one colour; in
      terms of criteria met: none is Weak, one Fair, two Good, three or four Strong. */
  lemma StrengthBands(strength: int, p: string)
    ensures StrengthText(strength) == "Weak" <==> StrengthColor(strength) == "bg-red-500"
    ensures StrengthText(strength) == "Fair" <==> StrengthColor(strength) == "bg-yellow-500"
    ensures StrengthText(strength) == "Good" <==> StrengthColor(strength) == "bg-blue-500"
    ensures StrengthText(strength) == "Strong" <==> StrengthColor(strength) == "bg-green-500"
    ensures StrengthText(25 * CriteriaMet(p)) ==
      match CriteriaMet(p)
      case 0 => "Weak"
      case 1 => "Fair"
      case 2 => "Good"
      case _ => "Strong"
  {
  }

  // ---------------------------------------------------------------------------------------------
  // Validation before the call to `register`

  const Mismatch: string := "Passwords do not match"
  const TooShort: string := "Password must be at least 6 characters long"

  /** The local check `handleSubmit` performs: the mismatch first, then the length. */
  function LocalError(form: RegisterForm): (e: Option<string>)
    ensures e == Some(Mismatch) <==> form.password != form.confirmPassword
    ensures e == Some(TooShort) <==> form.password == form.confirmPassword && |form.password| < 6
    ensures e == None <==> form.password == form.confirmPassword && |form.password| >= 6
  {
    if form.password != form.confirmPassword then Some(Mismatch)
    else if |form.password| < 6 then Some(TooShort)
    else None
  }

  /** What `register` (kept in the authentication store, outside this model) answered. */
  datatype AuthOutcome = Success | Failure(message: string)

  class RegisterState {
    var formData: RegisterForm
    var error: string
    var loading: bool
    var passwordStrength: nat

    constructor ()
      ensures formData == RegisterForm("", "", "", "") && error == "" && !loading && passwordStrength == 0
    {
      formData := RegisterForm("", "", "", "");
      error := "";
      loading := false;
      passwordStrength := 0;
    }

    /** `handleChange`: sets the named field, recomputes strength only for the password, and always
        clears the error. */
    method HandleChange(f: Field, value: string)
      modifies this
      ensures formData == old(formData).With(f, value)
      ensures passwordStrength == if f == Password then 25 * CriteriaMet(value) else old(passwordStrength)
      ensures error == "" && loading == old(loading)
    {
      formData := formData.With(f, value);
      if f == Password {
        passwordStrength := CalculatePasswordStrength(value);
      }
      error := "";
    }

    /** `handleSubmit`: `register` is called only when the local check passes; `outcome` is its answer.
        Returns whether `register` was called and whether the screen navigates to the dashboard. */
    method HandleSubmit(outcome: AuthOutcome) returns (registerCalled: bool, toDashboard: bool)
      modifies this
      ensures registerCalled <==> LocalError(formData).None?
      ensures toDashboard <==> registerCalled && outcome.Success?
      ensures error == match LocalError(formData)
        case Some(msg) => msg
        case None => if outcome.Success? then "" else outcome.message
      ensures !loading
      ensures formData == old(formData) && passwordStrength == old(passwordStrength)
    {
      loading := true;
      error := "";
      registerCalled, toDashboard := false, false;
      if formData.password != formData.confirmPassword {
        error := Mismatch;
        loading := false;
        return;
      }
      if |formData.password| < 6 {
        error := TooShort;
        loading := false;
        return;
      }
      registerCalled := true;
      if outcome.Success? {
        toDashboard := true;
      } else {
        error := outcome.message;
      }
      loading := false;
    }
  }
}
