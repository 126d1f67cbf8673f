/**
 The account registration screen (src/screens/Register.tsx): name, e-mail,
 masked phone, password and its confirmation, plus the live phone error.
 */
module Register {
  import opened Text
  import opened Forms
  import Phone

  datatype Form = Form(name: string, email: string, phone: string, password: string, confirmPassword: string)

  datatype Screen = Screen(form: Form, phoneError: string)

  const EmptyForm: Form := Form("", "", "", "", "")

  const Initial: Screen := Screen(EmptyForm, "")

  /** The shortest password accepted, counted in UTF-16 code units. */
  const MinPasswordLength: nat := 6

  /** The text fields wired to `handleInputChange`. */
  datatype Field = Name | Email | Password | ConfirmPassword

  function Get(f: Form, k: Field): string {
    match k
    case Name => f.name
    case Email => f.email
    case Password => f.password
    case ConfirmPassword => f.confirmPassword
  }

  /** `handleInputChange(field, value)`: the named field takes the value;
      every other field keeps its own. */
  function InputChange(s: Screen, k: Field, value: string): (r: Screen)
    ensures Get(r.form, k) == value
    ensures forall k' :: k' != k ==> Get(r.form, k') == Get(s.form, k')
    ensures r.form.phone == s.form.phone && r.phoneError == s.phoneError
  {
    var f := s.form;
    var f' := match k
      case Name => f.(name := value)
      case Email => f.(email := value)
      case Password => f.(password := value)
      case ConfirmPassword => f.(confirmPassword := value);
    s.(form := f')
  }

  /** `handlePhoneChange(value)`: this copy computes the shared mask and
      progress message, and touches nothing else. */
  function PhoneChange(s: Screen, value: string): (r: Screen)
    ensures r.form.phone == Phone.Change(value).formatted
    ensures r.phoneError == Phone.Change(value).error
    ensures r.form.(phone := s.form.phone) == s.form
  {
    var m := Phone.Change(value);
    Screen(s.form.(phone := m.formatted), m.error)
  }

  // ---------------------------------------------------------------------
  // Submission

  datatype Error = PhoneNotElevenDigits | MissingRequired | PasswordMismatch | PasswordTooShort

  /** The checks of `handleRegister`, in order; the first failure decides.
      The confirmation is compared before the password's length is. */
  function Validate(f: Form): (r: Verdict<Error>)
    ensures r == Rejected(PhoneNotElevenDigits) <==> |Digits(f.phone)| != Phone.MaxDigits
    ensures r == Rejected(MissingRequired) <==>
              |Digits(f.phone)| == Phone.MaxDigits
              && (f.name == "" || f.email == "" || f.phone == "" || f.password == "")
    ensures r == Rejected(PasswordMismatch) <==>
              |Digits(f.phone)| == Phone.MaxDigits && f.name != "" && f.email != "" && f.password != ""
              && f.password != f.confirmPassword
    ensures r == Rejected(PasswordTooShort) <==>
              |Digits(f.phone)| == Phone.MaxDigits && f.name != "" && f.email != "" && f.password != ""
              && f.password == f.confirmPassword && Utf16Length(f.password) < MinPasswordLength
  {
    if |Digits(f.phone)| != Phone.MaxDigits then Rejected(PhoneNotElevenDigits)
    else if f.name == "" || f.email == "" || f.phone == "" || f.password == "" then Rejected(MissingRequired)
    else if f.password != f.confirmPassword then Rejected(PasswordMismatch)
    else if Utf16Length(f.password) < MinPasswordLength then Rejected(PasswordTooShort)
    else Accepted
  }

  function ErrorAlert(e: Error): Alert {
    match e
    case PhoneNotElevenDigits => PhoneDigitsAlert
    case MissingRequired => Alert(AttentionTitle, "Por favor, preencha todos os campos.")
    case PasswordMismatch => Alert(AttentionTitle, "As senhas não coincidem.")
    case PasswordTooShort => Alert(AttentionTitle, "A senha deve ter pelo menos 6 caracteres.")
  }

  function SuccessAlert(f: Form): Alert {
    Alert("Cadastro realizado!", "Bem-vindo(a) " + f.name + "! Sua conta foi criada com sucesso.")
  }

  /** `handleRegister`: a rejected form stays as it is; an accepted one is
      welcomed and, once the dialog is confirmed, all five fields are
      emptied and the phone error cleared. */
  function Submit(s: Screen): (r: Submitted<Screen>)
    ensures Validate(s.form).Rejected? ==> r == Submitted(ErrorAlert(Validate(s.form).error), s)
    ensures Validate(s.form) == Accepted ==> r.next == Initial && r.alert.title == "Cadastro realizado!"
  {
    match Validate(s.form)
    case Rejected(e) => Submitted(ErrorAlert(e), s)
    case Accepted => Submitted(SuccessAlert(s.form), Initial)
  }

  /** Registration is accepted exactly when the phone holds eleven digits,
      name, e-mail and password are filled in, the confirmation matches and
      the password is at least six UTF-16 units long. The non-empty check on
      the password is then implied by its length. */
  lemma AcceptedIff(f: Form)
    ensures Validate(f) == Accepted <==>
            && |Digits(f.phone)| == Phone.MaxDigits
            && f.name != "" && f.email != ""
            && f.password == f.confirmPassword
            && Utf16Length(f.password) >= MinPasswordLength
  {
  }

  /** A password of astral characters is measured in code units: three
      emoji pass the six-character minimum. */
  lemma AstralPasswordLength()
    ensures Utf16Length("\U{1F436}\U{1F431}\U{1F430}") == MinPasswordLength
  {
  }

  // ---------------------------------------------------------------------
  // The screen as a state machine

  datatype Event = TypeField(field: Field, value: string) | TypePhone(value: string) | Press

  /** One event: pressing submit either leaves the screen as it is or
      resets it, and only the phone event touches the phone and its error. */
  function Step(s: Screen, e: Event): (r: Screen)
    ensures e.Press? ==> r == s || r == Initial
    ensures !e.TypePhone? && !e.Press? ==> r.form.phone == s.form.phone && r.phoneError == s.phoneError
  {
    match e
    case TypeField(k, v) => InputChange(s, k, v)
    case TypePhone(v) => PhoneChange(s, v)
    case Press => Submit(s).next
  }

  /** The phone field is a fixed point of the mask and the phone error is the
      one the mask computes for it. */
  predicate Invariant(s: Screen) {
    Phone.Change(s.form.phone) == Phone.Masked(s.form.phone, s.phoneError)
  }

  lemma InitialInvariant()
    ensures Invariant(Initial)
  {
    Phone.ExampleEmpty();
  }

  lemma StepInvariant(s: Screen, e: Event)
    requires Invariant(s)
    ensures Invariant(Step(s, e))
  {
    match e
    case TypeField(k, v) =>
      assert Step(s, e).form.phone == s.form.phone;
    case TypePhone(v) =>
      Phone.ChangeIdempotent(v);
    case Press =>
      if Validate(s.form) == Accepted {
        Phone.ExampleEmpty();
      }
  }

  /** The screen after a sequence of events. */
  function Run(s: Screen, events: seq<Event>): Screen
    decreases |events|
  {
    if |events| == 0 then s else Run(Step(s, events[0]), events[1..])
  }

  lemma {:induction false} RunInvariant(s: Screen, events: seq<Event>)
    requires Invariant(s)
    ensures Invariant(Run(s, events))
    decreases |events|
  {
    if |events| > 0 {
      StepInvariant(s, events[0]);
      RunInvariant(Step(s, events[0]), events[1..]);
    }
  }

  /** Every screen reachable from mount satisfies the invariant. */
  lemma ReachableInvariant(events: seq<Event>)
    ensures Invariant(Run(Initial, events))
  {
    InitialInvariant();
    RunInvariant(Initial, events);
  }

  /** Under the invariant (so on every reachable screen) the error message
      is empty exactly when the phone holds no digit or all eleven. */
  lemma LiveErrorEmptyIff(s: Screen)
    requires Invariant(s)
    ensures s.phoneError == "" <==> |Digits(s.form.phone)| == 0 || |Digits(s.form.phone)| == Phone.MaxDigits
  {
  }
}
