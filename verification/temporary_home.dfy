/**
 The temporary-home application screen (src/screens/TemporaryHome.tsx):
 eleven text fields plus the live phone error.
 */
module TemporaryHome {
  import opened Text
  import opened Forms
  import Phone

  datatype Form = Form(
    name: string,
    email: string,
    phone: string,
    address: string,
    experience: string,
    homeType: string,
    hasOtherPets: string,
    otherPetsInfo: string,
    timeAvailable: string,
    petPreferences: string,
    whyTemporaryHome: string)

  datatype Screen = Screen(form: Form, phoneError: string)

  const EmptyForm: Form := Form("", "", "", "", "", "", "", "", "", "", "")

  const Initial: Screen := Screen(EmptyForm, "")

  /** The text fields wired to `handleInputChange`; the phone goes through
      the mask, and `otherPetsInfo` has no input of its own. */
  datatype Field = Name | Email | Address | HomeType | Experience | HasOtherPets
                 | TimeAvailable | PetPreferences | WhyTemporaryHome

  function Get(f: Form, k: Field): string {
    match k
    case Name => f.name
    case Email => f.email
    case Address => f.address
    case HomeType => f.homeType
    case Experience => f.experience
    case HasOtherPets => f.hasOtherPets
    case TimeAvailable => f.timeAvailable
    case PetPreferences => f.petPreferences
    case WhyTemporaryHome => f.whyTemporaryHome
  }

  /** `handleInputChange(field, value)`: the named field takes the value;
      every other field, including the phone and `otherPetsInfo`, keeps its
      own. */
  function InputChange(s: Screen, k: Field, value: string): (r: Screen)
    ensures Get(r.form, k) == value
    ensures forall k' :: k' != k ==> Get(r.form, k') == Get(s.form, k')
    ensures r.form.phone == s.form.phone && r.form.otherPetsInfo == s.form.otherPetsInfo
    ensures r.phoneError == s.phoneError
  {
    var f := s.form;
    var f' := match k
      case Name => f.(name := value)
      case Email => f.(email := value)
      case Address => f.(address := value)
      case HomeType => f.(homeType := value)
      case Experience => f.(experience := value)
      case HasOtherPets => f.(hasOtherPets := value)
      case TimeAvailable => f.(timeAvailable := value)
      case PetPreferences => f.(petPreferences := value)
      case WhyTemporaryHome => f.(whyTemporaryHome := value);
    s.(form := f')
  }

  /** `handlePhoneChange(value)`: this copy computes the shared mask and
      progress message, and touches nothing else. */
  function PhoneChange(s: Screen, value: string): (r: Screen)
    ensures r.form.phone == Phone.Change(value).formatted
    ensures r.phoneError == Phone.Change(value).error
    ensures r.form.(phone := s.form.phone) == s.form
  {
    var m := Phone.Change(value);
    Screen(s.form.(phone := m.formatted), m.error)
  }

  // ---------------------------------------------------------------------
  // Submission

  datatype Error = PhoneNotElevenDigits | MissingRequired

  /** The checks of `handleSubmit`, in order; the first failure decides. */
  function Validate(f: Form): (r: Verdict<Error>)
    ensures r == Rejected(PhoneNotElevenDigits) <==> |Digits(f.phone)| != Phone.MaxDigits
    ensures r == Rejected(MissingRequired) <==>
              |Digits(f.phone)| == Phone.MaxDigits && (f.name == "" || f.email == "" || f.phone == "")
  {
    if |Digits(f.phone)| != Phone.MaxDigits then Rejected(PhoneNotElevenDigits)
    else if f.name == "" || f.email == "" || f.phone == "" then Rejected(MissingRequired)
    else Accepted
  }

  function ErrorAlert(e: Error): Alert {
    match e
    case PhoneNotElevenDigits => PhoneDigitsAlert
    case MissingRequired => Alert(AttentionTitle, "Por favor, preencha pelo menos nome, e-mail e telefone.")
  }

  function SuccessAlert(f: Form): Alert {
    Alert("Inscrição Enviada!",
          "Obrigado " + f.name + "! Sua inscrição para lar temporário foi recebida. Entraremos em contato em até 48 horas para conversarmos mais.")
  }

  /** `handleSubmit`: a rejected form stays as it is; an accepted one is
      thanked and, once the dialog is confirmed, all eleven fields are
      emptied and the phone error cleared. */
  function Submit(s: Screen): (r: Submitted<Screen>)
    ensures Validate(s.form).Rejected? ==> r == Submitted(ErrorAlert(Validate(s.form).error), s)
    ensures Validate(s.form) == Accepted ==> r.next == Initial && r.alert.title == "Inscrição Enviada!"
  {
    match Validate(s.form)
    case Rejected(e) => Submitted(ErrorAlert(e), s)
    case Accepted => Submitted(SuccessAlert(s.form), Initial)
  }

  /** A form is accepted exactly when its phone holds eleven digits and name
      and e-mail are filled in; no other field is looked at. */
  lemma AcceptedIff(f: Form)
    ensures Validate(f) == Accepted <==>
            |Digits(f.phone)| == Phone.MaxDigits && f.name != "" && f.email != ""
  {
  }

  /** The optional fields never decide a submission. */
  lemma OptionalFieldsIgnored(f: Form, k: Field, value: string)
    requires k != Name && k != Email
    ensures Validate(InputChange(Screen(f, ""), k, value).form) == Validate(f)
  {
  }

  // ---------------------------------------------------------------------
  // The screen as a state machine

  datatype Event = TypeField(field: Field, value: string) | TypePhone(value: string) | Press

  /** One event: pressing submit either leaves the screen as it is or
      resets it, and only the phone event touches the phone and its error. */
  function Step(s: Screen, e: Event): (r: Screen)
    ensures e.Press? ==> r == s || r == Initial
    ensures !e.TypePhone? && !e.Press? ==> r.form.phone == s.form.phone && r.phoneError == s.phoneError
  {
    match e
    case TypeField(k, v) => InputChange(s, k, v)
    case TypePhone(v) => PhoneChange(s, v)
    case Press => Submit(s).next
  }

  /** The phone field is a fixed point of the mask and the phone error is the
      one the mask computes for it. */
  predicate Invariant(s: Screen) {
    Phone.Change(s.form.phone) == Phone.Masked(s.form.phone, s.phoneError)
  }

  lemma InitialInvariant()
    ensures Invariant(Initial)
  {
    Phone.ExampleEmpty();
  }

  lemma StepInvariant(s: Screen, e: Event)
    requires Invariant(s)
    ensures Invariant(Step(s, e))
  {
    match e
    case TypeField(k, v) =>
      assert Step(s, e).form.phone == s.form.phone;
    case TypePhone(v) =>
      Phone.ChangeIdempotent(v);
    case Press =>
      if Validate(s.form) == Accepted {
        Phone.ExampleEmpty();
      }
  }

  /** The screen after a sequence of events. */
  function Run(s: Screen, events: seq<Event>): Screen
    decreases |events|
  {
    if |events| == 0 then s else Run(Step(s, events[0]), events[1..])
  }

  lemma {:induction false} RunInvariant(s: Screen, events: seq<Event>)
    requires Invariant(s)
    ensures Invariant(Run(s, events))
    decreases |events|
  {
    if |events| > 0 {
      StepInvariant(s, events[0]);
      RunInvariant(Step(s, events[0]), events[1..]);
    }
  }

  /** Every screen reachable from mount satisfies the invariant. */
  lemma ReachableInvariant(events: seq<Event>)
    ensures Invariant(Run(Initial, events))
  {
    InitialInvariant();
    RunInvariant(Initial, events);
  }

  /** Under the invariant (so on every reachable screen) the error message
      is empty exactly when the phone holds no digit or all eleven. */
  lemma LiveErrorEmptyIff(s: Screen)
    requires Invariant(s)
    ensures s.phoneError == "" <==> |Digits(s.form.phone)| == 0 || |Digits(s.form.phone)| == Phone.MaxDigits
  {
  }
}
