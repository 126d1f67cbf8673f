/**
 The volunteer sign-up screen (src/screens/Volunteer.tsx): ten form fields,
 one of them a list of interest ids, plus the live phone error. Every
 handler is a pure function from the old screen state to the new one.
 */
module Volunteer {
  import opened Text
  import opened Seqs
  import opened Forms
  import Phone

  datatype Form = Form(
    name: string,
    email: string,
    phone: string,
    age: string,
    occupation: string,
    availability: string,
    interests: seq<string>,
    experience: string,
    skills: string,
    whyVolunteer: string)

  datatype Screen = Screen(form: Form, phoneError: string)

  const EmptyForm: Form := Form("", "", "", "", "", "", [], "", "", "")

  /** The state on mount, and the state the success dialog restores. */
  const Initial: Screen := Screen(EmptyForm, "")

  /** The text fields wired to `handleInputChange` (the phone goes through
      the mask instead, the interests through the toggle). */
  datatype Field = Name | Email | Age | Occupation | Availability | Experience | Skills | WhyVolunteer

  function Get(f: Form, k: Field): string {
    match k
    case Name => f.name
    case Email => f.email
    case Age => f.age
    case Occupation => f.occupation
    case Availability => f.availability
    case Experience => f.experience
    case Skills => f.skills
    case WhyVolunteer => f.whyVolunteer
  }

  /** `handleInputChange(field, value)`: the named field takes the value;
      every other field, the phone and the interests keep theirs. */
  function InputChange(s: Screen, k: Field, value: string): (r: Screen)
    ensures Get(r.form, k) == value
    ensures forall k' :: k' != k ==> Get(r.form, k') == Get(s.form, k')
    ensures r.form.phone == s.form.phone && r.form.interests == s.form.interests
    ensures r.phoneError == s.phoneError
  {
    var f := s.form;
    var f' := match k
      case Name => f.(name := value)
      case Email => f.(email := value)
      case Age => f.(age := value)
      case Occupation => f.(occupation := value)
      case Availability => f.(availability := value)
      case Experience => f.(experience := value)
      case Skills => f.(skills := value)
      case WhyVolunteer => f.(whyVolunteer := value);
    s.(form := f')
  }

  /** `handlePhoneChange(value)`: this copy computes the shared mask and
      progress message, and touches nothing else. */
  function PhoneChange(s: Screen, value: string): (r: Screen)
    ensures r.form.phone == Phone.Change(value).formatted
    ensures r.phoneError == Phone.Change(value).error
    ensures r.form.(phone := s.form.phone) == s.form
  {
    var m := Phone.Change(value);
    Screen(s.form.(phone := m.formatted), m.error)
  }

  /** `handleInterestToggle(id)`: splice out a selected interest, push an
      unselected one; nothing else changes. */
  function InterestToggle(s: Screen, id: string): (r: Screen)
    ensures id !in s.form.interests ==> r.form.interests == s.form.interests + [id]
    ensures r.form.interests == Toggle(s.form.interests, id)
    ensures r.form.(interests := s.form.interests) == s.form
    ensures r.phoneError == s.phoneError
  {
    s.(form := s.form.(interests := Toggle(s.form.interests, id)))
  }

  // ---------------------------------------------------------------------
  // Submission

  datatype Error = PhoneNotElevenDigits | MissingRequired | NoInterest

  /** The checks of `handleSubmit`, in order; the first failure decides. */
  function Validate(f: Form): (r: Verdict<Error>)
    ensures r == Rejected(PhoneNotElevenDigits) <==> |Digits(f.phone)| != Phone.MaxDigits
    ensures r == Rejected(MissingRequired) <==>
              |Digits(f.phone)| == Phone.MaxDigits && (f.name == "" || f.email == "" || f.phone == "")
    ensures r == Rejected(NoInterest) <==>
              |Digits(f.phone)| == Phone.MaxDigits && f.name != "" && f.email != "" && f.phone != ""
              && |f.interests| == 0
  {
    if |Digits(f.phone)| != Phone.MaxDigits then Rejected(PhoneNotElevenDigits)
    else if f.name == "" || f.email == "" || f.phone == "" then Rejected(MissingRequired)
    else if |f.interests| == 0 then Rejected(NoInterest)
    else Accepted
  }

  function ErrorAlert(e: Error): Alert {
    match e
    case PhoneNotElevenDigits => PhoneDigitsAlert
    case MissingRequired => Alert(AttentionTitle, "Por favor, preencha pelo menos nome, e-mail e telefone.")
    case NoInterest => Alert(AttentionTitle, "Por favor, selecione pelo menos uma área de interesse.")
  }

  function SuccessAlert(f: Form): Alert {
    Alert("Inscrição Enviada!",
          "Obrigado " + f.name + "! Sua inscrição para voluntariado foi recebida. Entraremos em contato em breve para conversarmos mais.")
  }

  /** `handleSubmit`: a rejected form stays as it is; an accepted one is
      thanked and, once the dialog is confirmed, every field is emptied and
      the phone error cleared. */
  function Submit(s: Screen): (r: Submitted<Screen>)
    ensures Validate(s.form).Rejected? ==> r == Submitted(ErrorAlert(Validate(s.form).error), s)
    ensures Validate(s.form) == Accepted ==> r.next == Initial && r.alert.title == "Inscrição Enviada!"
  {
    match Validate(s.form)
    case Rejected(e) => Submitted(ErrorAlert(e), s)
    case Accepted => Submitted(SuccessAlert(s.form), Initial)
  }

  /** A form is accepted exactly when its phone holds eleven digits, name and
      e-mail are filled in and at least one interest is selected. */
  lemma AcceptedIff(f: Form)
    ensures Validate(f) == Accepted <==>
            |Digits(f.phone)| == Phone.MaxDigits && f.name != "" && f.email != "" && |f.interests| > 0
  {
    PhoneCheckSubsumesEmptyPhone(f.phone);
  }

  /** The `!formData.phone` test of the second check can never fire: the
      first check already rejected every phone without eleven digits. */
  lemma PhoneCheckSubsumesEmptyPhone(phone: string)
    ensures |Digits(phone)| == Phone.MaxDigits ==> phone != ""
  {
  }

  // ---------------------------------------------------------------------
  // The screen as a state machine

  datatype Event =
    | TypeField(field: Field, value: string)
    | TypePhone(value: string)
    | ToggleInterest(id: string)
    | Press

  /** One event: pressing submit either leaves the screen as it is or
      resets it, only the phone event touches the phone and its error, and
      only the toggle touches the interests. */
  function Step(s: Screen, e: Event): (r: Screen)
    ensures e.Press? ==> r == s || r == Initial
    ensures !e.TypePhone? && !e.Press? ==> r.form.phone == s.form.phone && r.phoneError == s.phoneError
    ensures !e.ToggleInterest? && !e.Press? ==> r.form.interests == s.form.interests
  {
    match e
    case TypeField(k, v) => InputChange(s, k, v)
    case TypePhone(v) => PhoneChange(s, v)
    case ToggleInterest(id) => InterestToggle(s, id)
    case Press => Submit(s).next
  }

  /** What every reachable screen satisfies: the interests hold no id twice,
      the phone field is a fixed point of the mask, and the phone error is the
      one the mask computes for it. */
  predicate Invariant(s: Screen) {
    && NoDup(s.form.interests)
    && Phone.Change(s.form.phone) == Phone.Masked(s.form.phone, s.phoneError)
  }

  lemma InitialInvariant()
    ensures Invariant(Initial)
  {
  }

  lemma StepInvariant(s: Screen, e: Event)
    requires Invariant(s)
    ensures Invariant(Step(s, e))
  {
    match e
    case TypeField(k, v) =>
      assert Step(s, e).form.phone == s.form.phone;
    case TypePhone(v) =>
      Phone.ChangeIdempotent(v);
    case ToggleInterest(id) =>
      ToggleNoDup(s.form.interests, id);
    case Press =>
      if Validate(s.form) == Accepted {
        Phone.ExampleEmpty();
      }
  }

  /** The screen after a sequence of events. */
  function Run(s: Screen, events: seq<Event>): Screen
    decreases |events|
  {
    if |events| == 0 then s else Run(Step(s, events[0]), events[1..])
  }

  lemma {:induction false} RunInvariant(s: Screen, events: seq<Event>)
    requires Invariant(s)
    ensures Invariant(Run(s, events))
    decreases |events|
  {
    if |events| > 0 {
      StepInvariant(s, events[0]);
      RunInvariant(Step(s, events[0]), events[1..]);
    }
  }

  /** Every screen reachable from mount satisfies the invariant. */
  lemma ReachableInvariant(events: seq<Event>)
    ensures Invariant(Run(Initial, events))
  {
    InitialInvariant();
    RunInvariant(Initial, events);
  }

  /** Under the invariant (so on every reachable screen) the submit-time
      phone check agrees with the live error: eleven digits exactly when no
      error shows and the field is not empty. */
  lemma PhoneCheckMatchesLiveError(s: Screen)
    requires Invariant(s)
    ensures |Digits(s.form.phone)| == Phone.MaxDigits <==> s.phoneError == "" && s.form.phone != ""
  {
    Phone.SubmitDigitsAgree(s.form.phone);
  }

  /** On a duplicate-free selection the toggle flips the membership of the
      id and of no other interest. */
  lemma InterestToggleFlips(s: Screen, id: string, x: string)
    requires NoDup(s.form.interests)
    ensures x in InterestToggle(s, id).form.interests <==>
            (if x == id then id !in s.form.interests else x in s.form.interests)
  {
    ToggleMembership(s.form.interests, id, x);
  }

  /** Toggling an interest twice restores which interests are selected
      and, when the interest was not selected before, the screen itself. */
  lemma InterestToggleTwice(s: Screen, id: string)
    requires NoDup(s.form.interests)
    ensures forall x :: x in InterestToggle(InterestToggle(s, id), id).form.interests <==> x in s.form.interests
    ensures id !in s.form.interests ==> InterestToggle(InterestToggle(s, id), id) == s
  {
    ToggleTwice(s.form.interests, id);
  }
}
