/**
 The donation screen (src/screens/Donation.tsx): a preset amount and a
 custom amount that exclude each other, the donor's name and e-mail, and a
 payment method that is shown but never checked.
 */
module Donation {
  import opened Forms

  datatype Screen = Screen(
    donationAmount: string,
    customAmount: string,
    donorName: string,
    donorEmail: string,
    paymentMethod: string)

  const Initial: Screen := Screen("", "", "", "", "")

  /** `handleAmountSelect(amount)`: take the preset, drop any custom amount. */
  function AmountSelect(s: Screen, amount: string): (r: Screen)
    ensures r.donationAmount == amount && r.customAmount == ""
    ensures r.(donationAmount := s.donationAmount, customAmount := s.customAmount) == s
  {
    s.(donationAmount := amount, customAmount := "")
  }

  /** `handleCustomAmount(amount)`: take the typed amount, drop any preset. */
  function CustomAmount(s: Screen, amount: string): (r: Screen)
    ensures r.customAmount == amount && r.donationAmount == ""
    ensures r.(donationAmount := s.donationAmount, customAmount := s.customAmount) == s
  {
    s.(customAmount := amount, donationAmount := "")
  }

  /** `customAmount || donationAmount`. */
  function FinalAmount(s: Screen): (a: string)
    ensures s.customAmount != "" ==> a == s.customAmount
    ensures s.customAmount == "" ==> a == s.donationAmount
  {
    if s.customAmount != "" then s.customAmount else s.donationAmount
  }

  /** The summary's payment-method line. */
  function MethodLabel(pm: string): (shown: string)
    ensures pm == "pix" <==> shown == "PIX"
    ensures pm == "card" <==> shown == "Cartão de Crédito"
    ensures pm != "pix" && pm != "card" <==> shown == "Não selecionado"
  {
    if pm == "pix" then "PIX"
    else if pm == "card" then "Cartão de Crédito"
    else "Não selecionado"
  }

  /** The summary block is shown while either amount is set. */
  predicate ShowsSummary(s: Screen)
    ensures ShowsSummary(s) <==> FinalAmount(s) != ""
  {
    s.donationAmount != "" || s.customAmount != ""
  }

  // ---------------------------------------------------------------------
  // Submission

  datatype Error = NoAmount | MissingNameOrEmail

  /** The checks of `handleDonation`, in order; the first failure decides. */
  function Validate(s: Screen): (r: Verdict<Error>)
    ensures r == Rejected(NoAmount) <==> s.customAmount == "" && s.donationAmount == ""
    ensures r == Rejected(MissingNameOrEmail) <==>
              (s.customAmount != "" || s.donationAmount != "") && (s.donorName == "" || s.donorEmail == "")
  {
    if FinalAmount(s) == "" then Rejected(NoAmount)
    else if s.donorName == "" || s.donorEmail == "" then Rejected(MissingNameOrEmail)
    else Accepted
  }

  function ErrorAlert(e: Error): Alert {
    match e
    case NoAmount => Alert(AttentionTitle, "Por favor, selecione ou informe um valor para doação.")
    case MissingNameOrEmail => Alert(AttentionTitle, "Por favor, preencha seu nome e e-mail.")
  }

  function SuccessAlert(s: Screen): Alert {
    Alert("Doação Realizada!",
          "Obrigado, " + s.donorName + "! Sua doação de R$ " + FinalAmount(s) + " foi processada com sucesso.")
  }

  /** `handleDonation`: a rejected donation stays as it is; an accepted one
      is confirmed with the final amount and, once the dialog is confirmed,
      all five fields are emptied. */
  function Submit(s: Screen): (r: Submitted<Screen>)
    ensures Validate(s).Rejected? ==> r == Submitted(ErrorAlert(Validate(s).error), s)
    ensures Validate(s) == Accepted ==> r.next == Initial && r.alert.title == "Doação Realizada!"
  {
    match Validate(s)
    case Rejected(e) => Submitted(ErrorAlert(e), s)
    case Accepted => Submitted(SuccessAlert(s), Initial)
  }

  /** A donation is accepted exactly when some amount is set and name and
      e-mail are filled in; the payment method plays no part, so a donation
      with no method chosen goes through. */
  lemma AcceptedIff(s: Screen)
    ensures Validate(s) == Accepted <==>
            (s.customAmount != "" || s.donationAmount != "") && s.donorName != "" && s.donorEmail != ""
    ensures forall m :: Validate(s.(paymentMethod := m)) == Validate(s)
  {
  }

  lemma NoMethodStillAccepted()
    ensures Validate(Screen("25", "", "Ana", "ana@example.com", "")) == Accepted
    ensures MethodLabel("") == "Não selecionado"
  {
  }

  // ---------------------------------------------------------------------
  // The screen as a state machine

  datatype Event =
    | SelectAmount(amount: string)
    | TypeCustomAmount(amount: string)
    | TypeName(name: string)
    | TypeEmail(email: string)
    | ChooseMethod(pm: string)
    | Press

  /** One event: pressing the donate button either leaves the screen as it
      is or resets it, and only the two amount events touch the amounts. */
  function Step(s: Screen, e: Event): (r: Screen)
    ensures e.Press? ==> r == s || r == Initial
    ensures (e.TypeName? || e.TypeEmail? || e.ChooseMethod?)
            ==> r.donationAmount == s.donationAmount && r.customAmount == s.customAmount
  {
    match e
    case SelectAmount(a) => AmountSelect(s, a)
    case TypeCustomAmount(a) => CustomAmount(s, a)
    case TypeName(n) => s.(donorName := n)
    case TypeEmail(m) => s.(donorEmail := m)
    case ChooseMethod(m) => s.(paymentMethod := m)
    case Press => Submit(s).next
  }

  /** At most one of the two amounts is ever set. */
  predicate AtMostOneAmount(s: Screen) {
    s.donationAmount == "" || s.customAmount == ""
  }

  lemma StepKeepsOneAmount(s: Screen, e: Event)
    requires AtMostOneAmount(s)
    ensures AtMostOneAmount(Step(s, e))
  {
  }

  /** Every state reached from mount by any sequence of events. */
  function Run(s: Screen, events: seq<Event>): Screen
    decreases |events|
  {
    if |events| == 0 then s else Run(Step(s, events[0]), events[1..])
  }

  lemma {:induction false} RunKeepsOneAmount(s: Screen, events: seq<Event>)
    requires AtMostOneAmount(s)
    ensures AtMostOneAmount(Run(s, events))
    decreases |events|
  {
    if |events| > 0 {
      StepKeepsOneAmount(s, events[0]);
      RunKeepsOneAmount(Step(s, events[0]), events[1..]);
    }
  }

  /** The screen on mount holds no amount. */
  lemma InitialOneAmount()
    ensures AtMostOneAmount(Initial)
    ensures !ShowsSummary(Initial)
  {
  }

  /** Whatever the user does from mount, at most one amount is set. */
  lemma ReachableOneAmount(events: seq<Event>)
    ensures AtMostOneAmount(Run(Initial, events))
  {
    InitialOneAmount();
    RunKeepsOneAmount(Initial, events);
  }

  /** The summary is on screen exactly when the amount check would pass. */
  lemma SummaryIffAmountGiven(s: Screen)
    ensures ShowsSummary(s) <==> Validate(s) != Rejected(NoAmount)
  {
  }

  /** With at most one amount set (so on every reachable screen) the amount
      shown and donated is whichever of the two is set. */
  lemma FinalAmountIsTheSetOne(s: Screen)
    requires AtMostOneAmount(s)
    ensures FinalAmount(s) == s.donationAmount + s.customAmount
  {
  }
}
