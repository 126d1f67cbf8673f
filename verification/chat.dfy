/**
 The scripted chat screen (src/screens/Chat.tsx): an append-only message
 log, the text being typed, and a fixed table of answers to the quick
 questions. The ids and times the screen takes from the clock are supplied
 by the caller. Each send schedules one bot reply; the reply is queued and
 posted by a later step of its own, when its timer fires.
 */
module Chat {
  import opened Text

  datatype Message = Message(id: string, text: string, time: string, isUser: bool)

  /** The `Date.now()` id and the locale time a new message is stamped with. */
  datatype Stamp = Stamp(id: string, time: string)

  /** The log, the text being typed, and the replies whose one-second
      timer has been set but has not fired yet, oldest first. */
  datatype Screen = Screen(messages: seq<Message>, input: string, pending: seq<string>)

  const Welcome: Message :=
    Message("1", "Olá! Bem-vindo ao Lar Amigo. Como posso ajudar você hoje?", "10:00", false)

  const Initial: Screen := Screen([Welcome], "", [])

  /** The reply that follows every typed message. */
  const GenericReply: string :=
    "Obrigado pela sua mensagem! Em breve nossa equipe responderá. Enquanto isso, você pode ver nossos pets disponíveis para adoção."

  const DefaultAnswer: string := "Obrigado pela pergunta! Nossa equipe responderá em breve."

  const QuickQuestions: seq<string> := [
    "Quais documentos preciso para adotar?",
    "Posso visitar os pets antes de adotar?",
    "Quais são os custos da adoção?",
    "Como funciona o lar temporário?",
    "Preciso de experiência prévia com pets?"
  ]

  const QuickAnswers: seq<string> := [
    "Para adotar, você precisa de: RG, CPF, comprovante de residência e assinatura do termo de responsabilidade. Todos os pets são vacinados e castrados!",
    "Sim! Agendamos visitas mediante agendamento. Você pode conhecer o pet e nossa equipe antes de tomar a decisão.",
    "A adoção é gratuita! Porém, pedimos uma contribuição simbólica de R$ 50 para ajudar com custos de vacinas e castração.",
    "No lar temporário, você acolhe um pet por um período determinado. Nós fornecemos ração, medicamentos e suporte veterinário!",
    "Não é obrigatório, mas recomendamos. Oferecemos orientação para tutores de primeira viagem!"
  ]

  /** The `switch` of `handleQuickQuestion`: the answer at the question's
      position in the table, or the default answer. */
  function Answer(question: string): (a: string)
    ensures question !in QuickQuestions ==> a == DefaultAnswer
    ensures forall i :: 0 <= i < |QuickQuestions| && QuickQuestions[i] == question ==> a == QuickAnswers[i]
  {
    if question == QuickQuestions[0] then QuickAnswers[0]
    else if question == QuickQuestions[1] then QuickAnswers[1]
    else if question == QuickQuestions[2] then QuickAnswers[2]
    else if question == QuickQuestions[3] then QuickAnswers[3]
    else if question == QuickQuestions[4] then QuickAnswers[4]
    else DefaultAnswer
  }

  /** The replies a screen's bot may post: the generic reply, the default
      answer and the table's answers. */
  predicate Scripted(text: string) {
    text == GenericReply || text == DefaultAnswer || text in QuickAnswers
  }

  /** Every quick-question answer is scripted. */
  lemma AnswerScripted(question: string)
    ensures Scripted(Answer(question))
  {
  }

  /** `handleSendMessage`: a blank input is ignored; otherwise the untrimmed
      text is appended as the user's message, the input is cleared, and the
      generic reply is scheduled behind any reply still pending. */
  function SendMessage(s: Screen, stamp: Stamp): (r: Screen)
    ensures AllWhiteSpace(s.input) ==> r == s
    ensures !AllWhiteSpace(s.input) ==>
              && r.messages == s.messages + [Message(stamp.id, s.input, stamp.time, true)]
              && r.input == ""
              && r.pending == s.pending + [GenericReply]
  {
    TrimEmptyIff(s.input);
    if Trim(s.input) == "" then s
    else Screen(s.messages + [Message(stamp.id, s.input, stamp.time, true)], "", s.pending + [GenericReply])
  }

  /** `handleQuickQuestion(question)`: the question is appended as the
      user's message whatever the input holds, the input is cleared, and
      the question's answer is scheduled. */
  function QuickQuestion(s: Screen, question: string, stamp: Stamp): (r: Screen)
    ensures r.messages == s.messages + [Message(stamp.id, question, stamp.time, true)]
    ensures r.input == ""
    ensures r.pending == s.pending + [Answer(question)]
  {
    Screen(s.messages + [Message(stamp.id, question, stamp.time, true)], "", s.pending + [Answer(question)])
  }

  /** The delayed callback of the oldest pending timer (every timer waits
      the same second, so they fire in the order they were set): its reply
      is appended as the bot's; the input is left as it is at that moment. */
  function DeliverReply(s: Screen, stamp: Stamp): (r: Screen)
    requires |s.pending| > 0
    ensures r.messages == s.messages + [Message(stamp.id, s.pending[0], stamp.time, false)]
    ensures r.pending == s.pending[1..]
    ensures r.input == s.input
  {
    Screen(s.messages + [Message(stamp.id, s.pending[0], stamp.time, false)], s.input, s.pending[1..])
  }

  // ---------------------------------------------------------------------
  // The screen as a state machine

  datatype Event =
    | Type(text: string)
    | Send(stamp: Stamp)
    | Ask(question: string, stamp: Stamp)
    | Reply(stamp: Stamp)     // the oldest pending timer fires

  /** One event; a timer can only fire while a reply is pending. */
  function Step(s: Screen, e: Event): (r: Screen)
    ensures s.messages <= r.messages
    ensures |r.messages| <= |s.messages| + 1
  {
    match e
    case Type(t) => s.(input := t)
    case Send(st) => SendMessage(s, st)
    case Ask(q, st) => QuickQuestion(s, q, st)
    case Reply(st) => if |s.pending| > 0 then DeliverReply(s, st) else s
  }

  function Run(s: Screen, events: seq<Event>): Screen
    decreases |events|
  {
    if |events| == 0 then s else Run(Step(s, events[0]), events[1..])
  }

  /** The number of messages in `msgs` written by the user (`user`) or by
      the bot (`!user`). */
  function Count(msgs: seq<Message>, user: bool): nat {
    if |msgs| == 0 then 0
    else Count(msgs[..|msgs| - 1], user) + (if msgs[|msgs| - 1].isUser == user then 1 else 0)
  }

  lemma CountAppend(msgs: seq<Message>, m: Message, user: bool)
    ensures Count(msgs + [m], user) == Count(msgs, user) + (if m.isUser == user then 1 else 0)
  {
    assert (msgs + [m])[..|msgs|] == msgs;
  }

  /** What every reachable screen satisfies: the welcome opens the log,
      every later bot message and every pending reply is scripted, and each
      user message has exactly one reply, delivered or pending. */
  predicate Invariant(s: Screen) {
    && |s.messages| >= 1 && s.messages[0] == Welcome
    && (forall i :: 1 <= i < |s.messages| && !s.messages[i].isUser ==> Scripted(s.messages[i].text))
    && (forall j :: 0 <= j < |s.pending| ==> Scripted(s.pending[j]))
    && Count(s.messages, true) + 1 == Count(s.messages, false) + |s.pending|
  }

  lemma InitialInvariant()
    ensures Invariant(Initial)
  {
    assert Initial.messages[..0] == [];
  }

  /** Appending one message with a scripted text when it is the bot's keeps
      the log part of the invariant. */
  lemma AppendKeepsLog(msgs: seq<Message>, m: Message)
    requires |msgs| >= 1 && msgs[0] == Welcome
    requires forall i :: 1 <= i < |msgs| && !msgs[i].isUser ==> Scripted(msgs[i].text)
    requires !m.isUser ==> Scripted(m.text)
    ensures |msgs + [m]| >= 1 && (msgs + [m])[0] == Welcome
    ensures forall i :: 1 <= i < |msgs + [m]| && !(msgs + [m])[i].isUser ==> Scripted((msgs + [m])[i].text)
  {
    forall i | 1 <= i < |msgs + [m]| && !(msgs + [m])[i].isUser
      ensures Scripted((msgs + [m])[i].text)
    {
      if i < |msgs| {
        assert (msgs + [m])[i] == msgs[i];
      }
    }
    CountAppend(msgs, m, true);
    CountAppend(msgs, m, false);
  }

  lemma SendKeepsInvariant(s: Screen, st: Stamp)
    requires Invariant(s)
    ensures Invariant(SendMessage(s, st))
  {
    if !AllWhiteSpace(s.input) {
      var m := Message(st.id, s.input, st.time, true);
      AppendKeepsLog(s.messages, m);
      CountAppend(s.messages, m, true);
      CountAppend(s.messages, m, false);
      var r := SendMessage(s, st);
      forall j | 0 <= j < |r.pending|
        ensures Scripted(r.pending[j])
      {
        if j < |s.pending| {
          assert r.pending[j] == s.pending[j];
        }
      }
    }
  }

  lemma AskKeepsInvariant(s: Screen, q: string, st: Stamp)
    requires Invariant(s)
    ensures Invariant(QuickQuestion(s, q, st))
  {
    var m := Message(st.id, q, st.time, true);
    AppendKeepsLog(s.messages, m);
    CountAppend(s.messages, m, true);
    CountAppend(s.messages, m, false);
    AnswerScripted(q);
    var r := QuickQuestion(s, q, st);
    forall j | 0 <= j < |r.pending|
      ensures Scripted(r.pending[j])
    {
      if j < |s.pending| {
        assert r.pending[j] == s.pending[j];
      }
    }
  }

  lemma ReplyKeepsInvariant(s: Screen, st: Stamp)
    requires Invariant(s) && |s.pending| > 0
    ensures Invariant(DeliverReply(s, st))
  {
    var m := Message(st.id, s.pending[0], st.time, false);
    AppendKeepsLog(s.messages, m);
    CountAppend(s.messages, m, true);
    CountAppend(s.messages, m, false);
    var r := DeliverReply(s, st);
    forall j | 0 <= j < |r.pending|
      ensures Scripted(r.pending[j])
    {
      assert r.pending[j] == s.pending[j + 1];
    }
  }

  lemma StepInvariant(s: Screen, e: Event)
    requires Invariant(s)
    ensures Invariant(Step(s, e))
  {
    match e
    case Type(t) =>
    case Send(st) => SendKeepsInvariant(s, st);
    case Ask(q, st) => AskKeepsInvariant(s, q, st);
    case Reply(st) =>
      if |s.pending| > 0 {
        ReplyKeepsInvariant(s, st);
      }
  }

  lemma {:induction false} RunInvariant(s: Screen, events: seq<Event>)
    requires Invariant(s)
    ensures Invariant(Run(s, events))
    decreases |events|
  {
    if |events| > 0 {
      StepInvariant(s, events[0]);
      RunInvariant(Step(s, events[0]), events[1..]);
    }
  }

  /** In every conversation the bot posts only scripted replies after its
      welcome, and it never posts more replies than it was asked for: the
      replies posted and pending are one per user message. */
  lemma BotOnlyAnswers(events: seq<Event>)
    ensures var r := Run(Initial, events);
            && (forall i :: 1 <= i < |r.messages| && !r.messages[i].isUser ==> Scripted(r.messages[i].text))
            && Count(r.messages, false) - 1 + |r.pending| == Count(r.messages, true)
  {
    InitialInvariant();
    RunInvariant(Initial, events);
  }

  /** A timer cannot fire before anything was asked: a reply event on the
      fresh screen changes nothing. */
  lemma NoUnrequestedReply(st: Stamp)
    ensures Step(Initial, Reply(st)) == Initial
  {
  }

  /** No step rewrites or removes a message, so after any run the old log is
      a prefix of the new one. */
  lemma {:induction false} RunAppendsOnly(s: Screen, events: seq<Event>)
    ensures s.messages <= Run(s, events).messages
    decreases |events|
  {
    if |events| > 0 {
      RunAppendsOnly(Step(s, events[0]), events[1..]);
    }
  }

  /** Every conversation opens with the welcome message from the bot. */
  lemma ConversationStartsWithWelcome(events: seq<Event>)
    ensures |Run(Initial, events).messages| >= 1
    ensures Run(Initial, events).messages[0] == Welcome && !Welcome.isUser
  {
    RunAppendsOnly(Initial, events);
  }

  /** Messages the bot appends are never the user's, and the user's own are
      appended with `isUser` set. */
  lemma AuthorOfAppended(s: Screen, e: Event)
    ensures |Step(s, e).messages| > |s.messages|
            ==> (Step(s, e).messages[|s.messages|].isUser <==> !e.Reply?)
  {
  }

  /** Each quick question is answered from the table. */
  lemma QuickAnswersTable()
    ensures Answer("Quais documentos preciso para adotar?") == QuickAnswers[0]
    ensures Answer("Posso visitar os pets antes de adotar?") == QuickAnswers[1]
    ensures Answer("Quais são os custos da adoção?") == QuickAnswers[2]
    ensures Answer("Como funciona o lar temporário?") == QuickAnswers[3]
    ensures Answer("Preciso de experiência prévia com pets?") == QuickAnswers[4]
    ensures Answer("Vocês aceitam doações?") == DefaultAnswer
  {
  }
}
