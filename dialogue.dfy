/** The per-user conversation: consent, then the ten questions of
    `QUESTION_FLOW` in order, then the valuation. This module is the pure
    transition of one user's session on one incoming message; the webhook
    class applies it to the map of all sessions. */
module Dialogue {
  import opened Wrappers
  import opened Text
  import opened Number
  import opened Validators
  import opened MultiChoice
  import opened Valuation
  import opened Debounce

  /** The `type` of a question; a multi-choice question carries its `choices`. */
  datatype Kind = FreeText | Link | Numeric | MultiChoiceOf(choices: seq<Choice>) | EmailAddress | Phone

  datatype Question = Question(key: string, text: string, kind: Kind)

  const RevenueChoices: seq<Choice> := [Choice("1", "IAP"), Choice("2", "Subscription"), Choice("3", "Ad")]

  /** `QUESTION_FLOW`. The `required` flags are never read, so they are not modelled. */
  const QuestionFlow: seq<Question> := [
    Question("name", "What is your name?", FreeText),
    Question("appLink", "Please provide the App Store or Play Store link (https://...)", Link),
    Question("revenue", "Last 12 months revenue (numbers only, USD)", Numeric),
    Question("profit", "Last 12 months profit (numbers only, USD)", Numeric),
    Question("spends", "Last 12 months spends (numbers only, USD)", Numeric),
    Question("dau", "Daily Active Users (DAU) — numbers only", Numeric),
    Question("mau", "Monthly Active Users (MAU) — numbers only", Numeric),
    Question("revenueSource", "Which revenue sources? Reply with numbers separated by comma:\n1. IAP\n2. Subscription\n3. Ad (e.g. '1,3')", MultiChoiceOf(RevenueChoices)),
    Question("email", "Your email address (we will send valuation there)", EmailAddress),
    Question("phone", "Phone number (optional). Reply 'skip' to skip.", Phone)
  ]

  // The default texts of GREETING_TEXT, NO_RESPONSE_TEXT and THANK_YOU_TEXT.
  const GreetingText := "Hi, I am Kalagato AI Agent. Are you interested in selling your app?"
  const NoResponseText := "Thanks — if you have any queries contact us on aman@kalagato.co"
  const ThankYouText := "✅ Thank you! We saved your details and emailed your valuation."
  const EmailFailedText := "✅ Saved your data, but we couldn't send the email automatically. " + ThankYouText

  const NumberError := "❌ Please send a numeric value (numbers only)."
  const LinkError := "❌ Please send a valid URL starting with http:// or https://"
  const EmailError := "❌ Please send a valid email address."
  const ChoiceError := "❌ Please reply with numbers like '1' or '1,3' corresponding to the options."

  const NoReplies: set<string> := {"no", "no_reply", "no_response"}
  const YesReplies: set<string> := {"yes", "yes_reply", "yes_response"}

  /** The re-prompt sent for an empty answer to question `step`. */
  function NoTextNotice(step: nat): string
    requires step < |QuestionFlow|
  {
    "I didn't receive any text. " + QuestionFlow[step].text
  }

  function CompletionText(emailDelivered: bool): string {
    if emailDelivered then ThankYouText else EmailFailedText
  }

  /** What the bot asks WhatsApp to deliver to the user. */
  datatype Message = TextMessage(body: string) | ButtonMessage(body: string, buttons: seq<string>)

  const ConsentPrompt: Message := ButtonMessage(GreetingText, ["Yes", "No"])

  /** `user_states[user_id]`: `step` is -1 while waiting for consent and
      otherwise the index of the pending question. */
  datatype Session = Session(step: int, answers: map<string, string>, lastOutgoing: Option<Sent>)

  /** What the bot hands to the spreadsheet and e-mail side once a user is done. */
  datatype Completion = Completion(answers: map<string, string>, valuation: Valuation)

  /** A user's session after one message (`None`: removed), the messages sent,
      and the completed record if this message finished the questionnaire. */
  datatype Outcome = Outcome(session: Option<Session>, sent: seq<Message>, completed: Option<Completion>)

  datatype Verdict = Accepted(value: string) | Rejected(error: string)

  /** The keys of the first `n` questions. */
  function KeysBefore(n: nat): set<string>
    requires n <= |QuestionFlow|
  {
    set i | 0 <= i < n :: QuestionFlow[i].key
  }

  /** What an accepted answer to `q` satisfies. */
  ghost predicate AnswerFits(q: Question, v: string) {
    match q.kind
    case Numeric => IsNumber(v)
    case Link => IsValidLink(v)
    case EmailAddress => IsValidEmail(v)
    case MultiChoiceOf(choices) => Split(v) != [] && forall x :: x in Split(v) ==> IsLabel(choices, x)
    case _ => true
  }

  /** Every session in the map satisfies this; it is what the source's
      indexing `QUESTION_FLOW[state["step"]]` relies on. */
  ghost predicate WellFormed(s: Session) {
    && -1 <= s.step < |QuestionFlow|
    && s.answers.Keys == KeysBefore(if s.step < 0 then 0 else s.step)
    && (forall i :: 0 <= i < s.step ==> AnswerFits(QuestionFlow[i], s.answers[QuestionFlow[i].key]))
    && LastOutgoingFits(s)
  }

  /** The last text recorded for the debounce: the consent prompt while at
      consent, otherwise the pending question or its empty-answer notice. */
  ghost predicate LastOutgoingFits(s: Session)
    requires -1 <= s.step < |QuestionFlow|
  {
    if s.step == -1 then
      s.lastOutgoing.None? || s.lastOutgoing.value.text == GreetingText
    else
      s.lastOutgoing.Some? &&
      (s.lastOutgoing.value.text == QuestionFlow[s.step].text || s.lastOutgoing.value.text == NoTextNotice(s.step))
  }

  /** The labels of a choice list can be joined with "," and split back. */
  predicate WellLabelled(choices: seq<Choice>) {
    forall k :: 0 <= k < |choices| ==> choices[k].value != [] && NoSeparator(choices[k].value)
  }

  /** The error message for an answer the check of `kind` refuses. */
  function ErrorText(kind: Kind): string {
    match kind
    case Numeric => NumberError
    case Link => LinkError
    case EmailAddress => EmailError
    case MultiChoiceOf(_) => ChoiceError
    case _ => ""
  }

  /** Free text and phone numbers are never refused. */
  predicate Checked(kind: Kind) {
    !kind.FreeText? && !kind.Phone?
  }

  /** The checks of the webhook for question `q` and the stored form of an
      accepted answer: stripped; a multi-choice selection joined with ",";
      a phone answer of "skip" (any case) stored as "". */
  function Validate(q: Question, answer: string): (r: Verdict)
    ensures q.kind.MultiChoiceOf? ==> WellLabelled(q.kind.choices) ==> r.Accepted? ==> AnswerFits(q, r.value)
    ensures !q.kind.MultiChoiceOf? ==> r.Accepted? ==> AnswerFits(q, r.value)
    ensures r.Rejected? ==> Checked(q.kind) && r.error == ErrorText(q.kind)
  {
    var normalized := Trim(answer);
    match q.kind
    case Numeric => if IsNumber(normalized) then Accepted(normalized) else Rejected(NumberError)
    case Link => if IsValidLink(normalized) then Accepted(normalized) else Rejected(LinkError)
    case EmailAddress => if IsValidEmail(normalized) then Accepted(normalized) else Rejected(EmailError)
    case MultiChoiceOf(choices) =>
      var selected := MultiChoiceSelection(normalized, choices);
      if selected == [] then Rejected(ChoiceError)
      else
        MultiChoiceSelectionMeaning(normalized, choices);
        StoredSelectionFits(selected, choices);
        Accepted(Join(selected, ","))
    case Phone => if Lower(normalized) == "skip" then Accepted("") else Accepted(normalized)
    case FreeText => Accepted(normalized)
  }

  /** What `Validate` decides for each kind of question, and what it stores:
      the stripped answer when it passes its kind's check; for a phone number
      "" in place of "skip"; for a multi-choice question the selected labels,
      joined with "," and splitting back into those labels. */
  lemma ValidateMeaning(q: Question, answer: string)
    ensures var r, t := Validate(q, answer), Trim(answer);
      q.kind.Numeric? ==> (r.Accepted? <==> IsNumber(t)) && (r.Accepted? ==> r.value == t)
    ensures var r, t := Validate(q, answer), Trim(answer);
      q.kind.Link? ==> (r.Accepted? <==> IsValidLink(t)) && (r.Accepted? ==> r.value == t)
    ensures var r, t := Validate(q, answer), Trim(answer);
      q.kind.EmailAddress? ==> (r.Accepted? <==> IsValidEmail(t)) && (r.Accepted? ==> r.value == t)
    ensures q.kind.FreeText? ==> Validate(q, answer) == Accepted(Trim(answer))
    ensures var t := Trim(answer);
      q.kind.Phone? ==> Validate(q, answer) == Accepted(if Lower(t) == "skip" then "" else t)
    ensures var r, t := Validate(q, answer), Trim(answer);
      q.kind.MultiChoiceOf? ==> (r.Accepted? <==> MultiChoiceSelection(t, q.kind.choices) != [])
    ensures var r, t := Validate(q, answer), Trim(answer);
      q.kind.MultiChoiceOf? && WellLabelled(q.kind.choices) && r.Accepted? ==>
        Split(r.value) == MultiChoiceSelection(t, q.kind.choices)
    ensures var r, t := Validate(q, answer), Trim(answer);
      q.kind.MultiChoiceOf? && r.Accepted? ==> r.value == Join(MultiChoiceSelection(t, q.kind.choices), ",")
  {
    if q.kind.MultiChoiceOf? {
      var t := Trim(answer);
      var selected := MultiChoiceSelection(t, q.kind.choices);
      if selected != [] {
        MultiChoiceSelectionMeaning(t, q.kind.choices);
        StoredSelectionFits(selected, q.kind.choices);
      }
    }
  }

  /** A non-empty selection stored as its comma-joined labels splits back into
      those labels. */
  lemma StoredSelectionFits(selected: seq<string>, choices: seq<Choice>)
    requires selected != [] && (forall x :: x in selected ==> IsLabel(choices, x))
    ensures WellLabelled(choices) ==> Split(Join(selected, ",")) == selected
    ensures WellLabelled(choices) ==> Join(selected, ",") != []
  {
    if WellLabelled(choices) {
      forall k | 0 <= k < |selected| ensures selected[k] != [] && NoSeparator(selected[k]) {
        assert selected[k] in selected;
        var j :| 0 <= j < |choices| && choices[j].value == selected[k];
      }
      SplitJoin(selected);
      JoinStartsWith(selected);
    }
  }

  /** The number `compute_valuation` derives from the stored profit answer:
      `None` (read as 0) when it is missing, empty or unparseable. */
  function ProfitAnswer(answers: map<string, string>): (r: Option<real>)
    ensures r.Some? <==> "profit" in answers && IsNumber(answers["profit"])
    ensures r.Some? ==> r == ParseNumber(answers["profit"])
  {
    if "profit" in answers && answers["profit"] != "" then ParseNumber(answers["profit"]) else None
  }

  /** `answers.get(key, "")`. */
  function AnswerOr(answers: map<string, string>, key: string): (r: string)
    ensures key in answers ==> r == answers[key]
    ensures key !in answers ==> r == ""
  {
    if key in answers then answers[key] else ""
  }

  /** Result of one debounced send. */
  datatype Emitted = Emitted(session: Session, sent: seq<Message>)

  function Body(m: Message): string {
    match m
    case TextMessage(b) => b
    case ButtonMessage(b, _) => b
  }

  /** `send_whatsapp_text` / `send_whatsapp_buttons` for a user with a session:
      the message goes out and is recorded unless the debounce holds it back. */
  function Emit(s: Session, m: Message, now: int): (e: Emitted)
    ensures e.session.step == s.step && e.session.answers == s.answers
    ensures CanSend(s.lastOutgoing, Body(m), now) ==>
      e.sent == [m] && e.session == s.(lastOutgoing := Some(Sent(Body(m), now)))
    ensures !CanSend(s.lastOutgoing, Body(m), now) ==> e.sent == [] && e.session == s
  {
    if CanSend(s.lastOutgoing, Body(m), now) then
      Emitted(s.(lastOutgoing := Some(Sent(Body(m), now))), [m])
    else
      Emitted(s, [])
  }

  /** The consent phase (`step == -1`). */
  function Consent(s: Session, incoming: string, now: int): (r: Outcome)
    ensures r.completed.None? && |r.sent| <= 1
    ensures r.session.None? <==> Lower(Trim(incoming)) in NoReplies
    ensures r.session.Some? ==> r.session.value.answers == s.answers
    ensures r.session.Some? ==>
      r.session.value.step == if Lower(Trim(incoming)) in YesReplies then 0 else s.step
  {
    var resp := Lower(Trim(incoming));
    if resp in NoReplies then
      Outcome(None, Emit(s, TextMessage(NoResponseText), now).sent, None)
    else if resp in YesReplies then
      var e := Emit(s.(step := 0), TextMessage(QuestionFlow[0].text), now);
      Outcome(Some(e.session), e.sent, None)
    else
      var e := Emit(s, ConsentPrompt, now);
      Outcome(Some(e.session), e.sent, None)
  }

  /** An answer to the pending question `QuestionFlow[s.step]`. */
  function Answer(s: Session, incoming: string, now: int, emailDelivered: bool): (r: Outcome)
    requires 0 <= s.step < |QuestionFlow|
    ensures |r.sent| <= 2 && (r.session.None? <==> r.completed.Some?)
    ensures var ok := incoming != "" && Validate(QuestionFlow[s.step], incoming).Accepted?;
      r.completed.Some? <==> ok && s.step == |QuestionFlow| - 1
    ensures var ok := incoming != "" && Validate(QuestionFlow[s.step], incoming).Accepted?;
      r.session.Some? ==> r.session.value.step == if ok then s.step + 1 else s.step
    ensures var ok := incoming != "" && Validate(QuestionFlow[s.step], incoming).Accepted?;
      r.session.Some? && !ok ==> r.session.value.answers == s.answers
    ensures var v := Validate(QuestionFlow[s.step], incoming);
      incoming != "" && v.Accepted? ==>
        (if r.session.Some? then r.session.value.answers else r.completed.value.answers)
          == s.answers[QuestionFlow[s.step].key := v.value]
  {
    var q := QuestionFlow[s.step];
    if incoming == "" then
      var e := Emit(s, TextMessage(NoTextNotice(s.step)), now);
      Outcome(Some(e.session), e.sent, None)
    else match Validate(q, incoming)
      case Rejected(err) =>
        var e1 := Emit(s, TextMessage(err), now);
        var e2 := Emit(e1.session, TextMessage(q.text), now);
        Outcome(Some(e2.session), e1.sent + e2.sent, None)
      case Accepted(v) =>
        var next := s.(answers := s.answers[q.key := v], step := s.step + 1);
        if next.step < |QuestionFlow| then
          var e := Emit(next, TextMessage(QuestionFlow[next.step].text), now);
          Outcome(Some(e.session), e.sent, None)
        else
          var valuation := ComputeValuation(ProfitAnswer(next.answers), AnswerOr(next.answers, "revenueSource"));
          var e := Emit(next, TextMessage(CompletionText(emailDelivered)), now);
          Outcome(None, e.sent, Some(Completion(next.answers, valuation)))
  }

  /** The incoming answer: the button id when there is one, else the stripped text. */
  function Incoming(buttonId: string, textBody: string): (r: string)
    ensures buttonId != "" ==> r == buttonId
    ensures r == "" <==> buttonId == "" && Trim(textBody) == ""
  {
    if buttonId != "" then buttonId else Trim(textBody)
  }

  /** One message from a user whose session is `current` (`None`: unknown user). */
  function Transition(current: Option<Session>, incoming: string, now: int, emailDelivered: bool): (r: Outcome)
    requires current.Some? ==> -1 <= current.value.step < |QuestionFlow|
    ensures current.None? ==> r == Outcome(Some(Session(-1, map[], None)), [ConsentPrompt], None)
    ensures |r.sent| <= 2
    ensures r.completed.Some? ==> r.session.None?
    ensures current.Some? && r.session.Some? ==>
      current.value.step <= r.session.value.step <= current.value.step + 1
  {
    match current
    case None => Outcome(Some(Session(-1, map[], None)), [ConsentPrompt], None)
    case Some(s) =>
      if s.step == -1 then Consent(s, incoming, now) else Answer(s, incoming, now, emailDelivered)
  }

  // ---------------------------------------------------------------------
  // Facts about the fixed question flow

  /** Each key is told apart by its first character and its length. */
  lemma KeysDistinct()
    ensures forall i, j :: 0 <= i < j < |QuestionFlow| ==> QuestionFlow[i].key != QuestionFlow[j].key
  {
    var sig := [('n', 4), ('a', 7), ('r', 7), ('p', 6), ('s', 6), ('d', 3), ('m', 3), ('r', 13), ('e', 5), ('p', 5)];
    assert forall i :: 0 <= i < |QuestionFlow| ==> |QuestionFlow[i].key| == sig[i].1 && QuestionFlow[i].key[0] == sig[i].0;
  }

  /** The lengths of the prompts; the texts below are told apart by length. */
  lemma PromptLengths()
    ensures forall i :: 0 <= i < |QuestionFlow| ==>
      |QuestionFlow[i].text| == [18, 61, 42, 41, 41, 39, 41, 103, 49, 46][i]
  {
  }

  /** The next prompt differs from whatever was last sent at the current step. */
  lemma NextPromptIsNew(i: nat)
    requires i + 1 < |QuestionFlow|
    ensures QuestionFlow[i + 1].text != QuestionFlow[i].text
    ensures QuestionFlow[i + 1].text != NoTextNotice(i)
  {
    PromptLengths();
    assert QuestionFlow[3].text[15] != QuestionFlow[4].text[15];
  }

  /** The error message of a rejected answer differs from the prompt and the
      empty-answer notice of its question. */
  lemma ErrorIsNew(i: nat)
    requires i < |QuestionFlow| && Checked(QuestionFlow[i].kind)
    ensures ErrorText(QuestionFlow[i].kind) != QuestionFlow[i].text
    ensures ErrorText(QuestionFlow[i].kind) != NoTextNotice(i)
  {
    PromptLengths();
  }

  /** The completion message differs from the last prompt and its notice, and
      the first prompt and the decline message differ from the consent prompt. */
  lemma FixedTextsDiffer()
    ensures forall b :: CompletionText(b) != QuestionFlow[9].text && CompletionText(b) != NoTextNotice(9)
    ensures QuestionFlow[0].text != GreetingText && NoResponseText != GreetingText
  {
    PromptLengths();
  }

  /** No reply means both "yes" and "no"; the spellings differ in length. */
  lemma RepliesDisjoint(r: string)
    requires r in YesReplies
    ensures r !in NoReplies
  {
    assert |r| in {3, 9, 12};
  }

  lemma FlowChoicesWellLabelled()
    ensures forall i :: 0 <= i < |QuestionFlow| && QuestionFlow[i].kind.MultiChoiceOf? ==>
      WellLabelled(QuestionFlow[i].kind.choices)
  {
    LettersHaveNoSeparator("IAP");
    LettersHaveNoSeparator("Subscription");
    LettersHaveNoSeparator("Ad");
    assert WellLabelled(RevenueChoices);
  }
}
