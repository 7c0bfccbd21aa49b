/** The POST side of the `/webhook` endpoint for one incoming message: the
    duplicate check on the message id, then the conversation step for the
    sending user, with the sessions of all users held in `userStates`. */
module Webhook {
  import opened Wrappers
  import opened Text
  import opened Number
  import opened Validators
  import opened MultiChoice
  import opened Valuation
  import opened Debounce
  import opened MessageCache
  import opened Dialogue
  import opened DialogueFacts

  /** The session of `userId` in `states`, if any. */
  function SessionOf(states: map<string, Session>, userId: string): (r: Option<Session>)
    ensures r.Some? <==> userId in states
    ensures r.Some? ==> r.value == states[userId]
  {
    if userId in states then Some(states[userId]) else None
  }

  /** `states` once the session of `userId` is replaced by `session` (`None`: removed). */
  function Updated(states: map<string, Session>, userId: string, session: Option<Session>): (r: map<string, Session>)
    ensures userId in r <==> session.Some?
    ensures session.Some? ==> r[userId] == session.value
    ensures forall u :: u != userId ==> (u in r <==> u in states)
    ensures forall u :: u != userId && u in r ==> r[u] == states[u]
  {
    match session
    case Some(s) => states[userId := s]
    case None => states - {userId}
  }

  class Bot {
    /** `user_states`. */
    var userStates: map<string, Session>
    /** `processed_msg_ids` with `processed_msg_ids_set`. */
    const cache: ProcessedIds

    ghost predicate Valid()
      reads this, cache
    {
      && cache.Valid()
      && forall u :: u in userStates ==> WellFormed(userStates[u])
    }

    constructor ()
      ensures Valid() && fresh(cache)
      ensures userStates == map[] && cache.ids == []
    {
      userStates := map[];
      cache := new ProcessedIds();
    }

    /** `send_whatsapp_text` / `send_whatsapp_buttons` to a user who has a
        session: held back by the debounce, otherwise sent and recorded. */
    method Send(userId: string, m: Message, now: int) returns (out: seq<Message>)
      requires userId in userStates
      modifies this
      ensures var e := Emit(old(userStates)[userId], m, now);
        userStates == old(userStates)[userId := e.session] && out == e.sent
    {
      var s := userStates[userId];
      if CanSend(s.lastOutgoing, Body(m), now) {
        userStates := userStates[userId := s.(lastOutgoing := Some(Sent(Body(m), now)))];
        out := [m];
      } else {
        out := [];
      }
    }

    /** One message from `userId` with id `msgId`: the button id `buttonId`
        (empty when none) and the text `textBody` (empty when none). */
    method Handle(userId: string, msgId: string, buttonId: string, textBody: string, now: int, emailDelivered: bool)
      returns (sent: seq<Message>, completed: Option<Completion>)
      requires Valid()
      modifies this, cache
      ensures Valid()
      ensures msgId != "" && msgId in old(cache.ids) ==>
        && userStates == old(userStates) && cache.ids == old(cache.ids)
        && sent == [] && completed.None?
      ensures !(msgId != "" && msgId in old(cache.ids)) ==>
        var o := Transition(SessionOf(old(userStates), userId), Incoming(buttonId, textBody), now, emailDelivered);
        && cache.ids == Remember(old(cache.ids), msgId)
        && userStates == Updated(old(userStates), userId, o.session)
        && sent == o.sent && completed == o.completed
    {
      if msgId != "" {
        if msgId in cache.idSet {
          return [], None;
        }
        cache.Mark(msgId);
      }
      var incoming := if buttonId != "" then buttonId else Trim(textBody);
      ghost var states := userStates;
      assert userId in states ==> WellFormed(states[userId]);
      ghost var o := Transition(SessionOf(states, userId), incoming, now, emailDelivered);
      sent, completed := Step(userId, incoming, now, emailDelivered);
      TransitionKeepsWellFormed(SessionOf(states, userId), incoming, now, emailDelivered);
      UpdatedKeepsWellFormed(states, userId, o.session);
    }

    /** The conversation step of `Handle` once the message is known to be new. */
    method Step(userId: string, incoming: string, now: int, emailDelivered: bool)
      returns (sent: seq<Message>, completed: Option<Completion>)
      requires userId in userStates ==> -1 <= userStates[userId].step < |QuestionFlow|
      modifies this
      ensures var o := Transition(SessionOf(old(userStates), userId), incoming, now, emailDelivered);
        userStates == Updated(old(userStates), userId, o.session) && sent == o.sent && completed == o.completed
    {
      if userId !in userStates {
        sent := [ConsentPrompt];
        userStates := userStates[userId := Session(-1, map[], None)];
        completed := None;
        return;
      }
      if userStates[userId].step == -1 {
        sent := HandleConsent(userId, incoming, now);
        completed := None;
      } else {
        sent, completed := HandleAnswer(userId, incoming, now, emailDelivered);
      }
    }

    /** The consent phase of `userId`. */
    method HandleConsent(userId: string, incoming: string, now: int) returns (sent: seq<Message>)
      requires userId in userStates && userStates[userId].step == -1
      modifies this
      ensures var o := Consent(old(userStates)[userId], incoming, now);
        userStates == Updated(old(userStates), userId, o.session) && sent == o.sent && o.completed.None?
    {
      ConsentCases(userStates[userId], incoming, now);
      var resp := Lower(Trim(incoming));
      if resp in NoReplies {
        sent := Decline(userId, now);
      } else if resp in YesReplies {
        sent := Begin(userId, now);
      } else {
        sent := Send(userId, ConsentPrompt, now);
      }
    }

    /** A declined consent: the goodbye, then the session is dropped. */
    method Decline(userId: string, now: int) returns (sent: seq<Message>)
      requires userId in userStates
      modifies this
      ensures userStates == old(userStates) - {userId}
      ensures sent == Emit(old(userStates)[userId], TextMessage(NoResponseText), now).sent
    {
      sent := Send(userId, TextMessage(NoResponseText), now);
      userStates := userStates - {userId};
      assert userStates == old(userStates) - {userId} by {
        assert userStates.Keys == old(userStates).Keys - {userId};
      }
    }

    /** A given consent: the first question. */
    method Begin(userId: string, now: int) returns (sent: seq<Message>)
      requires userId in userStates
      modifies this
      ensures var e := Emit(old(userStates)[userId].(step := 0), TextMessage(QuestionFlow[0].text), now);
        userStates == old(userStates)[userId := e.session] && sent == e.sent
    {
      userStates := userStates[userId := userStates[userId].(step := 0)];
      sent := Send(userId, TextMessage(QuestionFlow[0].text), now);
    }

    /** An answer from `userId` to the pending question. */
    method HandleAnswer(userId: string, incoming: string, now: int, emailDelivered: bool)
      returns (sent: seq<Message>, completed: Option<Completion>)
      requires userId in userStates && 0 <= userStates[userId].step < |QuestionFlow|
      modifies this
      ensures var o := Answer(old(userStates)[userId], incoming, now, emailDelivered);
        userStates == Updated(old(userStates), userId, o.session) && sent == o.sent && completed == o.completed
    {
      completed := None;
      var state := userStates[userId];
      if incoming == "" {
        sent := Send(userId, TextMessage(NoTextNotice(state.step)), now);
        return;
      }
      var q := QuestionFlow[state.step];
      var verdict := CheckAnswer(q, incoming);
      match verdict {
        case Rejected(err) =>
          AnswerRejected(state, incoming, now, emailDelivered, err);
          sent := Reject(userId, err, q.text, now);
        case Accepted(normalized) =>
          AnswerAccepted(state, incoming, now, emailDelivered, normalized);
          sent, completed := Advance(userId, q.key, normalized, now, emailDelivered);
      }
    }

    /** A refused answer: the error, then the question again. */
    method Reject(userId: string, err: string, prompt: string, now: int) returns (sent: seq<Message>)
      requires userId in userStates
      modifies this
      ensures var e1 := Emit(old(userStates)[userId], TextMessage(err), now);
        var e2 := Emit(e1.session, TextMessage(prompt), now);
        userStates == old(userStates)[userId := e2.session] && sent == e1.sent + e2.sent
    {
      var first := Send(userId, TextMessage(err), now);
      var second := Send(userId, TextMessage(prompt), now);
      sent := first + second;
    }

    /** An accepted answer: stored, then the next question or the completion. */
    method Advance(userId: string, key: string, normalized: string, now: int, emailDelivered: bool)
      returns (sent: seq<Message>, completed: Option<Completion>)
      requires userId in userStates && 0 <= userStates[userId].step < |QuestionFlow|
      modifies this
      ensures var s := old(userStates)[userId];
        var next := s.(answers := s.answers[key := normalized], step := s.step + 1);
        if next.step < |QuestionFlow| then
          var e := Emit(next, TextMessage(QuestionFlow[next.step].text), now);
          userStates == old(userStates)[userId := e.session] && sent == e.sent && completed.None?
        else
          var e := Emit(next, TextMessage(CompletionText(emailDelivered)), now);
          && userStates == old(userStates) - {userId} && sent == e.sent
          && completed == Some(Completion(next.answers,
               ComputeValuation(ProfitAnswer(next.answers), AnswerOr(next.answers, "revenueSource"))))
    {
      var answers := userStates[userId].answers[key := normalized];
      var step := userStates[userId].step + 1;
      userStates := userStates[userId := userStates[userId].(answers := answers, step := step)];
      if step < |QuestionFlow| {
        sent := Send(userId, TextMessage(QuestionFlow[step].text), now);
        completed := None;
        return;
      }
      var valuation := ComputeValuation(ProfitAnswer(answers), AnswerOr(answers, "revenueSource"));
      sent := Send(userId, TextMessage(CompletionText(emailDelivered)), now);
      completed := Some(Completion(answers, valuation));
      userStates := userStates - {userId};
    }
  }

  /** `Consent` by the three kinds of reply. */
  lemma ConsentCases(s: Session, incoming: string, now: int)
    ensures var resp := Lower(Trim(incoming));
      Consent(s, incoming, now) ==
        if resp in NoReplies then
          Outcome(None, Emit(s, TextMessage(NoResponseText), now).sent, None)
        else if resp in YesReplies then
          var e := Emit(s.(step := 0), TextMessage(QuestionFlow[0].text), now);
          Outcome(Some(e.session), e.sent, None)
        else
          var e := Emit(s, ConsentPrompt, now);
          Outcome(Some(e.session), e.sent, None)
  {
  }

  /** `Answer` for a refused answer: the error, then the question again. */
  lemma AnswerRejected(s: Session, incoming: string, now: int, emailDelivered: bool, err: string)
    requires 0 <= s.step < |QuestionFlow| && incoming != ""
    requires Validate(QuestionFlow[s.step], incoming) == Rejected(err)
    ensures var e1 := Emit(s, TextMessage(err), now);
      var e2 := Emit(e1.session, TextMessage(QuestionFlow[s.step].text), now);
      Answer(s, incoming, now, emailDelivered) == Outcome(Some(e2.session), e1.sent + e2.sent, None)
  {
  }

  /** `Answer` for an accepted answer: stored, then the next question or the completion. */
  lemma AnswerAccepted(s: Session, incoming: string, now: int, emailDelivered: bool, v: string)
    requires 0 <= s.step < |QuestionFlow| && incoming != ""
    requires Validate(QuestionFlow[s.step], incoming) == Accepted(v)
    ensures var next := s.(answers := s.answers[QuestionFlow[s.step].key := v], step := s.step + 1);
      Answer(s, incoming, now, emailDelivered) ==
        if next.step < |QuestionFlow| then
          var e := Emit(next, TextMessage(QuestionFlow[next.step].text), now);
          Outcome(Some(e.session), e.sent, None)
        else
          var e := Emit(next, TextMessage(CompletionText(emailDelivered)), now);
          Outcome(None, e.sent, Some(Completion(next.answers,
            ComputeValuation(ProfitAnswer(next.answers), AnswerOr(next.answers, "revenueSource")))))
  {
  }

  /** Replacing or removing one session keeps every session well formed. */
  lemma UpdatedKeepsWellFormed(states: map<string, Session>, userId: string, session: Option<Session>)
    requires forall u :: u in states ==> WellFormed(states[u])
    requires session.Some? ==> WellFormed(session.value)
    ensures forall u :: u in Updated(states, userId, session) ==> WellFormed(Updated(states, userId, session)[u])
  {
  }

  /** The checks of the webhook for one answer, with `parse_multi_choice` run
      as its loops. */
  method CheckAnswer(q: Question, answer: string) returns (verdict: Verdict)
    ensures verdict == Validate(q, answer)
  {
    var normalized := Trim(answer);
    match q.kind {
      case Numeric =>
        verdict := if IsNumber(normalized) then Accepted(normalized) else Rejected(NumberError);
      case Link =>
        verdict := if IsValidLink(normalized) then Accepted(normalized) else Rejected(LinkError);
      case EmailAddress =>
        verdict := if IsValidEmail(normalized) then Accepted(normalized) else Rejected(EmailError);
      case MultiChoiceOf(choices) =>
        var selected := ParseMultiChoice(normalized, choices);
        if selected == [] {
          verdict := Rejected(ChoiceError);
        } else {
          verdict := Accepted(Join(selected, ","));
        }
      case Phone =>
        if Lower(normalized) == "skip" {
          normalized := "";
        }
        verdict := Accepted(normalized);
      case FreeText =>
        verdict := Accepted(normalized);
    }
  }
}
