/** What one message does to a well-formed session: the consent phase, an
    empty answer, a refused answer, an accepted answer and the completion,
    and that every session the webhook keeps stays well formed. */
module DialogueFacts {
  import opened Wrappers
  import opened Text
  import opened Number
  import opened Validators
  import opened MultiChoice
  import opened Valuation
  import opened Debounce
  import opened Dialogue

  /** The keys answered grow by the key of the question just answered. */
  lemma KeysBeforeNext(n: nat)
    requires n < |QuestionFlow|
    ensures KeysBefore(n + 1) == KeysBefore(n) + {QuestionFlow[n].key}
  {
    var a := KeysBefore(n + 1);
    var b := KeysBefore(n) + {QuestionFlow[n].key};
    forall k | k in a ensures k in b {
      var i :| 0 <= i < n + 1 && QuestionFlow[i].key == k;
      if i < n {
        assert k in KeysBefore(n);
      }
    }
    forall k | k in b ensures k in a {
      if k in KeysBefore(n) {
        var i :| 0 <= i < n && QuestionFlow[i].key == k;
        assert QuestionFlow[i].key in a;
      } else {
        assert QuestionFlow[n].key in a;
      }
    }
  }

  /** At consent, "no" in any of its spellings ends the session with the
      decline message. */
  lemma ConsentDeclined(s: Session, incoming: string, now: int, emailDelivered: bool)
    requires s.step == -1 && LastOutgoingFits(s) && Lower(Trim(incoming)) in NoReplies
    ensures var o := Transition(Some(s), incoming, now, emailDelivered);
      o.session.None? && o.sent == [TextMessage(NoResponseText)] && o.completed.None?
  {
    FixedTextsDiffer();
  }

  /** At consent, "yes" in any of its spellings moves to the first question
      and asks it (the answers, empty in a well-formed session, are kept). */
  lemma ConsentGiven(s: Session, incoming: string, now: int, emailDelivered: bool)
    requires s.step == -1 && LastOutgoingFits(s) && Lower(Trim(incoming)) in YesReplies
    ensures var o := Transition(Some(s), incoming, now, emailDelivered);
      && o.session == Some(Session(0, s.answers, Some(Sent(QuestionFlow[0].text, now))))
      && o.sent == [TextMessage(QuestionFlow[0].text)] && o.completed.None?
  {
    FixedTextsDiffer();
    RepliesDisjoint(Lower(Trim(incoming)));
  }

  /** At consent, any other reply keeps waiting and offers the consent buttons
      again, unless they went out less than the debounce window ago. */
  lemma ConsentRepeated(s: Session, incoming: string, now: int, emailDelivered: bool)
    requires s.step == -1
    requires Lower(Trim(incoming)) !in NoReplies && Lower(Trim(incoming)) !in YesReplies
    ensures var o := Transition(Some(s), incoming, now, emailDelivered);
      && o.completed.None? && o.session.Some?
      && o.session.value.step == -1 && o.session.value.answers == s.answers
      && (o.sent == [] <==> !CanSend(s.lastOutgoing, GreetingText, now))
      && (o.sent != [] ==> o.sent == [ConsentPrompt])
  {
  }

  /** An empty answer keeps the step and the answers and repeats the question
      with a notice, unless that notice went out less than the window ago. */
  lemma EmptyAnswer(s: Session, now: int, emailDelivered: bool)
    requires 0 <= s.step < |QuestionFlow|
    ensures var o := Transition(Some(s), "", now, emailDelivered);
      && o.completed.None? && o.session.Some?
      && o.session.value.step == s.step && o.session.value.answers == s.answers
      && (o.sent == [] <==> !CanSend(s.lastOutgoing, NoTextNotice(s.step), now))
      && (o.sent != [] ==> o.sent == [TextMessage(NoTextNotice(s.step))])
  {
  }

  /** A refused answer keeps the step and the answers and always sends the
      error followed by the question again. */
  lemma RejectedAnswer(s: Session, incoming: string, now: int, emailDelivered: bool)
    requires 0 <= s.step < |QuestionFlow| && LastOutgoingFits(s) && incoming != ""
    requires Validate(QuestionFlow[s.step], incoming).Rejected?
    ensures var o := Transition(Some(s), incoming, now, emailDelivered);
      var q := QuestionFlow[s.step];
      && o.completed.None?
      && o.session == Some(Session(s.step, s.answers, Some(Sent(q.text, now))))
      && o.sent == [TextMessage(ErrorText(q.kind)), TextMessage(q.text)]
  {
    ErrorIsNew(s.step);
  }

  /** An accepted answer is stored under its question's key and the next
      question is asked. */
  lemma AcceptedAnswer(s: Session, incoming: string, now: int, emailDelivered: bool)
    requires 0 <= s.step < |QuestionFlow| - 1 && LastOutgoingFits(s) && incoming != ""
    requires Validate(QuestionFlow[s.step], incoming).Accepted?
    ensures var o := Transition(Some(s), incoming, now, emailDelivered);
      var q := QuestionFlow[s.step];
      var next := QuestionFlow[s.step + 1];
      && o.completed.None?
      && o.session == Some(Session(s.step + 1, s.answers[q.key := Validate(q, incoming).value], Some(Sent(next.text, now))))
      && o.sent == [TextMessage(next.text)]
  {
    NextPromptIsNew(s.step);
  }

  /** The answer to the last question completes the record: the session is
      removed, the completion message is sent, and the valuation is computed
      from the profit the user gave, which always parses as a number. */
  lemma LastAnswer(s: Session, incoming: string, now: int, emailDelivered: bool)
    requires WellFormed(s) && s.step == |QuestionFlow| - 1 && incoming != ""
    ensures Validate(QuestionFlow[s.step], incoming).Accepted?
    ensures var o := Transition(Some(s), incoming, now, emailDelivered);
      var q := QuestionFlow[s.step];
      var answers := s.answers[q.key := Validate(q, incoming).value];
      && o.session.None?
      && o.sent == [TextMessage(CompletionText(emailDelivered))]
      && answers.Keys == KeysBefore(|QuestionFlow|)
      && "profit" in answers && "revenueSource" in answers && ParseNumber(answers["profit"]).Some?
      && o.completed == Some(Completion(answers,
           ComputeValuation(ParseNumber(answers["profit"]), answers["revenueSource"])))
  {
    var q := QuestionFlow[s.step];
    var v := Validate(q, incoming).value;
    LastOutcome(s, incoming, now, emailDelivered);
    KeysBeforeNext(s.step);
    ProfitIsNumber(s);
    assert q.key == "phone";
    var answers := s.answers[q.key := v];
    assert answers["profit"] == s.answers["profit"];
    assert answers["profit"] != "" by { NumberNotEmpty(answers["profit"]); }
    assert ProfitAnswer(answers) == ParseNumber(answers["profit"]);
  }

  lemma NumberNotEmpty(t: string)
    requires ParseNumber(t).Some?
    ensures t != ""
  {
  }

  /** What the webhook does with any answer to the phone question. */
  lemma LastOutcome(s: Session, incoming: string, now: int, emailDelivered: bool)
    requires s.step == |QuestionFlow| - 1 && LastOutgoingFits(s) && incoming != ""
    ensures Validate(QuestionFlow[s.step], incoming).Accepted?
    ensures var o := Transition(Some(s), incoming, now, emailDelivered);
      var q := QuestionFlow[s.step];
      var answers := s.answers[q.key := Validate(q, incoming).value];
      && o.session.None?
      && o.sent == [TextMessage(CompletionText(emailDelivered))]
      && o.completed == Some(Completion(answers,
           ComputeValuation(ProfitAnswer(answers), AnswerOr(answers, "revenueSource"))))
  {
    FixedTextsDiffer();
  }

  /** Once past the revenue-source question, the profit and the revenue
      sources have been answered and the profit parses as a number. */
  lemma ProfitIsNumber(s: Session)
    requires WellFormed(s) && s.step > 7
    ensures "profit" in s.answers && "revenueSource" in s.answers
    ensures ParseNumber(s.answers["profit"]).Some?
  {
    assert QuestionFlow[3].key == "profit" && QuestionFlow[7].key == "revenueSource";
    assert "profit" in KeysBefore(s.step) && "revenueSource" in KeysBefore(s.step);
    assert AnswerFits(QuestionFlow[3], s.answers["profit"]);
  }

  /** Every session the webhook keeps satisfies `WellFormed`. */
  lemma TransitionKeepsWellFormed(current: Option<Session>, incoming: string, now: int, emailDelivered: bool)
    requires current.Some? ==> WellFormed(current.value)
    ensures var o := Transition(current, incoming, now, emailDelivered);
      o.session.Some? ==> WellFormed(o.session.value)
  {
    if current.Some? {
      var s := current.value;
      if s.step == -1 {
        var resp := Lower(Trim(incoming));
        if resp in NoReplies {
          ConsentDeclined(s, incoming, now, emailDelivered);
        } else if resp in YesReplies {
          ConsentGiven(s, incoming, now, emailDelivered);
        } else {
          ConsentRepeated(s, incoming, now, emailDelivered);
        }
      } else if incoming == "" {
        EmptyAnswer(s, now, emailDelivered);
      } else if Validate(QuestionFlow[s.step], incoming).Rejected? {
        RejectedAnswer(s, incoming, now, emailDelivered);
      } else if s.step < |QuestionFlow| - 1 {
        AcceptedAnswer(s, incoming, now, emailDelivered);
        AcceptedAnswerFits(s.step, incoming);
        AdvanceKeepsWellFormed(s, Validate(QuestionFlow[s.step], incoming).value, now);
      }
    }
  }

  /** An accepted answer fits its question. */
  lemma AcceptedAnswerFits(step: nat, incoming: string)
    requires step < |QuestionFlow| && Validate(QuestionFlow[step], incoming).Accepted?
    ensures AnswerFits(QuestionFlow[step], Validate(QuestionFlow[step], incoming).value)
  {
    FlowChoicesWellLabelled();
  }

  /** A session that stores a fitting answer and asks the next question is well formed. */
  lemma AdvanceKeepsWellFormed(s: Session, v: string, now: int)
    requires WellFormed(s) && 0 <= s.step < |QuestionFlow| - 1
    requires AnswerFits(QuestionFlow[s.step], v)
    ensures var q := QuestionFlow[s.step];
      WellFormed(Session(s.step + 1, s.answers[q.key := v], Some(Sent(QuestionFlow[s.step + 1].text, now))))
  {
    StoreAnswer(s.answers, s.step, v);
  }

  /** Storing a fitting answer to question `step` extends the answers of the
      first `step` questions to those of the first `step + 1`. */
  lemma StoreAnswer(answers: map<string, string>, step: nat, v: string)
    requires step < |QuestionFlow|
    requires answers.Keys == KeysBefore(step)
    requires forall i :: 0 <= i < step ==> AnswerFits(QuestionFlow[i], answers[QuestionFlow[i].key])
    requires AnswerFits(QuestionFlow[step], v)
    ensures var stored := answers[QuestionFlow[step].key := v];
      && stored.Keys == KeysBefore(step + 1)
      && forall i :: 0 <= i < step + 1 ==> AnswerFits(QuestionFlow[i], stored[QuestionFlow[i].key])
  {
    var q := QuestionFlow[step];
    var stored := answers[q.key := v];
    KeysBeforeNext(step);
    KeysDistinct();
    forall i | 0 <= i < step + 1
      ensures AnswerFits(QuestionFlow[i], stored[QuestionFlow[i].key])
    {
      if i < step {
        assert QuestionFlow[i].key != q.key;
        assert stored[QuestionFlow[i].key] == answers[QuestionFlow[i].key];
      }
    }
  }
}
