# App-valuation WhatsApp bot — a Dafny model

The bot asks a WhatsApp user for consent. It then puts ten questions in a
fixed order (`QUESTION_FLOW`): name, store link, revenue, profit, spends, DAU,
MAU, revenue sources, email and phone. It checks each answer, and once the last
question is answered it computes an indicative valuation from the profit and
the revenue sources. The model covers the core of `app.py`:

- the validators (`is_number`, `is_valid_link`, `is_valid_email`);
- the multi-choice parser (`parse_multi_choice`);
- the valuation formula (`compute_valuation`);
- the bounded cache of processed message ids (`mark_message_processed`);
- the outgoing-message debounce (`_can_send_for_user`, `_record_outgoing`);
- the conversation state machine inside the POST branch of `webhook`.

Modules:

- `Text`: the string helpers the source gets from Python, namely `strip`,
  ASCII `lower`, `startswith`, `in` on strings, `re.split(r"[,\s]+", …)` and
  `",".join`. It proves that the split's parts, with the removed separator
  runs put back, rebuild the input, and that a join of separator-free labels
  splits back to the same labels.
- `Number`: `float(str(val))` on plain decimal strings, as `ParseNumber`.
- `Validators`: the link and email checks. `EmailIsRegexMatch` proves that the
  scan-based email check is exactly the regular expression `[^@]+@[^@]+\.[^@]+`
  matched at the start of the string.
- `MultiChoice`: the selection as specification functions, plus the source's
  two loops as methods (with invariants) proved equal to them. The key facts
  are: only labels come out, none twice, in first-selection order, and every
  label selected by a key or named by a token comes out.
- `Valuation`: `compute_valuation`, and its equality with a tier-table lookup.
  Also proved: the floor, monotonicity in the profit, the priority of `ad`
  over `sub`, and worked examples.
- `MessageCache`: the class `ProcessedIds`, holding the id list and its mirror
  set. `Mark` is proved against `Remember`: keep at most 5000 distinct ids and
  evict the oldest.
- `Debounce`: `CanSend`, i.e. the same text within one second is suppressed.
- `Dialogue`: the data (questions, texts, sessions) and the pure transition of
  one user's session on one incoming message, plus facts about the fixed
  question flow.
- `DialogueFacts`: what each kind of message does to a well-formed session,
  and that every session the bot keeps stays well formed.
- `Webhook`: the class `Bot` holding `user_states` and the id cache. `Handle`
  is one incoming message. It is proved to perform the pure transition, to
  drop duplicate message ids, and to keep every session well formed.

Sending a message goes through the debounce and records the text in the
session (`Emit`). The send itself is assumed to succeed, i.e. the WhatsApp
credentials are configured. The clock is the integer parameter `now` in
seconds. Whether the valuation email was delivered is the boolean parameter
`emailDelivered`.

Some behaviour of `app.py` that the model follows as written:

- the ten questions of `QUESTION_FLOW` are the only ones; none asks which
  store the app is listed in (App Store, Play Store or both);
- a session has no timeout: it lasts until it is declined or completed;
- a yes/no reply while a question is pending is taken as the answer to that
  question;
- no separate IAP tier exists: IAP falls to the flat 2.5 multiplier;
- multi-choice answers are stored joined with `","` (not `", "`);
- all answers are stored as strings;
- the email pattern is anchored only at its start, so `"a@b.c@"` is accepted
  (`Validators.EmailTrailingAt`).

## Model

| member | source | states |
|---|---|---|
| Text.Trim | app.py:427 | the result is the input with a run of whitespace dropped at the front (as many characters as `lstrip` drops) and one at the back, and it neither starts nor ends with whitespace |
| Text.TrimIdempotent | app.py:233 | stripping twice is the same as stripping once |
| Text.Lower | app.py:233 | same length; each character is the lower-case form of the input's character at the same index |
| Text.StartsWith | app.py:225 | true exactly when the prefix is an initial slice of the string |
| Text.Contains | app.py:262 | true exactly when the pattern occurs at some index |
| Text.Split | app.py:234 | at least one part, and no part contains a comma or whitespace |
| Text.SeparatorRuns | app.py:234 | one non-empty run of commas and whitespace between each two neighbouring parts of the split |
| Text.SplitRebuilds | app.py:234 | the parts of the split with the removed separator runs put back between them give the input again |
| Text.SplitInnerPiecesNonEmpty | app.py:234 | only the first and the last part of the split can be empty, so the parts are the maximal separator-free runs |
| Text.Join | app.py:449 | joining nothing gives ""; otherwise the result begins with the first part |
| Text.JoinIsInterleave | app.py:449 | joining a non-empty list gives the parts in order with exactly one separator between each two neighbours |
| Text.SplitFirst | app.py:234 | a separator-free head, one separator, then a non-separator splits into the head followed by the split of the rest |
| Text.SplitJoin | app.py:449 | non-empty separator-free labels joined with "," split back into exactly those labels |
| Number.ParseUnsigned | app.py:219 | succeeds exactly on digits with at most one dot and at least one digit, and the value is non-negative |
| Number.ParseNumber | app.py:217-222 | succeeds exactly on an optional sign followed by an unsigned decimal |
| Number.ParseDecimalString | app.py:217-222 | the decimal spelling of every natural number parses back to that number |
| Number.ParseNegative | app.py:219 | a leading minus negates the parsed value and fails exactly when the rest fails |
| Number.ParseIntegerExample | app.py:219 | "20000" parses as 20000 |
| Number.ParseRejectsExamples | app.py:217-222 | "abc", "" and "." are not numbers |
| Number.IsNumber | app.py:217-222 | true exactly on an optionally signed decimal, so never on the empty string |
| Validators.IsValidLink | app.py:224-225 | true exactly when the string begins with http:// or https:// |
| Validators.IsValidEmail | app.py:227-228 | an accepted address contains an @, does not start with one, and has at least five characters |
| Validators.EmailIsRegexMatch | app.py:227-228 | the email check holds exactly when non-@ text, an @, non-@ text, a dot and non-@ text occur at the start of the string |
| Validators.EmailAccepted | app.py:228 | "a@b.com" is accepted |
| Validators.EmailWithoutDot | app.py:228 | "a@b" is refused |
| Validators.EmailWithoutUser | app.py:228 | "@b.com" is refused |
| Validators.EmailDotFirst | app.py:228 | "a@.com" is refused |
| Validators.EmailTrailingAt | app.py:228 | "a@b.c@" is accepted, because the pattern is anchored only at the start |
| Validators.LinkExamples | app.py:225 | an https store link is accepted; a bare host and a malformed scheme are refused |
| MultiChoice.LabelFor | app.py:237-238 | none exactly when no choice has the key; otherwise a label of the choices |
| MultiChoice.LabelForFirstKey | app.py:237-238 | the label found for a key is that of the first entry with the key |
| MultiChoice.LabelsNamed | app.py:240-242 | every value returned is a label whose lower-case form is the token |
| MultiChoice.LabelsNamedComplete | app.py:240-242 | every label whose lower-case form is the token is returned |
| MultiChoice.Matches | app.py:236-242 | only labels of the choices are selected by one token |
| MultiChoice.Selection | app.py:235-242 | only labels of the choices are selected by the tokens |
| MultiChoice.Dedup | app.py:243-247 | dropping repeats never lengthens the list and keeps only its own elements |
| MultiChoice.DedupIsFirstOccurrences | app.py:243-247 | dropping repeats leaves no duplicates, the same members, in the order of first occurrence |
| MultiChoice.Tokens | app.py:233-234 | at least one token, none holding a comma or whitespace; a blank reply is the single empty token |
| MultiChoice.MultiChoiceSelection | app.py:230-232 | an empty reply selects nothing |
| MultiChoice.MatchesInSelection | app.py:235-242 | whatever one token selects is in the selection of all the tokens |
| MultiChoice.KeySelected | app.py:230-247 | a token equal to a key puts the label of the first entry with that key in the result |
| MultiChoice.LabelSelected | app.py:230-247 | a token that is no key puts every label whose lower-case form it is in the result |
| MultiChoice.MultiChoiceSelectionMeaning | app.py:230-247 | an empty reply yields nothing; otherwise the parse yields only labels, none twice, exactly those selected by some token, in first-selection order |
| MultiChoice.ParseMultiChoice | app.py:230-247 | the two loops compute the specification selection |
| MultiChoice.MatchToken | app.py:237-242 | one pass of the token loop appends what the token selects: the label of its key, else the labels it names |
| MultiChoice.ValuesNamed | app.py:240-242 | the inner loop over the choice values computes the labels named by the token |
| MultiChoice.RemoveRepeats | app.py:243-247 | the loop that drops repeats computes the first-occurrence list |
| MultiChoice.PlainTokens | app.py:233-234 | a reply with no upper-case letter and no whitespace at either end is split as it is |
| MultiChoice.SplitTwoKeys | app.py:234 | two digits around a comma split into the two digits |
| MultiChoice.TwoKeyTokens | app.py:233-234 | two digit keys separated by a comma, such as "1,3" or "1,1", give exactly those two tokens |
| MultiChoice.SelectTwoKeys | app.py:230-247 | a reply of two digit keys selects what each key selects, with repeats dropped |
| MultiChoice.SelectByKeys | app.py:230-247 | "1,3" on the revenue-source choices selects IAP then Ad |
| MultiChoice.SelectRepeatedKey | app.py:243-247 | "1,1" selects IAP once |
| MultiChoice.SplitPlainChar | app.py:234 | a single digit splits into itself alone |
| MultiChoice.OneKeyToken | app.py:233-234 | a single digit key is exactly one token |
| MultiChoice.ShortTokenNamesNothing | app.py:148 | no one-character token names an IAP, Subscription or Ad label |
| MultiChoice.UnknownKey | app.py:236-242 | "4" is neither a key nor a label of the revenue-source choices and selects nothing |
| MultiChoice.LabelsNamedOfThree | app.py:240-242 | for three choices, the labels named by a token are each label whose lower-case form is the token, in order |
| Valuation.ComputeValuation | app.py:252-274 | every figure is at least 1000, min <= estimate <= max, and the estimate is the midpoint |
| Valuation.ValuationFloor | app.py:260-261 | a missing or unparsable profit, or one under 1000, gives 1000 for all three figures |
| Valuation.FirstTier | app.py:262-269 | a tier is found only when the label contains its marker, and none is found exactly when no marker occurs |
| Valuation.FirstTierIsFirstMatch | app.py:262-269 | the tier found is the first in table order whose marker occurs, as the order of the source's tests makes it |
| Valuation.SubscriptionContainsSub | app.py:266 | a label containing "subscription" contains "sub", so that test of the source is redundant |
| Valuation.ValuationIsTableLookup | app.py:252-274 | the formula equals the lookup of the first matching tier in the table [ad 1.0–1.7, sub 1.5–2.3] with flat 2.5 otherwise |
| Valuation.ValuationMonotone | app.py:260-272 | for a fixed label, a larger profit never lowers the minimum, the estimate or the maximum |
| Valuation.ValuationTiers | app.py:262-272 | from 1000 upwards: "ad" gives 1.0–1.7, else "sub" gives 1.5–2.3, else a flat 2.5 times the profit |
| Valuation.SubscriptionExample | app.py:266-269 | profit 20000 with "Subscription" gives 30000 to 46000, estimate 38000 |
| Valuation.AdExample | app.py:262-265 | profit 5000 with "Ad" gives 5000 to 8500, estimate 6750 |
| Valuation.InAppPurchaseOnlyExample | app.py:270-272 | profit 5000 with "IAP" gives a flat 12500 |
| Valuation.PriorityExample | app.py:262-266 | "Subscription,Ad" is valued on the ad tier, which is tested first |
| Valuation.BoundaryExamples | app.py:260-272 | 999.99 is floored to 1000; exactly 1000 is not floored |
| MessageCache.Remember | app.py:124-135 | the ids stay distinct and at most 5000; an empty or known id changes nothing; a new id is remembered |
| MessageCache.RememberEvictsOldest | app.py:130-135 | a new id is appended after the kept ids in order, and exactly the oldest is dropped, only when the list was full |
| MessageCache.AppendDistinct | app.py:130-134 | appending a new id, or dropping the first, keeps the ids distinct |
| MessageCache.ProcessedIds.constructor | app.py:121-122 | the cache starts empty, with the set mirroring the list |
| MessageCache.ProcessedIds.Mark | app.py:124-135 | the list becomes Remember of the old list, and the set keeps mirroring it |
| Debounce.CanSend | app.py:156-169 | with no last send, or a different last text, the message may always go out |
| Debounce.DebounceWindow | app.py:167-168 | a send is suppressed exactly when the text equals the last one and less than one second has passed |
| Dialogue.Emit | app.py:175-212 | when the debounce allows it the message is sent and recorded as the last text with the current time; otherwise nothing is sent and the session is unchanged; the step and answers never change |
| Dialogue.Validate | app.py:427-452 | an accepted answer fits its question type; a refusal happens only for checked types and carries that type's error text |
| Dialogue.ValidateMeaning | app.py:427-452 | a number, link or email answer is accepted exactly when its stripped form passes the check, and the stripped form is stored; free text is stored stripped; a phone answer of "skip" in any case is stored as ""; a multi-choice answer is accepted exactly when it selects something, and the stored text is the selected labels joined with ",", which splits back into them |
| Dialogue.ProfitAnswer | app.py:253-256 | a profit figure exists exactly when a profit answer is stored and is a number, and it is that number |
| Dialogue.AnswerOr | app.py:471 | the stored answer for the key, else "" |
| Dialogue.Consent | app.py:397-416 | nothing is completed and at most one message is sent; the session ends exactly on a "no" spelling; otherwise the answers are kept and the step becomes 0 on a "yes" spelling and stays put on any other reply |
| Dialogue.Answer | app.py:418-506 | at most two messages; the step advances exactly when a non-empty answer is accepted, and the answers then gain it under the question's key, otherwise they are kept; the session ends, with a completed record, exactly when the last question is answered |
| Dialogue.Incoming | app.py:377-384 | the button id when there is one; empty exactly when there is neither a button id nor non-blank text |
| Dialogue.Transition | app.py:386-467 | an unknown user gets a consent session and the greeting buttons; at most two messages are sent; a completed record ends the session; a kept session's step stays or advances by one |
| Dialogue.StoredSelectionFits | app.py:444-449 | a non-empty selection stored joined with "," splits back into that selection |
| Dialogue.KeysDistinct | app.py:140-151 | the ten question keys are pairwise distinct |
| Dialogue.NextPromptIsNew | app.py:463-466 | the next prompt differs from the current prompt and its empty-answer notice, so the debounce never holds it back |
| Dialogue.ErrorIsNew | app.py:454-457 | an error text differs from its question's prompt and notice, so the error always goes out |
| Dialogue.FixedTextsDiffer | app.py:42-44 | the completion texts differ from the last prompt and its notice; the first prompt and the decline text differ from the greeting |
| Dialogue.RepliesDisjoint | app.py:402-410 | no reply is both a yes and a no spelling |
| Dialogue.FlowChoicesWellLabelled | app.py:148 | the revenue-source labels are non-empty and contain no comma or whitespace |
| DialogueFacts.KeysBeforeNext | app.py:462-463 | the keys of the first n+1 questions are those of the first n plus key n |
| DialogueFacts.ConsentDeclined | app.py:402-409 | at consent, any "no" spelling sends the decline text and removes the session |
| DialogueFacts.ConsentGiven | app.py:410-413 | at consent, any "yes" spelling moves to step 0 and sends the first question |
| DialogueFacts.ConsentRepeated | app.py:414-416 | any other reply keeps the consent step and re-sends the greeting buttons unless the debounce holds them back |
| DialogueFacts.EmptyAnswer | app.py:419-422 | an empty answer keeps the step and answers and sends the notice unless the debounce holds it back |
| DialogueFacts.RejectedAnswer | app.py:454-459 | a refused answer keeps the step and answers and sends the error then the question again |
| DialogueFacts.AcceptedAnswer | app.py:461-467 | an accepted answer is stored under its key, the step advances, and the next question is sent |
| DialogueFacts.LastAnswer | app.py:469-506 | the last answer is always accepted; the session is removed, the completion text sent, all ten keys answered, the profit a number, and the valuation computed from the profit and revenue sources |
| DialogueFacts.LastOutcome | app.py:469-506 | after the phone question the session ends with the completion text and the valuation of the stored answers |
| DialogueFacts.ProfitIsNumber | app.py:431-434 | past the revenue-source question the profit and revenue sources are stored and the profit parses as a number |
| DialogueFacts.TransitionKeepsWellFormed | app.py:386-467 | every session kept after a message is well formed: the step is in range, exactly the earlier questions are answered with fitting answers, and the last text sent is recorded |
| DialogueFacts.AcceptedAnswerFits | app.py:427-452 | an accepted answer fits its question |
| DialogueFacts.AdvanceKeepsWellFormed | app.py:461-466 | storing a fitting answer and asking the next question keeps the session well formed |
| DialogueFacts.StoreAnswer | app.py:462 | storing a fitting answer extends the answers of the first n questions to those of the first n+1 |
| Webhook.Bot.constructor | app.py:118-122 | no sessions and an empty id cache |
| Webhook.Bot.Send | app.py:175-212 | the user's session becomes the session after the debounced send, and exactly the emitted messages go out |
| Webhook.Bot.Handle | app.py:367-395 | a duplicate id changes nothing and sends nothing; otherwise the id is remembered and the user's session becomes the transition's result; every kept session stays well formed |
| Webhook.Bot.Step | app.py:386-422 | a new user gets the greeting buttons and a consent session; a known user gets the consent or answer step |
| Webhook.Bot.HandleConsent | app.py:397-416 | the consent phase updates the session as the pure consent step does |
| Webhook.Bot.Decline | app.py:402-409 | the decline text is sent subject to the debounce and the session is removed |
| Webhook.Bot.Begin | app.py:410-413 | the step becomes 0 and the first question is sent |
| Webhook.Bot.HandleAnswer | app.py:418-459 | the answer phase updates the session as the pure answer step does |
| Webhook.Bot.Reject | app.py:454-459 | the error and then the prompt are sent, each subject to the debounce |
| Webhook.Bot.Advance | app.py:461-506 | the answer is stored and the step advances; then either the next question is sent, or the completion text is sent, the session removed, and the valuation of the stored answers returned |
| Webhook.SessionOf | app.py:387 | the user's session exactly when the user has one |
| Webhook.Updated | app.py:393-407 | the user's entry is set to the new session or removed when there is none; every other user's entry is unchanged |
| Webhook.CheckAnswer | app.py:424-452 | the type-by-type checks of the webhook compute the specified verdict |
| Webhook.UpdatedKeepsWellFormed | app.py:393-407 | replacing or removing one session keeps every session well formed |

## Left out

- The GET verification handshake, JSON envelope walking and the `entry`/`changes` loops (app.py:345-366) are not modelled. `Handle` takes one message's fields: the sender, the message id (empty when none), the button id (empty when none) and the text body.
- How the message id is picked from `id`, `message_id` or `timestamp` (line 368), and a missing `from` field, are not modelled.
- The WhatsApp HTTP calls are not modelled. A send is assumed to be configured and to succeed, so it is always recorded. An unconfigured token or a failed post, which the source skips without recording, is not modelled.
- Google Sheets initialisation and `save_to_sheet` (lines 65-112, 314-340) are not modelled.
- SMTP `send_valuation_email` (lines 279-309) is not modelled. Its outcome is the `emailDelivered` parameter.
- The HTML and plain-text formatting of the valuation (lines 478-493) is not modelled.
- `completed_at`, `COMPLETION_COOLDOWN_SECONDS` and `started_at` are not modelled. `started_at` and `COMPLETION_COOLDOWN_SECONDS` are never read. `completed_at` is read only into the local `completed_time` (line 505), which nothing uses, so the cooldown the comments mention has no effect.
- The environment-configurable texts and constants are fixed at their defaults.
- Concurrency between requests is not modelled, and neither is the `/health` endpoint.
- For a new user, the source's greeting send records `last_outgoing` and line 393 then overwrites the state with `last_outgoing: None`. The model keeps the overwritten record, `None`.
- Number.ParseNumber: models `float()` only on plain decimal strings. Infinities, `nan`, exponents, underscores, surrounding whitespace and non-ASCII decimal digits (such as full-width "２００００", which `float()` reads as 20000) are refused, although `float()` accepts them.
- Number.ParseNumber: values are exact reals rather than binary floating point.
- Valuation.ComputeValuation: its bound of at least 1000 on every figure rests on the decimal-only parse. `float()` accepts "nan", so the source accepts "nan" as a profit answer; every comparison with NaN is false, so the floor test at line 260 fails and `compute_valuation` returns NaN figures. The model has no NaN.
- Text.Lower: applies to ASCII letters only. Python's full Unicode lower-casing is not modelled.
- Dialogue.Emit: time is integer seconds. The source compares floating-point seconds against the one-second window.
- MultiChoice.SelectByKeys: the worked examples use keys only. Examples that select by label name are not included, because the fully unfolded literals are too costly to prove. Selection by key and by label name is stated for every reply by `KeySelected` and `LabelSelected`.
