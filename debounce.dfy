/** The outgoing-message debounce of `_can_send_for_user` and `_record_outgoing`:
    a text identical to the last one sent to the same user is suppressed while
    less than `OutgoingDebounceSeconds` have passed. Time is an integer count
    of seconds supplied by the caller. */
module Debounce {
  import opened Wrappers

  /** The default of the `OUTGOING_DEBOUNCE_SECONDS` setting. */
  const OutgoingDebounceSeconds: int := 1

  /** The `last_outgoing` record: text and time stamp. */
  datatype Sent = Sent(text: string, ts: int)

  /** `_can_send_for_user` for a user whose last recorded send is `last`. */
  function CanSend(last: Option<Sent>, text: string, now: int): (ok: bool)
    ensures last.None? ==> ok
    ensures last.Some? && last.value.text != text ==> ok
  {
    match last
    case None => true
    case Some(s) => !(text == s.text && now - s.ts < OutgoingDebounceSeconds)
  }

  /** Only a repeat of the same text within the window is held back, and once
      the window has passed the same text goes out again. */
  lemma DebounceWindow(last: Sent, text: string, now: int)
    ensures !CanSend(Some(last), text, now) <==> text == last.text && now < last.ts + OutgoingDebounceSeconds
  {
  }
}
