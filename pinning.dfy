/**
 * The pure decisions behind the message handler: who counts as a group
 * administrator, when a biography matches the group's keyword, and when the
 * 12-hour cooldown has passed.
 */
module Pinning {
  import opened Wrappers
  import opened Text

  /** `PIN_INTERVAL = timedelta(hours=12)`, in seconds. */
  const PIN_INTERVAL: int := 12 * 60 * 60

  /** A cooldown record is keyed by (chat id, user id). */
  type PinKey = (int, int)

  /** The member statuses the platform reports for group administrators. */
  predicate IsGroupAdmin(status: string) {
    status == "administrator" || status == "creator"
  }

  /**
   * Of the six member statuses the platform reports, exactly "creator" and
   * "administrator" count as group administrators.
   */
  lemma AdminStatuses()
    ensures IsGroupAdmin("creator") && IsGroupAdmin("administrator")
    ensures forall s :: s in ["member", "restricted", "left", "kicked"] ==> !IsGroupAdmin(s)
  {
  }

  /** The window of `bio` starting at index `i` equals `keyword`, ignoring case. */
  predicate MatchesAt(keyword: string, bio: string, i: int) {
    0 <= i <= |bio| - |keyword| && Lower(bio[i..i + |keyword|]) == Lower(keyword)
  }

  /**
   * `keyword.lower() in bio.lower()`: some window of `bio` equals `keyword`
   * once both are lower-cased.
   */
  predicate KeywordMatches(keyword: string, bio: string)
    ensures KeywordMatches(keyword, bio) <==> exists i :: MatchesAt(keyword, bio, i)
  {
    ContainsAt(Lower(bio), Lower(keyword));
    MatchWindows(keyword, bio);
    Contains(Lower(bio), Lower(keyword))
  }

  lemma MatchWindows(keyword: string, bio: string)
    ensures (exists i :: OccursAt(Lower(bio), Lower(keyword), i)) <==> exists i :: MatchesAt(keyword, bio, i)
  {
    forall i ensures OccursAt(Lower(bio), Lower(keyword), i) <==> MatchesAt(keyword, bio, i) {
      if 0 <= i <= |bio| - |keyword| {
        LowerSlice(bio, i, i + |keyword|);
      }
    }
  }

  /**
   * `not last_time or now - last_time >= PIN_INTERVAL`: there is no record, or
   * the record is at least 12 hours old. A `now` at or before the record never passes.
   */
  predicate CooldownElapsed(last: Option<int>, now: int)
    ensures last.None? ==> CooldownElapsed(last, now)
    ensures CooldownElapsed(last, now) && last.Some? ==> last.value < now
  {
    last.None? || now - last.value >= PIN_INTERVAL
  }

  /** Which branch of the message handler was taken. */
  datatype PinOutcome =
    | NotSupergroup  // no message, no chat, or a chat that is not a supergroup
    | AdminExempt    // the sender administers the group
    | NoKeyword      // the group has no keyword, or an empty one
    | NoMatch        // the biography does not contain the keyword
    | OnCooldown     // the sender was pinned here less than 12 hours ago
    | PinFailed      // the platform refused the pin
    | Pinned         // the message was pinned and the time recorded

  /** Every condition the handler checks before it asks the platform to pin. */
  predicate PinAttempted(hasMessage: bool, chatType: Option<string>, status: string,
                         keyword: Option<string>, bio: Option<string>, last: Option<int>, now: int)
  {
    && hasMessage && chatType == Some("supergroup")
    && !IsGroupAdmin(status)
    && keyword.Some? && keyword.value != ""
    && KeywordMatches(keyword.value, bio.GetOr(""))
    && CooldownElapsed(last, now)
  }

  /**
   * The guard chain of the message handler, in the handler's order. `keyword`
   * is the group's entry, `last` the sender's cooldown record in this group,
   * `pinOk` whether the platform accepts the pin.
   */
  function PinDecision(hasMessage: bool, chatType: Option<string>, status: string, keyword: Option<string>,
                       bio: Option<string>, last: Option<int>, now: int, pinOk: bool): (r: PinOutcome)
    ensures r == Pinned <==> PinAttempted(hasMessage, chatType, status, keyword, bio, last, now) && pinOk
    ensures r == PinFailed <==> PinAttempted(hasMessage, chatType, status, keyword, bio, last, now) && !pinOk
    ensures IsGroupAdmin(status) ==> r !in {Pinned, PinFailed}
    ensures r in {Pinned, PinFailed} ==> keyword.Some? && KeywordMatches(keyword.value, bio.GetOr(""))
    ensures r in {Pinned, PinFailed} && last.Some? ==> now >= last.value + PIN_INTERVAL
  {
    if !hasMessage || chatType != Some("supergroup") then NotSupergroup
    else if IsGroupAdmin(status) then AdminExempt
    else if keyword.None? || keyword.value == "" then NoKeyword
    else if !KeywordMatches(keyword.value, bio.GetOr("")) then NoMatch
    else if !CooldownElapsed(last, now) then OnCooldown
    else if !pinOk then PinFailed
    else Pinned
  }
}
