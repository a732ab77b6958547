/**
 * The bot's three process-wide stores and its handlers, each handler one
 * atomic transition whose platform answers (member status, biography, whether
 * a pin or send succeeds, the clock) arrive as parameters.
 */
module Bot {
  import opened Wrappers
  import opened Text
  import opened Pinning
  import opened Broadcasting
  import opened Sets

  /** The bot admin seeded at start-up. */
  const SEED_ADMIN: int := 5888830421

  /** What `.get(chat_id, "<not set>")` shows for a group without a keyword. */
  const NOT_SET: string := "<not set>"

  /** One successful pin: the (chat, user) pair and the time it was recorded. */
  datatype PinRecord = PinRecord(key: PinKey, at: int)

  datatype KeywordReply = KeywordDenied | KeywordUsage | KeywordSet(keyword: string)

  datatype PanelReply = PanelDenied | Panel(keyword: string, pinnedUsers: nat)

  datatype CallbackReply = ShowKeyword(keyword: string) | SetKeywordHint | NoEdit

  datatype BroadcastReply = BroadcastDenied | BroadcastUsage | Broadcasted(text: string, count: nat)

  datatype AdminReply =
    | AdminDenied         // the caller is not a bot admin
    | AdminUsage          // no argument
    | InvalidId           // the argument is not an integer
    | Added(id: int)
    | Removed(id: int)
    | NotABotAdmin(id: int)

  datatype ListReply = ListDenied | AdminList(lines: seq<string>)

  /** The keyword shown for `chat`, or the sentinel when none is stored. */
  function KeywordOrNotSet(keywords: map<int, string>, chat: int): (r: string)
    ensures chat in keywords ==> r == keywords[chat]
    ensures chat !in keywords ==> r == NOT_SET
  {
    Lookup(keywords, chat).GetOr(NOT_SET)
  }

  class BotState {
    /** `group_required_keywords`: chat id to keyword. */
    var keywords: map<int, string>
    /** `last_pin_time`: (chat id, user id) to the time of the last successful pin. */
    var lastPin: map<PinKey, int>
    /** The keys of `lastPin` in insertion order, the order a dict iterates them in. */
    var pinOrder: seq<PinKey>
    /** `bot_admin_ids`. */
    var botAdmins: set<int>
    /** Every pin ever recorded, oldest first. */
    ghost var pinLog: seq<PinRecord>

    /**
     * `pinOrder` lists each key of `lastPin` once; every recorded pin is at or
     * before its pair's current record; and any two recorded pins of the same
     * pair lie at least 12 hours apart.
     */
    ghost predicate Valid()
      reads this
    {
      && (forall i, j :: 0 <= i < j < |pinOrder| ==> pinOrder[i] != pinOrder[j])
      && (forall k :: k in lastPin <==> k in pinOrder)
      && (forall i :: 0 <= i < |pinLog| ==> pinLog[i].key in lastPin && pinLog[i].at <= lastPin[pinLog[i].key])
      && (forall i, j :: 0 <= i < j < |pinLog| && pinLog[i].key == pinLog[j].key ==>
            pinLog[j].at - pinLog[i].at >= PIN_INTERVAL)
    }

    /** The stores at start-up: all empty but the seeded bot admin. */
    constructor ()
      ensures Valid()
      ensures keywords == map[] && lastPin == map[] && pinOrder == [] && pinLog == []
      ensures botAdmins == {SEED_ADMIN}
    {
      keywords := map[];
      lastPin := map[];
      pinOrder := [];
      botAdmins := {SEED_ADMIN};
      pinLog := [];
    }

    /**
     * `/setkeyword <word>`: a group admin overwrites the chat's keyword with
     * the stripped first argument; a refusal or a missing argument changes nothing.
     */
    method SetKeyword(chatId: int, status: string, args: seq<string>) returns (reply: KeywordReply)
      requires Valid()
      modifies this`keywords
      ensures Valid()
      ensures !IsGroupAdmin(status) ==> reply == KeywordDenied && keywords == old(keywords)
      ensures IsGroupAdmin(status) && args == [] ==> reply == KeywordUsage && keywords == old(keywords)
      ensures IsGroupAdmin(status) && args != [] ==>
        reply == KeywordSet(Strip(args[0])) && keywords == old(keywords)[chatId := Strip(args[0])]
      ensures forall c :: c != chatId ==> Lookup(keywords, c) == Lookup(old(keywords), c)
    {
      if !IsGroupAdmin(status) {
        return KeywordDenied;
      }
      if args == [] {
        return KeywordUsage;
      }
      var keyword := Strip(args[0]);
      keywords := keywords[chatId := keyword];
      reply := KeywordSet(keyword);
    }

    /**
     * `/admin`: a group admin sees the chat's keyword (or the sentinel) and the
     * number of cooldown records across all chats, not only this one.
     */
    method AdminPanel(chatId: int, status: string) returns (reply: PanelReply)
      requires Valid()
      ensures reply.Panel? <==> IsGroupAdmin(status)
      ensures reply.Panel? ==> reply.keyword == KeywordOrNotSet(keywords, chatId)
      ensures reply.Panel? ==> reply.pinnedUsers == |lastPin| == |pinOrder|
      ensures reply.Panel? ==> |set k | k in lastPin && k.0 == chatId| <= reply.pinnedUsers
    {
      if IsGroupAdmin(status) {
        SubsetCard((set k | k in lastPin && k.0 == chatId), lastPin.Keys);
        DistinctCard(pinOrder, lastPin.Keys);
        reply := Panel(KeywordOrNotSet(keywords, chatId), |lastPin|);
      } else {
        reply := PanelDenied;
      }
    }

    /** A button press: `viewkeyword` shows the keyword, `setkeyword_prompt` the hint, anything else edits nothing. */
    method HandleCallback(chatId: int, data: string) returns (reply: CallbackReply)
      ensures reply.ShowKeyword? <==> data == "viewkeyword"
      ensures reply.SetKeywordHint? <==> data == "setkeyword_prompt"
      ensures reply.ShowKeyword? ==> reply.keyword == KeywordOrNotSet(keywords, chatId)
    {
      if data == "viewkeyword" {
        reply := ShowKeyword(KeywordOrNotSet(keywords, chatId));
      } else if data == "setkeyword_prompt" {
        reply := SetKeywordHint;
      } else {
        reply := NoEdit;
      }
    }

    /**
     * `/broadcast <message...>`: a bot admin's message goes once to each chat
     * among the cooldown keys, walked in insertion order; `sendOk[i]` is the
     * platform's answer to a send made at key `i`. The count reported is the
     * number of chats reached, and no store changes.
     */
    method Broadcast(caller: int, args: seq<string>, sendOk: seq<bool>)
      returns (reply: BroadcastReply, steps: seq<SendStep>)
      requires Valid()
      requires |sendOk| == |pinOrder|
      ensures caller !in botAdmins ==> reply == BroadcastDenied && steps == []
      ensures caller in botAdmins && args == [] ==> reply == BroadcastUsage && steps == []
      ensures caller in botAdmins && args != [] ==>
        reply.Broadcasted? && reply.text == JoinWords(args) && steps == WalkKeys(pinOrder, sendOk).steps
      ensures reply.Broadcasted? ==>
        && reply.count == |ReachableChats(pinOrder, sendOk)|
        && reply.count == CountDelivered(steps)
        && reply.count <= |set k | k in lastPin :: k.0|
    {
      if caller !in botAdmins {
        return BroadcastDenied, [];
      }
      if args == [] {
        return BroadcastUsage, [];
      }
      var message := JoinWords(args);
      var sentTo: set<int> := {};
      steps := [];
      var i := 0;
      while i < |pinOrder|
        invariant 0 <= i <= |pinOrder|
        invariant WalkKeys(pinOrder[..i], sendOk[..i]) == Walk(steps, sentTo)
      {
        WalkExtend(pinOrder, sendOk, i);
        var chat := pinOrder[i].0;
        if chat !in sentTo {
          if sendOk[i] {
            sentTo := sentTo + {chat};
            steps := steps + [Delivered];
          } else {
            steps := steps + [Failed];
          }
        } else {
          steps := steps + [Skipped];
        }
        i := i + 1;
      }
      assert pinOrder[..i] == pinOrder && sendOk[..i] == sendOk;
      WalkSentTo(pinOrder, sendOk);
      WalkCount(pinOrder, sendOk);
      KeyChats(pinOrder, lastPin);
      reply := Broadcasted(message, |sentTo|);
    }

    /**
     * `/addadmin <user_id>`: a bot admin adds the parsed id; adding a present id
     * changes nothing and still succeeds. Refusals change nothing.
     */
    method AddAdmin(caller: int, args: seq<string>) returns (reply: AdminReply)
      requires Valid()
      modifies this`botAdmins
      ensures Valid()
      ensures caller !in old(botAdmins) ==> reply == AdminDenied
      ensures caller in old(botAdmins) && args == [] ==> reply == AdminUsage
      ensures caller in old(botAdmins) && args != [] && ParseInt(args[0]).None? ==> reply == InvalidId
      ensures caller in old(botAdmins) && args != [] && ParseInt(args[0]).Some? ==> reply == Added(ParseInt(args[0]).value)
      ensures botAdmins == if reply.Added? then old(botAdmins) + {reply.id} else old(botAdmins)
    {
      if caller !in botAdmins {
        return AdminDenied;
      }
      if args == [] {
        return AdminUsage;
      }
      var parsed := ParseInt(args[0]);
      if parsed.None? {
        return InvalidId;
      }
      botAdmins := botAdmins + {parsed.value};
      reply := Added(parsed.value);
    }

    /**
     * `/removeadmin <user_id>`: a bot admin removes the parsed id when it is a
     * member; a non-member takes the "not a bot admin" branch. No other id is removed.
     */
    method RemoveAdmin(caller: int, args: seq<string>) returns (reply: AdminReply)
      requires Valid()
      modifies this`botAdmins
      ensures Valid()
      ensures caller !in old(botAdmins) ==> reply == AdminDenied
      ensures caller in old(botAdmins) && args == [] ==> reply == AdminUsage
      ensures caller in old(botAdmins) && args != [] && ParseInt(args[0]).None? ==> reply == InvalidId
      ensures caller in old(botAdmins) && args != [] && ParseInt(args[0]).Some? ==>
        var id := ParseInt(args[0]).value;
        reply == (if id in old(botAdmins) then Removed(id) else NotABotAdmin(id))
      ensures botAdmins == if reply.Removed? then old(botAdmins) - {reply.id} else old(botAdmins)
    {
      if caller !in botAdmins {
        return AdminDenied;
      }
      if args == [] {
        return AdminUsage;
      }
      var parsed := ParseInt(args[0]);
      if parsed.None? {
        return InvalidId;
      }
      var id := parsed.value;
      if id in botAdmins {
        botAdmins := botAdmins - {id};
        reply := Removed(id);
      } else {
        reply := NotABotAdmin(id);
      }
    }

    /**
     * `/listadmins`: a bot admin gets one line `str(id)` per bot admin, in an
     * unspecified order; each line parses back to a distinct member.
     */
    method ListAdmins(caller: int) returns (reply: ListReply)
      ensures reply.AdminList? <==> caller in botAdmins
      ensures reply.AdminList? ==>
        && |reply.lines| == |botAdmins|
        && (forall i :: 0 <= i < |reply.lines| ==>
              ParseInt(reply.lines[i]).Some? && ParseInt(reply.lines[i]).value in botAdmins)
        && (forall id :: id in botAdmins ==> FormatInt(id) in reply.lines)
    {
      if caller !in botAdmins {
        return ListDenied;
      }
      var ids := Enumerate(botAdmins);
      var lines := seq(|ids|, i requires 0 <= i < |ids| => FormatInt(ids[i]));
      DistinctCard(ids, botAdmins);
      LinesParseBack(lines, ids);
      reply := AdminList(lines);
    }

    /**
     * A text message: the guard chain of `PinDecision`. Only a successful pin
     * changes state, setting the pair's record to `now` (appending the key to
     * the iteration order when it is new); every other branch changes nothing.
     * `Valid()` carries the 12-hour spacing of recorded pins over every call.
     */
    method HandleMessage(hasMessage: bool, chatType: Option<string>, chatId: int, userId: int,
                         status: string, bio: Option<string>, now: int, pinOk: bool)
      returns (outcome: PinOutcome)
      requires Valid()
      modifies this`lastPin, this`pinOrder, this`pinLog
      ensures Valid()
      ensures outcome == PinDecision(hasMessage, chatType, status, Lookup(keywords, chatId), bio,
                                     Lookup(old(lastPin), (chatId, userId)), now, pinOk)
      ensures lastPin == if outcome == Pinned then old(lastPin)[(chatId, userId) := now] else old(lastPin)
      ensures pinOrder ==
        if outcome == Pinned && (chatId, userId) !in old(lastPin) then old(pinOrder) + [(chatId, userId)]
        else old(pinOrder)
      ensures pinLog == if outcome == Pinned then old(pinLog) + [PinRecord((chatId, userId), now)] else old(pinLog)
    {
      if !hasMessage || chatType != Some("supergroup") {
        return NotSupergroup;
      }
      if IsGroupAdmin(status) {
        return AdminExempt;
      }
      var keyword := Lookup(keywords, chatId);
      if keyword.None? || keyword.value == "" {
        return NoKeyword;
      }
      var text := bio.GetOr("");
      if !KeywordMatches(keyword.value, text) {
        return NoMatch;
      }
      var key := (chatId, userId);
      var last := Lookup(lastPin, key);
      if !CooldownElapsed(last, now) {
        return OnCooldown;
      }
      if !pinOk {
        return PinFailed;
      }
      if key !in lastPin {
        pinOrder := pinOrder + [key];
      }
      lastPin := lastPin[key := now];
      pinLog := pinLog + [PinRecord(key, now)];
      outcome := Pinned;
    }
  }

  /**
   * Iterating a set: every member once, in an order the language leaves
   * unspecified (here the choices of `:|`).
   */
  method Enumerate<T>(s: set<T>) returns (xs: seq<T>)
    ensures forall x :: x in xs <==> x in s
    ensures forall i, j :: 0 <= i < j < |xs| ==> xs[i] != xs[j]
  {
    xs := [];
    var rest := s;
    while rest != {}
      invariant rest <= s
      invariant forall x :: x in xs <==> x in s && x !in rest
      invariant forall i, j :: 0 <= i < j < |xs| ==> xs[i] != xs[j]
      decreases |rest|
    {
      var x :| x in rest;
      xs := xs + [x];
      rest := rest - {x};
    }
  }

  /** Lines printed with `FormatInt` parse back to the ids they were printed from. */
  lemma LinesParseBack(lines: seq<string>, ids: seq<int>)
    requires |lines| == |ids|
    requires forall i :: 0 <= i < |ids| ==> lines[i] == FormatInt(ids[i])
    ensures forall i :: 0 <= i < |lines| ==> ParseInt(lines[i]) == Some(ids[i])
  {
    forall i | 0 <= i < |lines| ensures ParseInt(lines[i]) == Some(ids[i]) {
      ParseFormat(ids[i]);
    }
  }

  /** A list of the keys of `m` names the same chats as `m`'s keys. */
  lemma KeyChats(keys: seq<PinKey>, m: map<PinKey, int>)
    requires forall k :: k in m <==> k in keys
    ensures ChatsOf(keys) == set k | k in m :: k.0
  {
  }
}
