/**
 * Client code that calls the handlers and asserts the outcomes a caller can
 * derive from their contracts alone.
 */
module Scenarios {
  import opened Wrappers
  import opened Text
  import opened Pinning
  import opened Bot

  /** The biography of the cooldown scenario matches "VIP" at index 7. */
  lemma VipMatches()
    ensures KeywordMatches("VIP", "I am a vip member")
  {
    var bio := "I am a vip member";
    assert bio[7] == 'v' && bio[8] == 'i' && bio[9] == 'p';
    assert bio[7..10] == "vip";
    assert Lower("vip") == Lower("VIP");
    assert MatchesAt("VIP", bio, 7);
  }

  /**
   * Keyword "VIP" in chat 100, set by the chat's creator. A member whose
   * biography contains it (such as "I am a vip member", by `VipMatches`) is
   * pinned at t0 and then skipped at t0 + 1 h.
   */
  method CooldownHolds(bio: string, t0: int)
    requires KeywordMatches("VIP", bio)
  {
    var bot := new BotState();
    TrimmedIsFixed("VIP");
    var reply := bot.SetKeyword(100, "creator", ["VIP"]);
    assert reply == KeywordSet("VIP");

    var first := bot.HandleMessage(true, Some("supergroup"), 100, 7, "member", Some(bio), t0, true);
    assert first == Pinned;

    var second := bot.HandleMessage(true, Some("supergroup"), 100, 7, "member", Some(bio), t0 + 3600, true);
    assert second == OnCooldown && bot.lastPin[(100, 7)] == t0;
  }

  /** As `CooldownHolds`, but the second message comes at t0 + 13 h and is pinned again. */
  method CooldownExpires(bio: string, t0: int)
    requires KeywordMatches("VIP", bio)
  {
    var bot := new BotState();
    TrimmedIsFixed("VIP");
    var _ := bot.SetKeyword(100, "creator", ["VIP"]);

    var first := bot.HandleMessage(true, Some("supergroup"), 100, 7, "member", Some(bio), t0, true);
    assert first == Pinned;

    var second := bot.HandleMessage(true, Some("supergroup"), 100, 7, "member", Some(bio), t0 + 13 * 3600, true);
    assert second == Pinned && bot.lastPin[(100, 7)] == t0 + 13 * 3600;
  }

  /** An administrator is never pinned, whatever the biography says. */
  method AdminScenario(bio: string, now: int) {
    var bot := new BotState();
    var _ := bot.SetKeyword(100, "administrator", ["vip"]);
    var outcome := bot.HandleMessage(true, Some("supergroup"), 100, 7, "administrator", Some(bio), now, true);
    assert outcome == AdminExempt;
    assert bot.lastPin == map[];
  }

  /**
   * A non-bot-admin broadcast sends nothing; `/addadmin abc` is an invalid id;
   * `/setkeyword` without an argument is a usage error. None changes a store.
   */
  method RejectionScenarios() {
    var bot := new BotState();
    var b, steps := bot.Broadcast(42, ["Hello"], []);
    assert b == BroadcastDenied && steps == [];

    var a := bot.AddAdmin(SEED_ADMIN, ["abc"]);
    assert ParseInt("abc") == None;
    assert a == InvalidId && bot.botAdmins == {SEED_ADMIN};

    var k := bot.SetKeyword(100, "creator", []);
    assert k == KeywordUsage && bot.keywords == map[];
  }

  /** Adding an existing admin succeeds and changes nothing; removing a non-member reports it. */
  method AdminSetScenario() {
    var bot := new BotState();
    ParseFormat(SEED_ADMIN);
    var a := bot.AddAdmin(SEED_ADMIN, [FormatInt(SEED_ADMIN)]);
    assert a == Added(SEED_ADMIN) && bot.botAdmins == {SEED_ADMIN};

    ParseFormat(12);
    var r := bot.RemoveAdmin(SEED_ADMIN, [FormatInt(12)]);
    assert r == NotABotAdmin(12) && bot.botAdmins == {SEED_ADMIN};
  }
}
