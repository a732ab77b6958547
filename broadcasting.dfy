/**
 * The broadcast walk: the keys of the cooldown map in iteration order, one
 * send per chat id not yet reached, a failed send leaving the chat open for a
 * later key with the same chat id.
 */
module Broadcasting {
  import opened Pinning
  import opened Sets

  /** What the walk does at one key. */
  datatype SendStep =
    | Skipped    // the key's chat is already in `sent_to`: no send
    | Delivered  // sent, and the chat joins `sent_to`
    | Failed     // the send raised: the chat stays out of `sent_to`

  /** The steps so far and the set `sent_to`. */
  datatype Walk = Walk(steps: seq<SendStep>, sentTo: set<int>)

  /**
   * The loop over `last_pin_time.keys()` with `sent_to`, where `ok[i]` is
   * whether the send attempted at key `i` would succeed.
   */
  function WalkKeys(keys: seq<PinKey>, ok: seq<bool>): (w: Walk)
    requires |keys| == |ok|
    ensures |w.steps| == |keys|
    decreases |keys|
  {
    if keys == [] then Walk([], {})
    else
      var n := |keys| - 1;
      var w := WalkKeys(keys[..n], ok[..n]);
      var chat := keys[n].0;
      if chat in w.sentTo then Walk(w.steps + [Skipped], w.sentTo)
      else if ok[n] then Walk(w.steps + [Delivered], w.sentTo + {chat})
      else Walk(w.steps + [Failed], w.sentTo)
  }

  /** One more key extends the walk of a prefix by one step. */
  lemma WalkExtend(keys: seq<PinKey>, ok: seq<bool>, i: nat)
    requires |keys| == |ok| && i < |keys|
    ensures var w := WalkKeys(keys[..i], ok[..i]);
      var chat := keys[i].0;
      WalkKeys(keys[..i + 1], ok[..i + 1]) ==
        if chat in w.sentTo then Walk(w.steps + [Skipped], w.sentTo)
        else if ok[i] then Walk(w.steps + [Delivered], w.sentTo + {chat})
        else Walk(w.steps + [Failed], w.sentTo)
  {
    assert keys[..i + 1][..i] == keys[..i];
    assert ok[..i + 1][..i] == ok[..i];
  }

  /** The chat ids that appear among `keys`. */
  function ChatsOf(keys: seq<PinKey>): (r: set<int>) {
    set i | 0 <= i < |keys| :: keys[i].0
  }

  /** The chats of the keys whose send would succeed. */
  function ReachableChats(keys: seq<PinKey>, ok: seq<bool>): (r: set<int>)
    requires |keys| == |ok|
  {
    set i | 0 <= i < |keys| && ok[i] :: keys[i].0
  }

  /** A chat ends up in `sent_to` exactly when one of its keys' sends succeeds. */
  lemma {:induction false} WalkSentTo(keys: seq<PinKey>, ok: seq<bool>)
    requires |keys| == |ok|
    ensures WalkKeys(keys, ok).sentTo == ReachableChats(keys, ok)
    decreases |keys|
  {
    if keys != [] {
      var n := |keys| - 1;
      WalkSentTo(keys[..n], ok[..n]);
      assert ReachableChats(keys, ok) ==
        ReachableChats(keys[..n], ok[..n]) + (if ok[n] then {keys[n].0} else {}) by {
        forall c | c in ReachableChats(keys, ok)
          ensures c in ReachableChats(keys[..n], ok[..n]) + (if ok[n] then {keys[n].0} else {})
        {
          var i :| 0 <= i < |keys| && ok[i] && keys[i].0 == c;
          if i < n { assert keys[..n][i] == keys[i] && ok[..n][i]; }
        }
      }
    }
  }

  /** The walk of a prefix is the prefix of the walk. */
  lemma {:induction false} WalkPrefix(keys: seq<PinKey>, ok: seq<bool>, j: nat)
    requires |keys| == |ok| && j <= |keys|
    ensures WalkKeys(keys, ok).steps[..j] == WalkKeys(keys[..j], ok[..j]).steps
    decreases |keys|
  {
    if j < |keys| {
      var n := |keys| - 1;
      assert keys[..n][..j] == keys[..j] && ok[..n][..j] == ok[..j];
      WalkPrefix(keys[..n], ok[..n], j);
    } else {
      assert keys[..j] == keys && ok[..j] == ok;
    }
  }

  /**
   * The step at key `j`: skipped exactly when an earlier key's send to the same
   * chat succeeded; otherwise a send is attempted, and it is delivered or failed
   * as the platform answers. So a failed chat is tried again at its next key.
   */
  lemma StepAt(keys: seq<PinKey>, ok: seq<bool>, j: nat)
    requires |keys| == |ok| && j < |keys|
    ensures var step := WalkKeys(keys, ok).steps[j];
      && (step == Skipped <==> keys[j].0 in ReachableChats(keys[..j], ok[..j]))
      && (step == Delivered <==> keys[j].0 !in ReachableChats(keys[..j], ok[..j]) && ok[j])
  {
    WalkPrefix(keys, ok, j + 1);
    var pre := keys[..j + 1];
    assert pre[..j] == keys[..j];
    assert ok[..j + 1][..j] == ok[..j];
    WalkSentTo(keys[..j], ok[..j]);
    var steps := WalkKeys(keys, ok).steps;
    assert steps[j] == steps[..j + 1][j];
  }

  /** No chat is delivered to twice. */
  lemma {:induction false} DeliveredOnce(keys: seq<PinKey>, ok: seq<bool>, i: nat, j: nat)
    requires |keys| == |ok| && i < j < |keys| && keys[i].0 == keys[j].0
    ensures !(WalkKeys(keys, ok).steps[i] == Delivered && WalkKeys(keys, ok).steps[j] == Delivered)
  {
    StepAt(keys, ok, i);
    StepAt(keys, ok, j);
    if WalkKeys(keys, ok).steps[i] == Delivered {
      assert keys[..j][i] == keys[i] && ok[..j][i];
      assert keys[j].0 in ReachableChats(keys[..j], ok[..j]);
    }
  }

  /**
   * A failed send does not mark the chat as reached: at the next key with the
   * same chat id a send is attempted again.
   */
  lemma {:induction false} FailedChatRetried(keys: seq<PinKey>, ok: seq<bool>, i: nat, j: nat)
    requires |keys| == |ok| && i < j < |keys| && keys[i].0 == keys[j].0
    requires WalkKeys(keys, ok).steps[i] == Failed
    requires forall k :: i < k < j ==> keys[k].0 != keys[i].0
    ensures WalkKeys(keys, ok).steps[j] != Skipped
  {
    StepAt(keys, ok, i);
    var c := keys[i].0;
    forall k | 0 <= k < j && ok[k] ensures keys[k].0 != c {
      if k < i {
        assert keys[..i][k] == keys[k] && ok[..i][k];
      }
    }
    assert c !in ReachableChats(keys[..j], ok[..j]);
    StepAt(keys, ok, j);
  }

  /** The number of delivered steps. */
  function CountDelivered(steps: seq<SendStep>): (r: nat) {
    if steps == [] then 0
    else CountDelivered(steps[..|steps| - 1]) + (if steps[|steps| - 1] == Delivered then 1 else 0)
  }

  /**
   * The reported `len(sent_to)` counts the successful sends, and is at most
   * the number of distinct chat ids among the keys.
   */
  lemma {:induction false} WalkCount(keys: seq<PinKey>, ok: seq<bool>)
    requires |keys| == |ok|
    ensures |WalkKeys(keys, ok).sentTo| == CountDelivered(WalkKeys(keys, ok).steps)
    ensures WalkKeys(keys, ok).sentTo <= ChatsOf(keys)
    ensures |WalkKeys(keys, ok).sentTo| <= |ChatsOf(keys)|
    decreases |keys|
  {
    var w := WalkKeys(keys, ok);
    if keys != [] {
      var n := |keys| - 1;
      WalkCount(keys[..n], ok[..n]);
      var v := WalkKeys(keys[..n], ok[..n]);
      assert w.steps[..n] == v.steps;
      assert ChatsOf(keys[..n]) <= ChatsOf(keys) by {
        forall c | c in ChatsOf(keys[..n]) ensures c in ChatsOf(keys) {
          var i :| 0 <= i < n && keys[..n][i].0 == c;
        }
      }
      assert keys[n].0 in ChatsOf(keys);
    }
    SubsetCard(w.sentTo, ChatsOf(keys));
  }
}
