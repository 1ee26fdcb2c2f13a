/**
 * A room's message log: appending with the 100-entry cap, the 50-message
 * snapshot sent on join, and the two in-place updates of a logged message
 * (reactions and read receipts), which only ever add a user id.
 */
module MessageLog {
  import opened Optional
  import opened Numbers
  import opened ChatTypes

  /** Most messages a room keeps. */
  const MaxLog := 100

  /** Messages sent to a socket that joins a room (`slice(-50)`). */
  const SnapshotSize := 50

  /** `push` then, if the log is now longer than 100, one `shift`. */
  function Push(log: seq<Message>, m: Message): (r: seq<Message>)
    ensures |log| <= MaxLog ==> |r| <= MaxLog
    ensures |r| > 0 && r[|r| - 1] == m
    ensures |log| < MaxLog ==> r == log + [m]
    ensures |log| >= MaxLog ==> |r| == |log| && r[..|r| - 1] == log[1..]
  {
    var appended := log + [m];
    assert |appended| == |log| + 1;
    if |appended| > MaxLog then
      assert appended[1..] == log[1..] + [m];
      appended[1..]
    else appended
  }

  /** The log after a run of sends, oldest first. */
  function PushAll(log: seq<Message>, ms: seq<Message>): seq<Message>
    decreases |ms|
  {
    if |ms| == 0 then log else PushAll(Push(log, ms[0]), ms[1..])
  }

  /**
   * Starting from a log within the cap, a run of sends leaves exactly the
   * most recent entries of the old log followed by the sent messages,
   * at most 100 of them, in send order.
   */
  lemma {:induction false} PushAllKeepsNewest(log: seq<Message>, ms: seq<Message>)
    requires |log| <= MaxLog
    ensures var all := log + ms;
      PushAll(log, ms) == all[|all| - Min(|all|, MaxLog)..]
    decreases |ms|
  {
    var all := log + ms;
    if |ms| == 0 {
      assert all == log;
    } else {
      var log' := Push(log, ms[0]);
      assert PushAll(log, ms) == PushAll(log', ms[1..]);
      PushAllKeepsNewest(log', ms[1..]);
      NewestAfterPush(log, ms);
    }
  }

  /** One push does not change which entries are the newest 100 of the whole run. */
  lemma NewestAfterPush(log: seq<Message>, ms: seq<Message>)
    requires |log| <= MaxLog && |ms| > 0
    ensures var all := log + ms;
      var all' := Push(log, ms[0]) + ms[1..];
      all'[|all'| - Min(|all'|, MaxLog)..] == all[|all| - Min(|all|, MaxLog)..]
  {
    var all := log + ms;
    var log' := Push(log, ms[0]);
    var all' := log' + ms[1..];
    if |log| < MaxLog {
      assert all' == all;
    } else {
      assert log' == log[1..] + [ms[0]] by {
        assert log' == log'[..|log'| - 1] + [log'[|log'| - 1]];
      }
      assert all' == all[1..];
      assert all'[|all'| - MaxLog..] == all[|all| - MaxLog..];
    }
  }

  /** Starting empty, after N sends the log holds the last min(N, 100) of them. */
  lemma {:induction false} PushAllFromEmpty(ms: seq<Message>)
    ensures PushAll([], ms) == ms[|ms| - Min(|ms|, MaxLog)..]
  {
    var empty: seq<Message> := [];
    PushAllKeepsNewest(empty, ms);
    assert empty + ms == ms;
  }

  /** `messages.slice(-50)`: the newest 50 messages, or all of them when there are fewer. */
  function Snapshot(log: seq<Message>): (r: seq<Message>)
    ensures |r| == Min(|log|, SnapshotSize)
    ensures log == log[..|log| - |r|] + r
  {
    if |log| <= SnapshotSize then log else log[|log| - SnapshotSize..]
  }

  /** `messages.find(m => m.id === id)`, as a position. */
  function FindMessage(log: seq<Message>, id: MessageId): (r: Option<nat>)
    ensures r.Some? ==> r.value < |log| && log[r.value].id == id
    ensures r.Some? ==> forall j :: 0 <= j < r.value ==> log[j].id != id
    ensures r.None? <==> forall j :: 0 <= j < |log| ==> log[j].id != id
  {
    if |log| == 0 then None
    else if log[0].id == id then Some(0)
    else
      match FindMessage(log[1..], id)
      case None => None
      case Some(i) => Some(i + 1)
  }

  /** The set of `reaction` on `m`, or the empty set a first reaction creates. */
  function Reactors(m: Message, reaction: string): set<Actor> {
    if reaction in m.reactions then m.reactions[reaction] else {}
  }

  /** `reactions.get(reaction).add(who)`, creating the set first if needed. */
  function AddReaction(m: Message, reaction: string, who: Actor): (r: Message)
    ensures r.reactions.Keys == m.reactions.Keys + {reaction}
    ensures Reactors(r, reaction) == Reactors(m, reaction) + {who}
    ensures forall other :: other in m.reactions && other != reaction ==> r.reactions[other] == m.reactions[other]
    ensures r.(reactions := m.reactions) == m
  {
    m.(reactions := m.reactions[reaction := Reactors(m, reaction) + {who}])
  }

  /** `readBy.add(who)`. */
  function AddReader(m: Message, who: Actor): (r: Message)
    ensures r.readBy == m.readBy + {who}
    ensures r.(readBy := m.readBy) == m
  {
    m.(readBy := m.readBy + {who})
  }

  /** Reacting is idempotent: once `who` is in the set, a second reaction changes nothing. */
  lemma AddReactionIdempotent(m: Message, reaction: string, who: Actor)
    ensures AddReaction(AddReaction(m, reaction, who), reaction, who) == AddReaction(m, reaction, who)
  {
    var once := AddReaction(m, reaction, who);
    assert once.reactions[reaction := Reactors(once, reaction) + {who}] == once.reactions;
  }

  lemma AddReaderIdempotent(m: Message, who: Actor)
    ensures AddReader(AddReader(m, who), who) == AddReader(m, who)
  {
  }

  /** The two updates keep the message id, so the same message is found again. */
  lemma {:induction false} FindMessageAfterUpdate(log: seq<Message>, i: nat, m: Message, id: MessageId)
    requires i < |log| && m.id == log[i].id
    ensures FindMessage(log[i := m], id) == FindMessage(log, id)
  {
    if log[0].id != id && i > 0 {
      assert log[i := m][1..] == log[1..][i - 1 := m];
      FindMessageAfterUpdate(log[1..], i - 1, m, id);
    }
  }
}
