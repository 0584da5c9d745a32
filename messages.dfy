// Customer support messages: sending, the history with one correspondent, the
// conversation list, and polling for new messages.
module Messages {
  import opened Common
  import opened Entities
  import opened Queries

  // ---------------------------------------------------------------------------
  // Send
  // ---------------------------------------------------------------------------

  /** The answer to a message that is refused, if it is refused. */
  function SendRejection(db: Tables, senderId: int, recipientId: int, content: Option<string>): (r: Option<Reply>)
    ensures r.None? <==> senderId in db.accounts && recipientId in db.accounts && !Blank(content)
    ensures r.Some? ==> r.value == (if senderId !in db.accounts then UnauthorizedReply
                                    else if recipientId !in db.accounts then BadRequest(404) else BadRequest(400))
  {
    if senderId !in db.accounts then Some(UnauthorizedReply)
    else if recipientId !in db.accounts then Some(BadRequest(404))
    else if Blank(content) then Some(BadRequest(400))
    else None
  }

  /** `GuiTinNhan`: stores one message from the caller to the recipient, stamped now. */
  method Send(ctx: ShopContext, senderId: int, recipientId: int, content: Option<string>, clock: Clock)
    returns (reply: Reply, messageId: Option<int>)
    modifies ctx
    ensures SendRejection(old(ctx.db), senderId, recipientId, content).Some? ==>
      reply == SendRejection(old(ctx.db), senderId, recipientId, content).value && messageId.None? && ctx.db == old(ctx.db)
    ensures SendRejection(old(ctx.db), senderId, recipientId, content).None? ==>
      && reply == OkReply && messageId == Some(FreshId(old(ctx.db).messages.Keys))
      && ctx.db == old(ctx.db).(messages := old(ctx.db).messages[messageId.value :=
           Message(senderId, recipientId, content, Some(clock.now))])
  {
    var db := ctx.db;
    if senderId !in db.accounts {
      return UnauthorizedReply, None;
    }
    if recipientId !in db.accounts {
      return BadRequest(404), None;
    }
    if Blank(content) {
      return BadRequest(400), None;
    }
    var id := FreshId(db.messages.Keys);
    ctx.SaveChanges(db.(messages := db.messages[id := Message(senderId, recipientId, content, Some(clock.now))]));
    return OkReply, Some(id);
  }

  // ---------------------------------------------------------------------------
  // History
  // ---------------------------------------------------------------------------

  /**
   * The messages the history keeps: those the account sent or received; with a
   * correspondent (not 0), only those the account sent to that correspondent.
   */
  predicate InHistory(m: Message, accountId: int, correspondent: int)
  {
    (m.senderId == accountId || m.recipientId == accountId)
    && (correspondent == 0 || (m.senderId == accountId && m.recipientId == correspondent))
  }

  function HistoryIds(messages: map<int, Message>, accountId: int, correspondent: int): (ids: set<int>)
    ensures forall k :: k in ids <==> k in messages && InHistory(messages[k], accountId, correspondent)
  {
    set k | k in messages && InHistory(messages[k], accountId, correspondent)
  }

  /** The messages `ids`, oldest first (`OrderBy(tn => tn.ThoiGian)`). */
  function OldestFirst(messages: map<int, Message>, ids: set<int>): (r: seq<int>)
    ensures forall k :: k in r <==> k in ids
    ensures |r| == |ids|
    ensures OrderedBy(r, SentAt(messages), false)
  {
    var sorted := SortedIds(ids);
    var r := SortByDate(sorted, SentAt(messages), false);
    forall k
      ensures k in r <==> k in sorted
    {
      assert k in r <==> k in multiset(r);
      assert k in sorted <==> k in multiset(sorted);
    }
    r
  }

  /** `GetLichSuTinNhan` as written: the kept messages, oldest first. */
  function History(messages: map<int, Message>, accountId: int, correspondent: int): (r: seq<int>)
    ensures forall k :: k in r <==> k in HistoryIds(messages, accountId, correspondent)
    ensures |r| == |HistoryIds(messages, accountId, correspondent)|
    ensures OrderedBy(r, SentAt(messages), false)
  {
    OldestFirst(messages, HistoryIds(messages, accountId, correspondent))
  }

  /**
   * With a correspondent other than the account itself, the history holds only what
   * the account sent: the correspondent's replies are not in it.
   */
  lemma HistoryOmitsReplies(messages: map<int, Message>, accountId: int, correspondent: int, k: int)
    requires correspondent != 0 && correspondent != accountId
    requires k in messages && messages[k].senderId == correspondent && messages[k].recipientId == accountId
    ensures k !in History(messages, accountId, correspondent)
  {
  }

  /** One reply from account 5 to account 7 is all the store holds. */
  const ReplyOnly := map[1 := Message(5, 7, Some("ok"), Some(0))]

  /** As written, account 7's history with account 5 is empty although 5 answered 7. */
  lemma ReplyMissingFromHistory()
    ensures History(ReplyOnly, 7, 5) == []
    ensures Dialogue(ReplyOnly, 7, 5) == [1]
  {
    assert HistoryIds(ReplyOnly, 7, 5) == {};
    assert DialogueIds(ReplyOnly, 7, 5) == {1};
  }

  /**
   * The messages the history evidently means to keep: those the account sent or received;
   * with a correspondent (not 0), those between the two of them, in either direction.
   */
  predicate InDialogue(m: Message, accountId: int, correspondent: int)
  {
    (m.senderId == accountId || m.recipientId == accountId)
    && (correspondent == 0
        || (m.senderId == accountId && m.recipientId == correspondent)
        || (m.senderId == correspondent && m.recipientId == accountId))
  }

  function DialogueIds(messages: map<int, Message>, accountId: int, correspondent: int): (ids: set<int>)
    ensures forall k :: k in ids <==> k in messages && InDialogue(messages[k], accountId, correspondent)
  {
    set k | k in messages && InDialogue(messages[k], accountId, correspondent)
  }

  /** The corrected history: the messages between the account and the correspondent, oldest first. */
  function Dialogue(messages: map<int, Message>, accountId: int, correspondent: int): (r: seq<int>)
    ensures forall k :: k in r <==> k in DialogueIds(messages, accountId, correspondent)
    ensures |r| == |DialogueIds(messages, accountId, correspondent)|
    ensures OrderedBy(r, SentAt(messages), false)
  {
    OldestFirst(messages, DialogueIds(messages, accountId, correspondent))
  }

  /**
   * Between two accounts (ids are never 0), the corrected history holds exactly the
   * messages either of them sent the other, and it is the same seen from either side.
   */
  lemma DialogueIsBothWays(messages: map<int, Message>, accountId: int, correspondent: int, k: int)
    requires accountId != 0 && correspondent != 0
    ensures k in Dialogue(messages, accountId, correspondent) <==>
      k in messages
      && ((messages[k].senderId == accountId && messages[k].recipientId == correspondent)
          || (messages[k].senderId == correspondent && messages[k].recipientId == accountId))
    ensures k in Dialogue(messages, accountId, correspondent) <==> k in Dialogue(messages, correspondent, accountId)
  {
    assert k in Dialogue(messages, accountId, correspondent) <==> k in DialogueIds(messages, accountId, correspondent);
    assert k in Dialogue(messages, correspondent, accountId) <==> k in DialogueIds(messages, correspondent, accountId);
  }

  /** Everything the history as written shows, the corrected history shows too. */
  lemma HistoryWithinDialogue(messages: map<int, Message>, accountId: int, correspondent: int, k: int)
    ensures k in History(messages, accountId, correspondent) ==> k in Dialogue(messages, accountId, correspondent)
  {
  }

  /** A message just sent to a correspondent shows in the sender's history with them. */
  lemma SentMessageInHistory(db: Tables, senderId: int, recipientId: int, content: Option<string>, clock: Clock)
    requires SendRejection(db, senderId, recipientId, content).None?
    ensures var id := FreshId(db.messages.Keys);
      var m := db.messages[id := Message(senderId, recipientId, content, Some(clock.now))];
      && id in History(m, senderId, recipientId)
      && id in History(m, senderId, 0)
      && id in Dialogue(m, senderId, recipientId)
      && id in Dialogue(m, recipientId, senderId)
  {
  }

  // ---------------------------------------------------------------------------
  // Conversations
  // ---------------------------------------------------------------------------

  /** The other party of a message the account sent or received. */
  function OtherParty(m: Message, accountId: int): int
  {
    if m.senderId == accountId then m.recipientId else m.senderId
  }

  predicate Involves(m: Message, accountId: int)
  {
    m.senderId == accountId || m.recipientId == accountId
  }

  /** The parties the account has exchanged messages with. */
  function Partners(messages: map<int, Message>, accountId: int): (ps: set<int>)
    ensures forall p :: p in ps <==> exists k :: k in messages && Involves(messages[k], accountId) && OtherParty(messages[k], accountId) == p
  {
    set k | k in messages && Involves(messages[k], accountId) :: OtherParty(messages[k], accountId)
  }

  /** The times of the account's dated messages with party `p`. */
  function TimesWith(messages: map<int, Message>, accountId: int, p: int): (ts: set<int>)
    ensures forall t :: t in ts <==> exists k :: (k in messages && Involves(messages[k], accountId)
                                                   && OtherParty(messages[k], accountId) == p && messages[k].sentAt == Some(t))
  {
    set k | k in messages && Involves(messages[k], accountId) && OtherParty(messages[k], accountId) == p
            && messages[k].sentAt.Some? :: messages[k].sentAt.value
  }

  /** `Max(ThoiGian)` of a group: the latest time, ignoring undated messages; none if no message is dated. */
  function Latest(messages: map<int, Message>, accountId: int, p: int): (r: Option<int>)
    ensures r.None? <==> TimesWith(messages, accountId, p) == {}
    ensures r.Some? ==> r.value in TimesWith(messages, accountId, p)
    ensures r.Some? ==> forall t :: t in TimesWith(messages, accountId, p) ==> t <= r.value
  {
    var ts := TimesWith(messages, accountId, p);
    if ts == {} then None else Some(MaxOf(ts))
  }

  /** A sequence of distinct ids. */
  predicate Distinct(r: seq<int>)
  {
    forall i, j :: 0 <= i < j < |r| ==> r[i] != r[j]
  }

  /** An increasing sequence holds each id at most once. */
  lemma {:induction false} IncreasingCounts(s: seq<int>, x: int)
    requires Increasing(s)
    ensures multiset(s)[x] <= 1
  {
    if s != [] {
      assert s == [s[0]] + s[1..];
      assert multiset(s) == multiset{s[0]} + multiset(s[1..]);
      IncreasingCounts(s[1..], x);
      if x == s[0] {
        assert x !in s[1..];
      }
    }
  }

  /** A sequence holding each id at most once is distinct. */
  lemma SingleCountsDistinct(r: seq<int>)
    requires forall x :: multiset(r)[x] <= 1
    ensures Distinct(r)
  {
    forall i, j | 0 <= i < j < |r|
      ensures r[i] != r[j]
    {
      var x := r[j];
      assert multiset(r) == multiset(r[..j]) + multiset{x} + multiset(r[j + 1..]) by {
        assert r == r[..j] + [x] + r[j + 1..];
      }
      assert r[..j][i] == r[i];
      assert multiset(r)[r[i]] >= multiset(r[..j])[r[i]] + (if r[i] == x then 1 else 0);
    }
  }

  /**
   * `GetCuocTroChuyen`: one entry per party the account has exchanged messages with,
   * ordered by the latest message time, newest first.
   */
  function Conversations(messages: map<int, Message>, accountId: int): (r: seq<int>)
    ensures forall p :: p in r <==> p in Partners(messages, accountId)
    ensures Distinct(r)
    ensures OrderedBy(r, p => Latest(messages, accountId, p), true)
  {
    var ids := SortedIds(Partners(messages, accountId));
    var r := SortByDate(ids, p => Latest(messages, accountId, p), true);
    forall p
      ensures p in r <==> p in ids
    {
      assert p in r <==> p in multiset(r);
      assert p in ids <==> p in multiset(ids);
    }
    forall x
      ensures multiset(r)[x] <= 1
    {
      IncreasingCounts(ids, x);
    }
    SingleCountsDistinct(r);
    r
  }

  // ---------------------------------------------------------------------------
  // New messages
  // ---------------------------------------------------------------------------

  /** A message received by the account, after `since` when given (an undated message is never after). */
  predicate IsNew(m: Message, accountId: int, since: Option<int>)
  {
    m.recipientId == accountId && (since.None? || (m.sentAt.Some? && m.sentAt.value > since.value))
  }

  function NewIds(messages: map<int, Message>, accountId: int, since: Option<int>): (ids: set<int>)
    ensures forall k :: k in ids <==> k in messages && IsNew(messages[k], accountId, since)
  {
    set k | k in messages && IsNew(messages[k], accountId, since)
  }

  /** `GetTinNhanMoi`: the messages the account received since `since`, each once, oldest first. */
  function NewMessages(messages: map<int, Message>, accountId: int, since: Option<int>): (r: seq<int>)
    ensures forall k :: k in r <==> k in messages && IsNew(messages[k], accountId, since)
    ensures |r| == |NewIds(messages, accountId, since)|
    ensures Distinct(r)
    ensures OrderedBy(r, SentAt(messages), false)
  {
    var ids := SortedIds(NewIds(messages, accountId, since));
    var r := SortByDate(ids, SentAt(messages), false);
    forall k
      ensures k in r <==> k in ids
    {
      assert k in r <==> k in multiset(r);
      assert k in ids <==> k in multiset(ids);
    }
    forall x
      ensures multiset(r)[x] <= 1
    {
      IncreasingCounts(ids, x);
    }
    SingleCountsDistinct(r);
    r
  }

  /** Polling again from the latest time seen returns only messages strictly later than it. */
  lemma PollingSkipsSeen(messages: map<int, Message>, accountId: int, seen: int, k: int)
    requires k in NewMessages(messages, accountId, Some(seen))
    ensures messages[k].recipientId == accountId && messages[k].sentAt.Some? && messages[k].sentAt.value > seen
  {
  }
}
