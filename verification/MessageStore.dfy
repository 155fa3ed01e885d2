/** The in-memory message store: a bounded buffer and the conversation list that
    is refreshed whenever it changes. */
module MessageStore {
  import opened Dialogue

  // ---- the buffer's own operations ----

  function Incoming(uuid: Uuid, author: string, body: string, timestamp: nat, group: bool): Message {
    Message(uuid, author, body, timestamp, false, Sent, false, group)
  }

  function OutgoingPending(uuid: Uuid, body: string, timestamp: nat): Message {
    Message(uuid, "You", body, timestamp, true, Pending, true, false)
  }

  /** At most one eviction makes room for the new row. */
  function Pushed(messages: seq<Message>, capacity: nat, m: Message): seq<Message>
    requires capacity > 0 || messages != []
  {
    (if |messages| >= capacity then messages[1..] else messages) + [m]
  }

  predicate IsOutgoing(m: Message, timestamp: nat) {
    m.outgoing && m.timestamp == timestamp
  }

  /** `i` is the newest outgoing row with this timestamp. */
  predicate IsNewestOutgoing(messages: seq<Message>, timestamp: nat, i: int) {
    0 <= i < |messages| && IsOutgoing(messages[i], timestamp)
    && forall j :: i < j < |messages| ==> !IsOutgoing(messages[j], timestamp)
  }

  /** The newest outgoing row with this timestamp, and no other, gets the status. */
  ghost predicate StatusSet(before: seq<Message>, timestamp: nat, status: SendStatus, after: seq<Message>) {
    if forall i :: 0 <= i < |before| ==> !IsOutgoing(before[i], timestamp) then after == before
    else exists i :: IsNewestOutgoing(before, timestamp, i) && after == before[i := before[i].(status := status)]
  }

  function MarkedRead(m: Message, uuid: Uuid): Message {
    if m.uuid == uuid then m.(read := true) else m
  }

  function Resolved(m: Message, uuid: Uuid, name: string): Message {
    if m.uuid == uuid && LooksLikeRawUuid(m.author) then m.(author := name) else m
  }

  /** The conversation is read, everything else as before. */
  predicate ThreadRead(before: seq<Message>, uuid: Uuid, after: seq<Message>) {
    |after| == |before| && forall i :: 0 <= i < |before| ==> after[i] == MarkedRead(before[i], uuid)
  }

  /** Its stand-in labels are the name, everything else as before. */
  predicate LabelsResolved(before: seq<Message>, uuid: Uuid, name: string, after: seq<Message>) {
    |after| == |before| && forall i :: 0 <= i < |before| ==> after[i] == Resolved(before[i], uuid, name)
  }

  predicate GroupThread(messages: seq<Message>, uuid: Uuid) {
    exists i :: 0 <= i < |messages| && messages[i].uuid == uuid && messages[i].group
  }

  function ThreadOf(messages: seq<Message>, uuid: Uuid): seq<Message> {
    if messages == [] then []
    else
      var m := messages[|messages| - 1];
      ThreadOf(messages[..|messages| - 1], uuid) + if m.uuid == uuid then [m] else []
  }

  /** A conversation's messages are those of its parts, in order. */
  lemma {:induction false} ThreadOfParts(a: seq<Message>, b: seq<Message>, uuid: Uuid)
    ensures ThreadOf(a + b, uuid) == ThreadOf(a, uuid) + ThreadOf(b, uuid)
  {
    if b == [] {
      assert a + b == a;
    } else {
      var front, last := b[..|b| - 1], if b[|b| - 1].uuid == uuid then [b[|b| - 1]] else [];
      ThreadOfParts(a, front, uuid);
      assert (a + b)[..|a + b| - 1] == a + front;
      assert ThreadOf(a, uuid) + (ThreadOf(front, uuid) + last) == ThreadOf(a, uuid) + ThreadOf(front, uuid) + last;
    }
  }

  lemma ThreadOfOne(m: Message, uuid: Uuid)
    ensures ThreadOf([m], uuid) == if m.uuid == uuid then [m] else []
  {
    assert ThreadOf([], uuid) == [] && [m][..0] == [];
  }

  /** A push that drops nothing adds its own unread count and no other. */
  lemma PushCounts(messages: seq<Message>, m: Message)
    ensures AllUnread(messages + [m]) == AllUnread(messages) + if IsUnread(m) then 1 else 0
  {
    assert (messages + [m])[..|messages|] == messages;
  }

  lemma LastIncomingStays(before: seq<Message>, uuid: Uuid, name: string, after: seq<Message>, i: int)
    requires LabelsResolved(before, uuid, name, after) && IsLastIncoming(before, uuid, i)
    ensures IsLastIncoming(after, uuid, i)
    ensures after[i].author == if LooksLikeRawUuid(before[i].author) then name else before[i].author
  {
    forall j ensures In(after, j, uuid) <==> In(before, j, uuid) {
      if 0 <= j < |before| { assert after[j] == Resolved(before[j], uuid, name); }
    }
    forall j | In(after, j, uuid) && j > i ensures after[j].outgoing { assert In(before, j, uuid); }
  }

  lemma {:induction false} ReadCounts(before: seq<Message>, uuid: Uuid, after: seq<Message>, u: Uuid)
    requires ThreadRead(before, uuid, after)
    ensures UnreadIn(after, u) == if u == uuid then 0 else UnreadIn(before, u)
  {
    if before != [] {
      ReadCounts(before[..|before| - 1], uuid, after[..|after| - 1], u);
    }
  }

  class MessageStore {
    var messages: seq<Message>
    var dialogues: seq<Row>
    const capacity: nat

    constructor (capacity: nat)
      ensures Valid() && this.capacity == capacity && messages == []
    {
      this.capacity, messages, dialogues := capacity, [], [];
    }

    /** The cached list is a fresh rebuild. */
    ghost predicate Valid()
      reads this
    {
      IsRebuild(messages, dialogues)
    }

    method Rebuild()
      modifies this`dialogues
      ensures Valid()
    {
      dialogues := RebuildSummaries(messages);
    }

    // ---- reading ----

    method ThreadMessages(uuid: Uuid) returns (thread: seq<Message>)
      ensures thread == ThreadOf(messages, uuid)
    {
      thread := [];
      assert messages[..|messages|] == messages;
      for n := 0 to |messages|
        invariant thread == ThreadOf(messages[..n], uuid)
      {
        assert messages[..n + 1][..n] == messages[..n];
        if messages[n].uuid == uuid { thread := thread + [messages[n]]; }
      }
    }

    /** While the unread messages fit 32 bits the header shows how many they are. */
    method HeaderUnread() returns (total: nat)
      requires Valid()
      ensures total == AllUnread(messages) <==> AllUnread(messages) <= U32_MAX
    {
      total := TotalUnread(dialogues);
      TotalIsCount(messages, dialogues);
    }

    /** Answered from the cached rows alone. */
    predicate RowSaysGroup(uuid: Uuid)
      reads this
    {
      exists i :: 0 <= i < |dialogues| && dialogues[i].uuid == uuid && dialogues[i].group
    }

    method IsGroupThread(uuid: Uuid) returns (r: bool)
      requires Valid()
      ensures r == GroupThread(messages, uuid)
    {
      r := RowSaysGroup(uuid);
      if r {
        var i :| 0 <= i < |dialogues| && dialogues[i].uuid == uuid && dialogues[i].group;
        assert dialogues[i] in dialogues && Summarises(messages, dialogues[i]);
      } else if GroupThread(messages, uuid) {
        ghost var i :| 0 <= i < |messages| && messages[i].uuid == uuid && messages[i].group;
        assert Lists(dialogues, uuid);
        ghost var k :| 0 <= k < |dialogues| && dialogues[k].uuid == uuid;
        assert dialogues[k] in dialogues && In(messages, i, uuid);
      }
    }

    // ---- changing ----

    method Push(m: Message)
      requires capacity > 0 || messages != []
      modifies this
      ensures Valid() && messages == Pushed(old(messages), capacity, m)
    {
      if |messages| >= capacity { messages := messages[1..]; }
      messages := messages + [m];
      Rebuild();
    }

    method PushIncoming(uuid: Uuid, author: string, body: string, timestamp: nat, group: bool)
      requires capacity > 0 || messages != []
      modifies this
      ensures Valid() && messages == Pushed(old(messages), capacity, Incoming(uuid, author, body, timestamp, group))
      ensures |old(messages)| < capacity ==> AllUnread(messages) == AllUnread(old(messages)) + 1
      ensures Lists(dialogues, uuid)
      ensures forall r :: r in dialogues && r.uuid == uuid ==>
                r.name == if LooksLikeRawUuid(author) then ShortLabel(uuid) else author
    {
      ghost var m := Incoming(uuid, author, body, timestamp, group);
      Push(Incoming(uuid, author, body, timestamp, group));
      PushCounts(old(messages), m);
      assert messages[|messages| - 1] == m;
      RowIsNamed(messages, dialogues, uuid, |messages| - 1);
    }

    method PushOutgoingPending(uuid: Uuid, body: string, timestamp: nat)
      requires capacity > 0 || messages != []
      modifies this
      ensures Valid() && messages == Pushed(old(messages), capacity, OutgoingPending(uuid, body, timestamp))
      ensures |old(messages)| < capacity ==> AllUnread(messages) == AllUnread(old(messages))
      ensures var m := messages[|messages| - 1];
              IsOutgoing(m, timestamp) && m.uuid == uuid && m.body == body && m.status == Pending && m.read && !m.group
    {
      Push(OutgoingPending(uuid, body, timestamp));
      PushCounts(old(messages), OutgoingPending(uuid, body, timestamp));
    }

    /** Searches from the newest row back. */
    method SetOutgoingStatus(timestamp: nat, status: SendStatus) returns (matched: bool)
      requires Valid()
      modifies this
      ensures Valid() && StatusSet(old(messages), timestamp, status, messages)
      ensures matched <==> exists i :: 0 <= i < |old(messages)| && IsOutgoing(old(messages)[i], timestamp)
    {
      var i := |messages|;
      while i > 0
        invariant 0 <= i <= |messages|
        invariant forall j :: i <= j < |messages| ==> !IsOutgoing(messages[j], timestamp)
      {
        i := i - 1;
        if IsOutgoing(messages[i], timestamp) {
          assert IsNewestOutgoing(messages, timestamp, i);
          messages := messages[i := messages[i].(status := status)];
          Rebuild();
          return true;
        }
      }
      matched := false;
    }

    method MarkSendDelivered(timestamp: nat) returns (matched: bool)
      requires Valid()
      modifies this
      ensures Valid() && StatusSet(old(messages), timestamp, Delivered, messages)
      ensures matched <==> exists i :: 0 <= i < |old(messages)| && IsOutgoing(old(messages)[i], timestamp)
    {
      matched := SetOutgoingStatus(timestamp, Delivered);
    }

    method MarkSendFailed(timestamp: nat) returns (matched: bool)
      requires Valid()
      modifies this
      ensures Valid() && StatusSet(old(messages), timestamp, Failed, messages)
      ensures matched <==> exists i :: 0 <= i < |old(messages)| && IsOutgoing(old(messages)[i], timestamp)
    {
      matched := SetOutgoingStatus(timestamp, Failed);
    }

    /** The list is rebuilt only if some row was unread. */
    method MarkThreadRead(uuid: Uuid)
      requires Valid()
      modifies this
      ensures Valid() && ThreadRead(old(messages), uuid, messages)
      ensures UnreadIn(messages, uuid) == 0
      ensures forall u :: u != uuid ==> UnreadIn(messages, u) == UnreadIn(old(messages), u)
    {
      var changed := false;
      for i := 0 to |messages|
        invariant |messages| == |old(messages)|
        invariant forall j :: 0 <= j < |messages|
                    ==> messages[j] == if j < i then MarkedRead(old(messages)[j], uuid) else old(messages)[j]
        invariant !changed ==> messages == old(messages) && dialogues == old(dialogues)
      {
        if messages[i].uuid == uuid && !messages[i].read {
          messages := messages[i := messages[i].(read := true)];
          changed := true;
        }
      }
      if changed { Rebuild(); }
      ReadCounts(old(messages), uuid, messages, uuid);
      forall u: Uuid | u != uuid ensures UnreadIn(messages, u) == UnreadIn(old(messages), u) {
        ReadCounts(old(messages), uuid, messages, u);
      }
    }

    /** A contact's name has arrived: it replaces identifiers standing in for it. */
    method ResolveAuthorLabels(uuid: Uuid, name: string) returns (touched: bool)
      requires Valid()
      modifies this
      ensures Valid() && LabelsResolved(old(messages), uuid, name, messages)
      ensures touched <==> exists i :: 0 <= i < |old(messages)| && old(messages)[i].uuid == uuid
                             && LooksLikeRawUuid(old(messages)[i].author)
      ensures forall i :: IsLastIncoming(old(messages), uuid, i) && LooksLikeRawUuid(old(messages)[i].author)
                          && !LooksLikeRawUuid(name) ==>
                forall r :: r in dialogues && r.uuid == uuid ==> r.name == name
      ensures forall i :: IsLastIncoming(old(messages), uuid, i) && !LooksLikeRawUuid(old(messages)[i].author) ==>
                forall r :: r in dialogues && r.uuid == uuid ==> r.name == old(messages)[i].author
    {
      touched := false;
      for i := 0 to |messages|
        invariant |messages| == |old(messages)|
        invariant forall j :: 0 <= j < |messages|
                    ==> messages[j] == if j < i then Resolved(old(messages)[j], uuid, name) else old(messages)[j]
        invariant touched <==> exists j :: 0 <= j < i && old(messages)[j].uuid == uuid
                                 && LooksLikeRawUuid(old(messages)[j].author)
        invariant !touched ==> messages == old(messages) && dialogues == old(dialogues)
      {
        if messages[i].uuid == uuid && LooksLikeRawUuid(messages[i].author) {
          messages := messages[i := messages[i].(author := name)];
          touched := true;
        }
      }
      if touched { Rebuild(); }
      forall i: int | IsLastIncoming(old(messages), uuid, i)
        ensures LooksLikeRawUuid(old(messages)[i].author) && !LooksLikeRawUuid(name)
                ==> forall r :: r in dialogues && r.uuid == uuid ==> r.name == name
        ensures !LooksLikeRawUuid(old(messages)[i].author)
                ==> forall r :: r in dialogues && r.uuid == uuid ==> r.name == old(messages)[i].author
      {
        LastIncomingStays(old(messages), uuid, name, messages, i);
        RowIsNamed(messages, dialogues, uuid, i);
      }
    }

    method Clear()
      modifies this
      ensures Valid() && messages == [] && dialogues == []
    {
      messages, dialogues := [], [];
    }

    /** Bulk loading passes over the capacity. */
    method Seed(rows: seq<Message>)
      modifies this
      ensures Valid() && messages == old(messages) + rows
    {
      messages := messages + rows;
      Rebuild();
    }
  }

  // ---- the bounded buffer ----

  function PushAll(messages: seq<Message>, capacity: nat, rows: seq<Message>): (r: seq<Message>)
    requires capacity > 0
  {
    if rows == [] then messages
    else Pushed(PushAll(messages, capacity, rows[..|rows| - 1]), capacity, rows[|rows| - 1])
  }

  function Dropped(before: nat, capacity: nat, pushed: nat): nat {
    var over := before + pushed - capacity;
    if over < 0 then 0 else if over > pushed then pushed else over
  }

  /** Whatever is pushed, what is left is a suffix of all there was: each push
      drops one row once the buffer is full, also one seeded past its capacity. */
  lemma {:induction false} PushesKeepSuffix(messages: seq<Message>, capacity: nat, rows: seq<Message>)
    requires capacity > 0
    ensures PushAll(messages, capacity, rows) == (messages + rows)[Dropped(|messages|, capacity, |rows|)..]
  {
    if rows == [] {
      assert messages + rows == messages;
    } else {
      var n := |rows| - 1;
      var all, d, m := messages + rows[..n], Dropped(|messages|, capacity, n), rows[n];
      PushesKeepSuffix(messages, capacity, rows[..n]);
      assert messages + rows == all + [m];
      assert Dropped(|messages|, capacity, n + 1) == if |all| - d >= capacity then d + 1 else d;
      assert PushAll(messages, capacity, rows) == Pushed(all[d..], capacity, m);
    }
  }

  /** From an empty buffer: exactly the last `capacity` rows, in order. */
  lemma PushesKeepLast(capacity: nat, rows: seq<Message>)
    requires capacity > 0
    ensures PushAll([], capacity, rows) == if |rows| <= capacity then rows else rows[|rows| - capacity..]
  {
    PushesKeepSuffix([], capacity, rows);
    assert [] + rows == rows;
  }
}
