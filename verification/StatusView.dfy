/** What the buffer says about each outgoing send: the status of the newest row
    with its timestamp, and how every store operation changes it. */
module StatusView {
  import opened Dialogue
  import opened MessageStore

  function Statuses(rows: seq<Message>): map<nat, SendStatus> {
    if rows == [] then map[]
    else
      var m, before := rows[|rows| - 1], Statuses(rows[..|rows| - 1]);
      if m.outgoing then before[m.timestamp := m.status] else before
  }

  predicate Within(small: map<nat, SendStatus>, big: map<nat, SendStatus>) {
    forall ts :: ts in small ==> ts in big && small[ts] == big[ts]
  }

  /** At most one outgoing row has this timestamp. */
  predicate OnceAt(rows: seq<Message>, ts: nat) {
    forall i, j :: 0 <= i < j < |rows| && IsOutgoing(rows[i], ts) ==> !IsOutgoing(rows[j], ts)
  }

  lemma {:induction false} StatusesKeys(rows: seq<Message>, ts: nat)
    ensures ts in Statuses(rows) <==> exists i :: 0 <= i < |rows| && IsOutgoing(rows[i], ts)
  {
    if rows != [] {
      var n := |rows| - 1;
      StatusesKeys(rows[..n], ts);
      if i :| 0 <= i < n && IsOutgoing(rows[..n][i], ts) { assert IsOutgoing(rows[i], ts); }
      if i :| 0 <= i < |rows| && IsOutgoing(rows[i], ts) { assert i < n ==> IsOutgoing(rows[..n][i], ts); }
    }
  }

  lemma {:induction false} NewestShows(rows: seq<Message>, ts: nat, i: int)
    requires IsNewestOutgoing(rows, ts, i)
    ensures ts in Statuses(rows) && Statuses(rows)[ts] == rows[i].status
  {
    if i < |rows| - 1 {
      NewestShows(rows[..|rows| - 1], ts, i);
    }
  }

  /** An outgoing row that shares its timestamp with no other is the one its
      timestamp shows. */
  lemma RowShows(rows: seq<Message>, i: nat)
    requires i < |rows| && rows[i].outgoing && OnceAt(rows, rows[i].timestamp)
    ensures rows[i].timestamp in Statuses(rows) && Statuses(rows)[rows[i].timestamp] == rows[i].status
  {
    NewestShows(rows, rows[i].timestamp, i);
  }

  lemma {:induction false} EvictedStatuses(rows: seq<Message>)
    requires rows != []
    ensures Within(Statuses(rows[1..]), Statuses(rows))
  {
    var n := |rows| - 1;
    if n > 0 {
      EvictedStatuses(rows[..n]);
      assert rows[1..][..n - 1] == rows[..n][1..];
    }
  }

  /** A push adds the new row's status and may forget the oldest row's. */
  lemma PushedStatuses(rows: seq<Message>, capacity: nat, m: Message)
    requires capacity > 0 || rows != []
    ensures var now := Statuses(Pushed(rows, capacity, m));
            if m.outgoing then m.timestamp in now && Within(now, Statuses(rows)[m.timestamp := m.status])
            else Within(now, Statuses(rows))
    ensures forall ts :: OnceAt(rows, ts) && (IsOutgoing(m, ts) ==> ts !in Statuses(rows))
              ==> OnceAt(Pushed(rows, capacity, m), ts)
  {
    var kept := if |rows| >= capacity then rows[1..] else rows;
    assert Pushed(rows, capacity, m)[..|kept|] == kept;
    if |rows| >= capacity { EvictedStatuses(rows); }
    if m.outgoing { StatusesKeys(rows, m.timestamp); }
    forall ts | OnceAt(rows, ts) && (IsOutgoing(m, ts) ==> ts !in Statuses(rows)) ensures OnceAt(kept + [m], ts) {
    }
  }

  lemma {:induction false} UpdatedStatuses(rows: seq<Message>, ts: nat, status: SendStatus, i: int)
    requires IsNewestOutgoing(rows, ts, i)
    ensures Statuses(rows[i := rows[i].(status := status)]) == Statuses(rows)[ts := status]
  {
    var n := |rows| - 1;
    var after := rows[i := rows[i].(status := status)];
    if i < n {
      UpdatedStatuses(rows[..n], ts, status, i);
      assert after[..n] == rows[..n][i := rows[i].(status := status)];
    } else {
      assert after[..n] == rows[..n];
    }
  }

  lemma SetStatuses(before: seq<Message>, ts: nat, status: SendStatus, after: seq<Message>)
    requires StatusSet(before, ts, status, after)
    ensures Statuses(after) == if ts in Statuses(before) then Statuses(before)[ts := status] else Statuses(before)
    ensures forall o :: OnceAt(before, o) ==> OnceAt(after, o)
  {
    StatusesKeys(before, ts);
    if ts in Statuses(before) {
      var i :| IsNewestOutgoing(before, ts, i) && after == before[i := before[i].(status := status)];
      UpdatedStatuses(before, ts, status, i);
    }
  }

  predicate KeepsStatus(before: Message, after: Message) {
    after.outgoing == before.outgoing && after.timestamp == before.timestamp && after.status == before.status
  }

  lemma {:induction false} MappedStatuses(before: seq<Message>, after: seq<Message>)
    requires |before| == |after| && forall i :: 0 <= i < |before| ==> KeepsStatus(before[i], after[i])
    ensures Statuses(after) == Statuses(before)
    ensures forall ts :: OnceAt(before, ts) ==> OnceAt(after, ts)
  {
    if before != [] {
      MappedStatuses(before[..|before| - 1], after[..|before| - 1]);
    }
  }
}
