/** Why outgoing timestamps must differ: the exact set of sends for which no row
    ever goes from one outcome to the other. */
module SharedStamps {
  import opened SendPolicy
  import opened WorkerModel
  import opened SendLedger
  import opened MessageStore
  import opened EndToEnd
  import D = Dialogue

  // ---- reachable states of a client that starts with no messages ----

  ghost predicate EndsIn(states: seq<System>, steps: seq<UiStep>, s: System) {
    IsHistory(states, steps) && states[0].rows == [] && states[|steps|] == s
  }

  ghost predicate Reachable(s: System) {
    exists states, steps :: EndsIn(states, steps, s)
  }

  ghost predicate Steps(s: System, step: UiStep, s': System) {
    s.capacity > 0 && Moves(s, step, s')
  }

  lemma HistoryExtends(states: seq<System>, steps: seq<UiStep>, s: System, step: UiStep, s': System)
    requires EndsIn(states, steps, s) && Steps(s, step, s')
    ensures EndsIn(states + [s'], steps + [step], s')
  {
    var states', steps' := states + [s'], steps + [step];
    forall i | 0 <= i < |steps'| ensures MovedAt(states', steps', i) {
      assert i < |steps| ==> MovedAt(states, steps, i);
    }
  }

  lemma ReachesOn(s: System, step: UiStep, s': System)
    requires Reachable(s) && Steps(s, step, s')
    ensures Reachable(s')
  {
    var states, steps :| EndsIn(states, steps, s);
    HistoryExtends(states, steps, s, step, s');
  }

  // ---- a row that is told two outcomes ----

  /** Row `r` stays where it is and goes from one outcome to the other. */
  predicate FlipsAt(s: System, s': System, r: int) {
    0 <= r < |s.rows| == |s'.rows| && s.rows[r].outgoing
    && s'.rows[r] == s.rows[r].(status := s'.rows[r].status)
    && !OneMove(s.rows[r].status, s'.rows[r].status)
  }

  ghost predicate Flips(s: System, s': System) {
    exists r :: FlipsAt(s, s', r)
  }

  /** A next step that composes from these timestamps only, each at most as often
      as it occurs. */
  ghost predicate NextWithin(stamps: seq<nat>, s: System, step: UiStep, s': System) {
    Reachable(s) && Steps(s, step, s') && forall ts: nat :: CountOf(s'.composed, ts) <= CountOf(stamps, ts)
  }

  lemma DistinctNeverFlip(s: System, step: UiStep, s': System)
    requires Reachable(s) && Steps(s, step, s')
    requires forall ts: nat :: CountOf(s'.composed, ts) <= 1
    ensures !Flips(s, s')
  {
    if r :| FlipsAt(s, s', r) {
      var states, steps :| EndsIn(states, steps, s);
      HistoryExtends(states, steps, s, step, s');
      KnownGrows(states + [s'], steps + [step], 0, |steps| + 1, s.rows[r].timestamp);
      LeavesPendingOnce(states + [s'], steps + [step], |steps|, |steps| + 1, r, r);
    }
  }

  // ---- two sends stamped alike ----

  function SomeUuid(): D.Uuid {
    [0, 0, 0, 0, 0, 0, 0, 0, 0, 0, 0, 0, 0, 0, 0, 0]
  }

  function Row(ts: nat, status: D.SendStatus): D.Message {
    OutgoingPending(SomeUuid(), "", ts).(status := status)
  }

  function Fresh(): System {
    System([], 5, Start(), [], 0, 0, [], [], [])
  }

  lemma FreshReachable()
    ensures Reachable(Fresh())
  {
    assert EndsIn([Fresh()], [], Fresh());
  }

  /** Both messages composed, both commands in the channel. */
  lemma BothComposed(ts: nat) returns (s: System)
    ensures Reachable(s)
    ensures s == Fresh().(rows := [Row(ts, D.Pending), Row(ts, D.Pending)], commands := [ts, ts], composed := [ts, ts])
  {
    FreshReachable();
    var step := Compose(SomeUuid(), "", ts, true);
    var one := AfterCompose(Fresh(), ts, true, [Row(ts, D.Pending)]);
    ReachesOn(Fresh(), step, one);
    s := AfterCompose(one, ts, true, [Row(ts, D.Pending), Row(ts, D.Pending)]);
    ReachesOn(one, step, s);
  }

  function Queued(w: Worker, ts: nat): Worker {
    w.(queue := w.queue + [Send(ts)], taken := w.taken + [ts])
  }

  /** Both sends handed to the manager task. */
  lemma BothQueued(ts: nat) returns (s: System)
    ensures Reachable(s)
    ensures s == Fresh().(rows := [Row(ts, D.Pending), Row(ts, D.Pending)], composed := [ts, ts],
                          worker := Queued(Queued(Start(), ts), ts))
  {
    var s0 := BothComposed(ts);
    var step := Work(Command(Send(ts)), Choice([], Completed, 0));
    var s1 := s0.(worker := Queued(Start(), ts), commands := [ts]);
    ReachesOn(s0, step, s1);
    s := s1.(worker := Queued(Queued(Start(), ts), ts), commands := []);
    ReachesOn(s1, step, s);
  }

  /** The first is sent, the second fails. */
  lemma BothRun(ts: nat) returns (s: System)
    ensures Reachable(s) && s.capacity == 5 && s.shown == 0 && s.composed == [ts, ts]
    ensures s.rows == [Row(ts, D.Pending), Row(ts, D.Pending)] && s.worker.events == [SendComplete(ts), SendError(ts)]
  {
    var s0 := BothQueued(ts);
    assert Expired(map[], 0) == {} && Errors([]) == [];
    var w1 := s0.worker.(queue := [Send(ts)], events := [SendComplete(ts)]);
    assert Next(s0.worker, TakeOp(0), Choice([], Completed, 0)) == w1;
    var s1 := s0.(worker := w1);
    ReachesOn(s0, Work(TakeOp(0), Choice([], Completed, 0)), s1);
    var w2 := w1.(queue := [], events := [SendComplete(ts), SendError(ts)]);
    assert Next(w1, TakeOp(0), Choice([], Failed, 0)) == w2;
    s := s1.(worker := w2);
    ReachesOn(s1, Work(TakeOp(0), Choice([], Failed, 0)), s);
  }

  /** A history of two sends stamped alike in which the newer row, shown as
      delivered, becomes failed. */
  lemma SharedTimestampMisreports(ts: nat) returns (s: System, step: UiStep, s': System)
    ensures Reachable(s) && Steps(s, step, s') && s'.composed == [ts, ts]
    ensures s.rows == [Row(ts, D.Pending), Row(ts, D.Delivered)] && s'.rows == [Row(ts, D.Pending), Row(ts, D.Failed)]
    ensures Flips(s, s')
  {
    var told := BothRun(ts);
    step := ShowEvent(Incoming(SomeUuid(), "", "", 0, false));
    s := told.(rows := [Row(ts, D.Pending), Row(ts, D.Delivered)], shown := 1);
    NewerRowSet(ts, D.Pending, D.Delivered);
    ReachesOn(told, step, s);
    s' := s.(rows := [Row(ts, D.Pending), Row(ts, D.Failed)], shown := 2);
    NewerRowSet(ts, D.Delivered, D.Failed);
    assert FlipsAt(s, s', 1);
  }

  lemma NewerRowSet(ts: nat, was: D.SendStatus, now: D.SendStatus)
    ensures StatusSet([Row(ts, D.Pending), Row(ts, was)], ts, now, [Row(ts, D.Pending), Row(ts, now)])
  {
    var before := [Row(ts, D.Pending), Row(ts, was)];
    assert IsOutgoing(before[1], ts) && IsNewestOutgoing(before, ts, 1);
    assert before[1 := before[1].(status := now)] == [Row(ts, D.Pending), Row(ts, now)];
  }

  // ---- both directions ----

  /** Whatever happens, no row goes from one outcome to the other, if and only if
      no two sends share a timestamp. */
  lemma SafeExactlyWhenDistinct(stamps: seq<nat>)
    ensures (forall s, step, s' :: NextWithin(stamps, s, step, s') ==> !Flips(s, s'))
            <==> Distinct(stamps)
  {
    if Distinct(stamps) {
      forall s, step, s' | NextWithin(stamps, s, step, s') ensures !Flips(s, s') {
        DistinctNeverFlip(s, step, s');
      }
    } else {
      var ts: nat :| CountOf(stamps, ts) > 1;
      var s, step, s' := SharedTimestampMisreports(ts);
      forall o: nat ensures CountOf([ts, ts], o) == if o == ts then 2 else 0 {
        CountAppend([ts], ts, o);
        CountAppend([], ts, o);
      }
      assert NextWithin(stamps, s, step, s');
    }
  }
}
