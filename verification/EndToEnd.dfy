/** From the compose box to the tick mark: the UI's rows, the command channel, the
    worker and its events, in every interleaving. */
module EndToEnd {
  import opened ByteStrings
  import opened WorkerModel
  import opened SendLedger
  import opened MessageStore
  import opened StatusView
  import D = Dialogue
  import Reconnect

  /** `commands` is the channel of sends to the worker; `shown` and `told` count
      the manager task's and the dispatcher's events the UI has handled. The
      history: the outgoing timestamps the buffer was `seeded` with, the sends
      composed, and those the UI failed itself because the channel was closed. */
  datatype System = System(
    rows: seq<D.Message>, capacity: nat, worker: Worker, commands: seq<nat>,
    shown: nat, told: nat, seeded: seq<nat>, composed: seq<nat>, unsent: seq<nat>)

  datatype UiStep =
    | Compose(uuid: D.Uuid, body: string, timestamp: nat, reachable: bool)
    | Work(input: Input, choice: Choice)
    | ShowEvent(arrived: D.Message)     // the row of an incoming message
    | ShowRefusal
    | ReadThread(uuid: D.Uuid)
    | ResolveLabels(uuid: D.Uuid, name: string)
    | Wipe

  /** The optimistic send: a pending row, failed on the spot if the worker cannot
      be reached; a group thread takes no reply. */
  ghost predicate Composed(rows: seq<D.Message>, capacity: nat, uuid: D.Uuid, body: string, ts: nat, reachable: bool,
          rows': seq<D.Message>)
    requires capacity > 0
  {
    if GroupThread(rows, uuid) then rows' == rows
    else if reachable then rows' == Pushed(rows, capacity, OutgoingPending(uuid, body, ts))
    else StatusSet(Pushed(rows, capacity, OutgoingPending(uuid, body, ts)), ts, D.Failed, rows')
  }

  /** What one worker event does to the rows. */
  ghost predicate Shows(rows: seq<D.Message>, capacity: nat, e: Event, arrived: D.Message, rows': seq<D.Message>)
    requires capacity > 0
  {
    match e
    case SendComplete(ts) => StatusSet(rows, ts, D.Delivered, rows')
    case SendError(ts) => StatusSet(rows, ts, D.Failed, rows')
    case Message => rows' == Pushed(rows, capacity, arrived)
    case _ => rows' == rows
  }

  function AfterCompose(s: System, ts: nat, reachable: bool, rows: seq<D.Message>): System {
    s.(rows := rows, composed := s.composed + [ts],
       commands := if reachable then s.commands + [ts] else s.commands,
       unsent := if reachable then s.unsent else s.unsent + [ts])
  }

  predicate IsSend(input: Input) {
    input.Command? && input.op.Send?
  }

  /** A send reaches the dispatcher from the head of the channel only. */
  predicate FromChannel(s: System, input: Input) {
    IsSend(input) ==> s.commands != [] && s.commands[0] == input.op.timestamp
  }

  ghost predicate Moves(s: System, step: UiStep, s': System)
    requires s.capacity > 0
  {
    match step
    case Compose(uuid, body, ts, reachable) =>
      Composed(s.rows, s.capacity, uuid, body, ts, reachable, s'.rows)
      && s' == if GroupThread(s.rows, uuid) then s else AfterCompose(s, ts, reachable, s'.rows)
    case Work(input, choice) =>
      Enabled(s.worker, input, choice) && FromChannel(s, input)
      && s' == s.(worker := Next(s.worker, input, choice),
                  commands := if IsSend(input) then s.commands[1..] else s.commands)
    case ShowEvent(arrived) =>
      s.shown < |s.worker.events| && !arrived.outgoing
      && Shows(s.rows, s.capacity, s.worker.events[s.shown], arrived, s'.rows)
      && s' == s.(rows := s'.rows, shown := s.shown + 1)
    case ShowRefusal =>
      s.told < |s.worker.refused| && StatusSet(s.rows, s.worker.refused[s.told], D.Failed, s'.rows)
      && s' == s.(rows := s'.rows, told := s.told + 1)
    case ReadThread(uuid) => ThreadRead(s.rows, uuid, s'.rows) && s' == s.(rows := s'.rows)
    case ResolveLabels(uuid, name) => LabelsResolved(s.rows, uuid, name, s'.rows) && s' == s.(rows := s'.rows)
    case Wipe => s' == s.(rows := [])
  }

  function OutgoingStamps(rows: seq<D.Message>): seq<nat> {
    if rows == [] then []
    else
      var m := rows[|rows| - 1];
      OutgoingStamps(rows[..|rows| - 1]) + if m.outgoing then [m.timestamp] else []
  }

  /** A fresh worker; the buffer may hold seeded rows. */
  ghost predicate Begins(s: System) {
    s.capacity > 0 && s.worker == Start() && s.commands == [] && s.shown == s.told == 0
    && s.composed == [] && s.unsent == [] && s.seeded == OutgoingStamps(s.rows)
  }

  ghost predicate MovedAt(states: seq<System>, steps: seq<UiStep>, i: nat)
    requires i < |steps| && i + 1 < |states|
  {
    states[i].capacity > 0 && Moves(states[i], steps[i], states[i + 1])
  }

  ghost predicate IsHistory(states: seq<System>, steps: seq<UiStep>) {
    |states| == |steps| + 1 && Begins(states[0]) && forall i :: 0 <= i < |steps| ==> MovedAt(states, steps, i)
  }

  // ---- what the UI has been told about a send ----

  function DoneFor(s: System, ts: nat): nat
    requires s.shown <= |s.worker.events|
  {
    CompletedOf(s.worker.events[..s.shown], ts)
  }

  function FailedFor(s: System, ts: nat): nat
    requires s.shown <= |s.worker.events| && s.told <= |s.worker.refused|
  {
    FailedOf(s.worker.events[..s.shown], ts) + CountOf(s.worker.refused[..s.told], ts) + CountOf(s.unsent, ts)
  }

  function Due(s: System, ts: nat): D.SendStatus
    requires s.shown <= |s.worker.events| && s.told <= |s.worker.refused|
  {
    if DoneFor(s, ts) > 0 then D.Delivered else if FailedFor(s, ts) > 0 then D.Failed else D.Pending
  }

  // ---- the invariant ----

  /** No other outgoing row or send has this timestamp. */
  ghost predicate Unshared(s: System, ts: nat) {
    CountOf(s.seeded, ts) + CountOf(s.composed, ts) <= 1
  }

  ghost predicate Known(s: System, ts: nat) {
    CountOf(s.seeded, ts) + CountOf(s.composed, ts) > 0
  }

  /** Where a composed send can be: handed over, in the channel, or given up. */
  ghost predicate Placed(s: System, ts: nat) {
    CountOf(s.worker.taken, ts) + CountOf(s.commands, ts) + CountOf(s.unsent, ts) == CountOf(s.composed, ts)
  }

  ghost predicate Shown(s: System, ts: nat)
    requires s.shown <= |s.worker.events| && s.told <= |s.worker.refused|
  {
    ts in Statuses(s.rows) ==> Known(s, ts) && (CountOf(s.composed, ts) == 1 ==> Statuses(s.rows)[ts] == Due(s, ts))
  }

  ghost predicate Good(s: System, ts: nat) {
    s.capacity > 0 && s.shown <= |s.worker.events| && s.told <= |s.worker.refused|
    && BalancedAt(s.worker, ts) && Placed(s, ts) && Shown(s, ts) && OnceAt(s.rows, ts)
  }

  lemma {:induction false} SeededRows(rows: seq<D.Message>, ts: nat)
    ensures ts in Statuses(rows) <==> CountOf(OutgoingStamps(rows), ts) > 0
    ensures CountOf(OutgoingStamps(rows), ts) <= 1 ==> OnceAt(rows, ts)
  {
    if rows != [] {
      var n := |rows| - 1;
      SeededRows(rows[..n], ts);
      assert OutgoingStamps(rows[..n]) + [] == OutgoingStamps(rows[..n]);
      if rows[n].outgoing { CountAppend(OutgoingStamps(rows[..n]), rows[n].timestamp, ts); }
      if CountOf(OutgoingStamps(rows), ts) <= 1 { OnceMore(rows, ts); }
    }
  }

  lemma OnceMore(rows: seq<D.Message>, ts: nat)
    requires rows != [] && OnceAt(rows[..|rows| - 1], ts)
    requires IsOutgoing(rows[|rows| - 1], ts) ==> ts !in Statuses(rows[..|rows| - 1])
    ensures OnceAt(rows, ts)
  {
    var n := |rows| - 1;
    StatusesKeys(rows[..n], ts);
    forall i, j | 0 <= i < j < |rows| && IsOutgoing(rows[i], ts) ensures !IsOutgoing(rows[j], ts) {
      assert rows[..n][i] == rows[i];
      assert j < n ==> rows[..n][j] == rows[j];
    }
  }

  lemma {:induction false} CountPrefix(s: seq<nat>, n: nat, ts: nat)
    requires n <= |s|
    ensures CountOf(s[..n], ts) <= CountOf(s, ts)
  {
    if n < |s| {
      CountPrefix(s[..|s| - 1], n, ts);
      assert s[..|s| - 1][..n] == s[..n];
    } else {
      assert s[..n] == s;
    }
  }

  lemma {:induction false} EventsPrefix(events: seq<Event>, n: nat, ts: nat)
    requires n <= |events|
    ensures CompletedOf(events[..n], ts) <= CompletedOf(events, ts) && FailedOf(events[..n], ts) <= FailedOf(events, ts)
  {
    if n < |events| {
      EventsPrefix(events[..|events| - 1], n, ts);
      assert events[..|events| - 1][..n] == events[..n];
    } else {
      assert events[..n] == events;
    }
  }

  /** Outcomes the UI has been told never outnumber the sends it composed. */
  lemma OutcomesWithin(s: System, ts: nat)
    requires Good(s, ts)
    ensures DoneFor(s, ts) + FailedFor(s, ts) <= CountOf(s.composed, ts)
  {
    EventsPrefix(s.worker.events, s.shown, ts);
    CountPrefix(s.worker.refused, s.told, ts);
  }

  // ---- the worker's own steps ----

  lemma {:induction false} CountPop(s: seq<nat>, ts: nat)
    requires s != []
    ensures CountOf(s, ts) == CountOf(s[1..], ts) + if s[0] == ts then 1 else 0
  {
    var front := s[..|s| - 1];
    if front == [] {
      assert s[1..] == [];
    } else {
      CountPop(front, ts);
      assert s[1..][..|s| - 2] == front[1..];
    }
  }

  lemma TakenByCommandOnly(w: Worker, input: Input, choice: Choice)
    requires Enabled(w, input, choice)
    ensures Next(w, input, choice).taken == if IsSend(input) then w.taken + [input.op.timestamp] else w.taken
    ensures w.refused <= Next(w, input, choice).refused
  {
    match input
    case StreamItem(now, receipts, _) =>
      Reconnect.ConfirmKeeps(Sweep(w, now, choice.order).(failures := 0, reauths := 0), receipts);
    case _ =>
  }

  lemma WorkKeepsGood(s: System, input: Input, choice: Choice, s': System, ts: nat)
    requires Good(s, ts) && Unshared(s, ts) && Moves(s, Work(input, choice), s')
    ensures Good(s', ts)
  {
    NextBalanced(s.worker, input, choice, ts);
    TakenByCommandOnly(s.worker, input, choice);
    Reconnect.NextEmits(s.worker, input, choice);
    if IsSend(input) {
      CountAppend(s.worker.taken, input.op.timestamp, ts);
      CountPop(s.commands, ts);
    }
    assert s'.worker.events[..s.shown] == s.worker.events[..s.shown];
    assert s'.worker.refused[..s.told] == s.worker.refused[..s.told];
  }

  // ---- the UI's steps ----

  lemma ComposePlaced(s: System, ts: nat, reachable: bool, rows: seq<D.Message>, o: nat)
    requires Placed(s, o)
    ensures Placed(AfterCompose(s, ts, reachable, rows), o)
  {
    CountAppend(s.composed, ts, o);
    CountAppend(s.commands, ts, o);
    CountAppend(s.unsent, ts, o);
  }

  /** The rows after a send: the new one pending or failed, the others as before
      or evicted. */
  lemma ComposedStatuses(rows: seq<D.Message>, capacity: nat, uuid: D.Uuid, body: string, ts: nat, reachable: bool,
          rows': seq<D.Message>)
    requires capacity > 0 && !GroupThread(rows, uuid) && Composed(rows, capacity, uuid, body, ts, reachable, rows')
    ensures ts in Statuses(rows')
            && Within(Statuses(rows'), Statuses(rows)[ts := if reachable then D.Pending else D.Failed])
    ensures forall o :: OnceAt(rows, o) && (o == ts ==> ts !in Statuses(rows)) ==> OnceAt(rows', o)
  {
    var pushed := Pushed(rows, capacity, OutgoingPending(uuid, body, ts));
    PushedStatuses(rows, capacity, OutgoingPending(uuid, body, ts));
    if !reachable { SetStatuses(pushed, ts, D.Failed, rows'); }
  }

  lemma ComposeShown(s: System, ts: nat, reachable: bool, rows: seq<D.Message>, o: nat)
    requires Good(s, o) && ts in Statuses(rows)
    requires Unshared(AfterCompose(s, ts, reachable, rows), o)
    requires Within(Statuses(rows), Statuses(s.rows)[ts := if reachable then D.Pending else D.Failed])
    ensures Shown(AfterCompose(s, ts, reachable, rows), o)
  {
    CountAppend(s.composed, ts, o);
    CountAppend(s.unsent, ts, o);
    OutcomesWithin(s, o);
  }

  lemma ComposeKeepsGood(s: System, step: UiStep, s': System, ts: nat)
    requires Good(s, ts) && step.Compose? && Moves(s, step, s') && Unshared(s', ts)
    ensures Good(s', ts)
  {
    if !GroupThread(s.rows, step.uuid) {
      CountAppend(s.composed, step.timestamp, ts);
      ComposedStatuses(s.rows, s.capacity, step.uuid, step.body, step.timestamp, step.reachable, s'.rows);
      ComposePlaced(s, step.timestamp, step.reachable, s'.rows, ts);
      ComposeShown(s, step.timestamp, step.reachable, s'.rows, ts);
    }
  }

  lemma OneMoreShown(s: System, ts: nat)
    requires s.shown < |s.worker.events| && s.told <= |s.worker.refused|
    ensures var s', e := s.(shown := s.shown + 1), s.worker.events[s.shown];
            DoneFor(s', ts) == DoneFor(s, ts) + (if e == SendComplete(ts) then 1 else 0)
            && FailedFor(s', ts) == FailedFor(s, ts) + (if e == SendError(ts) then 1 else 0)
  {
    assert s.worker.events[..s.shown + 1][..s.shown] == s.worker.events[..s.shown];
  }

  lemma OutcomesStayBounded(s: System, ts: nat)
    requires s.shown < |s.worker.events| && s.told <= |s.worker.refused| && BalancedAt(s.worker, ts) && Placed(s, ts)
    ensures var s' := s.(shown := s.shown + 1); DoneFor(s', ts) + FailedFor(s', ts) <= CountOf(s.composed, ts)
  {
    EventsPrefix(s.worker.events, s.shown + 1, ts);
    CountPrefix(s.worker.refused, s.told, ts);
  }

  lemma ShowEventKeepsGood(s: System, arrived: D.Message, s': System, ts: nat)
    requires Good(s, ts) && Unshared(s, ts) && Moves(s, ShowEvent(arrived), s')
    ensures Good(s', ts)
  {
    OneMoreShown(s, ts);
    OutcomesStayBounded(s, ts);
    assert Placed(s', ts) && s'.worker == s.worker;
    var after := s.(shown := s.shown + 1);
    assert DoneFor(s', ts) == DoneFor(after, ts) && FailedFor(s', ts) == FailedFor(after, ts);
    match s.worker.events[s.shown]
    case SendComplete(done) => SetStatuses(s.rows, done, D.Delivered, s'.rows);
    case SendError(failed) => SetStatuses(s.rows, failed, D.Failed, s'.rows);
    case Message => PushedStatuses(s.rows, s.capacity, arrived);
    case _ =>
  }

  lemma ShowRefusalKeepsGood(s: System, s': System, ts: nat)
    requires Good(s, ts) && Unshared(s, ts) && Moves(s, ShowRefusal, s')
    ensures Good(s', ts)
  {
    assert s.worker.refused[..s.told + 1][..s.told] == s.worker.refused[..s.told];
    EventsPrefix(s.worker.events, s.shown, ts);
    CountPrefix(s.worker.refused, s.told + 1, ts);
    SetStatuses(s.rows, s.worker.refused[s.told], D.Failed, s'.rows);
  }

  lemma ComposedGrows(s: System, step: UiStep, s': System, ts: nat)
    requires s.capacity > 0 && Moves(s, step, s')
    ensures s'.seeded == s.seeded && CountOf(s.composed, ts) <= CountOf(s'.composed, ts)
  {
    if step.Compose? { CountAppend(s.composed, step.timestamp, ts); }
  }

  lemma MoveKeepsGood(s: System, step: UiStep, s': System, ts: nat)
    requires Good(s, ts) && Moves(s, step, s') && Unshared(s', ts)
    ensures Good(s', ts)
  {
    ComposedGrows(s, step, s', ts);
    match step
    case Compose(_, _, _, _) => ComposeKeepsGood(s, step, s', ts);
    case Work(input, choice) => WorkKeepsGood(s, input, choice, s', ts);
    case ShowEvent(arrived) => ShowEventKeepsGood(s, arrived, s', ts);
    case ShowRefusal => ShowRefusalKeepsGood(s, s', ts);
    case ReadThread(_) => MappedStatuses(s.rows, s'.rows);
    case ResolveLabels(_, _) => MappedStatuses(s.rows, s'.rows);
    case Wipe =>
  }

  // ---- the theorems ----

  lemma {:induction false} HistoryGood(states: seq<System>, steps: seq<UiStep>, i: nat, ts: nat)
    requires IsHistory(states, steps) && i <= |steps| && Unshared(states[i], ts)
    ensures Good(states[i], ts)
  {
    if i > 0 {
      assert MovedAt(states, steps, i - 1);
      ComposedGrows(states[i - 1], steps[i - 1], states[i], ts);
      HistoryGood(states, steps, i - 1, ts);
      MoveKeepsGood(states[i - 1], steps[i - 1], states[i], ts);
    } else {
      SeededRows(states[0].rows, ts);
    }
  }

  /** In every history the UI is told at most once how a send ended, and only
      about sends it composed. */
  lemma ToldAtMostOnce(states: seq<System>, steps: seq<UiStep>, i: nat, ts: nat)
    requires IsHistory(states, steps) && i <= |steps| && Unshared(states[i], ts)
    ensures states[i].shown <= |states[i].worker.events| && states[i].told <= |states[i].worker.refused|
    ensures DoneFor(states[i], ts) + FailedFor(states[i], ts) <= CountOf(states[i].composed, ts) <= 1
  {
    HistoryGood(states, steps, i, ts);
    OutcomesWithin(states[i], ts);
  }

  /** A row says exactly what the UI has been told: delivered after a completion,
      failed after an error, pending before either. */
  lemma RowTellsOutcome(states: seq<System>, steps: seq<UiStep>, i: nat, r: nat)
    requires IsHistory(states, steps) && i <= |steps| && r < |states[i].rows| && states[i].rows[r].outgoing
    requires Unshared(states[i], states[i].rows[r].timestamp)
             && CountOf(states[i].composed, states[i].rows[r].timestamp) > 0
    ensures var s, row := states[i], states[i].rows[r];
            s.shown <= |s.worker.events| && s.told <= |s.worker.refused|
            && var done := CompletedOf(s.worker.events[..s.shown], row.timestamp);
               var failed := FailedOf(s.worker.events[..s.shown], row.timestamp)
                             + CountOf(s.worker.refused[..s.told], row.timestamp) + CountOf(s.unsent, row.timestamp);
               (row.status == D.Delivered <==> done == 1) && (row.status == D.Failed <==> failed == 1)
               && (row.status == D.Pending <==> done == failed == 0)
  {
    var ts := states[i].rows[r].timestamp;
    HistoryGood(states, steps, i, ts);
    RowShows(states[i].rows, r);
    OutcomesWithin(states[i], ts);
  }

  predicate OneMove(before: D.SendStatus, after: D.SendStatus) {
    after == before || (before == D.Pending && (after == D.Delivered || after == D.Failed))
  }

  /** Whoever is told an outcome now had heard of none. */
  lemma PendingUntilTold(s: System, s': System, ts: nat)
    requires Good(s, ts) && Good(s', ts) && s'.composed == s.composed && Unshared(s, ts)
    requires DoneFor(s, ts) + FailedFor(s, ts) < DoneFor(s', ts) + FailedFor(s', ts)
    ensures ts in Statuses(s.rows) ==> Statuses(s.rows)[ts] == D.Pending
  {
    OutcomesWithin(s', ts);
  }

  lemma ShowEventAdvances(s: System, arrived: D.Message, s': System, ts: nat)
    requires Good(s, ts) && Good(s', ts) && Moves(s, ShowEvent(arrived), s') && Unshared(s, ts)
             && ts in Statuses(s'.rows)
    ensures ts in Statuses(s.rows) && OneMove(Statuses(s.rows)[ts], Statuses(s'.rows)[ts])
  {
    var e := s.worker.events[s.shown];
    assert s.worker.events[..s.shown + 1][..s.shown] == s.worker.events[..s.shown];
    match e
    case SendComplete(done) =>
      SetStatuses(s.rows, done, D.Delivered, s'.rows);
      if done == ts { PendingUntilTold(s, s', ts); }
    case SendError(failed) =>
      SetStatuses(s.rows, failed, D.Failed, s'.rows);
      if failed == ts { PendingUntilTold(s, s', ts); }
    case Message => PushedStatuses(s.rows, s.capacity, arrived);
    case _ =>
  }

  lemma ShowRefusalAdvances(s: System, s': System, ts: nat)
    requires Good(s, ts) && Good(s', ts) && Moves(s, ShowRefusal, s') && Unshared(s, ts) && ts in Statuses(s'.rows)
    ensures ts in Statuses(s.rows) && OneMove(Statuses(s.rows)[ts], Statuses(s'.rows)[ts])
  {
    assert s.worker.refused[..s.told + 1][..s.told] == s.worker.refused[..s.told];
    SetStatuses(s.rows, s.worker.refused[s.told], D.Failed, s'.rows);
    if s.worker.refused[s.told] == ts { PendingUntilTold(s, s', ts); }
  }

  lemma ComposeAdvances(s: System, step: UiStep, s': System, ts: nat)
    requires step.Compose? && s.capacity > 0 && Moves(s, step, s') && Known(s, ts) && Unshared(s', ts)
             && ts in Statuses(s'.rows)
    ensures ts in Statuses(s.rows) && OneMove(Statuses(s.rows)[ts], Statuses(s'.rows)[ts])
  {
    CountAppend(s.composed, step.timestamp, ts);
    if !GroupThread(s.rows, step.uuid) {
      ComposedStatuses(s.rows, s.capacity, step.uuid, step.body, step.timestamp, step.reachable, s'.rows);
    }
  }

  /** A step moves a status at most from pending to an outcome, and brings no
      timestamp back. */
  lemma MoveAdvances(s: System, step: UiStep, s': System, ts: nat)
    requires Good(s, ts) && Moves(s, step, s') && Unshared(s', ts)
    requires Known(s, ts) && ts in Statuses(s'.rows)
    ensures ts in Statuses(s.rows) && OneMove(Statuses(s.rows)[ts], Statuses(s'.rows)[ts])
  {
    ComposedGrows(s, step, s', ts);
    MoveKeepsGood(s, step, s', ts);
    match step
    case Compose(_, _, _, _) => ComposeAdvances(s, step, s', ts);
    case Work(_, _) =>
    case ShowEvent(arrived) => ShowEventAdvances(s, arrived, s', ts);
    case ShowRefusal => ShowRefusalAdvances(s, s', ts);
    case ReadThread(_) => MappedStatuses(s.rows, s'.rows);
    case ResolveLabels(_, _) => MappedStatuses(s.rows, s'.rows);
    case Wipe =>
  }

  lemma {:induction false} KnownGrows(states: seq<System>, steps: seq<UiStep>, i: nat, j: nat, ts: nat)
    requires IsHistory(states, steps) && i <= j <= |steps|
    ensures states[j].seeded == states[i].seeded && CountOf(states[i].composed, ts) <= CountOf(states[j].composed, ts)
  {
    if i < j {
      KnownGrows(states, steps, i, j - 1, ts);
      assert MovedAt(states, steps, j - 1);
      ComposedGrows(states[j - 1], steps[j - 1], states[j], ts);
    }
  }

  /** One step of a history, seen from one timestamp. */
  lemma HistoryMoveAdvances(states: seq<System>, steps: seq<UiStep>, j: nat, ts: nat)
    requires IsHistory(states, steps) && j < |steps| && Unshared(states[j + 1], ts)
    requires Known(states[j], ts) && ts in Statuses(states[j + 1].rows)
    ensures ts in Statuses(states[j].rows) && OneMove(Statuses(states[j].rows)[ts], Statuses(states[j + 1].rows)[ts])
  {
    var s, s' := states[j], states[j + 1];
    assert MovedAt(states, steps, j);
    ComposedGrows(s, steps[j], s', ts);
    HistoryGood(states, steps, j, ts);
    MoveAdvances(s, steps[j], s', ts);
  }

  /** What a timestamp shows in one state. */
  function ShownFor(s: System, ts: nat): Option<D.SendStatus> {
    if ts in Statuses(s.rows) then Some(Statuses(s.rows)[ts]) else None
  }

  /** Still shown, as before or moved once; or gone. */
  predicate Advances(before: Option<D.SendStatus>, after: Option<D.SendStatus>) {
    after.Some? ==> before.Some? && OneMove(before.value, after.value)
  }

  lemma {:induction false} ChainAdvances(chain: seq<Option<D.SendStatus>>)
    requires chain != [] && forall k :: 0 < k < |chain| ==> Advances(chain[k - 1], chain[k])
    ensures Advances(chain[0], chain[|chain| - 1])
  {
    if |chain| > 1 {
      var n := |chain| - 1;
      ChainAdvances(chain[..n]);
      assert chain[..n][n - 1] == chain[n - 1];
    }
  }

  lemma LinkAdvances(states: seq<System>, steps: seq<UiStep>, i: nat, k: nat, j: nat, ts: nat)
    requires IsHistory(states, steps) && i < k <= j <= |steps| && Unshared(states[j], ts) && Known(states[i], ts)
    ensures Advances(ShownFor(states[k - 1], ts), ShownFor(states[k], ts))
  {
    KnownGrows(states, steps, i, k - 1, ts);
    KnownGrows(states, steps, k, j, ts);
    if ts in Statuses(states[k].rows) { HistoryMoveAdvances(states, steps, k - 1, ts); }
  }

  lemma StatusAdvances(states: seq<System>, steps: seq<UiStep>, i: nat, j: nat, ts: nat)
    requires IsHistory(states, steps) && i <= j <= |steps| && Unshared(states[j], ts) && Known(states[i], ts)
    ensures Advances(ShownFor(states[i], ts), ShownFor(states[j], ts))
  {
    var chain := seq(j - i + 1, k requires 0 <= k <= j - i => ShownFor(states[i + k], ts));
    forall k | 0 < k < |chain| ensures Advances(chain[k - 1], chain[k]) {
      LinkAdvances(states, steps, i, i + k, j, ts);
    }
    ChainAdvances(chain);
  }

  /** In every history, a message row whose timestamp no other outgoing row or
      send shares keeps its status or leaves pending once, for delivered or for
      failed, and never goes from one of these to the other. */
  lemma LeavesPendingOnce(states: seq<System>, steps: seq<UiStep>, i: nat, j: nat, r: nat, q: nat)
    requires IsHistory(states, steps) && i <= j <= |steps|
    requires r < |states[i].rows| && q < |states[j].rows| && states[i].rows[r].outgoing && states[j].rows[q].outgoing
    requires states[i].rows[r].timestamp == states[j].rows[q].timestamp
             && Unshared(states[j], states[i].rows[r].timestamp)
    ensures OneMove(states[i].rows[r].status, states[j].rows[q].status)
  {
    var ts := states[i].rows[r].timestamp;
    KnownGrows(states, steps, i, j, ts);
    HistoryGood(states, steps, i, ts);
    HistoryGood(states, steps, j, ts);
    RowShows(states[i].rows, r);
    RowShows(states[j].rows, q);
    StatusAdvances(states, steps, i, j, ts);
  }

  // ---- the UI's own code ----

  class App {
    const store: MessageStore
    var commands: seq<nat>
    var reachable: bool

    constructor (store: MessageStore)
      ensures this.store == store && commands == [] && reachable
    {
      this.store, commands, reachable := store, [], true;
    }

    method SendCompose(uuid: D.Uuid, body: string, timestamp: nat) returns (blocked: bool)
      requires store.Valid() && store.capacity > 0
      modifies this, store
      ensures store.Valid() && reachable == old(reachable) && blocked == GroupThread(old(store.messages), uuid)
      ensures Composed(old(store.messages), store.capacity, uuid, body, timestamp, reachable, store.messages)
      ensures commands == if reachable && !blocked then old(commands) + [timestamp] else old(commands)
      ensures blocked ==> store.messages == old(store.messages)
      ensures !blocked ==>
                var m := store.messages[|store.messages| - 1];
                m.outgoing && m.uuid == uuid && m.body == body && m.timestamp == timestamp
                && m.status == if reachable then D.Pending else D.Failed
    {
      blocked := store.IsGroupThread(uuid);
      if blocked { return; }
      store.PushOutgoingPending(uuid, body, timestamp);
      assert IsNewestOutgoing(store.messages, timestamp, |store.messages| - 1);
      if reachable {
        commands := commands + [timestamp];
      } else {
        var matched := store.MarkSendFailed(timestamp);
      }
    }

    method HandleEvent(e: Event, arrived: D.Message)
      requires store.Valid() && store.capacity > 0
      requires arrived == Incoming(arrived.uuid, arrived.author, arrived.body, arrived.timestamp, arrived.group)
      modifies store
      ensures store.Valid() && Shows(old(store.messages), store.capacity, e, arrived, store.messages)
      ensures e.SendComplete? || e.SendError? ==>
                forall i :: IsNewestOutgoing(old(store.messages), e.timestamp, i) ==>
                  store.messages == old(store.messages)[i := old(store.messages)[i].(
                                      status := if e.SendComplete? then D.Delivered else D.Failed)]
      ensures e.Message? ==> store.messages != [] && store.messages[|store.messages| - 1] == arrived
      ensures !e.SendComplete? && !e.SendError? && !e.Message? ==> store.messages == old(store.messages)
    {
      match e {
        case SendComplete(ts) => var matched := store.MarkSendDelivered(ts);
        case SendError(ts) => var matched := store.MarkSendFailed(ts);
        case Message =>
          store.PushIncoming(arrived.uuid, arrived.author, arrived.body, arrived.timestamp, arrived.group);
        case _ =>
      }
    }
  }
}
