/** Every send the worker takes is accounted for, over whole runs: answered once,
    or still in its grace window, or still queued. */
module SendLedger {
  import opened SendPolicy
  import opened WorkerModel
  import Reconnect

  // ---- the accounts, timestamp by timestamp ----

  function CompletedOf(events: seq<Event>, ts: nat): nat {
    if events == [] then 0
    else CompletedOf(events[..|events| - 1], ts) + if events[|events| - 1] == SendComplete(ts) then 1 else 0
  }

  function FailedOf(events: seq<Event>, ts: nat): nat {
    if events == [] then 0
    else FailedOf(events[..|events| - 1], ts) + if events[|events| - 1] == SendError(ts) then 1 else 0
  }

  function QueuedOf(queue: seq<WorkerOp>, ts: nat): nat {
    if queue == [] then 0
    else QueuedOf(queue[..|queue| - 1], ts) + if queue[|queue| - 1] == Send(ts) then 1 else 0
  }

  function CountOf(s: seq<nat>, ts: nat): nat {
    if s == [] then 0
    else CountOf(s[..|s| - 1], ts) + if s[|s| - 1] == ts then 1 else 0
  }

  function GraceOf(pending: map<nat, int>, ts: nat): nat {
    if ts in pending then 1 else 0
  }

  /** Outcome events a send has had, from the manager task or from the dispatcher. */
  function OutcomesOf(w: Worker, ts: nat): nat {
    CompletedOf(w.events, ts) + FailedOf(w.events, ts) + CountOf(w.refused, ts)
  }

  /** Taken is completed plus failed plus waiting for a receipt plus queued. */
  ghost predicate BalancedAt(w: Worker, ts: nat) {
    CountOf(w.taken, ts) == OutcomesOf(w, ts) + GraceOf(w.pending, ts) + QueuedOf(w.queue, ts)
  }

  ghost predicate Distinct(s: seq<nat>) {
    forall ts: nat :: CountOf(s, ts) <= 1
  }

  // ---- the accounts of concatenations ----

  lemma {:induction false} EventsAppend(a: seq<Event>, b: seq<Event>, ts: nat)
    ensures CompletedOf(a + b, ts) == CompletedOf(a, ts) + CompletedOf(b, ts)
    ensures FailedOf(a + b, ts) == FailedOf(a, ts) + FailedOf(b, ts)
  {
    if b == [] {
      assert a + b == a;
    } else {
      EventsAppend(a, b[..|b| - 1], ts);
      assert (a + b)[..|a + b| - 1] == a + b[..|b| - 1];
    }
  }

  lemma QueueAppend(queue: seq<WorkerOp>, op: WorkerOp, ts: nat)
    ensures QueuedOf(queue + [op], ts) == QueuedOf(queue, ts) + if op == Send(ts) then 1 else 0
  {
    assert (queue + [op])[..|queue|] == queue;
  }

  lemma CountAppend(s: seq<nat>, x: nat, ts: nat)
    ensures CountOf(s + [x], ts) == CountOf(s, ts) + if x == ts then 1 else 0
  {
    assert (s + [x])[..|s|] == s;
  }

  lemma {:induction false} QueuePop(queue: seq<WorkerOp>, ts: nat)
    requires queue != []
    ensures QueuedOf(queue, ts) == QueuedOf(queue[1..], ts) + if queue[0] == Send(ts) then 1 else 0
  {
    var front := queue[..|queue| - 1];
    if front == [] {
      assert queue[1..] == [];
    } else {
      QueuePop(front, ts);
      assert queue[1..][..|queue| - 2] == front[1..];
    }
  }

  lemma {:induction false} ErrorsOf(order: seq<nat>, ts: nat)
    ensures FailedOf(Errors(order), ts) == CountOf(order, ts) && CompletedOf(Errors(order), ts) == 0
  {
    if order != [] {
      var front := order[..|order| - 1];
      ErrorsOf(front, ts);
      assert Errors(order)[..|order| - 1] == Errors(front);
    }
  }

  lemma {:induction false} CountOnce(s: seq<nat>, ts: nat)
    requires forall i, j :: 0 <= i < j < |s| ==> s[i] != s[j]
    ensures CountOf(s, ts) == if ts in s then 1 else 0
  {
    if s != [] {
      var front := s[..|s| - 1];
      CountOnce(front, ts);
      assert s == front + [s[|s| - 1]];
    }
  }

  // ---- each kind of step keeps the balance ----

  lemma SweepBalanced(w: Worker, now: int, order: seq<nat>, ts: nat)
    requires BalancedAt(w, ts) && SweepOrder(w.pending, now, order)
    ensures BalancedAt(Sweep(w, now, order), ts)
  {
    EventsAppend(w.events, Errors(order), ts);
    ErrorsOf(order, ts);
    CountOnce(order, ts);
  }

  lemma {:induction false} ConfirmBalanced(w: Worker, receipts: seq<nat>, ts: nat)
    requires BalancedAt(w, ts)
    ensures BalancedAt(Confirm(w, receipts), ts)
  {
    if receipts != [] {
      var before := Confirm(w, receipts[..|receipts| - 1]);
      ConfirmBalanced(w, receipts[..|receipts| - 1], ts);
      EventsAppend(before.events, [SendComplete(receipts[|receipts| - 1])], ts);
    }
  }

  // ---- what sweeping and receipts bring about ----

  /** Exactly the sends whose deadline has come are answered, each with one
      error; the others keep their deadline. */
  lemma SweepSays(w: Worker, now: int, order: seq<nat>, ts: nat)
    requires SweepOrder(w.pending, now, order)
    ensures var w' := Sweep(w, now, order);
            (ts in w'.pending <==> ts in w.pending && w.pending[ts] > now)
            && (ts in w'.pending ==> w'.pending[ts] == w.pending[ts])
            && FailedOf(w'.events, ts) == FailedOf(w.events, ts)
                                          + (if ts in w.pending && w.pending[ts] <= now then 1 else 0)
            && CompletedOf(w'.events, ts) == CompletedOf(w.events, ts)
  {
    EventsAppend(w.events, Errors(order), ts);
    ErrorsOf(order, ts);
    CountOnce(order, ts);
  }

  /** Exactly the deferred sends that are named complete, each once; a receipt
      for anything else means nothing. */
  lemma {:induction false} ConfirmSays(w: Worker, receipts: seq<nat>, ts: nat)
    ensures var w' := Confirm(w, receipts);
            (ts in w'.pending <==> ts in w.pending && ts !in receipts)
            && (ts in w'.pending ==> w'.pending[ts] == w.pending[ts])
            && CompletedOf(w'.events, ts) == CompletedOf(w.events, ts)
                                             + (if ts in w.pending && ts in receipts then 1 else 0)
            && FailedOf(w'.events, ts) == FailedOf(w.events, ts)
  {
    if receipts != [] {
      var n := |receipts| - 1;
      var before := Confirm(w, receipts[..n]);
      ConfirmSays(w, receipts[..n], ts);
      assert receipts == receipts[..n] + [receipts[n]];
      EventsAppend(before.events, [SendComplete(receipts[n])], ts);
    }
  }

  /** A send leaves the queue for exactly one of the other accounts. */
  lemma SendBalanced(w: Worker, verdict: Verdict, now: int, ts: nat)
    requires BalancedAt(w, ts) && CountOf(w.taken, ts) <= 1 && w.queue != [] && w.queue[0].Send?
    ensures BalancedAt(RunSend(w.(queue := w.queue[1..]), w.queue[0].timestamp, verdict, now), ts)
  {
    QueuePop(w.queue, ts);
    EventsAppend(w.events, Announced(verdict, w.queue[0].timestamp), ts);
  }

  lemma DispatchBalanced(w: Worker, op: WorkerOp, ts: nat)
    requires BalancedAt(w, ts)
    ensures BalancedAt(Dispatch(w, op), ts)
  {
    QueueAppend(w.queue, op, ts);
    if op.Send? {
      CountAppend(w.taken, op.timestamp, ts);
      CountAppend(w.refused, op.timestamp, ts);
    }
  }

  predicate NoOutcome(events: seq<Event>) {
    forall i :: 0 <= i < |events| ==> !events[i].SendComplete? && !events[i].SendError?
  }

  lemma {:induction false} NoOutcomeCounts(events: seq<Event>, ts: nat)
    requires NoOutcome(events)
    ensures CompletedOf(events, ts) == FailedOf(events, ts) == 0
  {
    if events != [] {
      NoOutcomeCounts(events[..|events| - 1], ts);
    }
  }

  /** Events that are no send outcome, and nothing else, change no account. */
  lemma OtherEvents(w: Worker, w': Worker, extra: seq<Event>, ts: nat)
    requires BalancedAt(w, ts) && w'.events == w.events + extra && NoOutcome(extra)
    requires w'.taken == w.taken && w'.refused == w.refused && w'.pending == w.pending && w'.queue == w.queue
    ensures BalancedAt(w', ts)
  {
    EventsAppend(w.events, extra, ts);
    NoOutcomeCounts(extra, ts);
  }

  lemma TakeBalanced(w: Worker, now: int, choice: Choice, ts: nat)
    requires BalancedAt(w, ts) && CountOf(w.taken, ts) <= 1 && w.queue != [] && SweepOrder(w.pending, now, choice.order)
    ensures BalancedAt(Take(w, choice, now), ts)
  {
    var swept := Sweep(w, now, choice.order);
    SweepBalanced(w, now, choice.order, ts);
    assert swept.queue == w.queue && swept.taken == w.taken;
    PopBalanced(swept, choice, ts);
    var ran := RunOp(swept.(queue := w.queue[1..]), w.queue[0], choice);
    assert Take(w, choice, now) == ran || Take(w, choice, now) == Reenter(ran);
  }

  lemma PopBalanced(w: Worker, choice: Choice, ts: nat)
    requires BalancedAt(w, ts) && CountOf(w.taken, ts) <= 1 && w.queue != []
    ensures BalancedAt(RunOp(w.(queue := w.queue[1..]), w.queue[0], choice), ts)
  {
    if w.queue[0].Send? {
      SendBalanced(w, choice.verdict, choice.ended, ts);
    } else {
      QueuePop(w.queue, ts);
    }
  }

  lemma ItemBalanced(w: Worker, now: int, receipts: seq<nat>, text: bool, choice: Choice, ts: nat)
    requires BalancedAt(w, ts) && Enabled(w, StreamItem(now, receipts, text), choice)
    ensures BalancedAt(Next(w, StreamItem(now, receipts, text), choice), ts)
  {
    SweepBalanced(w, now, choice.order, ts);
    var swept := Sweep(w, now, choice.order).(failures := 0, reauths := 0);
    ConfirmBalanced(swept, receipts, ts);
    if text {
      OtherEvents(Confirm(swept, receipts), Next(w, StreamItem(now, receipts, text), choice), [Message], ts);
    }
  }

  lemma NextBalanced(w: Worker, input: Input, choice: Choice, ts: nat)
    requires BalancedAt(w, ts) && CountOf(w.taken, ts) <= 1 && Enabled(w, input, choice)
    ensures BalancedAt(Next(w, input, choice), ts)
  {
    match input
    case Command(op) => DispatchBalanced(w, op, ts);
    case TakeOp(now) => TakeBalanced(w, now, choice, ts);
    case StreamItem(now, receipts, text) => ItemBalanced(w, now, receipts, text, choice, ts);
    case Tick(now) => SweepBalanced(w, now, choice.order, ts);
    case ChannelClosed(now) => SweepStepBalanced(w, input, choice, ts);
    case StreamEnd(now) => SweepStepBalanced(w, input, choice, ts);
    case Unlink =>
    case BackoffElapsed(_) => StreamStepBalanced(w, input, choice, ts);
    case OpenOk => StreamStepBalanced(w, input, choice, ts);
    case OpenErr(_, _) => StreamStepBalanced(w, input, choice, ts);
  }

  lemma SweepStepBalanced(w: Worker, input: Input, choice: Choice, ts: nat)
    requires BalancedAt(w, ts) && Enabled(w, input, choice) && (input.ChannelClosed? || input.StreamEnd?)
    ensures BalancedAt(Next(w, input, choice), ts)
  {
    var swept := Sweep(w, input.now, choice.order);
    SweepBalanced(w, input.now, choice.order, ts);
    OtherEvents(swept, Next(w, input, choice),
                if input.StreamEnd? && w.failures == 0 then [ReceiveErrorBanner] else [], ts);
  }

  lemma StreamStepQuiet(w: Worker, input: Input, choice: Choice)
    requires Enabled(w, input, choice) && (input.BackoffElapsed? || input.OpenOk? || input.OpenErr?)
    ensures NoOutcome(Reconnect.Emitted(w, input, choice))
  {
  }

  lemma StreamStepKeepsAccounts(w: Worker, input: Input, choice: Choice)
    requires Enabled(w, input, choice) && (input.BackoffElapsed? || input.OpenOk? || input.OpenErr?)
    ensures var w' := Next(w, input, choice);
            w'.taken == w.taken && w'.refused == w.refused && w'.pending == w.pending && w'.queue == w.queue
  {
    match input
    case BackoffElapsed(_) =>
    case OpenOk =>
    case OpenErr(_, _) =>
  }

  lemma StreamStepBalanced(w: Worker, input: Input, choice: Choice, ts: nat)
    requires BalancedAt(w, ts) && Enabled(w, input, choice)
             && (input.BackoffElapsed? || input.OpenOk? || input.OpenErr?)
    ensures BalancedAt(Next(w, input, choice), ts)
  {
    var w', extra := Next(w, input, choice), Reconnect.Emitted(w, input, choice);
    Reconnect.NextEmits(w, input, choice);
    StreamStepQuiet(w, input, choice);
    StreamStepKeepsAccounts(w, input, choice);
    EventsAppend(w.events, extra, ts);
    NoOutcomeCounts(extra, ts);
  }

  // ---- whole runs ----

  lemma TakenGrows(w: Worker, input: Input, choice: Choice, ts: nat)
    requires Enabled(w, input, choice)
    ensures CountOf(w.taken, ts) <= CountOf(Next(w, input, choice).taken, ts)
  {
    match input
    case StreamItem(now, receipts, _) =>
      Reconnect.ConfirmKeeps(Sweep(w, now, choice.order).(failures := 0, reauths := 0), receipts);
    case Command(op) =>
      if op.Send? { CountAppend(w.taken, op.timestamp, ts); }
    case _ =>
  }

  /** In every run, for every timestamp the worker took at most once, the account
      balances: through retries, receipts, expiries and after the manager task's end. */
  lemma RunBalanced(states: seq<Worker>, inputs: seq<Input>, choices: seq<Choice>, i: nat, ts: nat)
    requires IsRun(states, inputs, choices) && i <= |inputs| && states[0] == Start()
    requires CountOf(states[i].taken, ts) <= 1
    ensures BalancedAt(states[i], ts)
  {
    var good := (w: Worker) => CountOf(w.taken, ts) <= 1 ==> BalancedAt(w, ts);
    forall w, input, choice | good(w) && Enabled(w, input, choice) ensures good(Next(w, input, choice)) {
      TakenGrows(w, input, choice, ts);
      if CountOf(Next(w, input, choice).taken, ts) <= 1 {
        NextBalanced(w, input, choice, ts);
      }
    }
    RunInduction(states, inputs, choices, i, good);
  }

  /** With distinct timestamps every send gets at most one outcome; it has none
      exactly while it is still queued or in its grace window. */
  lemma AtMostOneOutcome(states: seq<Worker>, inputs: seq<Input>, choices: seq<Choice>, i: nat, ts: nat)
    requires IsRun(states, inputs, choices) && i <= |inputs| && states[0] == Start()
    requires Distinct(states[i].taken)
    ensures OutcomesOf(states[i], ts) <= 1
    ensures CountOf(states[i].taken, ts) == 1 ==>
              (OutcomesOf(states[i], ts) == 0 <==> ts in states[i].pending || QueuedOf(states[i].queue, ts) == 1)
    ensures CountOf(states[i].taken, ts) == 0 ==> OutcomesOf(states[i], ts) == 0
  {
    RunBalanced(states, inputs, choices, i, ts);
  }

  // ---- how a deferred send ends ----

  /** The step looks for sends whose deadline has come, this one's among them. */
  predicate Expires(w: Worker, input: Input, ts: nat) {
    (input.Tick? || input.TakeOp? || input.ChannelClosed? || input.StreamItem? || input.StreamEnd?)
    && ts in w.pending && w.pending[ts] <= input.now
  }

  /** The step is a stream item with a delivery receipt for it. */
  predicate Confirms(w: Worker, input: Input, ts: nat) {
    input.StreamItem? && ts in input.receipts && ts in w.pending && w.pending[ts] > input.now
  }

  predicate RunsAgain(w: Worker, input: Input, ts: nat) {
    input.TakeOp? && w.queue != [] && w.queue[0] == Send(ts)
  }

  /** Between these two states the send kept its deadline, and events were added
      that say nothing about it. */
  ghost predicate Untouched(w: Worker, w': Worker, ts: nat) {
    (ts in w'.pending <==> ts in w.pending) && (ts in w.pending ==> w'.pending[ts] == w.pending[ts])
    && CompletedOf(w'.events, ts) == CompletedOf(w.events, ts) && FailedOf(w'.events, ts) == FailedOf(w.events, ts)
  }

  lemma OtherOpUntouched(swept: Worker, choice: Choice, ts: nat)
    requires swept.queue != [] && swept.queue[0] != Send(ts)
    ensures Untouched(swept, RunOp(swept.(queue := swept.queue[1..]), swept.queue[0], choice), ts)
  {
    if swept.queue[0].Send? { EventsAppend(swept.events, Announced(choice.verdict, swept.queue[0].timestamp), ts); }
  }

  lemma TakeUntouched(w: Worker, now: int, choice: Choice, ts: nat)
    requires w.queue != [] && w.queue[0] != Send(ts)
    ensures Untouched(Sweep(w, now, choice.order), Take(w, choice, now), ts)
  {
    OtherOpUntouched(Sweep(w, now, choice.order), choice, ts);
  }

  lemma QuietUntouched(w: Worker, w': Worker, extra: seq<Event>, ts: nat)
    requires w'.events == w.events + extra && NoOutcome(extra) && w'.pending == w.pending
    ensures Untouched(w, w', ts)
  {
    EventsAppend(w.events, extra, ts);
    NoOutcomeCounts(extra, ts);
  }

  lemma SweepStepUntouched(w: Worker, input: Input, choice: Choice, ts: nat)
    requires Enabled(w, input, choice) && (input.Tick? || input.ChannelClosed? || input.StreamEnd?)
    ensures Untouched(Sweep(w, input.now, choice.order), Next(w, input, choice), ts)
  {
    if !input.Tick? {
      QuietUntouched(Sweep(w, input.now, choice.order), Next(w, input, choice),
                     if input.StreamEnd? && w.failures == 0 then [ReceiveErrorBanner] else [], ts);
    }
  }

  lemma StreamStepUntouched(w: Worker, input: Input, choice: Choice, ts: nat)
    requires Enabled(w, input, choice) && (input.BackoffElapsed? || input.OpenOk? || input.OpenErr?)
    ensures Untouched(w, Next(w, input, choice), ts)
  {
    Reconnect.NextEmits(w, input, choice);
    StreamStepQuiet(w, input, choice);
    StreamStepKeepsAccounts(w, input, choice);
    QuietUntouched(w, Next(w, input, choice), Reconnect.Emitted(w, input, choice), ts);
  }

  /** After the sweep an item confirms what its receipts name. */
  lemma ItemSays(w: Worker, now: int, receipts: seq<nat>, text: bool, choice: Choice, ts: nat)
    requires Enabled(w, StreamItem(now, receipts, text), choice)
    ensures var swept := Sweep(w, now, choice.order);
            var w' := Next(w, StreamItem(now, receipts, text), choice);
            (ts in w'.pending <==> ts in swept.pending && ts !in receipts)
            && (ts in w'.pending ==> w'.pending[ts] == swept.pending[ts])
            && CompletedOf(w'.events, ts) == CompletedOf(swept.events, ts)
                                             + (if ts in swept.pending && ts in receipts then 1 else 0)
            && FailedOf(w'.events, ts) == FailedOf(swept.events, ts)
  {
    var reset := Sweep(w, now, choice.order).(failures := 0, reauths := 0);
    ConfirmSays(reset, receipts, ts);
    EventsAppend(Confirm(reset, receipts).events, [Message], ts);
  }

  /** One step, seen from one deferred send: it expires, it is confirmed, or it
      goes on waiting for the same deadline. */
  lemma DeferredStep(w: Worker, input: Input, choice: Choice, ts: nat)
    requires Enabled(w, input, choice) && ts in w.pending && !RunsAgain(w, input, ts)
    ensures var w' := Next(w, input, choice);
            FailedOf(w'.events, ts) == FailedOf(w.events, ts) + (if Expires(w, input, ts) then 1 else 0)
            && CompletedOf(w'.events, ts) == CompletedOf(w.events, ts) + (if Confirms(w, input, ts) then 1 else 0)
            && (ts in w'.pending <==> !Expires(w, input, ts) && !Confirms(w, input, ts))
            && (ts in w'.pending ==> w'.pending[ts] == w.pending[ts])
  {
    if Sweeps(input) { SweepSays(w, input.now, choice.order, ts); }
    match input
    case StreamItem(now, receipts, text) => ItemSays(w, now, receipts, text, choice, ts);
    case TakeOp(now) => TakeUntouched(w, now, choice, ts);
    case Tick(_) => SweepStepUntouched(w, input, choice, ts);
    case ChannelClosed(_) => SweepStepUntouched(w, input, choice, ts);
    case StreamEnd(_) => SweepStepUntouched(w, input, choice, ts);
    case Command(_) =>
    case Unlink =>
    case _ => StreamStepUntouched(w, input, choice, ts);
  }

  lemma OutcomesGrow(w: Worker, input: Input, choice: Choice, ts: nat)
    requires Enabled(w, input, choice)
    ensures CompletedOf(w.events, ts) <= CompletedOf(Next(w, input, choice).events, ts)
    ensures FailedOf(w.events, ts) <= FailedOf(Next(w, input, choice).events, ts)
  {
    Reconnect.NextEmits(w, input, choice);
    EventsAppend(w.events, Reconnect.Emitted(w, input, choice), ts);
  }

  lemma AccountsGrow(states: seq<Worker>, inputs: seq<Input>, choices: seq<Choice>, i: nat, j: nat, ts: nat)
    requires IsRun(states, inputs, choices) && i <= j <= |inputs|
    ensures CountOf(states[i].taken, ts) <= CountOf(states[j].taken, ts)
    ensures CompletedOf(states[i].events, ts) <= CompletedOf(states[j].events, ts)
    ensures FailedOf(states[i].events, ts) <= FailedOf(states[j].events, ts)
  {
    var taken := (w: Worker) => CountOf(w.taken, ts);
    var completed := (w: Worker) => CompletedOf(w.events, ts);
    var failed := (w: Worker) => FailedOf(w.events, ts);
    forall w, input, choice | Enabled(w, input, choice)
      ensures taken(w) <= taken(Next(w, input, choice)) && completed(w) <= completed(Next(w, input, choice))
              && failed(w) <= failed(Next(w, input, choice))
    {
      TakenGrows(w, input, choice, ts);
      OutcomesGrow(w, input, choice, ts);
    }
    RunGrows(states, inputs, choices, i, j, taken);
    RunGrows(states, inputs, choices, i, j, completed);
    RunGrows(states, inputs, choices, i, j, failed);
  }

  /** A deferred send is not queued as well. */
  lemma DeferredIsOver(w: Worker, input: Input, ts: nat)
    requires BalancedAt(w, ts) && CountOf(w.taken, ts) <= 1 && ts in w.pending
    ensures !RunsAgain(w, input, ts) && CompletedOf(w.events, ts) == FailedOf(w.events, ts) == 0
  {
    if RunsAgain(w, input, ts) { QueuePop(w.queue, ts); }
  }

  /** In every run, a deferred send named in a stream item's receipts before its
      deadline is completed at that step, and one whose deadline a step finds
      passed has failed at that step; nothing is said about it ever after. */
  lemma DeferredEndsOnce(states: seq<Worker>, inputs: seq<Input>, choices: seq<Choice>, i: nat, j: nat, ts: nat)
    requires IsRun(states, inputs, choices) && i < j <= |inputs| && states[0] == Start()
    requires CountOf(states[j].taken, ts) <= 1 && ts in states[i].pending
    ensures Confirms(states[i], inputs[i], ts) ==>
              CompletedOf(states[j].events, ts) == 1 && FailedOf(states[j].events, ts) == 0 && ts !in states[j].pending
    ensures Expires(states[i], inputs[i], ts) ==>
              FailedOf(states[j].events, ts) == 1 && CompletedOf(states[j].events, ts) == 0 && ts !in states[j].pending
  {
    AccountsGrow(states, inputs, choices, i, j, ts);
    AccountsGrow(states, inputs, choices, i + 1, j, ts);
    RunBalanced(states, inputs, choices, i, ts);
    RunBalanced(states, inputs, choices, j, ts);
    assert Enabled(states[i], inputs[i], choices[i]) && states[i + 1] == Next(states[i], inputs[i], choices[i]);
    DeferredIsOver(states[i], inputs[i], ts);
    DeferredStep(states[i], inputs[i], choices[i], ts);
  }

  lemma WaitsOn(w: Worker, input: Input, choice: Choice, ts: nat)
    requires Enabled(w, input, choice) && BalancedAt(w, ts) && CountOf(w.taken, ts) <= 1 && ts in w.pending
    requires !Expires(w, input, ts) && !Confirms(w, input, ts)
    ensures ts in Next(w, input, choice).pending && Next(w, input, choice).pending[ts] == w.pending[ts]
  {
    DeferredIsOver(w, input, ts);
    DeferredStep(w, input, choice, ts);
  }

  /** Until then it waits: as long as no step finds its deadline passed and no
      receipt names it, a deferred send keeps its deadline and has no outcome. */
  lemma DeferredWaits(states: seq<Worker>, inputs: seq<Input>, choices: seq<Choice>, i: nat, j: nat, ts: nat)
    requires IsRun(states, inputs, choices) && i <= j <= |inputs| && states[0] == Start()
    requires CountOf(states[j].taken, ts) <= 1 && ts in states[i].pending
    requires forall m :: i <= m < j ==> !Expires(states[m], inputs[m], ts) && !Confirms(states[m], inputs[m], ts)
    ensures ts in states[j].pending && states[j].pending[ts] == states[i].pending[ts]
    ensures CompletedOf(states[j].events, ts) == FailedOf(states[j].events, ts) == 0
  {
    var deadline := states[i].pending[ts];
    var waits := (w: Worker) => ts in w.pending && w.pending[ts] == deadline;
    var quiet := (w: Worker, input: Input) => CountOf(w.taken, ts) <= 1 && BalancedAt(w, ts)
                                              && !Expires(w, input, ts) && !Confirms(w, input, ts);
    forall m | i <= m < j ensures quiet(states[m], inputs[m]) {
      AccountsGrow(states, inputs, choices, m, j, ts);
      RunBalanced(states, inputs, choices, m, ts);
    }
    forall w, input, choice | waits(w) && quiet(w, input) && Enabled(w, input, choice)
      ensures waits(Next(w, input, choice))
    {
      WaitsOn(w, input, choice, ts);
    }
    RunKeeps(states, inputs, choices, i, j, waits, quiet);
    RunBalanced(states, inputs, choices, j, ts);
    DeferredIsOver(states[j], Unlink, ts);
  }
}
