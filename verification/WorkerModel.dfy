/** The worker as a step machine: a dispatcher that takes commands, and the manager task
    that owns the receive stream, its reconnects and the sends. */
module WorkerModel {
  import opened Basics
  import opened SendPolicy

  const MAX_CONSECUTIVE_FAILURES := 20
  const MAX_REAUTH_403S := 3
  const OP_CHANNEL_BOUND := 8
  const PENDING_RECEIPT_GRACE := 30
  const REAUTH_SETTLING_DELAY_MS := 10_000
  const RECONNECT_THROTTLE_MS := 1_000
  const CLOSE_GOING_AWAY := 1001
  const CLOSE_REAUTH := 4401
  const CLOSE_CONNECTED_ELSEWHERE := 4409

  datatype Event =
    | ReceiveStarted
    | ReceiveErrorBanner
    | Message
    | SendComplete(timestamp: nat)
    | SendError(timestamp: nat)
    | GaveUp
    | ConflictingDevice
    | AuthExpired

  predicate Terminal(e: Event) {
    e.GaveUp? || e.ConflictingDevice? || e.AuthExpired?
  }

  datatype WorkerOp = StartReceive | Send(timestamp: nat) | OtherOp

  /** Where the manager task waits: on its channel, in a backoff sleep, for the stream to
      open, on the open stream; or it has returned. */
  datatype Phase = Parked | Backoff | Opening | Pumping | Exited

  /** `taken` lists the sends the dispatcher has taken, `refused` those it
      answered itself, `events` what the manager task has sent. */
  datatype Worker = Worker(
    phase: Phase, failures: nat, reauths: nat, announced: bool, slept: nat,
    pending: map<nat, int>, events: seq<Event>,
    queue: seq<WorkerOp>, linked: bool, taken: seq<nat>, refused: seq<nat>)

  function Start(): Worker {
    Worker(Parked, 0, 0, false, 0, map[], [], [], true, [], [])
  }

  /** One answer the outside world gives. */
  datatype Input =
    | Command(op: WorkerOp)                    // a command reaches the dispatcher
    | Unlink                                   // the dispatcher drops its sender
    | Tick(now: int)                           // the one-second timer
    | TakeOp(now: int)                         // the manager task receives from its channel
    | ChannelClosed(now: int)                  // ... and finds it closed and empty
    | BackoffElapsed(prevClose: nat)           // a close code, 0 for none
    | OpenOk
    | OpenErr(prevClose: nat, forbidden: bool)
    | StreamItem(now: int, receipts: seq<nat>, text: bool)
    | StreamEnd(now: int)

  /** What the code leaves open: the order of a hash map, how a send ends and
      when. */
  datatype Choice = Choice(order: seq<nat>, verdict: Verdict, ended: int)

  // ---- the backoff ----

  function Pow(b: nat, n: nat): (p: nat)
    ensures b > 0 ==> p > 0
  {
    if n == 0 then 1 else b * Pow(b, n - 1)
  }

  /** One second times 1.5 to the power n - 1, in milliseconds, at most 30 s. */
  function BackoffMs(n: nat): nat
    requires n > 0
  {
    Min(1000 * Pow(3, n - 1) / Pow(2, n - 1), 30_000)
  }

  function ExtraDelayMs(prevClose: nat): nat {
    if prevClose == CLOSE_REAUTH then REAUTH_SETTLING_DELAY_MS
    else if prevClose == CLOSE_CONNECTED_ELSEWHERE || prevClose == CLOSE_GOING_AWAY then RECONNECT_THROTTLE_MS
    else 0
  }

  // ---- sweeping and receipts ----

  function Expired(pending: map<nat, int>, now: int): set<nat> {
    set ts | ts in pending && now >= pending[ts]
  }

  /** The expired timestamps, each once, in any order. */
  ghost predicate SweepOrder(pending: map<nat, int>, now: int, order: seq<nat>) {
    (forall ts :: ts in order <==> ts in Expired(pending, now))
    && forall i, j :: 0 <= i < j < |order| ==> order[i] != order[j]
  }

  function Errors(order: seq<nat>): seq<Event> {
    seq(|order|, i requires 0 <= i < |order| => SendError(order[i]))
  }

  function Sweep(w: Worker, now: int, order: seq<nat>): Worker {
    w.(pending := w.pending - Expired(w.pending, now), events := w.events + Errors(order))
  }

  /** Delivery receipts confirm deferred sends; others mean nothing. */
  function Confirm(w: Worker, receipts: seq<nat>): Worker {
    if receipts == [] then w
    else
      var before := Confirm(w, receipts[..|receipts| - 1]);
      var ts := receipts[|receipts| - 1];
      if ts in before.pending
      then before.(pending := before.pending - {ts}, events := before.events + [SendComplete(ts)])
      else before
  }

  function Announced(verdict: Verdict, timestamp: nat): seq<Event> {
    match verdict
    case Completed => [SendComplete(timestamp)]
    case Failed => [SendError(timestamp)]
    case Deferred => []
  }

  function RunSend(w: Worker, timestamp: nat, verdict: Verdict, now: int): Worker {
    w.(events := w.events + Announced(verdict, timestamp),
       pending := if verdict.Deferred? then w.pending[timestamp := now + PENDING_RECEIPT_GRACE] else w.pending)
  }

  // ---- one step ----

  /** Back at the top of the loop: sleep first if the last try failed. */
  function Reenter(w: Worker): Worker {
    w.(phase := if w.failures > 0 then Backoff else Opening)
  }

  predicate Alive(w: Worker) {
    w.phase != Exited
  }

  /** Which answers can come in which phase. The dispatcher waits for room in a
      living task's channel. */
  predicate Possible(w: Worker, input: Input) {
    match input
    case Command(_) => w.linked && Alive(w) ==> |w.queue| < OP_CHANNEL_BOUND
    case Unlink => w.linked
    case Tick(_) => (w.phase == Parked && w.pending != map[]) || w.phase == Pumping
    case TakeOp(_) => (w.phase == Parked || w.phase == Pumping) && w.queue != []
    case ChannelClosed(_) => (w.phase == Parked || w.phase == Pumping) && w.queue == [] && !w.linked
    case BackoffElapsed(_) => w.phase == Backoff && w.failures > 0
    case OpenOk => w.phase == Opening
    case OpenErr(_, _) => w.phase == Opening
    case StreamItem(_, _, _) => w.phase == Pumping
    case StreamEnd(_) => w.phase == Pumping
  }

  /** The steps that first sweep expired sends, at the clock they carry. */
  predicate Sweeps(input: Input) {
    input.Tick? || input.TakeOp? || input.ChannelClosed? || input.StreamItem? || input.StreamEnd?
  }

  ghost predicate Enabled(w: Worker, input: Input, choice: Choice) {
    Possible(w, input) && (Sweeps(input) ==> SweepOrder(w.pending, input.now, choice.order))
  }

  /** The dispatcher's arm for a send: refused when there is no task to give it
      to, queued otherwise. */
  function Dispatch(w: Worker, op: WorkerOp): Worker {
    if w.linked && Alive(w) then
      w.(queue := w.queue + [op], taken := if op.Send? then w.taken + [op.timestamp] else w.taken)
    else
      w.(linked := false,
         taken := if op.Send? then w.taken + [op.timestamp] else w.taken,
         refused := if op.Send? then w.refused + [op.timestamp] else w.refused)
  }

  function RunOp(w: Worker, op: WorkerOp, choice: Choice): Worker {
    if op.Send? then RunSend(w, op.timestamp, choice.verdict, choice.ended) else w
  }

  function Take(w: Worker, choice: Choice, now: int): Worker
    requires w.queue != []
  {
    var op := w.queue[0];
    var ran := RunOp(Sweep(w, now, choice.order).(queue := w.queue[1..]), op, choice);
    if (w.phase == Parked && op.StartReceive?) || (w.phase == Pumping && !op.StartReceive?) then Reenter(ran) else ran
  }

  function Fail(w: Worker): Worker {
    w.(failures := w.failures + 1)
  }

  function WithBanner(w: Worker): Worker {
    if w.failures == 1 then w.(events := w.events + [ReceiveErrorBanner]) else w
  }

  function Exit(w: Worker, last: seq<Event>): Worker {
    w.(phase := Exited, events := w.events + last)
  }

  function OpenFailed(w: Worker, prevClose: nat, forbidden: bool): Worker {
    var failed := Fail(w);
    if prevClose == CLOSE_CONNECTED_ELSEWHERE then Exit(failed, [ConflictingDevice])
    else
      var counted := if prevClose == CLOSE_REAUTH && forbidden then failed.(reauths := failed.reauths + 1) else failed;
      if counted.reauths > w.reauths && counted.reauths >= MAX_REAUTH_403S then Exit(counted, [AuthExpired])
      else WithBanner(counted).(phase := Backoff)
  }

  ghost function Next(w: Worker, input: Input, choice: Choice): Worker
    requires Enabled(w, input, choice)
  {
    match input
    case Command(op) => Dispatch(w, op)
    case Unlink => w.(linked := false)
    case Tick(now) => Sweep(w, now, choice.order)
    case TakeOp(now) => Take(w, choice, now)
    case ChannelClosed(now) => Exit(Sweep(w, now, choice.order), [])
    case BackoffElapsed(prevClose) =>
      var woken := w.(slept := w.slept + BackoffMs(w.failures) + ExtraDelayMs(prevClose));
      if w.failures >= MAX_CONSECUTIVE_FAILURES then Exit(woken, [GaveUp]) else woken.(phase := Opening)
    case OpenOk =>
      (if w.announced then w else w.(announced := true, events := w.events + [ReceiveStarted])).(phase := Pumping)
    case OpenErr(prevClose, forbidden) => OpenFailed(w, prevClose, forbidden)
    case StreamItem(now, receipts, text) =>
      var fresh_ := Sweep(w, now, choice.order).(failures := 0, reauths := 0);
      var confirmed := Confirm(fresh_, receipts);
      if text then confirmed.(events := confirmed.events + [Message]) else confirmed
    case StreamEnd(now) =>
      WithBanner(Fail(Sweep(w, now, choice.order))).(phase := Backoff)
  }

  ghost predicate IsRun(states: seq<Worker>, inputs: seq<Input>, choices: seq<Choice>) {
    |states| == |inputs| + 1 == |choices| + 1
    && forall i :: 0 <= i < |inputs|
         ==> Enabled(states[i], inputs[i], choices[i]) && states[i + 1] == Next(states[i], inputs[i], choices[i])
  }

  /** Of the answers `offered`, in order, exactly those that could come in the
      state they met were taken; the rest changed nothing. */
  ghost predicate TakenFrom(offered: seq<Input>, states: seq<Worker>, taken: seq<Input>)
    requires |states| == |taken| + 1
  {
    if offered == [] then taken == []
    else
      var k, earlier, last := |taken|, offered[..|offered| - 1], offered[|offered| - 1];
      || (k > 0 && taken[k - 1] == last && Possible(states[k - 1], last)
          && TakenFrom(earlier, states[..k], taken[..k - 1]))
      || (!Possible(states[k], last) && TakenFrom(earlier, states, taken))
  }

  lemma OneMoreTaken(offered: seq<Input>, states: seq<Worker>, taken: seq<Input>, input: Input, w: Worker)
    requires |states| == |taken| + 1 && TakenFrom(offered, states, taken)
    ensures Possible(states[|taken|], input) ==> TakenFrom(offered + [input], states + [w], taken + [input])
    ensures !Possible(states[|taken|], input) ==> TakenFrom(offered + [input], states, taken)
  {
    assert (offered + [input])[..|offered|] == offered;
    assert (states + [w])[..|states|] == states && (taken + [input])[..|taken|] == taken;
  }

  lemma RunExtends(states: seq<Worker>, inputs: seq<Input>, choices: seq<Choice>, input: Input, choice: Choice)
    requires IsRun(states, inputs, choices) && Enabled(states[|inputs|], input, choice)
    ensures IsRun(states + [Next(states[|inputs|], input, choice)], inputs + [input], choices + [choice])
  {
  }

  /** What every step keeps, every run keeps. */
  lemma {:induction false} RunInduction(states: seq<Worker>, inputs: seq<Input>, choices: seq<Choice>, i: nat,
          good: Worker -> bool)
    requires IsRun(states, inputs, choices) && i <= |inputs| && good(states[0])
    requires forall w, input, choice :: good(w) && Enabled(w, input, choice) ==> good(Next(w, input, choice))
    ensures good(states[i])
  {
    if i > 0 {
      RunInduction(states, inputs, choices, i - 1, good);
    }
  }

  /** The same of what a state says about the answers so far. */
  lemma {:induction false} HistoryInduction(states: seq<Worker>, inputs: seq<Input>, choices: seq<Choice>, i: nat,
          good: (Worker, seq<Input>) -> bool)
    requires IsRun(states, inputs, choices) && i <= |inputs| && good(states[0], [])
    requires forall w, past, input, choice :: good(w, past) && Enabled(w, input, choice)
                                              ==> good(Next(w, input, choice), past + [input])
    ensures good(states[i], inputs[..i])
  {
    if i > 0 {
      HistoryInduction(states, inputs, choices, i - 1, good);
      assert inputs[..i] == inputs[..i - 1] + [inputs[i - 1]];
    }
  }

  /** What every step makes no smaller, no run does. */
  lemma {:induction false} RunGrows(states: seq<Worker>, inputs: seq<Input>, choices: seq<Choice>, i: nat, j: nat,
          measure: Worker -> nat)
    requires IsRun(states, inputs, choices) && i <= j <= |inputs|
    requires forall w, input, choice :: Enabled(w, input, choice) ==> measure(w) <= measure(Next(w, input, choice))
    ensures measure(states[i]) <= measure(states[j])
  {
    if i < j {
      RunGrows(states, inputs, choices, i, j - 1, measure);
      assert Enabled(states[j - 1], inputs[j - 1], choices[j - 1]);
    }
  }

  /** What holds at `i` and is kept by every step of this kind, holds on. */
  lemma {:induction false} RunKeeps(states: seq<Worker>, inputs: seq<Input>, choices: seq<Choice>, i: nat, j: nat,
          good: Worker -> bool, kind: (Worker, Input) -> bool)
    requires IsRun(states, inputs, choices) && i <= j <= |inputs| && good(states[i])
    requires forall m :: i <= m < j ==> kind(states[m], inputs[m])
    requires forall w, input, choice :: good(w) && kind(w, input) && Enabled(w, input, choice)
                                        ==> good(Next(w, input, choice))
    ensures good(states[j])
  {
    if i < j {
      RunKeeps(states, inputs, choices, i, j - 1, good, kind);
      assert kind(states[j - 1], inputs[j - 1]) && Enabled(states[j - 1], inputs[j - 1], choices[j - 1]);
    }
  }
}
