/** The reconnect machine always gives up: what failures, banners and terminal
    events look like over whole runs of the worker. */
module Reconnect {
  import opened Basics
  import opened WorkerModel

  // ---- counting along a run, independently of the machine's own counters ----

  /** The input was one failure of the receive stream. */
  predicate IsFailure(input: Input) {
    input.OpenErr? || input.StreamEnd?
  }

  /** A failure that counts towards an expired login. */
  predicate IsReauthFailure(input: Input) {
    input.OpenErr? && input.prevClose == CLOSE_REAUTH && input.forbidden
  }

  function FailuresSinceItem(inputs: seq<Input>): nat {
    if inputs == [] then 0
    else
      var last := inputs[|inputs| - 1];
      if last.StreamItem? then 0
      else FailuresSinceItem(inputs[..|inputs| - 1]) + if IsFailure(last) then 1 else 0
  }

  function ReauthsSinceItem(inputs: seq<Input>): nat {
    if inputs == [] then 0
    else
      var last := inputs[|inputs| - 1];
      if last.StreamItem? then 0
      else ReauthsSinceItem(inputs[..|inputs| - 1]) + if IsReauthFailure(last) then 1 else 0
  }

  function Banners(events: seq<Event>): nat {
    if events == [] then 0
    else Banners(events[..|events| - 1]) + if events[|events| - 1].ReceiveErrorBanner? then 1 else 0
  }

  lemma {:induction false} BannersAppend(a: seq<Event>, b: seq<Event>)
    ensures Banners(a + b) == Banners(a) + Banners(b)
  {
    if b == [] {
      assert a + b == a;
    } else {
      BannersAppend(a, b[..|b| - 1]);
      assert (a + b)[..|a + b| - 1] == a + b[..|b| - 1];
    }
  }

  // ---- the machine's state in terms of the run ----

  ghost predicate Bounded(w: Worker) {
    && w.failures <= MAX_CONSECUTIVE_FAILURES
    && w.reauths <= MAX_REAUTH_403S
    && (w.phase == Opening || w.phase == Pumping ==> w.failures < MAX_CONSECUTIVE_FAILURES)
    && (Alive(w) ==> w.reauths < MAX_REAUTH_403S)
    && (w.phase == Backoff ==> w.failures > 0)
    && (w.phase == Parked ==> w.failures == 0)
  }

  lemma {:induction false} ConfirmKeeps(w: Worker, receipts: seq<nat>)
    ensures var c := Confirm(w, receipts);
            c == w.(pending := c.pending, events := c.events) && Banners(c.events) == Banners(w.events)
            && w.events <= c.events && (forall i :: |w.events| <= i < |c.events| ==> c.events[i].SendComplete?)
  {
    if receipts != [] {
      ConfirmKeeps(w, receipts[..|receipts| - 1]);
    }
  }

  lemma {:induction false} ErrorsHaveNoBanner(order: seq<nat>)
    ensures Banners(Errors(order)) == 0
  {
    if order != [] {
      ErrorsHaveNoBanner(order[..|order| - 1]);
      assert Errors(order)[..|order| - 1] == Errors(order[..|order| - 1]);
    }
  }

  lemma NextBounded(w: Worker, input: Input, choice: Choice)
    requires Bounded(w) && Enabled(w, input, choice)
    ensures Bounded(Next(w, input, choice))
  {
    if input.StreamItem? {
      ConfirmKeeps(Sweep(w, input.now, choice.order).(failures := 0, reauths := 0), input.receipts);
    }
  }

  // ---- the counters are what a reader of the run would count ----

  lemma NextCounts(w: Worker, input: Input, choice: Choice)
    requires Enabled(w, input, choice)
    ensures var w' := Next(w, input, choice);
            w'.failures == (if input.StreamItem? then 0 else w.failures + if IsFailure(input) then 1 else 0)
    ensures var w' := Next(w, input, choice);
            w'.reauths == w.reauths + (if IsReauthFailure(input) then 1 else 0) || input.StreamItem?
    ensures input.StreamItem? ==> Next(w, input, choice).reauths == 0
  {
    if input.StreamItem? {
      ConfirmKeeps(Sweep(w, input.now, choice.order).(failures := 0, reauths := 0), input.receipts);
    }
  }

  lemma {:induction false} CountersCount(states: seq<Worker>, inputs: seq<Input>, choices: seq<Choice>, i: nat)
    requires IsRun(states, inputs, choices) && i <= |inputs| && states[0] == Start()
    ensures states[i].failures == FailuresSinceItem(inputs[..i])
    ensures states[i].reauths == ReauthsSinceItem(inputs[..i])
  {
    if i > 0 {
      CountersCount(states, inputs, choices, i - 1);
      assert inputs[..i][..i - 1] == inputs[..i - 1];
      NextCounts(states[i - 1], inputs[i - 1], choices[i - 1]);
    }
  }

  lemma RunBounded(states: seq<Worker>, inputs: seq<Input>, choices: seq<Choice>, i: nat)
    requires IsRun(states, inputs, choices) && i <= |inputs| && states[0] == Start()
    ensures Bounded(states[i])
  {
    forall w, input, choice | Bounded(w) && Enabled(w, input, choice) ensures Bounded(Next(w, input, choice)) {
      NextBounded(w, input, choice);
    }
    RunInduction(states, inputs, choices, i, w => Bounded(w));
  }

  /** In every run from the start, since the last delivered item there are at
      most 20 failures, and at most 3 of them are a refused login. */
  lemma GivesUp(states: seq<Worker>, inputs: seq<Input>, choices: seq<Choice>, i: nat)
    requires IsRun(states, inputs, choices) && i <= |inputs| && states[0] == Start()
    ensures FailuresSinceItem(inputs[..i]) <= MAX_CONSECUTIVE_FAILURES
    ensures ReauthsSinceItem(inputs[..i]) <= MAX_REAUTH_403S
  {
    CountersCount(states, inputs, choices, i);
    RunBounded(states, inputs, choices, i);
  }

  /** No way back to an open stream: gone, or asleep with nothing left to try. */
  predicate DeadEnd(w: Worker) {
    w.phase == Exited || (w.phase == Backoff && w.failures >= MAX_CONSECUTIVE_FAILURES)
  }

  lemma {:induction false} StaysDeadEnd(states: seq<Worker>, inputs: seq<Input>, choices: seq<Choice>, i: nat, j: nat)
    requires IsRun(states, inputs, choices) && i <= j <= |inputs| && DeadEnd(states[i])
    ensures DeadEnd(states[j]) && (states[i].phase == Exited ==> states[j].phase == Exited)
  {
    if i < j {
      StaysDeadEnd(states, inputs, choices, i, j - 1);
    }
  }

  /** Once 20 failures in a row or 3 refused logins are reached, no stream is
      opened and no item arrives any more, at any later point of the run; after
      the third refused login the manager task is gone at once. */
  lemma LimitsEndTheTask(states: seq<Worker>, inputs: seq<Input>, choices: seq<Choice>, i: nat, j: nat)
    requires IsRun(states, inputs, choices) && i <= j < |inputs| && states[0] == Start()
    requires FailuresSinceItem(inputs[..i]) == MAX_CONSECUTIVE_FAILURES
             || ReauthsSinceItem(inputs[..i]) == MAX_REAUTH_403S
    ensures !inputs[j].OpenOk? && !inputs[j].OpenErr? && !inputs[j].StreamItem?
    ensures ReauthsSinceItem(inputs[..i]) == MAX_REAUTH_403S ==> states[j].phase == Exited
  {
    CountersCount(states, inputs, choices, i);
    RunBounded(states, inputs, choices, i);
    StaysDeadEnd(states, inputs, choices, i, j);
  }

  // ---- banners ----

  /** What one step sends. */
  function Emitted(w: Worker, input: Input, choice: Choice): seq<Event>
    requires input.TakeOp? ==> w.queue != []
  {
    match input
    case Tick(_) => Errors(choice.order)
    case TakeOp(_) =>
      Errors(choice.order) + if w.queue[0].Send? then Announced(choice.verdict, w.queue[0].timestamp) else []
    case ChannelClosed(_) => Errors(choice.order)
    case BackoffElapsed(_) => if w.failures >= MAX_CONSECUTIVE_FAILURES then [GaveUp] else []
    case OpenOk => if w.announced then [] else [ReceiveStarted]
    case OpenErr(prevClose, forbidden) =>
      if prevClose == CLOSE_CONNECTED_ELSEWHERE then [ConflictingDevice]
      else if IsReauthFailure(input) && w.reauths + 1 >= MAX_REAUTH_403S then [AuthExpired]
      else if w.failures == 0 then [ReceiveErrorBanner] else []
    case StreamItem(now, receipts, text) =>
      Errors(choice.order) + Confirmations(w, now, choice.order, receipts) + if text then [Message] else []
    case StreamEnd(_) => Errors(choice.order) + if w.failures == 0 then [ReceiveErrorBanner] else []
    case _ => []
  }

  function Confirmations(w: Worker, now: int, order: seq<nat>, receipts: seq<nat>): (r: seq<Event>)
    ensures Banners(r) == 0 && forall i :: 0 <= i < |r| ==> r[i].SendComplete?
  {
    var swept := Sweep(w, now, order).(failures := 0, reauths := 0);
    ConfirmKeeps(swept, receipts);
    var r := Confirm(swept, receipts).events[|swept.events|..];
    assert Confirm(swept, receipts).events == swept.events + r;
    BannersAppend(swept.events, r);
    r
  }

  lemma NextEmits(w: Worker, input: Input, choice: Choice)
    requires Enabled(w, input, choice)
    ensures Next(w, input, choice).events == w.events + Emitted(w, input, choice)
  {
    match input
    case StreamItem(now, receipts, text) => ItemEmits(w, now, receipts, text, choice);
    case TakeOp(now) => TakeEmits(w, now, choice);
    case StreamEnd(_) =>
      Associate(w.events, Errors(choice.order), if w.failures == 0 then [ReceiveErrorBanner] else []);
    case _ =>
  }

  lemma TakeEmits(w: Worker, now: int, choice: Choice)
    requires Enabled(w, TakeOp(now), choice)
    ensures Next(w, TakeOp(now), choice).events == w.events + Emitted(w, TakeOp(now), choice)
  {
    var sent := if w.queue[0].Send? then Announced(choice.verdict, w.queue[0].timestamp) else [];
    Associate(w.events, Errors(choice.order), sent);
  }

  lemma ItemEmits(w: Worker, now: int, receipts: seq<nat>, text: bool, choice: Choice)
    requires Enabled(w, StreamItem(now, receipts, text), choice)
    ensures Next(w, StreamItem(now, receipts, text), choice).events
            == w.events + Emitted(w, StreamItem(now, receipts, text), choice)
  {
    var swept := Sweep(w, now, choice.order).(failures := 0, reauths := 0);
    ConfirmKeeps(swept, receipts);
    var errors, confirmations := Errors(choice.order), Confirmations(w, now, choice.order, receipts);
    assert Confirm(swept, receipts).events == w.events + errors + confirmations;
    Associate(w.events, errors, confirmations);
    Associate(w.events, errors + confirmations, if text then [Message] else []);
  }

  /** One banner belongs to the first failure of an outage, unless that failure
      was already terminal. */
  lemma NextBanners(w: Worker, input: Input, choice: Choice)
    requires Enabled(w, input, choice)
    ensures var w' := Next(w, input, choice);
            Banners(w'.events)
            == Banners(w.events) + (if IsFailure(input) && w.failures == 0 && Alive(w') then 1 else 0)
  {
    NextEmits(w, input, choice);
    BannersAppend(w.events, Emitted(w, input, choice));
    EmittedBanners(w, input, choice);
  }

  lemma EmittedBanners(w: Worker, input: Input, choice: Choice)
    requires Enabled(w, input, choice)
    ensures Banners(Emitted(w, input, choice))
            == if IsFailure(input) && w.failures == 0 && Alive(Next(w, input, choice)) then 1 else 0
  {
    var errors := Errors(choice.order);
    ErrorsHaveNoBanner(choice.order);
    match input
    case TakeOp(_) =>
      BannersAppend(errors, if w.queue[0].Send? then Announced(choice.verdict, w.queue[0].timestamp) else []);
    case StreamItem(now, receipts, text) =>
      var confirmations := Confirmations(w, now, choice.order, receipts);
      BannersAppend(errors, confirmations);
      BannersAppend(errors + confirmations, if text then [Message] else []);
    case StreamEnd(_) => BannersAppend(errors, if w.failures == 0 then [ReceiveErrorBanner] else []);
    case _ =>
  }

  function BannersSinceItem(states: seq<Worker>, inputs: seq<Input>): int
    requires |states| == |inputs| + 1
  {
    if inputs == [] then 0
    else
      var n := |inputs|;
      if inputs[n - 1].StreamItem? then 0
      else BannersSinceItem(states[..n], inputs[..n - 1]) + Banners(states[n].events) - Banners(states[n - 1].events)
  }

  lemma PrefixRun(states: seq<Worker>, inputs: seq<Input>, choices: seq<Choice>)
    requires IsRun(states, inputs, choices) && inputs != []
    ensures var n := |inputs| - 1;
            IsRun(states[..n + 1], inputs[..n], choices[..n]) && states[..n + 1][0] == states[0]
            && states[..n + 1][n] == states[n]
    ensures Enabled(states[|inputs| - 1], inputs[|inputs| - 1], choices[|inputs| - 1])
    ensures states[|inputs|] == Next(states[|inputs| - 1], inputs[|inputs| - 1], choices[|inputs| - 1])
  {
  }

  /** Since the last delivered item the task, while it lives, has shown exactly one
      transient banner if there was a failure and none otherwise; never more. */
  lemma {:induction false} OneBannerPerOutage(states: seq<Worker>, inputs: seq<Input>, choices: seq<Choice>)
    requires IsRun(states, inputs, choices) && states[0] == Start()
    ensures 0 <= BannersSinceItem(states, inputs) <= 1
    ensures states[|inputs|].phase != Exited ==>
              BannersSinceItem(states, inputs) == if FailuresSinceItem(inputs) > 0 then 1 else 0
    ensures states[|inputs|].failures == FailuresSinceItem(inputs)
    ensures states[|inputs|].failures == 0 ==> BannersSinceItem(states, inputs) == 0
  {
    if inputs != [] {
      var n := |inputs|;
      PrefixRun(states, inputs, choices);
      OneBannerPerOutage(states[..n], inputs[..n - 1], choices[..n - 1]);
      NextBanners(states[n - 1], inputs[n - 1], choices[n - 1]);
      NextCounts(states[n - 1], inputs[n - 1], choices[n - 1]);
    }
  }

  // ---- the end ----

  /** Nothing the manager task has sent is terminal, or it is the very last thing. */
  ghost predicate TerminalLast(w: Worker) {
    forall i :: 0 <= i < |w.events| && Terminal(w.events[i]) ==> i == |w.events| - 1 && w.phase == Exited
  }

  lemma NextTerminalLast(w: Worker, input: Input, choice: Choice)
    requires TerminalLast(w) && Enabled(w, input, choice)
    ensures TerminalLast(Next(w, input, choice))
    ensures w.phase == Exited ==> Next(w, input, choice).events == w.events && Next(w, input, choice).phase == Exited
  {
    NextEmits(w, input, choice);
    EmittedTerminal(w, input, choice);
  }

  lemma EmittedTerminal(w: Worker, input: Input, choice: Choice)
    requires Enabled(w, input, choice)
    ensures var e := Emitted(w, input, choice);
            forall i :: 0 <= i < |e| && Terminal(e[i]) ==> i == |e| - 1 && Next(w, input, choice).phase == Exited
    ensures w.phase == Exited ==> Emitted(w, input, choice) == [] && Next(w, input, choice).phase == Exited
  {
  }

  /** In every run a terminal event is the last the manager task sends. */
  lemma TerminalEventIsLast(states: seq<Worker>, inputs: seq<Input>, choices: seq<Choice>, i: nat)
    requires IsRun(states, inputs, choices) && i <= |inputs| && states[0] == Start()
    ensures TerminalLast(states[i])
  {
    forall w, input, choice | TerminalLast(w) && Enabled(w, input, choice)
      ensures TerminalLast(Next(w, input, choice))
    {
      NextTerminalLast(w, input, choice);
    }
    RunInduction(states, inputs, choices, i, w => TerminalLast(w));
  }

  /** Once the manager task has returned it stays so and never opens the stream again. */
  lemma {:induction false} ExitIsFinal(states: seq<Worker>, inputs: seq<Input>, choices: seq<Choice>, i: nat, j: nat)
    requires IsRun(states, inputs, choices) && i <= j <= |inputs| && states[i].phase == Exited
    ensures states[j].phase == Exited && states[j].events == states[i].events
    ensures forall k :: i <= k < j ==> !inputs[k].OpenOk? && !inputs[k].OpenErr?
    decreases j
  {
    if j > i {
      ExitIsFinal(states, inputs, choices, i, j - 1);
      assert Enabled(states[j - 1], inputs[j - 1], choices[j - 1]);
    }
  }

  /** A failed open behind a 4409 close is never followed by another open. */
  lemma NoOpenAfterConflict(states: seq<Worker>, inputs: seq<Input>, choices: seq<Choice>, i: nat, j: nat)
    requires IsRun(states, inputs, choices) && i < j < |inputs|
    requires inputs[i].OpenErr? && inputs[i].prevClose == CLOSE_CONNECTED_ELSEWHERE
    ensures !inputs[j].OpenOk? && !inputs[j].OpenErr?
    ensures states[j].phase == Exited
  {
    assert Enabled(states[i], inputs[i], choices[i]);
    ExitIsFinal(states, inputs, choices, i + 1, |inputs|);
    ExitIsFinal(states, inputs, choices, i + 1, j);
  }

  // ---- how long it sleeps ----

  lemma {:induction false} PowTimes(n: nat)
    ensures Pow(3, n + 1) == 3 * Pow(3, n) && Pow(2, n + 1) == 2 * Pow(2, n)
  {
  }

  /** The sleep before the open that follows `n` failures, in milliseconds. */
  lemma {:induction false} BackoffTable(n: nat)
    requires n > 0
    ensures BackoffMs(n) ==
            if n >= 10 then 30_000 else [1000, 1500, 2250, 3375, 5062, 7593, 11_390, 17_085, 25_628][n - 1]
  {
    if n <= 10 {
      assert Pow(3, 3) == 27 && Pow(3, 6) == 27 * Pow(3, 3) && Pow(3, 9) == 27 * Pow(3, 6);
      assert Pow(2, 3) == 8 && Pow(2, 6) == 8 * Pow(2, 3) && Pow(2, 9) == 8 * Pow(2, 6);
    } else {
      BackoffTable(n - 1);
      BackoffGrows(n - 1);
    }
  }

  /** Each retry waits at least as long as the one before, and no sleep is longer
      than the cap and one settling delay. */
  lemma BackoffGrows(n: nat)
    requires n > 0
    ensures BackoffMs(n) <= BackoffMs(n + 1) <= 30_000
  {
    var a, b := Pow(3, n - 1), Pow(2, n - 1);
    PowTimes(n - 1);
    assert Pow(3, n) == 3 * a && Pow(2, n) == 2 * b;
    ScaleUp(1000 * a, b);
  }

  lemma ScaleUp(x: nat, b: nat)
    requires b > 0
    ensures x / b <= 3 * x / (2 * b)
  {
    var q := x / b;
    assert q * b <= x;
    assert q * (2 * b) == 2 * (q * b) <= 3 * x;
    MulDiv(q, 2 * b, 3 * x);
  }

  lemma MulDiv(q: nat, d: nat, x: nat)
    requires d > 0 && q * d <= x
    ensures q <= x / d
  {
    var p := x / d;
    assert x < (p + 1) * d by {
      assert x == p * d + x % d;
      assert (p + 1) * d == p * d + d;
    }
    if q >= p + 1 { MulMono(p + 1, q, d); }
  }

  lemma MulMono(a: nat, b: nat, d: nat)
    requires a <= b
    ensures a * d <= b * d
  {
  }
}
