/** The life of the manager task over whole runs: what makes it end and what it then
    says, in which order it works, how it sleeps, and what it announces. */
module TaskLife {
  import opened SendPolicy
  import opened WorkerModel
  import opened SendLedger
  import opened Reconnect

  // ---- the end ----

  /** In every run the task ends at exactly these answers: its channel is closed and
      empty; a backoff is over after 20 failures since the last item; an open fails
      behind a 4409; or it fails with a 403 behind a 4401 for the third time since
      the last item. */
  lemma EndsExactlyWhen(states: seq<Worker>, inputs: seq<Input>, choices: seq<Choice>, i: nat)
    requires IsRun(states, inputs, choices) && i < |inputs| && states[0] == Start() && states[i].phase != Exited
    ensures states[i + 1].phase == Exited <==>
              || inputs[i].ChannelClosed?
              || (inputs[i].BackoffElapsed? && FailuresSinceItem(inputs[..i]) == 20)
              || (inputs[i].OpenErr? && inputs[i].prevClose == 4409)
              || (inputs[i].OpenErr? && inputs[i].prevClose == 4401 && inputs[i].forbidden
                  && ReauthsSinceItem(inputs[..i]) == 2)
  {
    CountersCount(states, inputs, choices, i);
    RunBounded(states, inputs, choices, i);
    assert Enabled(states[i], inputs[i], choices[i]) && states[i + 1] == Next(states[i], inputs[i], choices[i]);
    PhaseAfter(states[i], inputs[i], choices[i]);
  }

  lemma PhaseAfter(w: Worker, input: Input, choice: Choice)
    requires Enabled(w, input, choice) && Bounded(w) && w.phase != Exited
    ensures Next(w, input, choice).phase == Exited <==>
              || input.ChannelClosed?
              || (input.BackoffElapsed? && w.failures == 20)
              || (input.OpenErr? && input.prevClose == 4409)
              || (input.OpenErr? && input.prevClose == 4401 && input.forbidden && w.reauths == 2)
  {
    if input.StreamItem? {
      ConfirmKeeps(Sweep(w, input.now, choice.order).(failures := 0, reauths := 0), input.receipts);
    }
  }

  /** What it says last: that it gave up, that another device is connected, that the
      login has expired; nothing but overdue errors when it is closed. */
  lemma LastWords(states: seq<Worker>, inputs: seq<Input>, choices: seq<Choice>, i: nat)
    requires IsRun(states, inputs, choices) && i < |inputs| && states[0] == Start()
    requires states[i].phase != Exited && states[i + 1].phase == Exited
    ensures inputs[i].BackoffElapsed? ==> states[i + 1].events == states[i].events + [GaveUp]
    ensures inputs[i].OpenErr? && inputs[i].prevClose == 4409 ==>
              states[i + 1].events == states[i].events + [ConflictingDevice]
    ensures inputs[i].OpenErr? && inputs[i].prevClose == 4401 ==>
              states[i + 1].events == states[i].events + [AuthExpired]
    ensures inputs[i].ChannelClosed? ==>
              forall e :: e in states[i + 1].events[|states[i].events|..] ==> e.SendError?
  {
    EndsExactlyWhen(states, inputs, choices, i);
    assert states[i + 1] == Next(states[i], inputs[i], choices[i]);
    NextEmits(states[i], inputs[i], choices[i]);
  }

  // ---- the order of work ----

  /** The operations the dispatcher has handed over, in order. */
  ghost function Given(states: seq<Worker>, inputs: seq<Input>): seq<WorkerOp>
    requires |states| == |inputs| + 1
  {
    if inputs == [] then []
    else
      var n := |inputs| - 1;
      Given(states[..n + 1], inputs[..n])
      + if inputs[n].Command? && states[n].linked && states[n].phase != Exited then [inputs[n].op] else []
  }

  function Takes(inputs: seq<Input>): nat {
    if inputs == [] then 0 else Takes(inputs[..|inputs| - 1]) + if inputs[|inputs| - 1].TakeOp? then 1 else 0
  }

  lemma QueueAfter(w: Worker, input: Input, choice: Choice)
    requires Enabled(w, input, choice)
    ensures Next(w, input, choice).queue ==
            if input.TakeOp? then w.queue[1..]
            else if input.Command? && w.linked && w.phase != Exited then w.queue + [input.op] else w.queue
  {
    if input.StreamItem? {
      ConfirmKeeps(Sweep(w, input.now, choice.order).(failures := 0, reauths := 0), input.receipts);
    }
  }

  /** What is queued is what has been handed over and not yet taken, in order. */
  lemma {:induction false} QueueIsRest(states: seq<Worker>, inputs: seq<Input>, choices: seq<Choice>)
    requires IsRun(states, inputs, choices) && states[0] == Start()
    ensures Takes(inputs) <= |Given(states, inputs)|
    ensures states[|inputs|].queue == Given(states, inputs)[Takes(inputs)..]
  {
    if inputs != [] {
      var n := |inputs| - 1;
      PrefixRun(states, inputs, choices);
      QueueIsRest(states[..n + 1], inputs[..n], choices[..n]);
      QueueAfter(states[n], inputs[n], choices[n]);
    }
  }

  /** Operations run in the order in which they were handed over: the one taken
      after `n` others is number `n`; a send ends there as its attempts decided. */
  lemma RunsInOrder(states: seq<Worker>, inputs: seq<Input>, choices: seq<Choice>, i: nat, ts: nat)
    requires IsRun(states, inputs, choices) && i < |inputs| && states[0] == Start() && inputs[i].TakeOp?
    requires CountOf(states[i].taken, ts) <= 1
    ensures Takes(inputs[..i]) < |Given(states[..i + 1], inputs[..i])|
    ensures Given(states[..i + 1], inputs[..i])[Takes(inputs[..i])] == Send(ts) ==>
              match choices[i].verdict
              case Completed => CompletedOf(states[i + 1].events, ts) == 1 && FailedOf(states[i + 1].events, ts) == 0
              case Failed => FailedOf(states[i + 1].events, ts) == 1 && CompletedOf(states[i + 1].events, ts) == 0
              case Deferred => ts in states[i + 1].pending && states[i + 1].pending[ts] == choices[i].ended + 30
  {
    assert IsRun(states[..i + 1], inputs[..i], choices[..i]);
    QueueIsRest(states[..i + 1], inputs[..i], choices[..i]);
    assert Enabled(states[i], inputs[i], choices[i]) && states[i + 1] == Next(states[i], inputs[i], choices[i]);
    RunBalanced(states, inputs, choices, i, ts);
    if states[i].queue[0] == Send(ts) { SendEnds(states[i], inputs[i].now, choices[i], ts); }
  }

  lemma SendEnds(w: Worker, now: int, choice: Choice, ts: nat)
    requires w.queue != [] && w.queue[0] == Send(ts) && SweepOrder(w.pending, now, choice.order)
    requires BalancedAt(w, ts) && CountOf(w.taken, ts) <= 1
    ensures var w' := Take(w, choice, now);
            match choice.verdict
            case Completed => CompletedOf(w'.events, ts) == 1 && FailedOf(w'.events, ts) == 0
            case Failed => FailedOf(w'.events, ts) == 1 && CompletedOf(w'.events, ts) == 0
            case Deferred => ts in w'.pending && w'.pending[ts] == choice.ended + 30
  {
    QueuePop(w.queue, ts);
    SweepSays(w, now, choice.order, ts);
    var swept := Sweep(w, now, choice.order);
    EventsAppend(swept.events, [SendComplete(ts)], ts);
    EventsAppend(swept.events, [SendError(ts)], ts);
  }

  /** The channel never holds more than eight operations. */
  lemma QueueBounded(states: seq<Worker>, inputs: seq<Input>, choices: seq<Choice>, i: nat)
    requires IsRun(states, inputs, choices) && i <= |inputs| && states[0] == Start()
    ensures |states[i].queue| <= 8
  {
    var short := (w: Worker) => |w.queue| <= 8;
    forall w, input, choice | short(w) && Enabled(w, input, choice) ensures short(Next(w, input, choice)) {
      QueueAfter(w, input, choice);
    }
    RunInduction(states, inputs, choices, i, short);
  }

  /** A send is handed over to a living, linked task; once the task has ended every
      later send is refused, with its own error, at once. */
  lemma LateSendsRefused(states: seq<Worker>, inputs: seq<Input>, choices: seq<Choice>, i: nat, j: nat, ts: nat)
    requires IsRun(states, inputs, choices) && i <= j < |inputs| && inputs[j] == Command(Send(ts))
    ensures states[i].phase == Exited ==>
              CountOf(states[j + 1].refused, ts) == CountOf(states[j].refused, ts) + 1
              && states[j + 1].queue == states[j].queue
    ensures states[j].phase != Exited && states[j].linked ==>
              states[j + 1].refused == states[j].refused && states[j + 1].queue == states[j].queue + [Send(ts)]
  {
    assert Enabled(states[j], inputs[j], choices[j]) && states[j + 1] == Next(states[j], inputs[j], choices[j]);
    if states[i].phase == Exited {
      ExitIsFinal(states, inputs, choices, i, j);
      CountAppend(states[j].refused, ts, ts);
    }
  }

  // ---- sleeping ----

  predicate Opens(input: Input) {
    input.OpenOk? || input.OpenErr?
  }

  /** A backoff ended at `k`, and nothing has been opened since. */
  ghost predicate SleptAt(inputs: seq<Input>, k: int, i: int)
    requires i <= |inputs|
  {
    0 <= k < i && inputs[k].BackoffElapsed? && forall m :: k < m < i ==> !Opens(inputs[m])
  }

  lemma OpeningAfter(w: Worker, input: Input, choice: Choice)
    requires Enabled(w, input, choice)
    ensures var w' := Next(w, input, choice);
            w'.phase == Opening && w'.failures > 0 ==>
              input.BackoffElapsed? || (!Opens(input) && w.phase == Opening && w.failures > 0)
  {
    if input.StreamItem? {
      ConfirmKeeps(Sweep(w, input.now, choice.order).(failures := 0, reauths := 0), input.receipts);
    }
  }

  lemma {:induction false} OpeningHasSlept(states: seq<Worker>, inputs: seq<Input>, choices: seq<Choice>, i: nat)
    requires IsRun(states, inputs, choices) && i <= |inputs| && states[0] == Start()
    ensures states[i].phase == Opening && states[i].failures > 0 ==> exists k :: SleptAt(inputs, k, i)
  {
    if i > 0 && states[i].phase == Opening && states[i].failures > 0 {
      assert Enabled(states[i - 1], inputs[i - 1], choices[i - 1]);
      OpeningAfter(states[i - 1], inputs[i - 1], choices[i - 1]);
      if inputs[i - 1].BackoffElapsed? {
        assert SleptAt(inputs, i - 1, i);
      } else {
        OpeningHasSlept(states, inputs, choices, i - 1);
        var k :| SleptAt(inputs, k, i - 1);
        assert SleptAt(inputs, k, i);
      }
    }
  }

  /** In every run, after a failure the stream is not opened again before a backoff
      sleep is over, one sleep for each attempt. */
  lemma SleepsBeforeReopening(states: seq<Worker>, inputs: seq<Input>, choices: seq<Choice>, i: nat)
    requires IsRun(states, inputs, choices) && i < |inputs| && states[0] == Start()
    requires Opens(inputs[i]) && FailuresSinceItem(inputs[..i]) > 0
    ensures exists k :: SleptAt(inputs, k, i)
  {
    CountersCount(states, inputs, choices, i);
    assert Enabled(states[i], inputs[i], choices[i]);
    OpeningHasSlept(states, inputs, choices, i);
  }

  // ---- what is announced ----

  function TextItems(inputs: seq<Input>): nat {
    if inputs == [] then 0
    else
      var last := inputs[|inputs| - 1];
      TextItems(inputs[..|inputs| - 1]) + if last.StreamItem? && last.text then 1 else 0
  }

  function Occurs(events: seq<Event>, e: Event): nat {
    if events == [] then 0
    else Occurs(events[..|events| - 1], e) + if events[|events| - 1] == e then 1 else 0
  }

  lemma {:induction false} OccursAppend(a: seq<Event>, b: seq<Event>, e: Event)
    ensures Occurs(a + b, e) == Occurs(a, e) + Occurs(b, e)
  {
    if b == [] {
      assert a + b == a;
    } else {
      OccursAppend(a, b[..|b| - 1], e);
      assert (a + b)[..|a + b| - 1] == a + b[..|b| - 1];
    }
  }

  lemma {:induction false} OccursNot(events: seq<Event>, e: Event)
    requires forall i :: 0 <= i < |events| ==> events[i] != e
    ensures Occurs(events, e) == 0
  {
    if events != [] { OccursNot(events[..|events| - 1], e); }
  }

  /** What a step may announce: a text, or the start of reception. */
  function AnnouncedBy(w: Worker, input: Input): seq<Event> {
    if input.StreamItem? && input.text then [Message]
    else if input.OpenOk? && !w.announced then [ReceiveStarted] else []
  }

  predicate IsAnnouncement(e: Event) {
    e == Message || e == ReceiveStarted
  }

  lemma EmittedAnnounces(w: Worker, input: Input, choice: Choice, e: Event)
    requires Enabled(w, input, choice) && IsAnnouncement(e)
    ensures Occurs(Emitted(w, input, choice), e) == Occurs(AnnouncedBy(w, input), e)
  {
    var errors := Errors(choice.order);
    OccursNot(errors, e);
    match input
    case StreamItem(now, receipts, text) =>
      var confirmations := Confirmations(w, now, choice.order, receipts);
      OccursNot(confirmations, e);
      OccursAppend(errors, confirmations, e);
      OccursAppend(errors + confirmations, if text then [Message] else [], e);
    case TakeOp(_) => OccursNot(Emitted(w, input, choice), e);
    case StreamEnd(_) => OccursNot(Emitted(w, input, choice), e);
    case OpenOk =>
    case _ => OccursNot(Emitted(w, input, choice), e);
  }

  lemma NextAnnounces(w: Worker, input: Input, choice: Choice, e: Event)
    requires Enabled(w, input, choice) && IsAnnouncement(e)
    ensures Occurs(Next(w, input, choice).events, e) == Occurs(w.events, e) + Occurs(AnnouncedBy(w, input), e)
  {
    NextEmits(w, input, choice);
    EmittedAnnounces(w, input, choice, e);
    OccursAppend(w.events, Emitted(w, input, choice), e);
  }

  lemma AnnouncedAfter(w: Worker, input: Input, choice: Choice)
    requires Enabled(w, input, choice)
    ensures Next(w, input, choice).announced == (w.announced || input.OpenOk?)
  {
    if input.StreamItem? {
      ConfirmKeeps(Sweep(w, input.now, choice.order).(failures := 0, reauths := 0), input.receipts);
    }
  }

  /** In every run every text received is passed on once, and the start of reception
      is announced once, with the first stream that opens. */
  lemma AnnouncesOnce(states: seq<Worker>, inputs: seq<Input>, choices: seq<Choice>, i: nat)
    requires IsRun(states, inputs, choices) && i <= |inputs| && states[0] == Start()
    ensures Occurs(states[i].events, Message) == TextItems(inputs[..i])
    ensures Occurs(states[i].events, ReceiveStarted) == if exists k :: 0 <= k < i && inputs[k].OpenOk? then 1 else 0
  {
    forall w, past, input, choice | AnnouncedRight(w, past) && Enabled(w, input, choice)
      ensures AnnouncedRight(Next(w, input, choice), past + [input])
    {
      AnnouncedRightAfter(w, past, input, choice);
    }
    HistoryInduction(states, inputs, choices, i, (w, past) => AnnouncedRight(w, past));
  }

  predicate HasOpened(inputs: seq<Input>) {
    exists k :: 0 <= k < |inputs| && inputs[k].OpenOk?
  }

  predicate AnnouncedRight(w: Worker, past: seq<Input>) {
    Occurs(w.events, Message) == TextItems(past) && w.announced == HasOpened(past)
    && Occurs(w.events, ReceiveStarted) == if w.announced then 1 else 0
  }

  lemma HasOpenedGrows(past: seq<Input>, input: Input)
    ensures HasOpened(past + [input]) <==> HasOpened(past) || input.OpenOk?
  {
    var all := past + [input];
    if input.OpenOk? { assert all[|past|].OpenOk?; }
    if k :| 0 <= k < |past| && past[k].OpenOk? { assert all[k].OpenOk?; }
  }

  lemma AnnouncedRightAfter(w: Worker, past: seq<Input>, input: Input, choice: Choice)
    requires AnnouncedRight(w, past) && Enabled(w, input, choice)
    ensures AnnouncedRight(Next(w, input, choice), past + [input])
  {
    var w' := Next(w, input, choice);
    assert (past + [input])[..|past|] == past;
    HasOpenedGrows(past, input);
    AnnouncedAfter(w, input, choice);
    assert Occurs(w'.events, Message) == TextItems(past + [input]) by { NextAnnounces(w, input, choice, Message); }
    assert Occurs(w'.events, ReceiveStarted) == if w'.announced then 1 else 0 by {
      NextAnnounces(w, input, choice, ReceiveStarted);
    }
  }
}
