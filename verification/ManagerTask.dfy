/** The manager task that owns the receive stream, and the dispatcher arm that feeds it,
    written as they run and proved to follow the step machine. */
module ManagerTask {
  import opened SendPolicy
  import opened WorkerModel
  import opened HandleSend
  import opened SendWork
  import opened SessionModel
  import opened SendLedger
  import PddbServer
  import Reconnect

  /** What a send meets when it runs: whether its recipient resolves, the answer
      and the storage calls of each attempt, and the clock at its end. */
  datatype SendEnv = SendEnv(resolved: bool, net: Network, work: Work, ended: int)

  /** What a stream item brings: the storage calls of its decryption, and whether
      it says that the server's queue is empty. */
  datatype ItemEnv = ItemEnv(decrypting: seq<StoreStep>, queueEmpty: bool)

  /** `other` are the storage calls of a contact sync, which sends a message too,
      or of a username lookup. */
  datatype Env = Env(send: SendEnv, item: ItemEnv, other: seq<StoreStep>)

  ghost predicate LegalEnv(env: SendEnv) {
    LegalWork(env.work)
  }

  ghost predicate LegalTurn(env: Env) {
    LegalEnv(env.send) && AllLegal(env.item.decrypting) && AllLegal(env.other)
  }

  /** How a send that met this ends: by the attempt that decides, or at once. */
  ghost predicate VerdictFor(env: SendEnv, verdict: Verdict) {
    if env.resolved then exists n :: Decides(env.net, n) && verdict == VerdictAt(env.net, n) else verdict == Failed
  }

  lemma FlushOutsideBatchSound(s: Snap, n: nat, s': Snap)
    requires Sound(s, false) && !s.backend.batching && Flushes(s, n, s')
    ensures Sound(s', false)
  {
    NextKeepsInv(Tracked(s, false), Flush(n), Tracked(s', false));
    forall loc | loc in s'.View() ensures PddbServer.Fits(loc) {
      if loc !in s.View() {
        var k :| k in s.dirty * s.cache.Keys && loc == SessionLoc(k.identity, k.name);
      }
    }
  }

  lemma LeavesKept(work: seq<StoreStep>, s: Snap, s': Snap)
    requires Leaves(work, s) && s'.cache == s.cache && OthersKept(s, s')
    ensures Leaves(work, s')
  {
  }

  /** The answers handled are those at the places `which`, in order; each send that
      ran met what was there for it. */
  ghost predicate Met(inputs: seq<Input>, envs: nat -> Env, which: seq<nat>, states: seq<Worker>, ran: seq<Input>,
                      choices: seq<Choice>)
    requires |which| == |ran| == |choices| && |states| == |ran| + 1
  {
    (forall k :: 0 <= k < |ran| ==> which[k] < |inputs| && ran[k] == inputs[which[k]])
    && (forall k, l :: 0 <= k < l < |ran| ==> which[k] < which[l])
    && (forall k :: 0 <= k < |ran| && ran[k].TakeOp? && states[k].queue != [] && states[k].queue[0].Send?
          ==> VerdictFor(envs(which[k]).send, choices[k].verdict))
  }

  /** A run on exactly the answers, of those offered, that could come. */
  ghost predicate Handled(inputs: seq<Input>, envs: nat -> Env, states: seq<Worker>, ran: seq<Input>,
                          choices: seq<Choice>, which: seq<nat>)
  {
    WorkerModel.IsRun(states, ran, choices) && TakenFrom(inputs, states, ran)
    && |which| == |ran| && Met(inputs, envs, which, states, ran, choices)
  }

  lemma HandledSkip(inputs: seq<Input>, envs: nat -> Env, states: seq<Worker>, ran: seq<Input>, choices: seq<Choice>,
                    which: seq<nat>, input: Input)
    requires Handled(inputs, envs, states, ran, choices, which) && !Possible(states[|ran|], input)
    ensures Handled(inputs + [input], envs, states, ran, choices, which)
  {
    OneMoreTaken(inputs, states, ran, input, states[|ran|]);
  }

  lemma HandledTake(inputs: seq<Input>, envs: nat -> Env, states: seq<Worker>, ran: seq<Input>, choices: seq<Choice>,
                    which: seq<nat>, input: Input, choice: Choice)
    requires Handled(inputs, envs, states, ran, choices, which) && Enabled(states[|ran|], input, choice)
    requires input.TakeOp? && states[|ran|].queue[0].Send? ==> VerdictFor(envs(|inputs|).send, choice.verdict)
    ensures Handled(inputs + [input], envs, states + [WorkerModel.Next(states[|ran|], input, choice)], ran + [input],
                    choices + [choice], which + [|inputs|])
  {
    var w := WorkerModel.Next(states[|ran|], input, choice);
    RunExtends(states, ran, choices, input, choice);
    OneMoreTaken(inputs, states, ran, input, w);
  }

  class Task {
    const sender: Sender
    var phase: Phase
    var failures: nat
    var reauths: nat
    var announced: bool
    var slept: nat
    var queue: seq<WorkerOp>
    var linked: bool
    ghost var taken: seq<nat>
    var refused: seq<nat>

    constructor (sender: Sender)
      requires sender.events == [] && sender.pending == map[]
      ensures this.sender == sender && State() == Start()
    {
      this.sender := sender;
      phase, failures, reauths, announced, slept := Parked, 0, 0, false, 0;
      queue, linked, taken, refused := [], true, [], [];
    }

    ghost function State(): Worker
      reads this, sender
    {
      Worker(phase, failures, reauths, announced, slept, sender.pending, sender.events, queue, linked, taken, refused)
    }

    predicate Awaits(input: Input): (r: bool)
      reads this, sender
      ensures r == Possible(State(), input)
    {
      Possible(Worker(phase, failures, reauths, announced, slept, sender.pending, sender.events, queue, linked, [],
                      refused), input)
    }

    predicate Valid()
      reads this, sender, sender.store, sender.store.backend, sender.store.backend.inner.server
    {
      sender.store.Valid() && !sender.store.backend.batching
    }

    /** The dispatcher's arm: queue for a living task, refuse otherwise. */
    method Dispatch(op: WorkerOp)
      modifies this
      ensures State() == WorkerModel.Dispatch(old(State()), op)
      ensures old(linked) && phase != Exited ==> queue == old(queue) + [op] && refused == old(refused)
      ensures !old(linked) || phase == Exited ==>
                !linked && queue == old(queue)
                && refused == if op.Send? then old(refused) + [op.timestamp] else old(refused)
    {
      if op.Send? { taken := taken + [op.timestamp]; }
      if linked && phase != Exited {
        queue := queue + [op];
      } else {
        linked := false;
        if op.Send? { refused := refused + [op.timestamp]; }
      }
    }

    /** Answers every deferred send whose grace window is over, with one error. */
    method SweepExpired(now: int) returns (ghost order: seq<nat>)
      modifies sender
      ensures SweepOrder(old(sender.pending), now, order)
      ensures State() == Sweep(old(State()), now, order)
      ensures forall ts: nat :: ts in sender.pending <==> ts in old(sender.pending) && old(sender.pending)[ts] > now
      ensures forall ts: nat :: ts in sender.pending ==> sender.pending[ts] == old(sender.pending)[ts]
      ensures forall ts: nat :: CompletedOf(sender.events, ts) == CompletedOf(old(sender.events), ts)
      ensures forall ts: nat :: FailedOf(sender.events, ts) ==
                FailedOf(old(sender.events), ts)
                + (if ts in old(sender.pending) && old(sender.pending)[ts] <= now then 1 else 0)
      ensures old(sender.events) <= sender.events
      ensures forall k :: |old(sender.events)| <= k < |sender.events| ==> sender.events[k].SendError?
    {
      ghost var before := State();
      var expired := FindExpired(now);
      order := expired;
      FailAll(expired);
      assert (set ts | ts in expired) == Expired(before.pending, now);
      assert State() == Sweep(before, now, order);
      forall ts: nat { SweepSays(before, now, order, ts); }
    }

    /** The expired timestamps, each once, in whatever order the map yields them. */
    method FindExpired(now: int) returns (expired: seq<nat>)
      ensures SweepOrder(sender.pending, now, expired)
    {
      expired := [];
      var left := sender.pending.Keys;
      while left != {}
        invariant left <= sender.pending.Keys
        invariant forall ts :: ts in expired <==> ts in Expired(sender.pending, now) - left
        invariant forall i, j :: 0 <= i < j < |expired| ==> expired[i] != expired[j]
        decreases left
      {
        var ts :| ts in left;
        left := left - {ts};
        if now >= sender.pending[ts] {
          assert ts !in expired;
          expired := expired + [ts];
        }
      }
    }

    method FailAll(expired: seq<nat>)
      modifies sender
      ensures sender.pending == old(sender.pending) - (set ts | ts in expired)
      ensures sender.events == old(sender.events) + Errors(expired)
    {
      for i := 0 to |expired|
        invariant sender.pending == old(sender.pending) - (set ts | ts in expired[..i])
        invariant sender.events == old(sender.events) + Errors(expired[..i])
      {
        assert expired[..i + 1] == expired[..i] + [expired[i]];
        sender.pending := sender.pending - {expired[i]};
        sender.events := sender.events + [SendError(expired[i])];
        assert Errors(expired[..i + 1]) == Errors(expired[..i]) + [SendError(expired[i])];
      }
      assert expired[..|expired|] == expired;
    }

    /** A delivery receipt completes the deferred sends it names, each once. */
    method ProcessReceipts(receipts: seq<nat>)
      modifies sender
      ensures State() == Confirm(old(State()), receipts)
      ensures sender.pending == old(sender.pending) - (set ts | ts in receipts)
      ensures forall ts: nat :: CompletedOf(sender.events, ts) ==
                CompletedOf(old(sender.events), ts) + (if ts in old(sender.pending) && ts in receipts then 1 else 0)
      ensures forall ts: nat :: FailedOf(sender.events, ts) == FailedOf(old(sender.events), ts)
      ensures old(sender.events) <= sender.events
      ensures forall k :: |old(sender.events)| <= k < |sender.events| ==> sender.events[k].SendComplete?
    {
      ghost var before := State();
      assert receipts[..|receipts|] == receipts;
      for i := 0 to |receipts|
        invariant State() == Confirm(old(State()), receipts[..i])
        invariant old(sender.events) <= sender.events
        invariant forall k :: |old(sender.events)| <= k < |sender.events| ==> sender.events[k].SendComplete?
      {
        assert receipts[..i + 1][..i] == receipts[..i];
        var ts := receipts[i];
        if ts in sender.pending {
          sender.pending := sender.pending - {ts};
          sender.events := sender.events + [SendComplete(ts)];
        }
      }
      forall ts: nat { ConfirmSays(before, receipts, ts); }
    }

    /** Runs one operation while no stream holds the manager. */
    method RunManagerOp(op: WorkerOp, env: Env) returns (ghost verdict: Verdict)
      requires Valid() && LegalTurn(env)
      modifies sender, sender.store, sender.store.backend, sender.store.backend.inner.server
      ensures Valid()
      ensures forall order :: State() == RunOp(old(State()), op, Choice(order, verdict, env.send.ended))
      ensures op.Send? ==> VerdictFor(env.send, verdict)
      ensures op.Send? && verdict == Completed && sender.store.Reliable() && old(Sound(sender.store.Snapshot(), false))
              ==> Durable(sender.store.Snapshot())
      ensures op.OtherOp? && sender.store.Reliable() ==> Leaves(env.other, sender.store.Snapshot())
      ensures sender.store.Reliable() && old(Sound(sender.store.Snapshot(), false))
              ==> Sound(sender.store.Snapshot(), false)
    {
      verdict := Failed;
      match op {
        case Send(timestamp) =>
          var attempts, waited, _ :=
              sender.HandleSend(env.send.resolved, timestamp, env.send.net, env.send.work, env.send.ended);
          if env.send.resolved { verdict := VerdictAt(env.send.net, attempts); }
        case OtherOp => Perform(sender.store, env.other);
        case StartReceive =>
      }
    }

    /** The top of the loop once receiving: sleep first after a failure. */
    method Reenter()
      modifies this`phase
      ensures State() == WorkerModel.Reenter(old(State()))
    {
      phase := if failures > 0 then Backoff else Opening;
    }

    /** An operation arrives, before receiving has started or on the open stream. */
    method OpArrives(now: int, env: Env) returns (ghost choice: Choice)
      requires Valid() && LegalTurn(env) && Possible(State(), TakeOp(now))
      modifies this, sender, sender.store, sender.store.backend, sender.store.backend.inner.server
      ensures Valid() && Enabled(old(State()), TakeOp(now), choice)
      ensures State() == WorkerModel.Next(old(State()), TakeOp(now), choice)
      ensures old(queue)[0].Send? ==> VerdictFor(env.send, choice.verdict)
      ensures old(queue)[0].OtherOp? && sender.store.Reliable() ==> Leaves(env.other, sender.store.Snapshot())
      ensures sender.store.Reliable() && old(Sound(sender.store.Snapshot(), false))
              ==> Sound(sender.store.Snapshot(), false)
    {
      ghost var order := SweepExpired(now);
      var op := queue[0];
      queue := queue[1..];
      ghost var verdict := RunManagerOp(op, env);
      choice := Choice(order, verdict, env.send.ended);
      if (phase == Parked && op.StartReceive?) || (phase == Pumping && !op.StartReceive?) { Reenter(); }
    }

    /** A failed open: conflicts and expired logins are final, the first failure
        of an outage shows a banner, everything else backs off quietly. */
    method OpenFails(prevClose: nat, forbidden: bool)
      requires Possible(State(), OpenErr(prevClose, forbidden))
      modifies this, sender
      ensures State() == OpenFailed(old(State()), prevClose, forbidden)
    {
      failures := failures + 1;
      if prevClose == CLOSE_CONNECTED_ELSEWHERE {
        sender.events := sender.events + [ConflictingDevice];
        phase := Exited;
        return;
      }
      if prevClose == CLOSE_REAUTH && forbidden {
        reauths := reauths + 1;
        if reauths >= MAX_REAUTH_403S {
          sender.events := sender.events + [AuthExpired];
          phase := Exited;
          return;
        }
      }
      if failures == 1 { sender.events := sender.events + [ReceiveErrorBanner]; }
      phase := Backoff;
    }

    /** A backoff sleep is over: give up at the limit, open otherwise. */
    method BackoffOver(prevClose: nat)
      requires Possible(State(), BackoffElapsed(prevClose))
      modifies this, sender
      ensures State() == WorkerModel.Next(old(State()), BackoffElapsed(prevClose), Choice([], Failed, 0))
      ensures slept == old(slept)
                       + (if failures >= 10 then 30_000
                          else [1000, 1500, 2250, 3375, 5062, 7593, 11_390, 17_085, 25_628][failures - 1])
                       + (if prevClose == 4401 then 10_000
                          else if prevClose == 4409 || prevClose == 1001 then 1_000 else 0)
      ensures failures == old(failures) && phase == if failures >= 20 then Exited else Opening
      ensures sender.events == if failures >= 20 then old(sender.events) + [GaveUp] else old(sender.events)
    {
      Reconnect.BackoffTable(failures);
      slept := slept + BackoffMs(failures) + ExtraDelayMs(prevClose);
      if failures >= MAX_CONSECUTIVE_FAILURES {
        sender.events := sender.events + [GaveUp];
        phase := Exited;
      } else {
        phase := Opening;
      }
    }

    /** One item off the stream: decrypting it has made storage calls, outside any
        batch. It is progress, so both counters start over. An empty server queue
        flushes the sessions, errors only logged. */
    method ItemArrives(now: int, receipts: seq<nat>, text: bool, decrypting: seq<StoreStep>, queueEmpty: bool)
      returns (ghost choice: Choice)
      requires Valid() && AllLegal(decrypting) && Possible(State(), StreamItem(now, receipts, text))
      modifies this, sender, sender.store, sender.store.backend, sender.store.backend.inner.server
      ensures Valid() && Enabled(old(State()), StreamItem(now, receipts, text), choice)
      ensures State() == WorkerModel.Next(old(State()), StreamItem(now, receipts, text), choice)
      ensures sender.store.Reliable() && old(Sound(sender.store.Snapshot(), false))
              ==> Leaves(decrypting, sender.store.Snapshot()) && (queueEmpty ==> sender.store.dirty == {})
      ensures sender.store.Reliable() && old(Sound(sender.store.Snapshot(), false))
              ==> Sound(sender.store.Snapshot(), false)
    {
      ghost var order := SweepExpired(now);
      choice := Choice(order, Failed, 0);
      Perform(sender.store, decrypting);
      ghost var s := sender.store.Snapshot();
      failures, reauths := 0, 0;
      ProcessReceipts(receipts);
      if text { sender.events := sender.events + [Message]; }
      if queueEmpty {
        FlushQuietly();
        if sender.store.Reliable() && Sound(s, false) { LeavesKept(decrypting, s, sender.store.Snapshot()); }
      }
    }

    method FlushQuietly()
      requires Valid()
      modifies sender.store, sender.store.backend, sender.store.backend.inner.server
      ensures Valid()
      ensures sender.store.Reliable() && old(Sound(sender.store.Snapshot(), false))
              ==> Sound(sender.store.Snapshot(), false) && sender.store.dirty == {}
      ensures sender.store.Reliable() && old(Sound(sender.store.Snapshot(), false))
              ==> sender.store.cache == old(sender.store.cache)
                  && OthersKept(old(sender.store.Snapshot()), sender.store.Snapshot())
    {
      ghost var s := sender.store.Snapshot();
      var flushed := sender.store.FlushSessions();
      if sender.store.Reliable() && Sound(s, false) {
        FlushOutsideBatchSound(s, flushed.value, sender.store.Snapshot());
      }
    }

    method StreamEnds(now: int) returns (ghost choice: Choice)
      requires Possible(State(), StreamEnd(now))
      modifies this, sender
      ensures Enabled(old(State()), StreamEnd(now), choice)
              && State() == WorkerModel.Next(old(State()), StreamEnd(now), choice)
    {
      ghost var order := SweepExpired(now);
      choice := Choice(order, Failed, 0);
      failures := failures + 1;
      if failures == 1 { sender.events := sender.events + [ReceiveErrorBanner]; }
      phase := Backoff;
    }

    method StreamOpens()
      requires Possible(State(), OpenOk)
      modifies this, sender
      ensures State() == WorkerModel.Next(old(State()), OpenOk, Choice([], Failed, 0))
    {
      if !announced {
        announced := true;
        sender.events := sender.events + [ReceiveStarted];
      }
      phase := Pumping;
    }

    /** One answer of the outside world, handled as the loop handles it. */
    method Turn(input: Input, env: Env) returns (ghost choice: Choice)
      requires Valid() && LegalTurn(env) && Possible(State(), input)
      modifies this, sender, sender.store, sender.store.backend, sender.store.backend.inner.server
      ensures Valid() && Enabled(old(State()), input, choice)
              && State() == WorkerModel.Next(old(State()), input, choice)
      ensures input.TakeOp? && old(queue)[0].Send? ==> VerdictFor(env.send, choice.verdict)
      ensures sender.store.Reliable() && old(Sound(sender.store.Snapshot(), false))
              ==> Sound(sender.store.Snapshot(), false)
    {
      choice := Choice([], Failed, 0);
      match input {
        case Command(op) => Dispatch(op);
        case Unlink => linked := false;
        case Tick(now) =>
          ghost var order := SweepExpired(now);
          choice := Choice(order, Failed, 0);
        case TakeOp(now) => choice := OpArrives(now, env);
        case ChannelClosed(now) =>
          ghost var order := SweepExpired(now);
          choice := Choice(order, Failed, 0);
          phase := Exited;
        case BackoffElapsed(prevClose) => BackoffOver(prevClose);
        case OpenOk => StreamOpens();
        case OpenErr(prevClose, forbidden) => OpenFails(prevClose, forbidden);
        case StreamItem(now, receipts, text) =>
          choice := ItemArrives(now, receipts, text, env.item.decrypting, env.item.queueEmpty);
        case StreamEnd(now) => choice := StreamEnds(now);
      }
    }

    /** Any answers, in order; one that cannot come in the current phase is passed
        over, and no other. What happens is a run of the step machine. */
    method RunTask(inputs: seq<Input>, envs: nat -> Env)
      returns (ghost states: seq<Worker>, ghost ran: seq<Input>, ghost choices: seq<Choice>, ghost which: seq<nat>)
      requires Valid() && forall i :: LegalTurn(envs(i))
      modifies this, sender, sender.store, sender.store.backend, sender.store.backend.inner.server
      ensures Valid() && WorkerModel.IsRun(states, ran, choices) && TakenFrom(inputs, states, ran)
      ensures states[0] == old(State()) && states[|ran|] == State()
      ensures |which| == |ran| && Met(inputs, envs, which, states, ran, choices)
      ensures sender.store.Reliable() && old(Sound(sender.store.Snapshot(), false))
              ==> Sound(sender.store.Snapshot(), false)
    {
      states, ran, choices, which := [State()], [], [], [];
      assert inputs[..|inputs|] == inputs;
      for i := 0 to |inputs|
        invariant Valid() && Handled(inputs[..i], envs, states, ran, choices, which)
        invariant states[0] == old(State()) && states[|ran|] == State()
        invariant sender.store.Reliable() && old(Sound(sender.store.Snapshot(), false))
                  ==> Sound(sender.store.Snapshot(), false)
      {
        assert inputs[..i + 1] == inputs[..i] + [inputs[i]];
        if Awaits(inputs[i]) {
          ghost var choice := Turn(inputs[i], envs(i));
          HandledTake(inputs[..i], envs, states, ran, choices, which, inputs[i], choice);
          states, ran, choices := states + [State()], ran + [inputs[i]], choices + [choice];
          which := which + [i];
        } else {
          HandledSkip(inputs[..i], envs, states, ran, choices, which, inputs[i]);
        }
      }
    }
  }
}
