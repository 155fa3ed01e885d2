/** Sending one message: a write batch per attempt, flush and commit before the
    success is announced, abort otherwise. */
module HandleSend {
  import opened ByteStrings
  import opened PddbServer
  import opened Buffering
  import opened SessionBundle
  import opened SessionModel
  import opened PddbStore
  import opened SendWork
  import opened SendPolicy
  import opened WorkerModel

  /** After a success: nothing dirty, no batch open, and the backend below alone
      holds every session the store knows. */
  ghost predicate Durable(s: Snap) {
    && s.dirty == {} && !s.backend.batching && s.backend.buffer == map[]
    && (forall k :: Stored(s.legacy, s.backend.kv, k) == s.Session(k))
    && (forall k :: s.(cache := map[]).Session(k) == s.Session(k))
  }

  /** What each attempt's calls are. */
  type Work = nat -> seq<StoreStep>

  ghost predicate LegalWork(work: Work) {
    forall n :: AllLegal(work(n))
  }

  ghost predicate NeverDrops(work: Work) {
    forall n :: DropsNoDict(work(n))
  }

  /** What these calls wrote last is in the map below, for any later process to
      read. */
  ghost predicate Arrived(calls: seq<StoreStep>, legacy: LegacyDecoder, kv: KvMap) {
    (forall k, record :: StoresLast(calls, k, record) ==> Stored(legacy, kv, k) == Some(record))
    && (forall loc, value :: PutsLast(calls, loc, value) ==> At(kv, loc) == Some(value))
  }

  lemma LeftArrives(calls: seq<StoreStep>, s: Snap, s': Snap)
    requires Leaves(calls, s) && s'.cache == s.cache && OthersKept(s, s') && Durable(s')
    ensures Arrived(calls, s'.legacy, s'.backend.kv)
  {
    OverlayNothing(s'.backend.kv);
    forall k, record | StoresLast(calls, k, record) ensures Stored(s'.legacy, s'.backend.kv, k) == Some(record) {
      assert s'.Session(k) == Some(record);
    }
  }

  lemma FlushedSound(s: Snap, n: nat, s': Snap)
    requires Sound(s, false) && s.backend.batching && Flushes(s, n, s')
    ensures Sound(s', true) && s'.dirty == {}
  {
    NextKeepsInv(Tracked(s, false), Flush(n), Tracked(s', true));
    forall loc | loc in s'.View() ensures Fits(loc) {
      if loc !in s.View() {
        var k :| k in s.dirty * s.cache.Keys && loc == SessionLoc(k.identity, k.name);
      }
    }
  }

  lemma CommittedDurable(s: Snap, s': Snap)
    requires Sound(s, true) && s.dirty == {} && s' == s.(backend := Step(s.backend, Commit))
    ensures Sound(s', false) && Durable(s') && s'.View() == s.View()
  {
    NextKeepsInv(Tracked(s, true), CommitBatch, Tracked(s', false));
    OverlayNothing(s'.backend.kv);
    assert s'.(cache := map[]).View() == s'.View() == s'.backend.kv;
  }

  lemma OpenedSound(s: Snap, s': Snap)
    requires Sound(s, false) && !s.backend.batching && s' == s.(backend := Step(s.backend, Begin))
    ensures Sound(s', false)
  {
    NextKeepsInv(Tracked(s, false), OpenBatch, Tracked(s', false));
    assert s'.View() == s.View();
  }

  lemma AbortedSound(s: Snap, s': Snap)
    requires Sound(s, false) && s' == s.(backend := Step(s.backend, Abort))
    requires forall loc :: loc in s.backend.kv ==> Fits(loc)
    ensures Sound(s', false)
  {
    NextKeepsInv(Tracked(s, false), AbortBatch, Tracked(s', false));
    OverlayNothing(s'.backend.kv);
  }

  /** A flush that gave up inside the batch has still left a trustworthy cache. */
  lemma StoppedFlushKeepsInv(s: Snap, done: set<SessionKey>, identity: IdentityType, name: Name, s': Snap)
    requires s.Inv(false) && s.backend.batching && FlushStops(s, done, identity, name, s')
    ensures s'.Inv(true)
  {
    forall k | k in s'.cache && k !in s'.dirty ensures Stored(s'.legacy, s'.View(), k) == Some(s'.cache[k]) {
      assert k !in done;
    }
  }

  /** What a commit can make of the state `mid` before it: any of the buffered
      writes may be missing below. */
  ghost predicate CommitLeaves(mid: Snap, s': Snap) {
    && mid.backend.batching && s' == mid.(backend := s'.backend)
    && !s'.backend.batching && s'.backend.buffer == map[]
    && AllReplaying(mid.backend.kv, mid.backend.buffer, s'.backend.kv)
  }

  /** What attempts promise of the store, the last of them having made these calls
      and drawn this answer. */
  ghost predicate SendKeeps(s: Snap, reliable: bool, calls: seq<StoreStep>, answer: Attempt, mid: Snap, s': Snap) {
    (answer == Sent ==> CommitLeaves(mid, s') && (Sound(s, false) ==> mid.Inv(true)))
    && (Sound(s, false) && (reliable || answer != Sent) ==> Sound(s', false))
    && (Sound(s, false) && reliable && answer == Sent ==> Durable(s') && Arrived(calls, s'.legacy, s'.backend.kv))
  }

  /** Attempts that were not answered well have only kept the cache trustworthy. */
  lemma KeepsFromStart(s0: Snap, s: Snap, reliable: bool, calls: seq<StoreStep>, answer: Attempt, mid: Snap, s': Snap)
    requires (Sound(s0, false) ==> Sound(s, false)) && SendKeeps(s, reliable, calls, answer, mid, s')
    ensures SendKeeps(s0, reliable, calls, answer, mid, s')
    ensures answer != Sent && Sound(s0, false) ==> Sound(s', false)
  {
  }

  class Sender {
    const store: PddbStore
    var events: seq<Event>
    var pending: map<nat, int>

    constructor (store: PddbStore)
      ensures this.store == store && events == [] && pending == map[]
    {
      this.store, this.events, this.pending := store, [], map[];
    }

    /** Opens this attempt's batch; refused if one is open already. */
    method OpenAttempt() returns (began: bool)
      requires store.Valid()
      modifies store.backend
      ensures store.Valid() && began == !old(store.backend.batching) && store.backend.batching
      ensures !began ==> store.Snapshot() == old(store.Snapshot())
      ensures began && old(Sound(store.Snapshot(), false)) ==> Sound(store.Snapshot(), false)
    {
      ghost var s := store.Snapshot();
      began := store.backend.BeginBatch();
      if began && Sound(s, false) { OpenedSound(s, store.Snapshot()); }
      assert store.Snapshot().backend.batching == store.backend.batching;
    }

    /** The guard's drop: nothing of the attempt is replayed. */
    method AbortAttempt()
      requires store.Valid()
      modifies store.backend
      ensures store.Valid() && !store.backend.batching && store.backend.buffer == map[]
      ensures old(Sound(store.Snapshot(), false)) ==> Sound(store.Snapshot(), false)
    {
      ghost var s := store.Snapshot();
      store.backend.AbortBatch();
      if Sound(s, false) { AbortedSound(s, store.Snapshot()); }
      assert store.Snapshot().backend
          == BufState(store.backend.inner.server.kv, store.backend.batching, store.backend.buffer);
    }

    /** Flush first, so that the sessions travel in the same batch; then commit.
        Errors of either are only logged. `mid` is the state between the two. */
    method FlushAndCommit() returns (ghost mid: Snap)
      requires store.Valid() && store.backend.batching
      modifies store, store.backend, store.backend.inner.server
      ensures store.Valid() && !store.backend.batching && store.backend.buffer == map[]
      ensures CommitLeaves(mid, store.Snapshot())
      ensures old(Sound(store.Snapshot(), false)) ==> mid.Inv(true)
      ensures store.Reliable() && old(Sound(store.Snapshot(), false))
              ==> Sound(store.Snapshot(), false) && Durable(store.Snapshot())
                  && store.cache == old(store.cache) && OthersKept(old(store.Snapshot()), store.Snapshot())
    {
      ghost var s := store.Snapshot();
      mid := FlushInBatch();
      if store.Reliable() && Sound(s, false) { SoundBufferFits(mid); }
      var committed := store.backend.CommitBatch();
      if store.Reliable() && Sound(s, false) { CommittedDurable(mid, store.Snapshot()); }
    }

    method FlushInBatch() returns (ghost mid: Snap)
      requires store.Valid() && store.backend.batching
      modifies store, store.backend, store.backend.inner.server
      ensures store.Valid() && store.backend.batching && mid == store.Snapshot()
      ensures old(Sound(store.Snapshot(), false)) ==> mid.Inv(true)
      ensures store.Reliable() && old(Sound(store.Snapshot(), false))
              ==> Sound(mid, true) && mid.dirty == {} && mid.cache == old(store.cache)
                  && OthersKept(old(store.Snapshot()), mid)
    {
      ghost var s := store.Snapshot();
      var flushed := store.FlushSessions();
      mid := store.Snapshot();
      if Sound(s, false) {
        if flushed.Ok? {
          FlushedSound(s, flushed.value, mid);
        } else {
          ghost var done, identity, name :| FlushStops(s, done, identity, name, mid);
          StoppedFlushKeepsInv(s, done, identity, name, mid);
        }
      }
    }

    /** One attempt inside its own batch: committed after a success, still open
        after anything else. */
    method TryOnce(calls: seq<StoreStep>, answer: Attempt) returns (began: bool, ghost mid: Snap)
      requires store.Valid() && AllLegal(calls)
      modifies store, store.backend, store.backend.inner.server
      ensures store.Valid() && began == !old(store.backend.batching)
      ensures !began ==> store.Snapshot() == old(store.Snapshot())
      ensures began ==> store.backend.batching == (answer != Sent)
      ensures began && answer == Sent ==> store.backend.buffer == map[] && CommitLeaves(mid, store.Snapshot())
      ensures began && answer == Sent && old(Sound(store.Snapshot(), false)) ==> mid.Inv(true)
      ensures !began || (answer != Sent && DropsNoDict(calls))
              ==> store.backend.inner.server.kv == old(store.backend.inner.server.kv)
      ensures old(Sound(store.Snapshot(), false)) && (store.Reliable() || answer != Sent)
              ==> Sound(store.Snapshot(), false)
      ensures old(Sound(store.Snapshot(), false)) && began && store.Reliable() && answer == Sent
              ==> Durable(store.Snapshot()) && Arrived(calls, store.legacy, store.backend.inner.server.kv)
    {
      mid := store.Snapshot();
      began := OpenAttempt();
      if !began { return; }
      Perform(store, calls);
      ghost var s := store.Snapshot();
      if answer == Sent {
        mid := FlushAndCommit();
        if store.Reliable() && Sound(s, false) { LeftArrives(calls, s, store.Snapshot()); }
      }
    }

    /** One attempt and what follows from its answer. A failed attempt's batch is
        dropped only after that, the sleep before a retry included. */
    method RunAttempt(calls: seq<StoreStep>, answer: Attempt, attempt: nat, timestamp: nat, now: int)
      returns (began: bool, waited: Option<nat>, ghost mid: Snap)
      requires store.Valid() && AllLegal(calls) && attempt <= SEND_MAX_ATTEMPTS
      modifies this, store, store.backend, store.backend.inner.server
      ensures store.Valid() && began == !old(store.backend.batching)
      ensures !began ==> store.Snapshot() == old(store.Snapshot()) && waited.None?
                         && events == old(events) + [SendError(timestamp)] && pending == old(pending)
      ensures began ==> !store.backend.batching && store.backend.buffer == map[]
      ensures began ==>
                waited == if answer == Closing && attempt < SEND_MAX_ATTEMPTS then Some(BackoffFor(attempt)) else None
      ensures began && answer == Sent ==> events == old(events) + [SendComplete(timestamp)]
      ensures began && answer == Closing ==> events == old(events)
      ensures began && (answer == OtherError || answer == Panicked) ==> events == old(events) + [SendError(timestamp)]
      ensures began ==>
                pending == if answer == Closing && attempt == 6 then old(pending)[timestamp := now + 30]
                           else old(pending)
      ensures began && answer != Sent && DropsNoDict(calls)
              ==> store.backend.inner.server.kv == old(store.backend.inner.server.kv)
      ensures began ==> SendKeeps(old(store.Snapshot()), store.Reliable(), calls, answer, mid, store.Snapshot())
    {
      waited := None;
      began, mid := TryOnce(calls, answer);
      if !began {
        events := events + [SendError(timestamp)];
        return;
      }
      match answer {
        case Sent =>
          events := events + [SendComplete(timestamp)];
          return;
        case Closing =>
          if attempt < SEND_MAX_ATTEMPTS {
            waited := Some(BackoffFor(attempt));
          } else {
            pending := pending[timestamp := now + PENDING_RECEIPT_GRACE];
          }
        case _ =>
          events := events + [SendError(timestamp)];
      }
      AbortAttempt();
    }

    /** The attempts, up to the one that decides. `mid` is the state between flush
        and commit of a successful one. */
    method TryUntilDecided(timestamp: nat, net: Network, work: Work, now: int)
      returns (attempts: nat, slept: nat, ghost mid: Snap)
      requires store.Valid() && LegalWork(work)
      modifies this, store, store.backend, store.backend.inner.server
      ensures store.Valid()
      ensures old(store.backend.batching) ==>
                attempts == 0 && slept == 0 && store.Snapshot() == old(store.Snapshot())
                && events == old(events) + [SendError(timestamp)] && pending == old(pending)
      ensures attempts > 0 ==> !store.backend.batching && store.backend.buffer == map[]
      ensures !old(store.backend.batching) ==> Decides(net, attempts) && slept == SleepBefore(attempts)
      ensures attempts > 0 && net(attempts) == Sent ==> events == old(events) + [SendComplete(timestamp)]
      ensures attempts > 0 && net(attempts) == Closing ==> events == old(events)
      ensures attempts > 0 && (net(attempts) == OtherError || net(attempts) == Panicked)
              ==> events == old(events) + [SendError(timestamp)]
      ensures attempts > 0 ==>
                pending == if net(attempts) == Closing then old(pending)[timestamp := now + 30] else old(pending)
      ensures attempts > 0 && NeverDrops(work) && net(attempts) != Sent
              ==> store.backend.inner.server.kv == old(store.backend.inner.server.kv)
      ensures attempts > 0 ==>
                SendKeeps(old(store.Snapshot()), store.Reliable(), work(attempts), net(attempts), mid, store.Snapshot())
    {
      hide Sound, SendKeeps, AllLegal, DropsNoDict;
      var attempt := 1;
      slept := 0;
      ghost var s0 := store.Snapshot();
      while attempt <= SEND_MAX_ATTEMPTS
        invariant 1 <= attempt <= SEND_MAX_ATTEMPTS && slept == SleepBefore(attempt)
        invariant forall b :: 1 <= b < attempt ==> net(b) == Closing
        invariant store.Valid() && store.backend.batching == old(store.backend.batching)
        invariant old(store.backend.batching) ==> attempt == 1 && store.Snapshot() == old(store.Snapshot())
        invariant events == old(events) && pending == old(pending)
        invariant NeverDrops(work) ==> store.backend.inner.server.kv == old(store.backend.inner.server.kv)
        invariant Sound(s0, false) ==> Sound(store.Snapshot(), false)
        decreases SEND_MAX_ATTEMPTS - attempt
      {
        var began, waited;
        ghost var s := store.Snapshot();
        began, waited, mid := RunAttempt(work(attempt), net(attempt), attempt, timestamp, now);
        if !began { return 0, 0, mid; }
        KeepsFromStart(s0, s, store.Reliable(), work(attempt), net(attempt), mid, store.Snapshot());
        if waited.None? { return attempt, slept, mid; }
        slept := slept + waited.value;
        attempt := attempt + 1;
      }
      assert false;
    }

    /** Sends one message. `resolved` says whether the recipient could be made
        out; `net` and `work` are the network's answers and the storage calls of
        each attempt; `now` is the clock when the send ends. Success is announced
        behind the commit, whatever that made of the batch. */
    method HandleSend(resolved: bool, timestamp: nat, net: Network, work: Work, now: int)
      returns (attempts: nat, slept: nat, ghost mid: Snap)
      requires store.Valid() && LegalWork(work)
      modifies this, store, store.backend, store.backend.inner.server
      ensures store.Valid()
      ensures !resolved || old(store.backend.batching) ==>
                attempts == 0 && slept == 0 && store.Snapshot() == old(store.Snapshot())
                && events == old(events) + [SendError(timestamp)] && pending == old(pending)
      ensures resolved && !old(store.backend.batching) ==>
                Decides(net, attempts) && attempts <= 6 && slept == [0, 2, 6, 14, 30, 62][attempts - 1]
      ensures resolved && !old(store.backend.batching) && net(attempts) == Sent ==>
                events == old(events) + [SendComplete(timestamp)] && pending == old(pending)
      ensures resolved && !old(store.backend.batching) && (net(attempts) == OtherError || net(attempts) == Panicked) ==>
                events == old(events) + [SendError(timestamp)] && pending == old(pending)
      ensures resolved && !old(store.backend.batching) && net(attempts) == Closing ==>
                attempts == 6 && events == old(events) && pending == old(pending)[timestamp := now + 30]
      ensures !old(store.backend.batching) ==> !store.backend.batching && store.backend.buffer == map[]
      ensures !old(store.backend.batching) && NeverDrops(work) && events != old(events) + [SendComplete(timestamp)]
              ==> store.backend.inner.server.kv == old(store.backend.inner.server.kv)
      ensures !old(store.backend.batching) && events == old(events) + [SendComplete(timestamp)]
              ==> CommitLeaves(mid, store.Snapshot()) && (old(Sound(store.Snapshot(), false)) ==> mid.Inv(true))
      ensures !old(store.backend.batching) && old(Sound(store.Snapshot(), false))
              && (store.Reliable() || events != old(events) + [SendComplete(timestamp)])
              ==> Sound(store.Snapshot(), false)
      ensures !old(store.backend.batching) && old(Sound(store.Snapshot(), false)) && store.Reliable()
              && events == old(events) + [SendComplete(timestamp)]
              ==> Durable(store.Snapshot())
                  && Arrived(work(attempts), store.legacy, store.backend.inner.server.kv)
    {
      ghost var success := old(events) + [SendComplete(timestamp)];
      assert success[|old(events)|] == SendComplete(timestamp);
      if !resolved {
        events := events + [SendError(timestamp)];
        assert events[|old(events)|] == SendError(timestamp);
        return 0, 0, store.Snapshot();
      }
      attempts, slept, mid := TryUntilDecided(timestamp, net, work, now);
      if attempts > 0 { SleepBound(attempts); }
      assert (attempts > 0 && net(attempts) == Sent) || events == old(events)
             || events[|old(events)|] == SendError(timestamp);
    }
  }
}
