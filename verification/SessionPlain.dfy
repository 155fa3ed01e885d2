/** What the whole stack stands for, batches and aborts included: one plain map of
    sessions, what a restart would find, and what an abort falls back to. */
module SessionPlain {
  import opened ByteStrings
  import opened PddbServer
  import opened Buffering
  import opened SessionBundle
  import opened SessionModel

  /** `current` is what a load answers, `saved` what it would answer with an empty
      cache, `fallback` what `saved` was when the open batch began, less what was
      wiped since. */
  datatype PlainSessions = PlainSessions(current: SessionMap, saved: SessionMap, fallback: Option<SessionMap>)

  /** The first map, and behind it the second. */
  ghost function Before(front: SessionMap, back: SessionMap): SessionMap {
    imap k | k in front || k in back :: if k in front then front[k] else back[k]
  }

  ghost function PlainNext(p: PlainSessions, op: SessionOp): PlainSessions {
    match op
    case Store(_, _) => p.(current := MapStep(p.current, op))
    case Delete(_) => p.(current := MapStep(p.current, op), saved := MapStep(p.saved, op))
    case DeleteAll(_, _, _) => p.(current := MapStep(p.current, op), saved := MapStep(p.saved, op))
    case Wipe => PlainSessions(imap[], imap[], if p.fallback.Some? then Some(imap[]) else None)
    case Flush(_) => p.(saved := p.current)
    case OpenBatch => p.(fallback := Some(p.saved))
    case CommitBatch => p.(fallback := None)
    case AbortBatch =>
      var back := if p.fallback.Some? then p.fallback.value else p.saved;
      PlainSessions(Before(p.current, back), back, None)
    case _ => p
  }

  ghost function PlainRun(p: PlainSessions, ops: seq<SessionOp>): PlainSessions {
    if ops == [] then p else PlainNext(PlainRun(p, ops[..|ops| - 1]), ops[|ops| - 1])
  }

  ghost function StoredMap(legacy: LegacyDecoder, kv: KvMap): SessionMap {
    imap k: SessionKey | Stored(legacy, kv, k).Some? :: Stored(legacy, kv, k).value
  }

  ghost function PlainOf(s: Snap): PlainSessions {
    PlainSessions(s.Sessions(), StoredMap(s.legacy, s.View()),
                  if s.backend.batching then Some(StoredMap(s.legacy, s.backend.kv)) else None)
  }

  // ---- one session under one step ----

  lemma SavedNext(t: Tracked, op: SessionOp, t': Tracked, k: SessionKey)
    requires t.s.Inv(t.flushed) && Next(t, op, t') && !op.AbortBatch?
    ensures Stored(t'.s.legacy, t'.s.View(), k)
            == if op.Flush? then t.s.Session(k)
               else if op.Delete? || op.DeleteAll? || op.Wipe?
               then SessionAfter(op, k, Stored(t.s.legacy, t.s.View(), k))
               else Stored(t.s.legacy, t.s.View(), k)
  {
    var s, s' := t.s, t'.s;
    match op
    case Flush(n) => FlushSaves(s, n, s', k);
    case Wipe => assert SessionLoc(k.identity, k.name) !in s'.View();
    case Elsewhere(kvOp) =>
      ElsewhereKeepsSessions(s, kvOp, s');
      StoredAlike(s.legacy, s.View(), s'.View(), k);
    case Delete(_) =>
    case DeleteAll(_, _, _) =>
    case Load(_, _) => assert s'.View() == s.View();
    case Store(_, _) => assert s'.View() == s.View();
    case OpenBatch => assert s'.View() == s.View();
    case CommitBatch => OverlayNothing(s'.backend.kv);
    case AbortBatch =>
  }

  lemma FlushSaves(s: Snap, n: nat, s': Snap, k: SessionKey)
    requires s.Coherent() && Flushes(s, n, s')
    ensures Stored(s.legacy, s'.View(), k) == s.Session(k)
  {
    assert Stored(s.legacy, s'.View(), k)
        == if k in s.dirty && k in s.cache then Some(s.cache[k]) else Stored(s.legacy, s.View(), k);
  }

  /** What lies below an open batch only a wipe changes. */
  lemma BelowNext(t: Tracked, op: SessionOp, t': Tracked, k: SessionKey)
    requires t.s.Inv(t.flushed) && Next(t, op, t') && t'.s.backend.batching
    ensures Stored(t'.s.legacy, t'.s.backend.kv, k)
            == if op.Wipe? then None
               else if op.OpenBatch? then Stored(t.s.legacy, t.s.View(), k)
               else Stored(t.s.legacy, t.s.backend.kv, k)
    ensures op.OpenBatch? || t.s.backend.batching
  {
    var s, s' := t.s, t'.s;
    match op
    case Wipe => assert SessionLoc(k.identity, k.name) !in s'.backend.kv;
    case Elsewhere(kvOp) =>
      ElsewhereKeepsSessions(s, kvOp, s');
      StoredAlike(s.legacy, s.backend.kv, s'.backend.kv, k);
    case OpenBatch => UnbatchedView(s.backend);
    case _ =>
  }

  lemma StoredAt(legacy: LegacyDecoder, kv: KvMap, k: SessionKey)
    ensures MapAt(StoredMap(legacy, kv), k) == Stored(legacy, kv, k)
  {
  }

  lemma SavedMapNext(t: Tracked, op: SessionOp, t': Tracked)
    requires t.s.Inv(t.flushed) && Next(t, op, t') && !op.AbortBatch?
    ensures PlainOf(t'.s).saved == PlainNext(PlainOf(t.s), op).saved
  {
    var saved, next := StoredMap(t'.s.legacy, t'.s.View()), PlainNext(PlainOf(t.s), op).saved;
    forall k ensures MapAt(saved, k) == MapAt(next, k) {
      SavedNext(t, op, t', k);
      StoredAt(t'.s.legacy, t'.s.View(), k);
      StoredAt(t.s.legacy, t.s.View(), k);
      MapStepAt(StoredMap(t.s.legacy, t.s.View()), op, k);
      assert MapAt(t.s.Sessions(), k) == t.s.Session(k);
    }
    SameSessionMaps(saved, next);
  }

  lemma BelowMapNext(t: Tracked, op: SessionOp, t': Tracked)
    requires t.s.Inv(t.flushed) && Next(t, op, t') && t'.s.backend.batching
    ensures StoredMap(t'.s.legacy, t'.s.backend.kv)
            == if op.Wipe? then imap[]
               else if op.OpenBatch? then StoredMap(t.s.legacy, t.s.View())
               else StoredMap(t.s.legacy, t.s.backend.kv)
  {
    var below := StoredMap(t'.s.legacy, t'.s.backend.kv);
    var next: SessionMap :=
        if op.Wipe? then imap[] else StoredMap(t.s.legacy, if op.OpenBatch? then t.s.View() else t.s.backend.kv);
    forall k ensures MapAt(below, k) == MapAt(next, k) {
      BelowNext(t, op, t', k);
      StoredAt(t'.s.legacy, t'.s.backend.kv, k);
      StoredAt(t.s.legacy, if op.OpenBatch? then t.s.View() else t.s.backend.kv, k);
    }
    SameSessionMaps(below, next);
  }

  lemma FallbackNext(t: Tracked, op: SessionOp, t': Tracked)
    requires t.s.Inv(t.flushed) && Next(t, op, t') && !op.AbortBatch?
    ensures PlainOf(t'.s).fallback == PlainNext(PlainOf(t.s), op).fallback
  {
    if t'.s.backend.batching { BelowMapNext(t, op, t'); }
  }

  lemma AbortLeaves(t: Tracked, t': Tracked)
    requires t.s.Inv(t.flushed) && Next(t, AbortBatch, t')
    ensures t'.s.View() == t'.s.backend.kv == t.s.backend.kv && !t'.s.backend.batching && t'.s.legacy == t.s.legacy
    ensures !t.s.backend.batching ==> t.s.View() == t.s.backend.kv
  {
    OverlayNothing(t'.s.backend.kv);
    if !t.s.backend.batching { UnbatchedView(t.s.backend); }
  }

  lemma AbortCurrent(t: Tracked, t': Tracked)
    requires t.s.Inv(t.flushed) && Next(t, AbortBatch, t')
    ensures t'.s.Sessions() == Before(t.s.Sessions(), StoredMap(t.s.legacy, t.s.backend.kv))
  {
    var next := Before(t.s.Sessions(), StoredMap(t.s.legacy, t.s.backend.kv));
    forall k ensures MapAt(t'.s.Sessions(), k) == MapAt(next, k) {
      AbortSessions(t, t', k);
      StoredAt(t.s.legacy, t.s.backend.kv, k);
      assert MapAt(t.s.Sessions(), k) == t.s.Session(k) && MapAt(t'.s.Sessions(), k) == t'.s.Session(k);
    }
    SameSessionMaps(t'.s.Sessions(), next);
  }

  /** An abort brings back what the batch had deleted and keeps all else. */
  lemma AbortNext(t: Tracked, t': Tracked)
    requires t.s.Inv(t.flushed) && Next(t, AbortBatch, t')
    ensures PlainOf(t'.s) == PlainNext(PlainOf(t.s), AbortBatch)
  {
    AbortLeaves(t, t');
    AbortCurrent(t, t');
  }

  /** Every step of the stack is the plain store's step. */
  lemma NextRefinesPlain(t: Tracked, op: SessionOp, t': Tracked)
    requires t.s.Inv(t.flushed) && Next(t, op, t')
    ensures PlainOf(t'.s) == PlainNext(PlainOf(t.s), op)
  {
    if op.AbortBatch? {
      AbortNext(t, t');
    } else {
      NextRefinesMap(t, op, t');
      SavedMapNext(t, op, t');
      FallbackNext(t, op, t');
    }
  }

  lemma PrefixRun(states: seq<Tracked>, ops: seq<SessionOp>)
    requires IsRun(states, ops) && ops != []
    ensures IsRun(states[..|ops|], ops[..|ops| - 1]) && states[..|ops|][|ops| - 1] == states[|ops| - 1]
    ensures Next(states[|ops| - 1], ops[|ops| - 1], states[|ops|])
  {
  }

  /** The whole stack refines the plain store from (identity, name, device) to
      record over every run, with its batches, commits and aborts. */
  lemma {:induction false} RunRefinesPlain(states: seq<Tracked>, ops: seq<SessionOp>)
    requires IsRun(states, ops) && states[0].s.Inv(states[0].flushed)
    ensures PlainOf(states[|ops|].s) == PlainRun(PlainOf(states[0].s), ops)
    ensures states[|ops|].s.Sessions() == PlainRun(PlainOf(states[0].s), ops).current
  {
    if ops != [] {
      var n := |ops| - 1;
      PrefixRun(states, ops);
      RunRefinesPlain(states[..|ops|], ops[..n]);
      RunKeepsInv(states, ops, n);
      NextRefinesPlain(states[n], ops[n], states[n + 1]);
    }
  }
}
