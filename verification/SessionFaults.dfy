/** Runs in which any request may be refused: while the process lives, the cache
    answers for what was stored. */
module SessionFaults {
  import opened ByteStrings
  import opened SessionBundle
  import opened SessionModel
  import opened PddbStore
  import SessionStoreExt
  import HandleSend

  /** Every operation, done or refused part way. */
  datatype FaultyOp =
    | Done(op: SessionOp)
    | FlushRefused
    | DeleteRefused(k: SessionKey)
    | DeleteAllRefused(identity: IdentityType, name: Name)
    | CommitRefused
    | WipeRefused
    | OtherRefused                // a load, or a write elsewhere

  ghost predicate FaultyNext(s: Snap, op: FaultyOp, s': Snap) {
    match op
    case Done(op) => Next(Tracked(s, false), op, Tracked(s', op.Flush? && s.backend.batching))
    case FlushRefused => exists done, identity, name :: FlushStops(s, done, identity, name, s')
    case DeleteRefused(k) => SessionStoreExt.DeleteStops(SessionStoreExt.Without(s, k), k.identity, k.name, s')
    case DeleteAllRefused(identity, name) => s' == SessionStoreExt.WithoutAddress(s, identity, name)
    case CommitRefused => HandleSend.CommitLeaves(s, s')
    case WipeRefused => s' == s.(backend := s'.backend)
    case OtherRefused => s' == s.(backend := s'.backend)
  }

  ghost predicate IsFaultyRun(states: seq<Snap>, ops: seq<FaultyOp>) {
    |states| == |ops| + 1 && forall i :: 0 <= i < |ops| ==> FaultyNext(states[i], ops[i], states[i + 1])
  }

  /** The caller stores something else, deletes or wipes. */
  predicate Overrides(op: FaultyOp, k: SessionKey) {
    match op
    case Done(Store(k', _)) => k' == k
    case Done(Delete(k')) => k' == k
    case Done(DeleteAll(identity, name, _)) => Of(k, identity, name)
    case Done(Wipe) => true
    case DeleteRefused(k') => k' == k
    case DeleteAllRefused(identity, name) => Of(k, identity, name)
    case _ => false
  }

  lemma CachedStays(s: Snap, op: FaultyOp, s': Snap, k: SessionKey)
    requires FaultyNext(s, op, s') && !Overrides(op, k) && k in s.cache
    ensures k in s'.cache && s'.cache[k] == s.cache[k]
  {
    match op
    case Done(Load(k', found)) => assert Some(s'.cache[k]) == s.Session(k);
    case _ =>
  }

  lemma {:induction false} CachedThroughout(states: seq<Snap>, ops: seq<FaultyOp>, i: nat, j: nat, k: SessionKey)
    requires IsFaultyRun(states, ops) && i <= j <= |ops| && k in states[i].cache
    requires forall m :: i <= m < j ==> !Overrides(ops[m], k)
    ensures k in states[j].cache && states[j].cache[k] == states[i].cache[k]
  {
    if i < j {
      CachedThroughout(states, ops, i, j - 1, k);
      CachedStays(states[j - 1], ops[j - 1], states[j], k);
    }
  }

  /** Whatever the server refused in between, in flushes, commits, aborts,
      deletions of other sessions or wipes that stopped, a session stored and not
      since stored anew, deleted or wiped is what a load answers. */
  lemma StoredIsAnswered(states: seq<Snap>, ops: seq<FaultyOp>, i: nat, j: nat, k: SessionKey, record: Record)
    requires IsFaultyRun(states, ops) && i < j <= |ops| && ops[i] == Done(Store(k, record))
    requires forall m :: i < m < j ==> !Overrides(ops[m], k)
    ensures states[j].Session(k) == Some(record)
  {
    assert FaultyNext(states[i], ops[i], states[i + 1]);
    CachedThroughout(states, ops, i + 1, j, k);
  }
}
