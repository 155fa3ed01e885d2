/** One key of the store over a whole run with batches, rollbacks and failed
    writes: it holds what the latest write that still stands put there. */
module EntryHistory {
  import opened ByteStrings

  /** What readers see, and while a batch is open what is below it. */
  datatype Entry<V> = Entry(now: Option<V>, below: Option<V>, batching: bool)

  datatype EntryOp<V> =
    | Skip
    | Put(value: V)
    | Delete
    | Drop                // with its whole dictionary, below an open batch too
    | Doubt               // a write that failed, alone or in a commit
    | Undo(ends: bool)    // the open batch's writes are forgotten
    | Open
    | Close

  predicate IsWrite<V>(op: EntryOp<V>) {
    op.Put? || op.Delete? || op.Drop? || op.Doubt?
  }

  predicate EndsBatch<V>(op: EntryOp<V>) {
    op.Close? || op.Doubt? || (op.Undo? && op.ends)
  }

  /** A failed write leaves its key with any value, and no batch open. */
  ghost predicate EntryNext<V>(e: Entry<V>, op: EntryOp<V>, e': Entry<V>) {
    match op
    case Skip => e' == e
    case Put(value) => e' == e.(now := Some(value))
    case Delete => e' == e.(now := None)
    case Drop => e'.now == None && e'.batching == e.batching && e'.below == None
    case Doubt => !e'.batching
    case Undo(ends) => e' == if !e.batching then e else if ends then Entry(e.below, None, false) else e.(now := e.below)
    case Open => !e.batching && e' == Entry(e.now, e.now, true)
    case Close => e' == Entry(e.now, None, false)
  }

  ghost predicate IsEntryRun<V>(states: seq<Entry<V>>, ops: seq<EntryOp<V>>) {
    |states| == |ops| + 1 && !states[0].batching
    && forall i :: 0 <= i < |ops| ==> EntryNext(states[i], ops[i], states[i + 1])
  }

  /** What a write leaves readers to see. */
  function Written<V>(op: EntryOp<V>): Option<V>
    requires IsWrite(op) && !op.Doubt?
  {
    if op.Put? then Some(op.value) else None
  }

  // ---- which writes still stand ----

  /** The batch open at `k` is still the same when step `j` begins. */
  ghost predicate SameBatch<V>(states: seq<Entry<V>>, ops: seq<EntryOp<V>>, k: int, j: int)
    requires IsEntryRun(states, ops) && 0 <= k < j <= |ops|
  {
    states[k].batching && forall x :: k <= x < j ==> !EndsBatch(ops[x])
  }

  /** Step `m` rolls back what step `k` wrote; a dropped dictionary is for good. */
  ghost predicate RollsBack<V>(states: seq<Entry<V>>, ops: seq<EntryOp<V>>, k: int, m: int)
    requires IsEntryRun(states, ops) && 0 <= k < m < |ops|
  {
    ops[m].Undo? && !ops[k].Drop? && SameBatch(states, ops, k, m)
  }

  ghost predicate Stands<V>(states: seq<Entry<V>>, ops: seq<EntryOp<V>>, k: int, j: int)
    requires IsEntryRun(states, ops) && 0 <= k < j <= |ops|
  {
    IsWrite(ops[k]) && forall m :: k < m < j ==> !RollsBack(states, ops, k, m)
  }

  /** It would still stand after a rollback. */
  ghost predicate Survives<V>(states: seq<Entry<V>>, ops: seq<EntryOp<V>>, k: int, j: int)
    requires IsEntryRun(states, ops) && 0 <= k < j <= |ops|
  {
    Stands(states, ops, k, j) && (ops[k].Drop? || !SameBatch(states, ops, k, j))
  }

  ghost predicate LatestStanding<V>(states: seq<Entry<V>>, ops: seq<EntryOp<V>>, i: int, j: int)
    requires IsEntryRun(states, ops) && 0 <= i < j <= |ops|
  {
    Stands(states, ops, i, j) && forall k :: i < k < j ==> !Stands(states, ops, k, j)
  }

  ghost predicate LatestSurviving<V>(states: seq<Entry<V>>, ops: seq<EntryOp<V>>, i: int, j: int)
    requires IsEntryRun(states, ops) && 0 <= i < j <= |ops|
  {
    Survives(states, ops, i, j) && forall k :: i < k < j ==> !Survives(states, ops, k, j)
  }

  ghost predicate NothingStands<V>(states: seq<Entry<V>>, ops: seq<EntryOp<V>>, j: int)
    requires IsEntryRun(states, ops) && 0 <= j <= |ops|
  {
    forall k :: 0 <= k < j ==> !Stands(states, ops, k, j)
  }

  ghost predicate NothingSurvives<V>(states: seq<Entry<V>>, ops: seq<EntryOp<V>>, j: int)
    requires IsEntryRun(states, ops) && 0 <= j <= |ops|
  {
    forall k :: 0 <= k < j ==> !Survives(states, ops, k, j)
  }

  lemma {:induction false} SameBatchIsOpen<V>(states: seq<Entry<V>>, ops: seq<EntryOp<V>>, k: nat, j: nat)
    requires IsEntryRun(states, ops) && k < j <= |ops| && SameBatch(states, ops, k, j)
    ensures states[j].batching
  {
    if k + 1 < j {
      assert SameBatch(states, ops, k, j - 1);
      SameBatchIsOpen(states, ops, k, j - 1);
    }
    assert EntryNext(states[j - 1], ops[j - 1], states[j]) && !EndsBatch(ops[j - 1]);
  }

  /** How one more step changes what stands and what would survive. */
  lemma OneMoreStep<V>(states: seq<Entry<V>>, ops: seq<EntryOp<V>>, k: nat, j: nat)
    requires IsEntryRun(states, ops) && k < j < |ops|
    ensures SameBatch(states, ops, k, j + 1) == (SameBatch(states, ops, k, j) && !EndsBatch(ops[j]))
    ensures Stands(states, ops, k, j + 1)
            == if ops[j].Undo? then Survives(states, ops, k, j) else Stands(states, ops, k, j)
    ensures SameBatch(states, ops, k, j) ==> states[j].batching
  {
    if SameBatch(states, ops, k, j) { SameBatchIsOpen(states, ops, k, j); }
    assert Stands(states, ops, k, j + 1) == (Stands(states, ops, k, j) && !RollsBack(states, ops, k, j));
  }

  ghost predicate NowRight<V>(states: seq<Entry<V>>, ops: seq<EntryOp<V>>, j: int)
    requires IsEntryRun(states, ops) && 0 <= j <= |ops|
  {
    (NothingStands(states, ops, j) ==> states[j].now == states[0].now)
    && forall i :: 0 <= i < j && LatestStanding(states, ops, i, j) && !ops[i].Doubt?
         ==> states[j].now == Written(ops[i])
  }

  ghost predicate BelowRight<V>(states: seq<Entry<V>>, ops: seq<EntryOp<V>>, j: int)
    requires IsEntryRun(states, ops) && 0 <= j <= |ops|
  {
    (NothingSurvives(states, ops, j) ==> states[j].below == states[0].now)
    && forall i :: 0 <= i < j && LatestSurviving(states, ops, i, j) && !ops[i].Doubt?
         ==> states[j].below == Written(ops[i])
  }

  // ---- what a step that is no rollback does to what readers see ----

  lemma NowAfterWrite<V>(states: seq<Entry<V>>, ops: seq<EntryOp<V>>, j: nat)
    requires IsEntryRun(states, ops) && j < |ops| && IsWrite(ops[j])
    ensures NowRight(states, ops, j + 1)
  {
    assert EntryNext(states[j], ops[j], states[j + 1]);
    assert Stands(states, ops, j, j + 1);
    var n := j + 1;
    forall i | 0 <= i < n && LatestStanding(states, ops, i, n) ensures i == j { }
  }

  lemma NowAfterOther<V>(states: seq<Entry<V>>, ops: seq<EntryOp<V>>, j: nat)
    requires IsEntryRun(states, ops) && j < |ops| && !IsWrite(ops[j]) && !ops[j].Undo?
    requires NowRight(states, ops, j)
    ensures NowRight(states, ops, j + 1)
  {
    assert EntryNext(states[j], ops[j], states[j + 1]);
    forall k | 0 <= k < j ensures Stands(states, ops, k, j + 1) == Stands(states, ops, k, j) {
      OneMoreStep(states, ops, k, j);
    }
    assert !Stands(states, ops, j, j + 1);
    forall i | 0 <= i < j + 1 && LatestStanding(states, ops, i, j + 1)
      ensures i < j && LatestStanding(states, ops, i, j)
    {
    }
  }

  /** Readers see what was below the batch: the writes that survive. */
  lemma NowAfterUndo<V>(states: seq<Entry<V>>, ops: seq<EntryOp<V>>, j: nat)
    requires IsEntryRun(states, ops) && j < |ops| && ops[j].Undo?
    requires if states[j].batching then BelowRight(states, ops, j) else NowRight(states, ops, j)
    ensures NowRight(states, ops, j + 1)
  {
    assert EntryNext(states[j], ops[j], states[j + 1]);
    forall k | 0 <= k < j
      ensures Stands(states, ops, k, j + 1) == Survives(states, ops, k, j)
      ensures !states[j].batching ==> Survives(states, ops, k, j) == Stands(states, ops, k, j)
    {
      OneMoreStep(states, ops, k, j);
    }
    assert !Stands(states, ops, j, j + 1);
    forall i | 0 <= i < j + 1 && LatestStanding(states, ops, i, j + 1)
      ensures i < j && if states[j].batching then LatestSurviving(states, ops, i, j)
                       else LatestStanding(states, ops, i, j)
    {
    }
  }

  // ---- and to what is below an open batch ----

  lemma BelowAfterDrop<V>(states: seq<Entry<V>>, ops: seq<EntryOp<V>>, j: nat)
    requires IsEntryRun(states, ops) && j < |ops| && ops[j].Drop?
    ensures BelowRight(states, ops, j + 1)
  {
    assert EntryNext(states[j], ops[j], states[j + 1]);
    assert Survives(states, ops, j, j + 1);
    var n := j + 1;
    forall i | 0 <= i < n && LatestSurviving(states, ops, i, n) ensures i == j { }
  }

  /** Of what stands, all survives an opening. */
  lemma BelowAfterOpen<V>(states: seq<Entry<V>>, ops: seq<EntryOp<V>>, j: nat)
    requires IsEntryRun(states, ops) && j < |ops| && ops[j].Open? && NowRight(states, ops, j)
    ensures BelowRight(states, ops, j + 1)
  {
    assert EntryNext(states[j], ops[j], states[j + 1]);
    forall k | 0 <= k < j ensures Survives(states, ops, k, j + 1) == Stands(states, ops, k, j) {
      OneMoreStep(states, ops, k, j);
    }
    assert !Survives(states, ops, j, j + 1);
    forall i | 0 <= i < j + 1 && LatestSurviving(states, ops, i, j + 1)
      ensures i < j && LatestStanding(states, ops, i, j)
    {
    }
  }

  /** A write into the batch, or a rollback that leaves it open, changes nothing
      below it. */
  lemma BelowAfterOther<V>(states: seq<Entry<V>>, ops: seq<EntryOp<V>>, j: nat)
    requires IsEntryRun(states, ops) && j < |ops| && !ops[j].Drop? && !ops[j].Open?
    requires states[j].batching && states[j + 1].batching && BelowRight(states, ops, j)
    ensures BelowRight(states, ops, j + 1)
  {
    assert EntryNext(states[j], ops[j], states[j + 1]);
    assert !EndsBatch(ops[j]) && states[j + 1].below == states[j].below;
    forall k | 0 <= k < j ensures Survives(states, ops, k, j + 1) == Survives(states, ops, k, j) {
      OneMoreStep(states, ops, k, j);
    }
    assert !Survives(states, ops, j, j + 1) by {
      assert SameBatch(states, ops, j, j + 1);
    }
    forall i | 0 <= i < j + 1 && LatestSurviving(states, ops, i, j + 1)
      ensures i < j && LatestSurviving(states, ops, i, j)
    {
    }
  }

  lemma {:induction false} BothRight<V>(states: seq<Entry<V>>, ops: seq<EntryOp<V>>, j: nat)
    requires IsEntryRun(states, ops) && j <= |ops|
    ensures NowRight(states, ops, j) && (states[j].batching ==> BelowRight(states, ops, j))
  {
    if j > 0 {
      var m := j - 1;
      BothRight(states, ops, m);
      assert EntryNext(states[m], ops[m], states[j]);
      if IsWrite(ops[m]) {
        NowAfterWrite(states, ops, m);
      } else if ops[m].Undo? {
        NowAfterUndo(states, ops, m);
      } else {
        NowAfterOther(states, ops, m);
      }
      if states[j].batching {
        if ops[m].Drop? {
          BelowAfterDrop(states, ops, m);
        } else if ops[m].Open? {
          BelowAfterOpen(states, ops, m);
        } else {
          BelowAfterOther(states, ops, m);
        }
      }
    }
  }

  /** In every run, with batches, commits, rollbacks and failures, a key holds what
      the latest standing write put there, and what it held at first if none
      stands. (Nothing is said of the value a failed write leaves.) */
  lemma HoldsLatest<V>(states: seq<Entry<V>>, ops: seq<EntryOp<V>>, j: nat)
    requires IsEntryRun(states, ops) && j <= |ops|
    ensures NothingStands(states, ops, j) ==> states[j].now == states[0].now
    ensures forall i :: 0 <= i < j && LatestStanding(states, ops, i, j) && !ops[i].Doubt?
              ==> states[j].now == Written(ops[i])
  {
    BothRight(states, ops, j);
  }

  /** If any write stands after `from`, there is a latest one. */
  lemma {:induction false} LatestExists<V>(states: seq<Entry<V>>, ops: seq<EntryOp<V>>, from: nat, j: nat)
    returns (i: nat)
    requires IsEntryRun(states, ops) && from < j <= |ops| && Stands(states, ops, from, j)
    ensures from <= i < j && LatestStanding(states, ops, i, j)
    decreases j - from
  {
    if k :| from < k < j && Stands(states, ops, k, j) {
      i := LatestExists(states, ops, k, j);
    } else {
      i := from;
    }
  }
}
