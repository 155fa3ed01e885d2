/** Post-quantum pre-keys: one-time keys are deleted by their first use, a
    last-resort key remembers the base key of its latest use. What that means over
    whole runs, with batches, commits, aborts and failed writes. */
module KyberModel {
  import opened ByteStrings
  import opened Numerals
  import H = EntryHistory

  datatype Envelope = Envelope(record: Bytes, isLastResort: bool)

  datatype Outcome = Accepted | Reused | UnknownKey | BadEnvelope | BackendFailed

  // ---- the state ----

  datatype Pair = Pair(id: U32, ec: U32)

  /** The keys kept, an unreadable one as `None`, and per pair of identifiers the
      base key remembered. */
  datatype Kyber = Kyber(keys: imap<U32, Option<Envelope>>, memory: imap<Pair, Bytes>) {
    predicate LastResort(id: U32) {
      id in keys && keys[id].Some? && keys[id].value.isLastResort
    }

    predicate OneTime(id: U32) {
      id in keys && keys[id].Some? && !keys[id].value.isLastResort
    }

    predicate Remembers(p: Pair, base: Bytes) {
      p in memory && memory[p] == base
    }
  }

  /** An open batch: what is below it, and the entries it has buffered. */
  datatype Batch = Batch(below: Kyber, keys: iset<U32>, pairs: iset<Pair>)

  datatype KyberState = KyberState(now: Kyber, batch: Option<Batch>)

  // ---- one step ----

  datatype KyberOp =
    | Save(id: U32, envelope: Envelope)
    | SaveFailed(id: U32)
    | Use(id: U32, ec: U32, base: Bytes, outcome: Outcome)
    | Remove(id: U32)
    | DropKeys(done: bool)       // the dictionary of keys deleted, or not
    | DropMemory(done: bool)     // the dictionary of base keys
    | OpenBatch
    | CommitBatch
    | CommitFailed
    | AbortBatch

  function Decide(s: Kyber, id: U32, ec: U32, base: Bytes): Outcome {
    if id !in s.keys then UnknownKey
    else if s.keys[id].None? then BadEnvelope
    else if s.LastResort(id) && s.Remembers(Pair(id, ec), base) then Reused
    else Accepted
  }

  ghost function KeysWritten(s: KyberState, id: U32, keys: imap<U32, Option<Envelope>>): KyberState {
    KyberState(s.now.(keys := keys),
               if s.batch.Some? then Some(s.batch.value.(keys := s.batch.value.keys + iset{id})) else None)
  }

  ghost function MemoryNoted(s: KyberState, p: Pair, base: Bytes): KyberState {
    KyberState(s.now.(memory := s.now.memory[p := base]),
               if s.batch.Some? then Some(s.batch.value.(pairs := s.batch.value.pairs + iset{p})) else None)
  }

  ghost function Used(s: KyberState, id: U32, ec: U32, base: Bytes): KyberState {
    if s.now.LastResort(id) then MemoryNoted(s, Pair(id, ec), base) else KeysWritten(s, id, s.now.keys - {id})
  }

  ghost predicate SameMemoryAt(s: Kyber, p: Pair, s': Kyber) {
    (p in s'.memory <==> p in s.memory) && (p in s.memory ==> s'.memory[p] == s.memory[p])
  }

  ghost predicate SameKeyAt(s: Kyber, id: U32, s': Kyber) {
    (id in s'.keys <==> id in s.keys) && (id in s.keys ==> s'.keys[id] == s.keys[id])
  }

  ghost predicate SameMemoryBut(s: Kyber, p: Pair, s': Kyber) {
    s'.keys == s.keys && forall q :: q != p ==> SameMemoryAt(s, q, s')
  }

  ghost predicate SameKeysBut(s: Kyber, id: U32, s': Kyber) {
    s'.memory == s.memory && forall o :: o != id ==> SameKeyAt(s, o, s')
  }

  /** A deleted dictionary is gone below an open batch too; a deletion that fails
      has still forgotten what the batch had buffered for it. */
  ghost function KeysDropped(s: KyberState, done: bool): KyberState {
    var left: imap<U32, Option<Envelope>> :=
        if done then imap[] else if s.batch.Some? then s.batch.value.below.keys else s.now.keys;
    KyberState(s.now.(keys := left),
               if s.batch.Some?
               then Some(s.batch.value.(below := s.batch.value.below.(keys := left), keys := iset{}))
               else None)
  }

  ghost function MemoryDropped(s: KyberState, done: bool): KyberState {
    var left: imap<Pair, Bytes> :=
        if done then imap[] else if s.batch.Some? then s.batch.value.below.memory else s.now.memory;
    KyberState(s.now.(memory := left),
               if s.batch.Some?
               then Some(s.batch.value.(below := s.batch.value.below.(memory := left), pairs := iset{}))
               else None)
  }

  /** Failed writes leave the entries they were for in doubt and no other; inside a
      batch no write fails. */
  ghost predicate Next(s: KyberState, op: KyberOp, s': KyberState) {
    match op
    case Save(id, envelope) => s' == KeysWritten(s, id, s.now.keys[id := Some(envelope)])
    case SaveFailed(id) => s.batch.None? && s'.batch.None? && SameKeysBut(s.now, id, s'.now)
    case Use(id, ec, base, outcome) =>
      if outcome == BackendFailed then
        s' == s || (s.batch.None? && s'.batch.None? && s.now.LastResort(id)
                    && SameMemoryBut(s.now, Pair(id, ec), s'.now))
      else outcome == Decide(s.now, id, ec, base) && s' == if outcome == Accepted then Used(s, id, ec, base) else s
    case Remove(id) => s' == KeysWritten(s, id, s.now.keys - {id})
    case DropKeys(done) => s' == KeysDropped(s, done)
    case DropMemory(done) => s' == MemoryDropped(s, done)
    case OpenBatch => s.batch.None? && s' == s.(batch := Some(Batch(s.now, iset{}, iset{})))
    case CommitBatch => s' == s.(batch := None)
    case CommitFailed =>
      s.batch.Some? && s'.batch.None?
      && (forall id :: id !in s.batch.value.keys ==> SameKeyAt(s.now, id, s'.now))
      && (forall p :: p !in s.batch.value.pairs ==> SameMemoryAt(s.now, p, s'.now))
    case AbortBatch => s' == if s.batch.Some? then KyberState(s.batch.value.below, None) else s
  }

  ghost predicate IsRun(states: seq<KyberState>, ops: seq<KyberOp>) {
    |states| == |ops| + 1 && states[0].batch.None?
    && forall i :: 0 <= i < |ops| ==> Next(states[i], ops[i], states[i + 1])
  }

  // ---- the history of one pair's memory ----

  ghost function MemoryAt(s: Kyber, p: Pair): Option<Bytes> {
    if p in s.memory then Some(s.memory[p]) else None
  }

  ghost function PairEntry(s: KyberState, p: Pair): H.Entry<Bytes> {
    H.Entry(MemoryAt(s.now, p), if s.batch.Some? then MemoryAt(s.batch.value.below, p) else None, s.batch.Some?)
  }

  /** What a step does to what is remembered of one pair. */
  ghost function PairOp(s: KyberState, op: KyberOp, p: Pair): H.EntryOp<Bytes> {
    match op
    case Use(id, ec, base, outcome) =>
      if Pair(id, ec) != p || !s.now.LastResort(id) then H.Skip
      else if outcome == Accepted then H.Put(base)
      else if outcome == BackendFailed && s.batch.None? then H.Doubt
      else H.Skip
    case DropMemory(done) => if done then H.Drop else H.Undo(false)
    case OpenBatch => H.Open
    case CommitBatch => H.Close
    case CommitFailed => if s.batch.Some? && p in s.batch.value.pairs then H.Doubt else H.Close
    case AbortBatch => H.Undo(true)
    case _ => H.Skip
  }

  lemma PairStep(s: KyberState, op: KyberOp, s': KyberState, p: Pair)
    requires Next(s, op, s')
    ensures H.EntryNext(PairEntry(s, p), PairOp(s, op, p), PairEntry(s', p))
  {
    var kept := SameMemoryAt(s.now, p, s'.now);
  }

  ghost function PairStates(states: seq<KyberState>, p: Pair): (r: seq<H.Entry<Bytes>>)
    ensures |r| == |states| && forall i :: 0 <= i < |r| ==> r[i] == PairEntry(states[i], p)
  {
    seq(|states|, i requires 0 <= i < |states| => PairEntry(states[i], p))
  }

  ghost function PairOps(states: seq<KyberState>, ops: seq<KyberOp>, p: Pair): (r: seq<H.EntryOp<Bytes>>)
    requires |ops| <= |states|
    ensures |r| == |ops| && forall i :: 0 <= i < |r| ==> r[i] == PairOp(states[i], ops[i], p)
  {
    seq(|ops|, i requires 0 <= i < |ops| => PairOp(states[i], ops[i], p))
  }

  lemma PairRun(states: seq<KyberState>, ops: seq<KyberOp>, p: Pair)
    requires IsRun(states, ops)
    ensures H.IsEntryRun(PairStates(states, p), PairOps(states, ops, p))
  {
    forall i | 0 <= i < |ops|
      ensures H.EntryNext(PairStates(states, p)[i], PairOps(states, ops, p)[i], PairStates(states, p)[i + 1])
    {
      PairStep(states[i], ops[i], states[i + 1], p);
    }
  }

  // ---- last-resort keys ----

  ghost predicate AcceptedUse(s: KyberState, op: KyberOp, p: Pair, base: Bytes) {
    op == Use(p.id, p.ec, base, Accepted) && s.now.LastResort(p.id)
  }

  /** A batch is open at `i` and still the same at `m`. */
  ghost predicate BatchStays(states: seq<KyberState>, ops: seq<KyberOp>, i: int, m: int)
    requires 0 <= i < m <= |ops| < |states|
  {
    states[i].batch.Some?
    && forall x :: i <= x < m ==> !ops[x].CommitBatch? && !ops[x].CommitFailed? && !ops[x].AbortBatch?
  }

  /** A write of the pair's memory fails, alone or in a commit. */
  ghost predicate MemoryWriteFails(s: KyberState, op: KyberOp, p: Pair) {
    || (op.Use? && Pair(op.id, op.ec) == p && op.outcome == BackendFailed && s.batch.None?)
    || (op.CommitFailed? && s.batch.Some? && p in s.batch.value.pairs)
  }

  /** What lets the use at `i` be repeated: the pair is used with another base key,
      its memory is deleted or a write of it fails, or the batch the use was made
      in is given up. */
  ghost predicate Separates(states: seq<KyberState>, ops: seq<KyberOp>, i: int, m: int, p: Pair, base: Bytes)
    requires 0 <= i < m < |ops| < |states|
  {
    || (exists other :: other != base && AcceptedUse(states[m], ops[m], p, other))
    || ops[m] == DropMemory(true)
    || MemoryWriteFails(states[m], ops[m], p)
    || ((ops[m].AbortBatch? || ops[m] == DropMemory(false)) && BatchStays(states, ops, i, m))
  }

  lemma RolledBackPair(states: seq<KyberState>, ops: seq<KyberOp>, i: nat, m: nat, p: Pair, base: Bytes)
    requires IsRun(states, ops) && i < m < |ops| && H.IsEntryRun(PairStates(states, p), PairOps(states, ops, p))
    requires H.RollsBack(PairStates(states, p), PairOps(states, ops, p), i, m)
    ensures Separates(states, ops, i, m, p, base)
  {
    var entryOps := PairOps(states, ops, p);
    forall x | i <= x < m ensures !ops[x].CommitBatch? && !ops[x].CommitFailed? && !ops[x].AbortBatch? {
      assert !H.EndsBatch(entryOps[x]);
    }
    assert BatchStays(states, ops, i, m);
  }

  lemma PairWriteSeparates(states: seq<KyberState>, ops: seq<KyberOp>, i: nat, m: nat, p: Pair, base: Bytes)
    requires IsRun(states, ops) && i < m < |ops| && H.IsWrite(PairOp(states[m], ops[m], p))
    ensures Separates(states, ops, i, m, p, base) || PairOp(states[m], ops[m], p) == H.Put(base)
  {
    var op := PairOp(states[m], ops[m], p);
    if op.Put? && op.value != base { assert AcceptedUse(states[m], ops[m], p, op.value); }
  }

  /** Two accepted uses of the same last-resort key, EC key and base key have
      between them an accepted use of that pair with another base key, a deletion
      or a failed write of its memory, or an abort of the very batch in which the
      first was made. */
  lemma RepeatIsSeparated(states: seq<KyberState>, ops: seq<KyberOp>, i: nat, j: nat, p: Pair, base: Bytes)
    requires IsRun(states, ops) && i < j < |ops|
    requires AcceptedUse(states[i], ops[i], p, base) && AcceptedUse(states[j], ops[j], p, base)
    ensures exists m :: i < m < j && Separates(states, ops, i, m, p, base)
  {
    var entries, entryOps := PairStates(states, p), PairOps(states, ops, p);
    PairRun(states, ops, p);
    assert Next(states[j], ops[j], states[j + 1]) && states[j].now.LastResort(p.id);
    assert entries[j].now != Some(base) && entryOps[i] == H.Put(base);
    if m :| i < m < j && H.RollsBack(entries, entryOps, i, m) {
      RolledBackPair(states, ops, i, m, p, base);
    } else {
      assert H.Stands(entries, entryOps, i, j);
      var k := H.LatestExists(entries, entryOps, i, j);
      H.HoldsLatest(entries, entryOps, j);
      if k != i { PairWriteSeparates(states, ops, i, k, p, base); }
    }
  }

  /** The latest use noted for the pair and not rolled back had this base key. */
  ghost predicate LatestUseIs(states: seq<KyberState>, ops: seq<KyberOp>, j: int, p: Pair, base: Bytes)
    requires IsRun(states, ops) && 0 <= j <= |ops|
  {
    PairRun(states, ops, p);
    exists i :: 0 <= i < j && AcceptedUse(states[i], ops[i], p, base)
      && H.LatestStanding(PairStates(states, p), PairOps(states, ops, p), i, j)
  }

  ghost predicate LatestWriteArrived(states: seq<KyberState>, ops: seq<KyberOp>, j: int, p: Pair)
    requires IsRun(states, ops) && 0 <= j <= |ops|
  {
    PairRun(states, ops, p);
    forall i :: 0 <= i < j && H.LatestStanding(PairStates(states, p), PairOps(states, ops, p), i, j)
      ==> !MemoryWriteFails(states[i], ops[i], p)
  }

  /** In every run, with its batches, commits and aborts, a use of a last-resort
      key is refused exactly when the latest use noted for the pair, and not rolled
      back since, had this base key; provided the latest write of the pair's memory
      has not failed. */
  lemma RefusedExactlyWhenLatest(states: seq<KyberState>, ops: seq<KyberOp>, j: nat, p: Pair, base: Bytes)
    requires IsRun(states, ops) && j <= |ops|
    requires p !in states[0].now.memory && states[j].now.LastResort(p.id) && LatestWriteArrived(states, ops, j, p)
    ensures Decide(states[j].now, p.id, p.ec, base)
            == (if LatestUseIs(states, ops, j, p, base) then Reused else Accepted)
  {
    var entries, entryOps := PairStates(states, p), PairOps(states, ops, p);
    PairRun(states, ops, p);
    H.HoldsLatest(entries, entryOps, j);
    assert entries[0].now == None;
    if k :| 0 <= k < j && H.Stands(entries, entryOps, k, j) {
      var i := H.LatestExists(entries, entryOps, k, j);
      assert entryOps[i] == PairOp(states[i], ops[i], p) && !entryOps[i].Doubt?;
      if LatestUseIs(states, ops, j, p, base) {
        var i' :| 0 <= i' < j && AcceptedUse(states[i'], ops[i'], p, base)
                  && H.LatestStanding(entries, entryOps, i', j);
        assert i' == i;
      }
      if entries[j].now == Some(base) { assert AcceptedUse(states[i], ops[i], p, base); }
    } else {
      assert H.NothingStands(entries, entryOps, j);
    }
  }

  /** Only the latest base key is remembered: an older one passes again. */
  lemma OlderBaseKeyPassesAgain(envelope: Envelope, id: U32, ec: U32, a: Bytes, b: Bytes)
    requires envelope.isLastResort && a != b
    ensures var s := KyberState(Kyber(imap[id := Some(envelope)], imap[]), None);
            var s1 := Used(s, id, ec, a);
            Decide(s.now, id, ec, a) == Accepted && Decide(s1.now, id, ec, a) == Reused
            && Decide(s1.now, id, ec, b) == Accepted && Decide(Used(s1, id, ec, b).now, id, ec, a) == Accepted
  {
  }

  // ---- the history of one key ----

  ghost function KeyAt(s: Kyber, id: U32): Option<Option<Envelope>> {
    if id in s.keys then Some(s.keys[id]) else None
  }

  ghost function KeyEntry(s: KyberState, id: U32): H.Entry<Option<Envelope>> {
    H.Entry(KeyAt(s.now, id), if s.batch.Some? then KeyAt(s.batch.value.below, id) else None, s.batch.Some?)
  }

  /** What a step does to one key. */
  ghost function KeyOp(s: KyberState, op: KyberOp, id: U32): H.EntryOp<Option<Envelope>> {
    match op
    case Save(o, envelope) => if o == id then H.Put(Some(envelope)) else H.Skip
    case SaveFailed(o) => if o == id then H.Doubt else H.Skip
    case Use(o, _, _, outcome) => if o == id && outcome == Accepted && !s.now.LastResort(o) then H.Delete else H.Skip
    case Remove(o) => if o == id then H.Delete else H.Skip
    case DropKeys(done) => if done then H.Drop else H.Undo(false)
    case DropMemory(_) => H.Skip
    case OpenBatch => H.Open
    case CommitBatch => H.Close
    case CommitFailed => if s.batch.Some? && id in s.batch.value.keys then H.Doubt else H.Close
    case AbortBatch => H.Undo(true)
  }

  lemma KeyStep(s: KyberState, op: KyberOp, s': KyberState, id: U32)
    requires Next(s, op, s')
    ensures H.EntryNext(KeyEntry(s, id), KeyOp(s, op, id), KeyEntry(s', id))
  {
    var kept := SameKeyAt(s.now, id, s'.now);
  }

  ghost function KeyStates(states: seq<KyberState>, id: U32): (r: seq<H.Entry<Option<Envelope>>>)
    ensures |r| == |states| && forall i :: 0 <= i < |r| ==> r[i] == KeyEntry(states[i], id)
  {
    seq(|states|, i requires 0 <= i < |states| => KeyEntry(states[i], id))
  }

  ghost function KeyOps(states: seq<KyberState>, ops: seq<KyberOp>, id: U32): (r: seq<H.EntryOp<Option<Envelope>>>)
    requires |ops| <= |states|
    ensures |r| == |ops| && forall i :: 0 <= i < |r| ==> r[i] == KeyOp(states[i], ops[i], id)
  {
    seq(|ops|, i requires 0 <= i < |ops| => KeyOp(states[i], ops[i], id))
  }

  lemma KeyRun(states: seq<KyberState>, ops: seq<KyberOp>, id: U32)
    requires IsRun(states, ops)
    ensures H.IsEntryRun(KeyStates(states, id), KeyOps(states, ops, id))
  {
    forall i | 0 <= i < |ops|
      ensures H.EntryNext(KeyStates(states, id)[i], KeyOps(states, ops, id)[i], KeyStates(states, id)[i + 1])
    {
      KeyStep(states[i], ops[i], states[i + 1], id);
    }
  }

  // ---- one-time keys ----

  /** What lets an identifier be used again after the use at `i`: a key saved under
      it, a failed write of it, or the end of the use's own batch by an abort. */
  ghost predicate Restores(states: seq<KyberState>, ops: seq<KyberOp>, i: int, m: int, id: U32)
    requires 0 <= i < m < |ops| < |states|
  {
    || ((ops[m].Save? || ops[m].SaveFailed?) && ops[m].id == id)
    || (ops[m].CommitFailed? && states[m].batch.Some? && id in states[m].batch.value.keys)
    || ((ops[m].AbortBatch? || ops[m] == DropKeys(false)) && BatchStays(states, ops, i, m))
  }

  lemma RolledBackKey(states: seq<KyberState>, ops: seq<KyberOp>, i: nat, m: nat, id: U32)
    requires IsRun(states, ops) && i < m < |ops| && H.IsEntryRun(KeyStates(states, id), KeyOps(states, ops, id))
    requires H.RollsBack(KeyStates(states, id), KeyOps(states, ops, id), i, m)
    ensures Restores(states, ops, i, m, id)
  {
    var entryOps := KeyOps(states, ops, id);
    forall x | i <= x < m ensures !ops[x].CommitBatch? && !ops[x].CommitFailed? && !ops[x].AbortBatch? {
      assert !H.EndsBatch(entryOps[x]);
    }
    assert BatchStays(states, ops, i, m);
  }

  /** After a one-time key is used, a use of its identifier is accepted again only
      if a key has been saved under it, a write of it has failed, or the batch in
      which it was used has been aborted. */
  lemma OneTimeOncePerSave(states: seq<KyberState>, ops: seq<KyberOp>, i: nat, j: nat, id: U32)
    requires IsRun(states, ops) && i < j < |ops|
    requires ops[i].Use? && ops[i].id == id && ops[i].outcome == Accepted && states[i].now.OneTime(id)
    requires ops[j].Use? && ops[j].id == id && ops[j].outcome == Accepted
    ensures exists m :: i < m < j && Restores(states, ops, i, m, id)
  {
    var entries, entryOps := KeyStates(states, id), KeyOps(states, ops, id);
    KeyRun(states, ops, id);
    assert Next(states[j], ops[j], states[j + 1]);
    assert entries[j].now.Some?;
    if m :| i < m < j && H.RollsBack(entries, entryOps, i, m) {
      RolledBackKey(states, ops, i, m, id);
    } else {
      assert H.Stands(entries, entryOps, i, j);
      var k := H.LatestExists(entries, entryOps, i, j);
      H.HoldsLatest(entries, entryOps, j);
      assert entryOps[k].Put? || entryOps[k].Doubt?;
      assert Restores(states, ops, i, k, id);
    }
  }
}
