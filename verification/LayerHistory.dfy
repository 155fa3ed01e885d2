/** The batch layer over whole runs in which the server may refuse: every key reads
    as the latest write to it that still stands. */
module LayerHistory {
  import opened ByteStrings
  import opened PddbServer
  import opened PddbBackend
  import opened Buffering
  import H = EntryHistory

  /** Every operation of the layer, done or refused. */
  datatype LayerOp =
    | Did(op: KvOp)
    | PutRefused(loc: Loc, value: Bytes)
    | DictRefused(dict: Name)
    | CommitRefused

  ghost predicate LayerNext(b: BufState, op: LayerOp, b': BufState) {
    match op
    case Did(op) => b' == Step(b, op) && (op.Begin? ==> !b.batching)
    case PutRefused(loc, value) => !b.batching && b' == b.(kv := b'.kv) && PutFailed(b.kv, b'.kv, loc, value)
    case DictRefused(dict) => b' == b.(buffer := BufferWithoutDict(b.buffer, dict))
    case CommitRefused => b.batching && b' == BufState(b'.kv, false, map[]) && AllReplaying(b.kv, b.buffer, b'.kv)
  }

  ghost predicate IsLayerRun(states: seq<BufState>, ops: seq<LayerOp>) {
    |states| == |ops| + 1 && states[0].Valid() && !states[0].batching
    && forall i :: 0 <= i < |ops| ==> LayerNext(states[i], ops[i], states[i + 1])
  }

  ghost function EntryAt(b: BufState, loc: Loc): H.Entry<Bytes> {
    H.Entry(At(b.View(), loc), if b.batching then At(b.kv, loc) else None, b.batching)
  }

  /** What a step does to one key. */
  ghost function LocOp(b: BufState, op: LayerOp, loc: Loc): H.EntryOp<Bytes> {
    match op
    case Did(Begin) => H.Open
    case Did(PutOp(o, value)) => if o == loc then H.Put(value) else H.Skip
    case Did(DeleteOp(o)) => if o == loc then H.Delete else H.Skip
    case Did(DeleteDictOp(dict)) => if loc.dict == dict then H.Drop else H.Skip
    case Did(Commit) => H.Close
    case Did(Abort) => H.Undo(true)
    case PutRefused(o, _) => if o == loc then H.Doubt else H.Skip
    case DictRefused(dict) => if loc.dict == dict then H.Undo(false) else H.Skip
    case CommitRefused => if loc in b.buffer then H.Doubt else H.Close
  }

  lemma DropsAt(b: BufState, dict: Name, loc: Loc)
    requires b.Valid()
    ensures At(Step(b, DeleteDictOp(dict)).View(), loc) == if loc.dict == dict then None else At(b.View(), loc)
    ensures At(Step(b, DeleteDictOp(dict)).kv, loc) == if loc.dict == dict then None else At(b.kv, loc)
    ensures At(Overlay(b.kv, BufferWithoutDict(b.buffer, dict)), loc)
            == At(if loc.dict == dict then b.kv else b.View(), loc)
  {
    OverlayDeleteDict(b.kv, b.buffer, dict);
  }

  lemma DidStep(b: BufState, op: KvOp, b': BufState, loc: Loc)
    requires b.Valid() && LayerNext(b, Did(op), b')
    ensures H.EntryNext(EntryAt(b, loc), LocOp(b, Did(op), loc), EntryAt(b', loc))
  {
    OverlayNothing(b.kv);
    OverlayNothing(b'.kv);
    match op
    case PutOp(o, value) => StepView(b, o, value);
    case DeleteOp(o) => StepView(b, o, []);
    case DeleteDictOp(dict) => DropsAt(b, dict, loc);
    case _ =>
  }

  /** Seen from one key, the layer's step is that key's step. */
  lemma LocStep(b: BufState, op: LayerOp, b': BufState, loc: Loc)
    requires b.Valid() && LayerNext(b, op, b')
    ensures H.EntryNext(EntryAt(b, loc), LocOp(b, op, loc), EntryAt(b', loc))
  {
    match op
    case Did(kvOp) => DidStep(b, kvOp, b', loc);
    case DictRefused(dict) => DropsAt(b, dict, loc);
    case PutRefused(o, _) =>
      OverlayNothing(b.kv);
      OverlayNothing(b'.kv);
    case CommitRefused =>
      OverlayNothing(b'.kv);
      if loc !in b.buffer { assert At(b'.kv, loc) == At(b.kv, loc) == At(b.View(), loc); }
  }

  ghost function Entries(states: seq<BufState>, loc: Loc): (r: seq<H.Entry<Bytes>>)
    ensures |r| == |states| && forall i :: 0 <= i < |r| ==> r[i] == EntryAt(states[i], loc)
  {
    seq(|states|, i requires 0 <= i < |states| => EntryAt(states[i], loc))
  }

  ghost function LocOps(states: seq<BufState>, ops: seq<LayerOp>, loc: Loc): (r: seq<H.EntryOp<Bytes>>)
    requires |ops| <= |states|
    ensures |r| == |ops| && forall i :: 0 <= i < |r| ==> r[i] == LocOp(states[i], ops[i], loc)
  {
    seq(|ops|, i requires 0 <= i < |ops| => LocOp(states[i], ops[i], loc))
  }

  lemma {:induction false} RunValid(states: seq<BufState>, ops: seq<LayerOp>, i: nat)
    requires IsLayerRun(states, ops) && i <= |ops|
    ensures states[i].Valid()
  {
    if i > 0 {
      RunValid(states, ops, i - 1);
    }
  }

  lemma LocRun(states: seq<BufState>, ops: seq<LayerOp>, loc: Loc)
    requires IsLayerRun(states, ops)
    ensures H.IsEntryRun(Entries(states, loc), LocOps(states, ops, loc))
  {
    forall i | 0 <= i < |ops|
      ensures H.EntryNext(Entries(states, loc)[i], LocOps(states, ops, loc)[i], Entries(states, loc)[i + 1])
    {
      RunValid(states, ops, i);
      LocStep(states[i], ops[i], states[i + 1], loc);
    }
  }

  /** Step `i` wrote the key, has not been rolled back when step `j` begins, and
      nothing later that wrote it still stands. */
  ghost predicate LatestWrite(states: seq<BufState>, ops: seq<LayerOp>, loc: Loc, i: int, j: int)
    requires IsLayerRun(states, ops) && 0 <= i < j <= |ops|
  {
    LocRun(states, ops, loc);
    H.LatestStanding(Entries(states, loc), LocOps(states, ops, loc), i, j)
  }

  ghost predicate NeverWritten(states: seq<BufState>, ops: seq<LayerOp>, loc: Loc, j: int)
    requires IsLayerRun(states, ops) && 0 <= j <= |ops|
  {
    LocRun(states, ops, loc);
    H.NothingStands(Entries(states, loc), LocOps(states, ops, loc), j)
  }

  /** A write of this key that was refused, by itself or in a commit. */
  ghost predicate WriteRefused(b: BufState, op: LayerOp, loc: Loc) {
    LocOp(b, op, loc).Doubt?
  }

  /** In every run of the layer, whatever was refused, committed or rolled back, a
      key reads as its latest standing write left it, unless that write was
      refused, and as at first if no write stands. */
  lemma ReadsLatest(states: seq<BufState>, ops: seq<LayerOp>, loc: Loc, j: nat)
    requires IsLayerRun(states, ops) && j <= |ops|
    ensures NeverWritten(states, ops, loc, j) ==> At(states[j].View(), loc) == At(states[0].View(), loc)
    ensures forall i :: 0 <= i < j && LatestWrite(states, ops, loc, i, j) && !WriteRefused(states[i], ops[i], loc) ==>
              At(states[j].View(), loc) == H.Written(LocOp(states[i], ops[i], loc))
  {
    LocRun(states, ops, loc);
    var entries, entryOps := Entries(states, loc), LocOps(states, ops, loc);
    H.HoldsLatest(entries, entryOps, j);
    assert entries[j].now == At(states[j].View(), loc) && entries[0].now == At(states[0].View(), loc);
    forall i | 0 <= i < j && LatestWrite(states, ops, loc, i, j) && !WriteRefused(states[i], ops[i], loc)
      ensures At(states[j].View(), loc) == H.Written(LocOp(states[i], ops[i], loc))
    {
      assert entryOps[i] == LocOp(states[i], ops[i], loc);
    }
  }
}
