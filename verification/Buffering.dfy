/** The write-deferring batch layer: reads see buffered writes, a commit replays
    them, an abort forgets them. */
module Buffering {
  import opened ByteStrings
  import opened BatchWire
  import opened PddbServer
  import opened PddbBackend

  datatype BufferEntry = BufPut(bytes: Bytes) | BufDelete

  type Buffer = map<Loc, BufferEntry>

  function At(kv: KvMap, loc: Loc): Option<Bytes> {
    if loc in kv then Some(kv[loc]) else None
  }

  lemma SameMaps(a: KvMap, b: KvMap)
    requires forall loc :: At(a, loc) == At(b, loc)
    ensures a == b
  {
    assert forall loc :: loc in a <==> At(a, loc).Some?;
    assert forall loc :: loc in b <==> At(b, loc).Some?;
    forall loc | loc in a ensures loc in b && a[loc] == b[loc] {
      assert At(a, loc) == At(b, loc);
    }
  }

  /** What a reader sees through `buffer`. */
  function Overlay(kv: KvMap, buffer: Buffer): KvMap {
    map loc | loc in kv.Keys + buffer.Keys && (loc in buffer ==> buffer[loc].BufPut?)
      :: if loc in buffer then buffer[loc].bytes else kv[loc]
  }

  lemma OverlayNothing(kv: KvMap)
    ensures Overlay(kv, map[]) == kv
  {
  }

  function BufferWithoutDict(buffer: Buffer, dict: Name): Buffer {
    map loc | loc in buffer && loc.dict != dict :: buffer[loc]
  }

  // ---- one step of the layer, when the backend below does not fail ----

  datatype BufState = BufState(kv: KvMap, batching: bool, buffer: Buffer) {
    function View(): KvMap {
      Overlay(kv, buffer)
    }

    predicate Valid() {
      !batching ==> buffer == map[]
    }
  }

  datatype KvOp =
    | Begin
    | PutOp(loc: Loc, value: Bytes)
    | DeleteOp(loc: Loc)
    | DeleteDictOp(dict: Name)
    | Commit
    | Abort

  function Step(s: BufState, op: KvOp): BufState {
    match op
    case Begin => s.(batching := true)
    case PutOp(loc, value) =>
      if s.batching then s.(buffer := s.buffer[loc := BufPut(value)]) else s.(kv := s.kv[loc := value])
    case DeleteOp(loc) =>
      if s.batching then s.(buffer := s.buffer[loc := BufDelete]) else s.(kv := s.kv - {loc})
    case DeleteDictOp(dict) =>
      BufState(WithoutDict(s.kv, dict), s.batching, BufferWithoutDict(s.buffer, dict))
    case Commit => BufState(s.View(), false, map[])
    case Abort => BufState(s.kv, false, map[])
  }

  function Run(s: BufState, ops: seq<KvOp>): BufState {
    if ops == [] then s else Step(Run(s, ops[..|ops| - 1]), ops[|ops| - 1])
  }

  // ---- the plain map it stands for ----

  /** One map, and while a batch is open the map to fall back to. A whole
      dictionary goes from both: that deletion is never deferred. */
  datatype PlainStore = PlainStore(current: KvMap, fallback: Option<KvMap>)

  function PlainStep(p: PlainStore, op: KvOp): PlainStore {
    match op
    case Begin => if p.fallback.Some? then p else p.(fallback := Some(p.current))
    case PutOp(loc, value) => p.(current := p.current[loc := value])
    case DeleteOp(loc) => p.(current := p.current - {loc})
    case DeleteDictOp(dict) =>
      PlainStore(WithoutDict(p.current, dict),
                 if p.fallback.Some? then Some(WithoutDict(p.fallback.value, dict)) else None)
    case Commit => p.(fallback := None)
    case Abort => PlainStore(if p.fallback.Some? then p.fallback.value else p.current, None)
  }

  function PlainRun(p: PlainStore, ops: seq<KvOp>): PlainStore {
    if ops == [] then p else PlainStep(PlainRun(p, ops[..|ops| - 1]), ops[|ops| - 1])
  }

  ghost predicate Refines(s: BufState, p: PlainStore) {
    && s.Valid()
    && s.View() == p.current
    && (s.batching <==> p.fallback.Some?)
    && (s.batching ==> s.kv == p.fallback.value)
  }

  lemma OverlayPut(kv: KvMap, buffer: Buffer, loc: Loc, value: Bytes)
    ensures Overlay(kv, buffer[loc := BufPut(value)]) == Overlay(kv, buffer)[loc := value]
  {
  }

  lemma OverlayDelete(kv: KvMap, buffer: Buffer, loc: Loc)
    ensures Overlay(kv, buffer[loc := BufDelete]) == Overlay(kv, buffer) - {loc}
  {
  }

  lemma OverlayDeleteDict(kv: KvMap, buffer: Buffer, dict: Name)
    ensures Overlay(WithoutDict(kv, dict), BufferWithoutDict(buffer, dict)) == WithoutDict(Overlay(kv, buffer), dict)
  {
    var a, b := Overlay(WithoutDict(kv, dict), BufferWithoutDict(buffer, dict)), WithoutDict(Overlay(kv, buffer), dict);
    forall loc ensures At(a, loc) == At(b, loc) {
      if loc.dict == dict {
        assert loc !in BufferWithoutDict(buffer, dict) && loc !in WithoutDict(kv, dict);
      } else {
        assert At(WithoutDict(kv, dict), loc) == At(kv, loc);
      }
    }
    SameMaps(a, b);
  }

  /** How a write or a delete shows, deferred or not. */
  lemma StepView(b: BufState, loc: Loc, value: Bytes)
    requires b.Valid()
    ensures Step(b, PutOp(loc, value)).View() == b.View()[loc := value]
    ensures Step(b, DeleteOp(loc)).View() == b.View() - {loc}
  {
    OverlayPut(b.kv, b.buffer, loc, value);
    OverlayDelete(b.kv, b.buffer, loc);
    OverlayNothing(b.kv);
    OverlayNothing(b.kv[loc := value]);
    OverlayNothing(b.kv - {loc});
  }

  lemma StepRefines(s: BufState, p: PlainStore, op: KvOp)
    requires Refines(s, p)
    ensures Refines(Step(s, op), PlainStep(p, op))
  {
    OverlayNothing(s.kv);
    OverlayNothing(Step(s, op).kv);
    match op
    case PutOp(loc, value) => OverlayPut(s.kv, s.buffer, loc, value);
    case DeleteOp(loc) => OverlayDelete(s.kv, s.buffer, loc);
    case DeleteDictOp(dict) => OverlayDeleteDict(s.kv, s.buffer, dict);
    case _ =>
  }

  /** For every sequence of operations the layer shows exactly the plain map:
      the same values, the same keys of every dictionary, and it refuses a new
      batch exactly when the plain store has one open. */
  lemma {:induction false} RunRefines(s: BufState, p: PlainStore, ops: seq<KvOp>)
    requires Refines(s, p)
    ensures Refines(Run(s, ops), PlainRun(p, ops))
    ensures Run(s, ops).View() == PlainRun(p, ops).current
  {
    if ops != [] {
      RunRefines(s, p, ops[..|ops| - 1]);
      StepRefines(Run(s, ops[..|ops| - 1]), PlainRun(p, ops[..|ops| - 1]), ops[|ops| - 1]);
    }
  }

  // ---- replaying puts in any order ----

  /** `puts` lists the buffered puts, in any order. */
  ghost predicate ListsPuts(puts: seq<BatchEntry>, buffer: Buffer) {
    && (forall e :: e in puts ==> LocOf(e) in buffer && buffer[LocOf(e)] == BufPut(e.value))
    && (forall loc :: loc in buffer && buffer[loc].BufPut? ==> BatchEntry(loc.dict, loc.key, buffer[loc].bytes) in puts)
  }

  lemma {:induction false} PutsOverlay(kv: KvMap, puts: seq<BatchEntry>, buffer: Buffer, loc: Loc)
    requires forall e :: e in puts ==> LocOf(e) in buffer && buffer[LocOf(e)] == BufPut(e.value)
    ensures loc in buffer && buffer[loc].BufPut? && BatchEntry(loc.dict, loc.key, buffer[loc].bytes) in puts
            ==> At(ApplyPuts(kv, puts), loc) == Some(buffer[loc].bytes)
    ensures At(ApplyPuts(kv, puts), loc) == At(kv, loc)
            || (loc in buffer && buffer[loc].BufPut? && At(ApplyPuts(kv, puts), loc) == Some(buffer[loc].bytes))
  {
    if puts != [] {
      var last := puts[|puts| - 1];
      assert last in puts && puts == puts[..|puts| - 1] + [last];
      PutsOverlay(kv, puts[..|puts| - 1], buffer, loc);
      assert LocOf(last) == loc ==> last == BatchEntry(loc.dict, loc.key, last.value);
    }
  }

  /** Where a key may stand while its buffered entry is being replayed: the old
      value, the new one, none, or a proper prefix of the new one. */
  ghost predicate Replaying(before: Option<Bytes>, entry: BufferEntry, now: Option<Bytes>) {
    || now == before
    || now == None
    || (entry.BufPut? && now.Some? && now.value <= entry.bytes)
  }

  ghost predicate AllReplaying(before: KvMap, buffer: Buffer, now: KvMap) {
    forall loc ::
      if loc in buffer then Replaying(At(before, loc), buffer[loc], At(now, loc)) else At(now, loc) == At(before, loc)
  }

  lemma PutKeepsReplaying(before: KvMap, buffer: Buffer, kv: KvMap, after: KvMap, e: BatchEntry)
    requires AllReplaying(before, buffer, kv)
    requires LocOf(e) in buffer && buffer[LocOf(e)] == BufPut(e.value)
    requires after == kv[LocOf(e) := e.value] || PutFailed(kv, after, LocOf(e), e.value)
    ensures AllReplaying(before, buffer, after)
    ensures forall loc :: loc != LocOf(e) ==> At(after, loc) == At(kv, loc)
  {
  }

  lemma ReplayedIsOverlay(before: KvMap, buffer: Buffer, after: KvMap)
    requires AllReplaying(before, buffer, after)
    requires forall loc :: loc in buffer ==>
               At(after, loc) == if buffer[loc].BufPut? then Some(buffer[loc].bytes) else None
    ensures after == Overlay(before, buffer)
  {
    SameMaps(after, Overlay(before, buffer));
  }

  ghost predicate PutsApplied(buffer: Buffer, kv: KvMap) {
    forall loc :: loc in buffer && buffer[loc].BufPut? ==> At(kv, loc) == Some(buffer[loc].bytes)
  }

  lemma ListedIsApplied(puts: seq<BatchEntry>, buffer: Buffer, kv: KvMap)
    requires ListsPuts(puts, buffer)
    requires forall e :: e in puts ==> At(kv, LocOf(e)) == Some(e.value)
    ensures PutsApplied(buffer, kv)
  {
    forall loc | loc in buffer && buffer[loc].BufPut? ensures At(kv, loc) == Some(buffer[loc].bytes) {
      assert BatchEntry(loc.dict, loc.key, buffer[loc].bytes) in puts;
    }
  }

  lemma PutKeepsEarlier(buffer: Buffer, puts: seq<BatchEntry>, i: nat, kv: KvMap, after: KvMap)
    requires ListsPuts(puts, buffer) && i < |puts|
    requires forall loc :: loc != LocOf(puts[i]) ==> At(after, loc) == At(kv, loc)
    requires forall j :: 0 <= j < i ==> At(kv, LocOf(puts[j])) == Some(puts[j].value)
    requires after == kv[LocOf(puts[i]) := puts[i].value]
    ensures forall j :: 0 <= j <= i ==> At(after, LocOf(puts[j])) == Some(puts[j].value)
  {
    assert puts[i] in puts;
    forall j | 0 <= j < i ensures At(after, LocOf(puts[j])) == Some(puts[j].value) {
      assert puts[j] in puts;
    }
  }

  /** A bulk write that stopped anywhere is a replay in progress; a finished one
      applied every put, in whatever order they were listed. */
  lemma BatchReplays(before: KvMap, puts: seq<BatchEntry>, n: nat, buffer: Buffer)
    requires ListsPuts(puts, buffer) && n <= |puts|
    ensures AllReplaying(before, buffer, ApplyPuts(before, puts[..n]))
    ensures n == |puts| ==> PutsApplied(buffer, ApplyPuts(before, puts[..n]))
  {
    forall loc { PutsOverlay(before, puts[..n], buffer, loc); }
    if n == |puts| {
      assert puts[..n] == puts;
      forall e | e in puts ensures At(ApplyPuts(before, puts), LocOf(e)) == Some(e.value) {
        PutsOverlay(before, puts, buffer, LocOf(e));
        assert e == BatchEntry(LocOf(e).dict, LocOf(e).key, buffer[LocOf(e)].bytes);
      }
      ListedIsApplied(puts, buffer, ApplyPuts(before, puts));
    }
  }

  lemma DeleteKeepsReplaying(before: KvMap, buffer: Buffer, kv: KvMap, loc: Loc)
    requires AllReplaying(before, buffer, kv) && loc in buffer && buffer[loc].BufDelete?
    ensures AllReplaying(before, buffer, kv - {loc})
    ensures PutsApplied(buffer, kv) ==> PutsApplied(buffer, kv - {loc})
  {
    assert forall other :: other != loc ==> At(kv - {loc}, other) == At(kv, other);
  }

  predicate BufferFits(buffer: Buffer) {
    forall loc :: loc in buffer && buffer[loc].BufPut? ==> Fits(loc)
  }

  class BufferingBackend {
    const inner: PddbBackend
    var batching: bool
    var buffer: Buffer

    constructor (inner: PddbBackend)
      ensures this.inner == inner && !batching && buffer == map[]
    {
      this.inner, this.batching, this.buffer := inner, false, map[];
    }

    predicate Valid()
      reads this, inner.server
    {
      inner.server.Valid() && (!batching ==> buffer == map[])
    }

    ghost function State(): BufState
      reads this, inner.server
    {
      BufState(inner.server.kv, batching, buffer)
    }

    /** Refuses a second batch; the test and the set are one step. */
    method BeginBatch() returns (ok: bool)
      requires Valid()
      modifies this
      ensures Valid()
      ensures ok == !old(batching)
      ensures State() == Step(old(State()), Begin)
    {
      if batching { return false; }
      batching := true;
      return true;
    }

    /** Replays the drained buffer, falling back to single puts when the bulk
        write fails. Success means the backend below is what readers saw. */
    method CommitBatch() returns (r: Result<nat, ErrorKind>)
      requires Valid()
      modifies this, inner.server
      ensures Valid() && !batching && buffer == map[]
      ensures r.Ok? ==> r.value == |old(buffer)| && State() == Step(old(State()), Commit)
      ensures AllReplaying(old(inner.server.kv), old(buffer), inner.server.kv)
      ensures inner.server.reliable && old(BufferFits(buffer)) ==> r.Ok?
    {
      var entries := buffer;
      buffer := map[];
      var puts, deletes := Split(entries);
      var firstErr: Option<ErrorKind> := None;
      if puts != [] {
        firstErr := ReplayPuts(entries, puts);
      } else {
        ListedIsApplied(puts, entries, inner.server.kv);
      }
      firstErr := ReplayDeletes(old(inner.server.kv), entries, deletes, firstErr);
      batching := false;
      if firstErr.Some? { return Err(firstErr.value); }
      forall loc | loc in entries
        ensures At(inner.server.kv, loc) == if entries[loc].BufPut? then Some(entries[loc].bytes) else None
      {
        assert entries[loc].BufDelete? ==> loc in deletes;
      }
      ReplayedIsOverlay(old(inner.server.kv), entries, inner.server.kv);
      return Ok(|entries|);
    }

    /** Every buffered delete, also after a failure; the first error is kept. */
    method ReplayDeletes(ghost before: KvMap, ghost entries: Buffer, deletes: seq<Loc>, earlier: Option<ErrorKind>)
      returns (firstErr: Option<ErrorKind>)
      requires inner.server.Valid()
      requires forall loc :: loc in deletes <==> loc in entries && entries[loc].BufDelete?
      requires AllReplaying(before, entries, inner.server.kv)
      requires earlier.None? ==> PutsApplied(entries, inner.server.kv)
      modifies inner.server
      ensures inner.server.Valid()
      ensures AllReplaying(before, entries, inner.server.kv)
      ensures firstErr.None? ==> PutsApplied(entries, inner.server.kv)
      ensures firstErr.None? ==> forall loc :: loc in deletes ==> loc !in inner.server.kv
      ensures inner.server.reliable && earlier.None? ==> firstErr.None?
    {
      firstErr := earlier;
      for i := 0 to |deletes|
        invariant inner.server.Valid()
        invariant AllReplaying(before, entries, inner.server.kv)
        invariant firstErr.None? ==> PutsApplied(entries, inner.server.kv)
        invariant firstErr.None? ==> forall j :: 0 <= j < i ==> deletes[j] !in inner.server.kv
        invariant inner.server.reliable && earlier.None? ==> firstErr.None?
      {
        ghost var kv := inner.server.kv;
        assert deletes[i] in deletes;
        var deleted := inner.Delete(deletes[i]);
        DeleteKeepsReplaying(before, entries, kv, deletes[i]);
        if deleted.Err? && firstErr.None? { firstErr := Some(deleted.error); }
      }
    }

    /** Separates the buffer into puts and deletes, in an arbitrary order. */
    method Split(entries: Buffer) returns (puts: seq<BatchEntry>, deletes: seq<Loc>)
      ensures ListsPuts(puts, entries)
      ensures forall loc :: loc in deletes <==> loc in entries && entries[loc].BufDelete?
    {
      puts, deletes := [], [];
      var left := entries.Keys;
      while left != {}
        invariant left <= entries.Keys
        invariant forall e :: e in puts ==> LocOf(e) in entries && entries[LocOf(e)] == BufPut(e.value)
        invariant forall loc :: loc in entries && loc !in left && entries[loc].BufPut?
                    ==> BatchEntry(loc.dict, loc.key, entries[loc].bytes) in puts
        invariant forall loc :: loc in deletes <==> loc in entries && loc !in left && entries[loc].BufDelete?
        decreases left
      {
        var loc :| loc in left;
        match entries[loc] {
          case BufPut(bytes) => puts := puts + [BatchEntry(loc.dict, loc.key, bytes)];
          case BufDelete => deletes := deletes + [loc];
        }
        left := left - {loc};
      }
    }

    /** The bulk write, then one put per entry if it failed. */
    method ReplayPuts(ghost entries: Buffer, puts: seq<BatchEntry>) returns (firstErr: Option<ErrorKind>)
      requires inner.server.Valid() && ListsPuts(puts, entries)
      modifies inner.server
      ensures inner.server.Valid()
      ensures AllReplaying(old(inner.server.kv), entries, inner.server.kv)
      ensures firstErr.None? ==> PutsApplied(entries, inner.server.kv)
      ensures inner.server.reliable && BufferFits(entries) ==> firstErr.None?
    {
      ghost var kv0 := inner.server.kv;
      assert puts[..|puts|] == puts;
      var batch := inner.PutBatch(puts);
      ghost var n: nat :| n <= |puts| && inner.server.kv == ApplyPuts(kv0, puts[..n]) && (batch.Ok? ==> n == |puts|);
      BatchReplays(kv0, puts, n, entries);
      if batch.Ok? { return None; }
      firstErr := PutOneByOne(kv0, entries, puts);
    }

    method PutOneByOne(ghost before: KvMap, ghost entries: Buffer, puts: seq<BatchEntry>)
      returns (firstErr: Option<ErrorKind>)
      requires inner.server.Valid() && ListsPuts(puts, entries)
      requires AllReplaying(before, entries, inner.server.kv)
      modifies inner.server
      ensures inner.server.Valid()
      ensures AllReplaying(before, entries, inner.server.kv)
      ensures firstErr.None? ==> PutsApplied(entries, inner.server.kv)
      ensures inner.server.reliable && BufferFits(entries) ==> firstErr.None?
    {
      firstErr := None;
      for i := 0 to |puts|
        invariant inner.server.Valid()
        invariant AllReplaying(before, entries, inner.server.kv)
        invariant firstErr.None?
                  ==> forall j :: 0 <= j < i ==> At(inner.server.kv, LocOf(puts[j])) == Some(puts[j].value)
        invariant inner.server.reliable && BufferFits(entries) ==> firstErr.None?
      {
        assert puts[i] in puts;
        ghost var kv := inner.server.kv;
        var put := inner.Put(LocOf(puts[i]), puts[i].value);
        PutKeepsReplaying(before, entries, kv, inner.server.kv, puts[i]);
        if put.Ok? && firstErr.None? { PutKeepsEarlier(entries, puts, i, kv, inner.server.kv); }
        if put.Err? && firstErr.None? { firstErr := Some(put.error); }
      }
      if firstErr.None? { ListedIsApplied(puts, entries, inner.server.kv); }
    }

    /** Forgets the buffered writes. */
    method AbortBatch()
      requires Valid()
      modifies this
      ensures Valid() && State() == Step(old(State()), Abort)
    {
      buffer := map[];
      batching := false;
    }

    method Get(loc: Loc) returns (r: Result<Option<Bytes>, ErrorKind>)
      requires Valid()
      modifies inner.server
      ensures Valid() && State() == old(State())
      ensures r.Ok? ==> r.value == At(State().View(), loc)
      ensures inner.server.reliable && Fits(loc) ==> r.Ok?
    {
      if batching && loc in buffer {
        match buffer[loc] {
          case BufPut(bytes) => return Ok(Some(bytes));
          case BufDelete => return Ok(None);
        }
      }
      r := inner.Get(loc);
    }

    method Put(loc: Loc, value: Bytes) returns (r: Done)
      requires Valid()
      modifies this, inner.server
      ensures Valid()
      ensures r.Ok? ==> State() == Step(old(State()), PutOp(loc, value))
      ensures r.Err? ==> !batching && unchanged(this) && PutFailed(old(inner.server.kv), inner.server.kv, loc, value)
      ensures batching || (inner.server.reliable && Fits(loc)) ==> r.Ok?
    {
      if batching {
        buffer := buffer[loc := BufPut(value)];
        return Ok(());
      }
      r := inner.Put(loc, value);
    }

    method Delete(loc: Loc) returns (r: Done)
      requires Valid()
      modifies this, inner.server
      ensures Valid()
      ensures r.Ok? ==> State() == Step(old(State()), DeleteOp(loc))
      ensures r.Err? ==> !batching && State() == old(State())
      ensures batching || inner.server.reliable ==> r.Ok?
    {
      if batching {
        buffer := buffer[loc := BufDelete];
        return Ok(());
      }
      r := inner.Delete(loc);
    }

    /** Goes straight below, even inside a batch: an abort will not undo it. The
        dictionary's buffered entries are dropped first, also when the deletion
        then fails. */
    method DeleteDict(dict: Name) returns (r: Done)
      requires Valid()
      modifies this, inner.server
      ensures Valid()
      ensures r.Ok? ==> State() == Step(old(State()), DeleteDictOp(dict))
      ensures r.Err? ==> State() == old(State()).(buffer := BufferWithoutDict(old(buffer), dict))
      ensures inner.server.reliable ==> r.Ok?
    {
      if batching {
        buffer := BufferWithoutDict(buffer, dict);
      }
      assert buffer == BufferWithoutDict(old(buffer), dict);
      r := inner.DeleteDict(dict);
    }

    /** Inner keys, plus buffered puts, minus buffered deletes. */
    method ListKeys(dict: Name) returns (r: Result<seq<Name>, ErrorKind>)
      requires Valid()
      ensures r.Ok? ==> Enumerates(r.value, State().View(), dict)
      ensures inner.server.reliable && |dict| <= DICT_NAME_LEN - 1 ==> r.Ok?
    {
      var innerKeys := inner.ListKeys(dict);
      if innerKeys.Err? || !batching {
        OverlayNothing(inner.server.kv);
        return innerKeys;
      }
      var keys := set k | k in innerKeys.value;
      var left := buffer.Keys;
      while left != {}
        invariant left <= buffer.Keys
        invariant forall k: Name :: k in keys <==>
                    var loc := Loc(dict, k);
                    if loc in buffer && loc !in left then buffer[loc].BufPut? else loc in inner.server.kv
        decreases left
      {
        var loc :| loc in left;
        left := left - {loc};
        if loc.dict == dict {
          match buffer[loc] {
            case BufPut(_) => keys := keys + {loc.key};
            case BufDelete => keys := keys - {loc.key};
          }
        }
      }
      var names := SetToSeq(keys);
      return Ok(names);
    }

    method SetToSeq(keys: set<Name>) returns (names: seq<Name>)
      ensures NoDuplicates(names) && forall k :: k in names <==> k in keys
    {
      names := [];
      var left := keys;
      while left != {}
        invariant left <= keys
        invariant NoDuplicates(names) && forall k :: k in names <==> k in keys - left
        decreases left
      {
        var k :| k in left;
        AppendNew(names, k);
        names := names + [k];
        left := left - {k};
      }
    }
  }
}
