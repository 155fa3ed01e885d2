/** Messages by conversation: one dictionary per thread, keyed by timestamp. */
module ThreadMessages {
  import opened Basics
  import opened ByteStrings
  import opened BatchWire
  import opened PddbServer
  import opened PddbBackend
  import opened Buffering
  import opened Numerals
  import opened Sorting
  import opened LayerHistory

  /** A message as the store sees it: a timestamp and everything else. */
  datatype Content = Content(timestamp: U64, body: Bytes)

  /** The stored envelope, of which only the round trip is known. */
  datatype Codec = Codec(encode: Content -> Bytes, decode: Bytes -> Option<Content>) {
    ghost predicate RoundTrips() {
      forall c :: decode(encode(c)) == Some(c)
    }
  }

  /** A thread's dictionary: the prefix and the hash of who is in it. */
  type ThreadDict = d: Name | |d| <= DICT_NAME_LEN - 1 && d != [] witness Ascii("signal.threads.")

  /** One message: its thread and its timestamp. */
  datatype MsgKey = MsgKey(thread: ThreadDict, timestamp: U64)

  function LocOfMessage(k: MsgKey): Loc {
    Loc(k.thread, MessageKey(k.timestamp))
  }

  lemma LocInjective(a: MsgKey, b: MsgKey)
    requires LocOfMessage(a) == LocOfMessage(b)
    ensures a == b
  {
    MessageKeyRoundTrip(a.timestamp);
    MessageKeyRoundTrip(b.timestamp);
  }

  // ---- the messages a map of byte strings holds ----

  type Messages = imap<MsgKey, Content>

  /** `threads` are the dictionaries used for conversations; they hold these
      messages and nothing else. */
  ghost predicate Holds(codec: Codec, threads: set<ThreadDict>, kv: KvMap, saved: Messages) {
    && (forall loc :: loc in kv && loc.dict in threads ==> exists k :: k in saved && LocOfMessage(k) == loc)
    && (forall k :: k in saved ==> k.thread in threads && saved[k].timestamp == k.timestamp
                                   && At(kv, LocOfMessage(k)).Some?
                                   && codec.decode(kv[LocOfMessage(k)]) == Some(saved[k]))
  }

  lemma SavedHolds(codec: Codec, threads: set<ThreadDict>, kv: KvMap, saved: Messages, thread: ThreadDict, c: Content)
    requires codec.RoundTrips() && Holds(codec, threads, kv, saved) && thread in threads
    ensures var k := MsgKey(thread, c.timestamp);
            Holds(codec, threads, kv[LocOfMessage(k) := codec.encode(c)], saved[k := c])
  {
    var k := MsgKey(thread, c.timestamp);
    var kv', saved' := kv[LocOfMessage(k) := codec.encode(c)], saved[k := c];
    forall o | o in saved'
      ensures At(kv', LocOfMessage(o)).Some? && codec.decode(kv'[LocOfMessage(o)]) == Some(saved'[o])
    {
      if LocOfMessage(o) == LocOfMessage(k) { LocInjective(o, k); }
    }
    forall loc | loc in kv' && loc.dict in threads ensures exists o :: o in saved' && LocOfMessage(o) == loc {
      if loc == LocOfMessage(k) {
        assert k in saved';
      } else {
        var o :| o in saved && LocOfMessage(o) == loc;
        assert o in saved';
      }
    }
  }

  lemma RemovedHolds(codec: Codec, threads: set<ThreadDict>, kv: KvMap, saved: Messages, k: MsgKey)
    requires Holds(codec, threads, kv, saved)
    ensures Holds(codec, threads, kv - {LocOfMessage(k)}, saved - {k})
  {
    var kv', saved' := kv - {LocOfMessage(k)}, saved - {k};
    forall o | o in saved' ensures At(kv', LocOfMessage(o)) == At(kv, LocOfMessage(o)) {
      if LocOfMessage(o) == LocOfMessage(k) { LocInjective(o, k); }
    }
    forall loc | loc in kv' && loc.dict in threads ensures exists o :: o in saved' && LocOfMessage(o) == loc {
      var o :| o in saved && LocOfMessage(o) == loc;
      assert o in saved';
    }
  }

  ghost function WithoutThread(saved: Messages, thread: ThreadDict): Messages {
    imap k | k in saved && k.thread != thread :: saved[k]
  }

  lemma ClearedHolds(codec: Codec, threads: set<ThreadDict>, kv: KvMap, saved: Messages, thread: ThreadDict)
    requires Holds(codec, threads, kv, saved)
    ensures Holds(codec, threads, WithoutDict(kv, thread), WithoutThread(saved, thread))
  {
    var kv', saved' := WithoutDict(kv, thread), WithoutThread(saved, thread);
    forall o | o in saved' ensures At(kv', LocOfMessage(o)) == At(kv, LocOfMessage(o)) {
    }
    forall loc | loc in kv' && loc.dict in threads ensures exists o :: o in saved' && LocOfMessage(o) == loc {
      var o :| o in saved && LocOfMessage(o) == loc;
      assert o in saved';
    }
  }

  lemma ElsewhereHolds(codec: Codec, threads: set<ThreadDict>, kv: KvMap, kv': KvMap, saved: Messages)
    requires Holds(codec, threads, kv, saved)
    requires forall loc: Loc :: loc.dict in threads ==> At(kv', loc) == At(kv, loc)
    ensures Holds(codec, threads, kv', saved)
  {
  }

  // ---- whole runs over the batch layer ----

  datatype ThreadOp =
    | Save(thread: ThreadDict, content: Content)
    | Remove(thread: ThreadDict, timestamp: U64)
    | ClearThread(thread: ThreadDict)
    | Other(op: KvOp)       // a batch opened or ended, or a write elsewhere

  function AsKv(codec: Codec, op: ThreadOp): KvOp {
    match op
    case Save(thread, content) => PutOp(LocOfMessage(MsgKey(thread, content.timestamp)), codec.encode(content))
    case Remove(thread, timestamp) => DeleteOp(LocOfMessage(MsgKey(thread, timestamp)))
    case ClearThread(thread) => DeleteDictOp(thread)
    case Other(op) => op
  }

  predicate Allowed(threads: set<ThreadDict>, op: ThreadOp) {
    match op
    case Save(thread, _) => thread in threads
    case Remove(thread, _) => thread in threads
    case ClearThread(thread) => thread in threads
    case Other(PutOp(loc, _)) => loc.dict !in threads
    case Other(DeleteOp(loc)) => loc.dict !in threads
    case Other(DeleteDictOp(dict)) => dict !in threads
    case Other(_) => true
  }

  /** The conversations themselves: a map, and the map to fall back to while a
      batch is open. Clearing a thread is not undone by an abort. */
  datatype Threads = Threads(saved: Messages, fallback: Option<Messages>)

  ghost function ThreadStep(t: Threads, op: ThreadOp): Threads {
    match op
    case Save(thread, content) => t.(saved := t.saved[MsgKey(thread, content.timestamp) := content])
    case Remove(thread, timestamp) => t.(saved := t.saved - {MsgKey(thread, timestamp)})
    case ClearThread(thread) =>
      Threads(WithoutThread(t.saved, thread),
              if t.fallback.Some? then Some(WithoutThread(t.fallback.value, thread)) else None)
    case Other(Begin) => if t.fallback.Some? then t else t.(fallback := Some(t.saved))
    case Other(Commit) => t.(fallback := None)
    case Other(Abort) => Threads(if t.fallback.Some? then t.fallback.value else t.saved, None)
    case Other(_) => t
  }

  ghost function ThreadRun(t: Threads, ops: seq<ThreadOp>): Threads {
    if ops == [] then t else ThreadStep(ThreadRun(t, ops[..|ops| - 1]), ops[|ops| - 1])
  }

  function KvOps(codec: Codec, ops: seq<ThreadOp>): (r: seq<KvOp>)
    ensures |r| == |ops| && forall i :: 0 <= i < |r| ==> r[i] == AsKv(codec, ops[i])
  {
    seq(|ops|, i requires 0 <= i < |ops| => AsKv(codec, ops[i]))
  }

  ghost predicate Mirrors(codec: Codec, threads: set<ThreadDict>, p: PlainStore, t: Threads) {
    Holds(codec, threads, p.current, t.saved)
    && (p.fallback.Some? <==> t.fallback.Some?)
    && (p.fallback.Some? ==> Holds(codec, threads, p.fallback.value, t.fallback.value))
  }

  lemma StepMirrors(codec: Codec, threads: set<ThreadDict>, p: PlainStore, t: Threads, op: ThreadOp)
    requires codec.RoundTrips() && Mirrors(codec, threads, p, t) && Allowed(threads, op)
    ensures Mirrors(codec, threads, PlainStep(p, AsKv(codec, op)), ThreadStep(t, op))
  {
    match op
    case Save(thread, content) => SaveMirrors(codec, threads, p, t, thread, content);
    case Remove(thread, timestamp) => RemoveMirrors(codec, threads, p, t, MsgKey(thread, timestamp));
    case ClearThread(thread) => ClearMirrors(codec, threads, p, t, thread);
    case Other(kvOp) => OtherMirrors(codec, threads, p, t, kvOp);
  }

  lemma SaveMirrors(codec: Codec, threads: set<ThreadDict>, p: PlainStore, t: Threads, thread: ThreadDict,
          content: Content)
    requires codec.RoundTrips() && Mirrors(codec, threads, p, t) && thread in threads
    ensures var k := MsgKey(thread, content.timestamp);
            Mirrors(codec, threads, PlainStep(p, PutOp(LocOfMessage(k), codec.encode(content))),
                    t.(saved := t.saved[k := content]))
  {
    SavedHolds(codec, threads, p.current, t.saved, thread, content);
  }

  lemma RemoveMirrors(codec: Codec, threads: set<ThreadDict>, p: PlainStore, t: Threads, k: MsgKey)
    requires Mirrors(codec, threads, p, t)
    ensures Mirrors(codec, threads, PlainStep(p, DeleteOp(LocOfMessage(k))), t.(saved := t.saved - {k}))
  {
    RemovedHolds(codec, threads, p.current, t.saved, k);
  }

  lemma ClearMirrors(codec: Codec, threads: set<ThreadDict>, p: PlainStore, t: Threads, thread: ThreadDict)
    requires Mirrors(codec, threads, p, t)
    ensures Mirrors(codec, threads, PlainStep(p, DeleteDictOp(thread)), ThreadStep(t, ClearThread(thread)))
  {
    ClearedHolds(codec, threads, p.current, t.saved, thread);
    if p.fallback.Some? { ClearedHolds(codec, threads, p.fallback.value, t.fallback.value, thread); }
  }

  lemma OtherMirrors(codec: Codec, threads: set<ThreadDict>, p: PlainStore, t: Threads, op: KvOp)
    requires Mirrors(codec, threads, p, t) && Allowed(threads, Other(op))
    ensures Mirrors(codec, threads, PlainStep(p, op), ThreadStep(t, Other(op)))
  {
    if op.PutOp? || op.DeleteOp? || op.DeleteDictOp? {
      var p' := PlainStep(p, op);
      ElsewhereHolds(codec, threads, p.current, p'.current, t.saved);
      if p.fallback.Some? { ElsewhereHolds(codec, threads, p.fallback.value, p'.fallback.value, t.fallback.value); }
    }
  }

  lemma {:induction false} RunMirrors(codec: Codec, threads: set<ThreadDict>, p: PlainStore, t: Threads,
          ops: seq<ThreadOp>)
    requires codec.RoundTrips() && Mirrors(codec, threads, p, t)
    requires forall i :: 0 <= i < |ops| ==> Allowed(threads, ops[i])
    ensures Mirrors(codec, threads, PlainRun(p, KvOps(codec, ops)), ThreadRun(t, ops))
  {
    if ops != [] {
      var n := |ops| - 1;
      RunMirrors(codec, threads, p, t, ops[..n]);
      assert KvOps(codec, ops)[..n] == KvOps(codec, ops[..n]);
      StepMirrors(codec, threads, PlainRun(p, KvOps(codec, ops[..n])), ThreadRun(t, ops[..n]), ops[n]);
    }
  }

  /** After any run of saves, deletions, cleared threads, batches and writes
      elsewhere, what readers see through the batch layer is exactly the messages
      the run leaves. */
  lemma RunHolds(codec: Codec, threads: set<ThreadDict>, b: BufState, ops: seq<ThreadOp>)
    requires codec.RoundTrips() && b.Valid() && !b.batching && Holds(codec, threads, b.kv, imap[])
    requires forall i :: 0 <= i < |ops| ==> Allowed(threads, ops[i])
    ensures Holds(codec, threads, Run(b, KvOps(codec, ops)).View(), ThreadRun(Threads(imap[], None), ops).saved)
  {
    OverlayNothing(b.kv);
    RunRefines(b, PlainStore(b.kv, None), KvOps(codec, ops));
    RunMirrors(codec, threads, PlainStore(b.kv, None), Threads(imap[], None), ops);
  }

  // ---- runs in which writes are refused ----

  function Reads(codec: Codec, kv: KvMap, k: MsgKey): Option<Content> {
    if LocOfMessage(k) in kv then codec.decode(kv[LocOfMessage(k)]) else None
  }

  /** Whatever saves, commits or deletions are refused in a run, a message reads as
      the latest standing operation on it left it: saved, removed, or cleared with
      its thread. Only its own refused write can put it in doubt. */
  lemma ReadsLatestMessage(codec: Codec, states: seq<BufState>, ops: seq<LayerOp>, k: MsgKey, i: nat, j: nat)
    requires codec.RoundTrips() && IsLayerRun(states, ops) && i < j <= |ops|
    requires LatestWrite(states, ops, LocOfMessage(k), i, j) && !WriteRefused(states[i], ops[i], LocOfMessage(k))
    ensures forall c: Content :: c.timestamp == k.timestamp && ops[i] == Did(AsKv(codec, Save(k.thread, c)))
                                 ==> Reads(codec, states[j].View(), k) == Some(c)
    ensures ops[i] == Did(AsKv(codec, Remove(k.thread, k.timestamp)))
            || ops[i] == Did(AsKv(codec, ClearThread(k.thread)))
            ==> Reads(codec, states[j].View(), k) == None
  {
    ReadsLatest(states, ops, LocOfMessage(k), j);
  }

  // ---- reading a range ----

  datatype Bound = Included(value: U64) | Excluded(value: U64) | Unbounded

  datatype Range = Range(start: Bound, end: Bound)

  predicate RangeContains(range: Range, ts: U64) {
    (match range.start
     case Included(s) => ts >= s
     case Excluded(s) => ts > s
     case Unbounded => true)
    && (match range.end
        case Included(e) => ts <= e
        case Excluded(e) => ts < e
        case Unbounded => true)
  }

  /** The saved timestamps in range, ascending, each once. */
  ghost predicate ListsRange(saved: Messages, thread: ThreadDict, range: Range, order: seq<int>) {
    StrictlyAscending(order)
    && forall ts: int :: ts in order <==> 0 <= ts < U64_LIMIT && RangeContains(range, ts) && MsgKey(thread, ts) in saved
  }

  /** A range cut at a timestamp within it lists as its two halves, one after the
      other. */
  lemma RangesSplit(saved: Messages, thread: ThreadDict, start: Bound, end: Bound, m: U64, a: seq<int>, b: seq<int>)
    requires (start.Included? ==> start.value <= m) && (start.Excluded? ==> start.value < m)
    requires (end.Included? ==> m <= end.value) && (end.Excluded? ==> m < end.value)
    requires ListsRange(saved, thread, Range(start, Excluded(m)), a)
    requires ListsRange(saved, thread, Range(Included(m), end), b)
    ensures ListsRange(saved, thread, Range(start, end), a + b)
  {
    forall i, j | 0 <= i < j < |a + b| ensures (a + b)[i] < (a + b)[j] {
      if i < |a| { assert a[i] in a && a[i] < m; }
      if j >= |a| { assert b[j - |a|] in b && m <= b[j - |a|]; }
    }
    forall ts: int ensures ts in a + b <==> ts in a || ts in b { }
  }

  /** A range of one timestamp lists its message if it is saved. */
  lemma RangeOfOne(saved: Messages, thread: ThreadDict, t: U64, order: seq<int>)
    requires ListsRange(saved, thread, Range(Included(t), Included(t)), order)
    ensures order == if MsgKey(thread, t) in saved then [t] else []
  {
    forall i | 0 <= i < |order| ensures order[i] == t { assert order[i] in order; }
    assert order != [] ==> order[0] == order[|order| - 1];
    assert MsgKey(thread, t) in saved <==> t in order;
    assert t in order <==> |order| == 1;
  }

  datatype ReadError = BackendError(kind: ErrorKind) | Undecodable | Disappeared

  type Item = Result<Content, ReadError>

  /** Names that parse to a timestamp in range, in the order listed; others are
      passed over. */
  function Kept(keys: seq<Name>, range: Range): seq<int> {
    if keys == [] then []
    else
      var ts := ParseHex(keys[|keys| - 1]);
      Kept(keys[..|keys| - 1], range) + if ts.Some? && RangeContains(range, ts.value) then [ts.value] else []
  }

  ghost predicate AllDistinct(s: seq<int>) {
    forall i, j :: 0 <= i < j < |s| ==> s[i] != s[j]
  }

  ghost predicate AllCanonical(keys: seq<Name>) {
    forall k :: k in keys ==> Canonical(k)
  }

  ghost predicate Canonical(key: Name) {
    exists ts: U64 :: key == MessageKey(ts)
  }

  lemma CanonicalParses(key: Name)
    requires Canonical(key)
    ensures ParseHex(key).Some? && key == MessageKey(ParseHex(key).value)
  {
    var ts: U64 :| key == MessageKey(ts);
    MessageKeyRoundTrip(ts);
  }

  lemma {:induction false} KeptMembers(keys: seq<Name>, range: Range, ts: int)
    requires AllCanonical(keys)
    ensures ts in Kept(keys, range) <==> 0 <= ts < U64_LIMIT && RangeContains(range, ts) && MessageKey(ts) in keys
  {
    if keys != [] {
      var n := |keys| - 1;
      assert keys == keys[..n] + [keys[n]];
      KeptMembers(keys[..n], range, ts);
      CanonicalParses(keys[n]);
      if 0 <= ts < U64_LIMIT { MessageKeyRoundTrip(ts); }
    }
  }

  lemma {:induction false} KeptDistinct(keys: seq<Name>, range: Range)
    requires AllCanonical(keys) && NoDuplicates(keys)
    ensures AllDistinct(Kept(keys, range))
  {
    if keys != [] {
      var n := |keys| - 1;
      assert keys == keys[..n] + [keys[n]];
      KeptDistinct(keys[..n], range);
      CanonicalParses(keys[n]);
      KeptMembers(keys[..n], range, ParseHex(keys[n]).value);
    }
  }

  method FilterKeys(keys: seq<Name>, range: Range) returns (found: seq<int>)
    ensures found == Kept(keys, range)
  {
    found := [];
    assert keys[..|keys|] == keys;
    for n := 0 to |keys|
      invariant found == Kept(keys[..n], range)
    {
      assert keys[..n + 1][..n] == keys[..n];
      var ts := ParseHex(keys[n]);
      if ts.Some? && RangeContains(range, ts.value) { found := found + [ts.value]; }
    }
  }

  /** Sorting what a listing keeps gives the saved messages in range. */
  lemma ListingSorted(codec: Codec, threads: set<ThreadDict>, kv: KvMap, saved: Messages, thread: ThreadDict,
          keys: seq<Name>, range: Range)
    requires Enumerates(keys, kv, thread) && Holds(codec, threads, kv, saved) && thread in threads
    ensures ListsRange(saved, thread, range, Sort(Kept(keys, range)))
  {
    var found := Kept(keys, range);
    forall key | key in keys ensures Canonical(key) {
      KeyIsMessage(codec, threads, kv, saved, thread, key);
    }
    KeptDistinct(keys, range);
    SortMembers(found);
    SortDistinct(found);
    forall ts: int
      ensures ts in Sort(found) <==> 0 <= ts < U64_LIMIT && RangeContains(range, ts) && MsgKey(thread, ts) in saved
    {
      KeptMembers(keys, range, ts);
      if 0 <= ts < U64_LIMIT { SavedIsKey(codec, threads, kv, saved, MsgKey(thread, ts)); }
    }
  }

  lemma KeyIsMessage(codec: Codec, threads: set<ThreadDict>, kv: KvMap, saved: Messages, thread: ThreadDict, key: Name)
    requires Holds(codec, threads, kv, saved) && thread in threads && Loc(thread, key) in kv
    ensures Canonical(key)
  {
    var k :| k in saved && LocOfMessage(k) == Loc(thread, key);
    assert key == MessageKey(k.timestamp);
  }

  lemma SavedIsKey(codec: Codec, threads: set<ThreadDict>, kv: KvMap, saved: Messages, k: MsgKey)
    requires Holds(codec, threads, kv, saved) && k.thread in threads
    ensures LocOfMessage(k) in kv <==> k in saved
  {
    if LocOfMessage(k) in kv {
      var o :| o in saved && LocOfMessage(o) == LocOfMessage(k);
      LocInjective(o, k);
    }
  }

  /** The saved message itself, unless the backend failed. */
  ghost predicate ItemFor(saved: Messages, thread: ThreadDict, ts: int, item: Item)
    requires 0 <= ts < U64_LIMIT && MsgKey(thread, ts) in saved
  {
    if item.Ok? then item.value == saved[MsgKey(thread, ts)] else item.error.BackendError?
  }

  class ThreadStore {
    const backend: BufferingBackend
    const codec: Codec
    ghost const threads: set<ThreadDict>

    constructor (backend: BufferingBackend, codec: Codec, ghost threads: set<ThreadDict>)
      ensures this.backend == backend && this.codec == codec && this.threads == threads
    {
      this.backend, this.codec, this.threads := backend, codec, threads;
    }

    ghost predicate Valid()
      reads backend, backend.inner.server
    {
      backend.Valid()
    }

    /** The conversations hold exactly these messages. */
    ghost predicate Keeps(saved: Messages)
      reads backend, backend.inner.server
    {
      Holds(codec, threads, backend.State().View(), saved)
    }

    method SaveMessage(thread: ThreadDict, content: Content) returns (r: Done)
      requires Valid()
      modifies backend, backend.inner.server
      ensures Valid()
      ensures r.Ok? ==> backend.State() == Step(old(backend.State()), AsKv(codec, Save(thread, content)))
      ensures var loc := LocOfMessage(MsgKey(thread, content.timestamp));
              r.Err? ==> LayerNext(old(backend.State()), PutRefused(loc, codec.encode(content)), backend.State())
      ensures backend.batching || backend.inner.server.reliable ==> r.Ok?
    {
      r := backend.Put(Loc(thread, MessageKey(content.timestamp)), codec.encode(content));
    }

    /** Says whether the message was there. */
    method DeleteMessage(thread: ThreadDict, timestamp: U64, ghost saved: Messages) returns (r: Result<bool, ErrorKind>)
      requires Valid() && Keeps(saved) && thread in threads
      modifies backend, backend.inner.server
      ensures Valid()
      ensures r.Ok? ==> r.value == (MsgKey(thread, timestamp) in saved)
      ensures r.Ok? ==> backend.State() == Step(old(backend.State()), AsKv(codec, Remove(thread, timestamp)))
      ensures r.Err? ==> backend.State() == old(backend.State())
      ensures backend.inner.server.reliable ==> r.Ok?
    {
      var loc := Loc(thread, MessageKey(timestamp));
      SavedIsKey(codec, threads, backend.State().View(), saved, MsgKey(thread, timestamp));
      var got := backend.Get(loc);
      if got.Err? { return Err(got.error); }
      var deleted := backend.Delete(loc);
      return if deleted.Ok? then Ok(got.value.Some?) else Err(deleted.error);
    }

    /** A deletion that fails has still forgotten what an open batch had buffered
        for the thread. */
    method ClearThreadDict(thread: ThreadDict) returns (r: Done)
      requires Valid()
      modifies backend, backend.inner.server
      ensures Valid()
      ensures r.Ok? ==> backend.State() == Step(old(backend.State()), AsKv(codec, ClearThread(thread)))
      ensures r.Err? ==> LayerNext(old(backend.State()), DictRefused(thread), backend.State())
      ensures backend.inner.server.reliable ==> r.Ok?
    {
      r := backend.DeleteDict(thread);
    }

    /** Reads one message that a listing has named. */
    method ReadListed(thread: ThreadDict, timestamp: U64, ghost saved: Messages) returns (item: Item)
      requires Valid() && Keeps(saved) && MsgKey(thread, timestamp) in saved
      modifies backend.inner.server
      ensures Valid() && backend.State() == old(backend.State())
      ensures item.Ok? ==> item.value == saved[MsgKey(thread, timestamp)]
      ensures item.Err? ==> item.error.BackendError? && !backend.inner.server.reliable
    {
      ghost var k := MsgKey(thread, timestamp);
      assert At(backend.State().View(), LocOfMessage(k)).Some?;
      var got := backend.Get(Loc(thread, MessageKey(timestamp)));
      match got {
        case Err(kind) => return Err(BackendError(kind));
        case Ok(None) => return Err(Disappeared);
        case Ok(Some(bytes)) =>
          var content := codec.decode(bytes);
          return if content.Some? then Ok(content.value) else Err(Undecodable);
      }
    }

    method ReadAll(thread: ThreadDict, order: seq<int>, ghost saved: Messages) returns (items: seq<Item>)
      requires Valid() && Keeps(saved)
      requires forall ts :: ts in order ==> 0 <= ts < U64_LIMIT && MsgKey(thread, ts) in saved
      modifies backend.inner.server
      ensures Valid() && backend.State() == old(backend.State()) && |items| == |order|
      ensures forall i :: 0 <= i < |order| ==> order[i] in order && ItemFor(saved, thread, order[i], items[i])
      ensures backend.inner.server.reliable ==> forall i :: 0 <= i < |order| ==> items[i].Ok?
    {
      items := [];
      for n := 0 to |order|
        invariant Valid() && backend.State() == old(backend.State()) && |items| == n
        invariant forall i :: 0 <= i < n ==> order[i] in order && ItemFor(saved, thread, order[i], items[i])
        invariant backend.inner.server.reliable ==> forall i :: 0 <= i < n ==> items[i].Ok?
      {
        assert order[n] in order;
        var item := ReadListed(thread, order[n], saved);
        items := items + [item];
      }
    }

    /** The messages of a thread in a range of timestamps: one item per saved
        timestamp in range, ascending; only the backend can make an item fail. */
    method ListMessages(thread: ThreadDict, range: Range, ghost saved: Messages)
      returns (r: Result<seq<Item>, ErrorKind>, ghost order: seq<int>)
      requires Valid() && Keeps(saved) && thread in threads
      modifies backend.inner.server
      ensures Valid() && backend.State() == old(backend.State())
      ensures r.Ok? ==> ListsRange(saved, thread, range, order) && |r.value| == |order|
      ensures r.Ok? ==> forall ts: U64 :: ts in order <==>
                          MsgKey(thread, ts) in saved
                          && (range.start.Included? ==> range.start.value <= ts)
                          && (range.start.Excluded? ==> range.start.value < ts)
                          && (range.end.Included? ==> ts <= range.end.value)
                          && (range.end.Excluded? ==> ts < range.end.value)
      ensures r.Ok? ==> forall i :: 0 <= i < |order|
                          ==> order[i] in order && ItemFor(saved, thread, order[i], r.value[i])
      ensures backend.inner.server.reliable ==> r.Ok? && forall i :: 0 <= i < |order| ==> r.value[i].Ok?
    {
      order := [];
      var keys := backend.ListKeys(thread);
      if keys.Err? { return Err(keys.error), order; }
      var found := FilterKeys(keys.value, range);
      var filtered := Sort(found);
      order := filtered;
      ListingSorted(codec, threads, backend.State().View(), saved, thread, keys.value, range);
      var items := ReadAll(thread, filtered, saved);
      return Ok(items), order;
    }
  }
}
