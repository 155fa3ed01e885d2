/** The session cache over the batch layer as one state, what each operation
    does to it, and what holds over whole runs. */
module SessionModel {
  import opened ByteStrings
  import opened PddbServer
  import opened Buffering
  import opened SessionBundle

  datatype IdentityType = Aci | Pni

  datatype SessionKey = SessionKey(identity: IdentityType, name: Name, device: DeviceId)

  /** The plain map all of this stands for. */
  type SessionMap = imap<SessionKey, Record>

  function AsStr(identity: IdentityType): string {
    match identity
    case Aci => "aci"
    case Pni => "pni"
  }

  /** Every protocol dictionary is named after its identity and its content. */
  function ProtocolDict(identity: IdentityType, content: string): (dict: Name)
    ensures |dict| == 20 + |content|
  {
    Ascii("signal.protocol." + AsStr(identity) + "." + content)
  }

  function DictSession(identity: IdentityType): Name {
    ProtocolDict(identity, "session")
  }

  function SessionLoc(identity: IdentityType, name: Name): Loc {
    Loc(DictSession(identity), name)
  }

  predicate IsSessionDict(dict: Name) {
    dict == DictSession(Aci) || dict == DictSession(Pni)
  }

  lemma SessionDictsDiffer()
    ensures DictSession(Aci) != DictSession(Pni)
  {
    var prefix := "signal.protocol.";
    assert (prefix + AsStr(Aci) + "." + "session")[16] == AsStr(Aci)[0] == 'a';
    assert (prefix + AsStr(Pni) + "." + "session")[16] == AsStr(Pni)[0] == 'p';
    assert DictSession(Aci)[16] != DictSession(Pni)[16];
  }

  /** Where the documented schema puts an address's bundle. */
  lemma SessionPlaces(name: Name)
    ensures SessionLoc(Aci, name) == Loc(Ascii("signal.protocol.aci.session"), name)
    ensures SessionLoc(Pni, name) == Loc(Ascii("signal.protocol.pni.session"), name)
  {
    assert "signal.protocol." + "aci" + "." + "session" == "signal.protocol.aci.session";
    assert "signal.protocol." + "pni" + "." + "session" == "signal.protocol.pni.session";
  }

  // ---- reading sessions off a key-value map ----

  /** The bundle of one address: empty when absent, `None` when unreadable. */
  function BundleOf(legacy: LegacyDecoder, kv: KvMap, identity: IdentityType, name: Name): Option<Bundle> {
    var loc := SessionLoc(identity, name);
    if loc in kv then Deserialize(kv[loc], legacy) else Some(map[])
  }

  function Stored(legacy: LegacyDecoder, kv: KvMap, k: SessionKey): Option<Record> {
    match BundleOf(legacy, kv, k.identity, k.name)
    case None => None
    case Some(bundle) => if k.device in bundle then Some(bundle[k.device]) else None
  }

  /** The address holds a value from before the version byte, which the old decoder
      reads as this bundle. */
  predicate HoldsLegacy(legacy: LegacyDecoder, kv: KvMap, identity: IdentityType, name: Name, bundle: Bundle) {
    var loc := SessionLoc(identity, name);
    loc in kv && (kv[loc] == [] || kv[loc][0] != 0x01) && legacy(kv[loc]) == Some(bundle)
  }

  ghost predicate Readable(legacy: LegacyDecoder, kv: KvMap) {
    forall identity, name :: BundleOf(legacy, kv, identity, name).Some?
  }

  // ---- the state ----

  datatype Snap = Snap(legacy: LegacyDecoder, backend: BufState, cache: map<SessionKey, Record>,
                       dirty: set<SessionKey>) {
    function View(): KvMap {
      backend.View()
    }

    /** What `load_session` answers. */
    function Session(k: SessionKey): Option<Record> {
      if k in cache then Some(cache[k]) else Stored(legacy, View(), k)
    }

    ghost function Sessions(): SessionMap {
      imap k: SessionKey | Session(k).Some? :: Session(k).value
    }

    /** Unsaved entries are cached, and every clean cached entry is what the
        backend, buffer included, decodes for it. */
    ghost predicate Coherent() {
      dirty <= cache.Keys
      && forall k :: k in cache && k !in dirty ==> Stored(legacy, View(), k) == Some(cache[k])
    }

    /** Every session the open batch still shows is also below it, so an abort
        takes no cached session with it. */
    ghost predicate AbortSafe() {
      forall k :: Stored(legacy, View(), k).Some? ==> Stored(legacy, backend.kv, k) == Stored(legacy, View(), k)
    }

    ghost predicate Inv(flushed: bool) {
      && backend.Valid()
      && Coherent()
      && Readable(legacy, View()) && Readable(legacy, backend.kv)
      && (flushed || AbortSafe())
    }
  }

  // ---- what each operation does when the backend does not fail ----

  /** How an operation may write below: into the buffer while a batch is open,
      straight through otherwise. */
  ghost predicate BackendWrites(s: Snap, s': Snap) {
    && s'.legacy == s.legacy
    && s'.backend.Valid()
    && s'.backend.batching == s.backend.batching
    && (s.backend.batching ==> s'.backend.kv == s.backend.kv)
    && (forall i, n :: BundleOf(s.legacy, s.View(), i, n).Some? ==> BundleOf(s.legacy, s'.View(), i, n).Some?)
  }

  ghost predicate OthersKept(s: Snap, s': Snap) {
    forall loc: Loc :: !IsSessionDict(loc.dict) ==> At(s'.View(), loc) == At(s.View(), loc)
  }

  ghost predicate NoNewKeys(s: Snap, s': Snap) {
    forall loc :: loc in s'.View() ==> loc in s.View()
  }

  /** Keys appear only at the addresses of the given sessions. */
  ghost predicate NewKeysOnlyFor(s: Snap, keys: set<SessionKey>, s': Snap) {
    forall loc :: loc in s'.View() ==> loc in s.View() || exists k :: k in keys && loc == SessionLoc(k.identity, k.name)
  }

  /** Cache hits change nothing; a miss caches the whole bundle behind what is
      cached already. */
  ghost predicate Loads(s: Snap, k: SessionKey, r: Option<Record>, s': Snap) {
    && r == s.Session(k)
    && s' == s.(cache := s'.cache)
    && (k in s.cache ==> s' == s)
    && (forall o :: o in s'.cache <==>
          o in s.cache
          || (k !in s.cache && o.identity == k.identity && o.name == k.name && Stored(s.legacy, s.View(), o).Some?))
    && (forall o :: o in s'.cache ==> Some(s'.cache[o]) == s.Session(o))
  }

  ghost predicate Stores(s: Snap, k: SessionKey, record: Record, s': Snap) {
    s' == s.(cache := s.cache[k := record], dirty := s.dirty + {k})
  }

  /** Afterwards the backend shows every dirty session, and nothing else moved. */
  ghost predicate Flushes(s: Snap, n: nat, s': Snap) {
    && n == |s.dirty * s.cache.Keys|
    && BackendWrites(s, s') && OthersKept(s, s') && NewKeysOnlyFor(s, s.dirty * s.cache.Keys, s')
    && s'.cache == s.cache && s'.dirty == {}
    && (forall k :: Stored(s.legacy, s'.View(), k)
          == if k in s.dirty && k in s.cache then Some(s.cache[k]) else Stored(s.legacy, s.View(), k))
  }

  ghost predicate Deletes(s: Snap, k: SessionKey, s': Snap) {
    && BackendWrites(s, s') && OthersKept(s, s') && NoNewKeys(s, s')
    && s'.cache == s.cache - {k} && s'.dirty == s.dirty - {k}
    && (forall o :: Stored(s.legacy, s'.View(), o) == if o == k then None else Stored(s.legacy, s.View(), o))
  }

  predicate Of(k: SessionKey, identity: IdentityType, name: Name) {
    k.identity == identity && k.name == name
  }

  ghost predicate DeletesAll(s: Snap, identity: IdentityType, name: Name, n: nat, s': Snap) {
    && BackendWrites(s, s') && OthersKept(s, s') && NoNewKeys(s, s')
    && (forall o :: o in s'.cache <==> o in s.cache && !Of(o, identity, name))
    && (forall o :: o in s'.cache ==> s'.cache[o] == s.cache[o])
    && (forall o :: o in s'.dirty <==> o in s.dirty && (o !in s.cache || !Of(o, identity, name)))
    && (forall o :: Stored(s.legacy, s'.View(), o)
          == if Of(o, identity, name) then None else Stored(s.legacy, s.View(), o))
    && (exists devices: set<DeviceId> :: n == |devices|
          && forall d :: d in devices <==> s.Session(SessionKey(identity, name, d)).Some?)
  }

  /** A wipe leaves no session below, in the buffer or in the cache. */
  ghost predicate Wipes(s: Snap, s': Snap) {
    && s'.legacy == s.legacy && s'.backend.Valid() && s'.backend.batching == s.backend.batching
    && s'.cache == map[] && s'.dirty == {}
    && (forall loc: Loc :: IsSessionDict(loc.dict) ==> loc !in s'.View() && loc !in s'.backend.kv)
  }

  /** Writes elsewhere: anything one step of the batch layer does outside the
      session dictionaries. */
  ghost predicate WritesElsewhere(s: Snap, op: KvOp, s': Snap) {
    && s' == s.(backend := Step(s.backend, op))
    && match op
       case PutOp(loc, _) => !IsSessionDict(loc.dict)
       case DeleteOp(loc) => !IsSessionDict(loc.dict)
       case DeleteDictOp(dict) => !IsSessionDict(dict)
       case _ => false
  }

  // ---- runs ----

  datatype SessionOp =
    | Load(k: SessionKey, found: Option<Record>)
    | Store(k: SessionKey, record: Record)
    | Flush(n: nat)
    | Delete(k: SessionKey)
    | DeleteAll(identity: IdentityType, name: Name, count: nat)
    | Wipe
    | Elsewhere(op: KvOp)
    | OpenBatch
    | CommitBatch
    | AbortBatch

  /** A state and whether the open batch has seen a flush. */
  datatype Tracked = Tracked(s: Snap, flushed: bool)

  /** One step; a batch that saw a flush is not aborted. */
  ghost predicate Next(t: Tracked, op: SessionOp, t': Tracked) {
    match op
    case Load(k, found) => Loads(t.s, k, found, t'.s) && t'.flushed == t.flushed
    case Store(k, record) => Stores(t.s, k, record, t'.s) && t'.flushed == t.flushed
    case Flush(n) => Flushes(t.s, n, t'.s) && t'.flushed == (t.flushed || t.s.backend.batching)
    case Delete(k) => Deletes(t.s, k, t'.s) && t'.flushed == t.flushed
    case DeleteAll(identity, name, n) => DeletesAll(t.s, identity, name, n, t'.s) && t'.flushed == t.flushed
    case Wipe => Wipes(t.s, t'.s) && t'.flushed == t.flushed
    case Elsewhere(kvOp) => WritesElsewhere(t.s, kvOp, t'.s) && t'.flushed == t.flushed
    case OpenBatch => !t.s.backend.batching && t'.s == t.s.(backend := Step(t.s.backend, Begin)) && !t'.flushed
    case CommitBatch => t'.s == t.s.(backend := Step(t.s.backend, Commit)) && !t'.flushed
    case AbortBatch => !t.flushed && t'.s == t.s.(backend := Step(t.s.backend, Abort)) && !t'.flushed
  }

  ghost predicate IsRun(states: seq<Tracked>, ops: seq<SessionOp>) {
    |states| == |ops| + 1 && forall i :: 0 <= i < |ops| ==> Next(states[i], ops[i], states[i + 1])
  }

  /** What the plain map does. */
  ghost function MapStep(m: SessionMap, op: SessionOp): SessionMap {
    match op
    case Store(k, record) => m[k := record]
    case Delete(k) => imap o | o in m && o != k :: m[o]
    case DeleteAll(identity, name, _) => imap o | o in m && !Of(o, identity, name) :: m[o]
    case Wipe => imap[]
    case _ => m
  }

  // ---- values from before the version byte ----

  /** An old value is read for as long as it stands: each device's session is what
      the old decoder finds. */
  lemma LegacyReads(legacy: LegacyDecoder, kv: KvMap, identity: IdentityType, name: Name, bundle: Bundle)
    requires HoldsLegacy(legacy, kv, identity, name, bundle)
    ensures BundleOf(legacy, kv, identity, name) == Some(bundle)
    ensures forall d: DeviceId :: Stored(legacy, kv, SessionKey(identity, name, d)) ==
                                  if d in bundle then Some(bundle[d]) else None
  {
  }

  /** Every old value is afterwards read with the dirty devices put in. */
  ghost predicate LegacyMerged(s: Snap, s': Snap) {
    forall k: SessionKey, bundle :: HoldsLegacy(s.legacy, s.View(), k.identity, k.name, bundle) ==>
      Stored(s.legacy, s'.View(), k) ==
      if k in s.dirty && k in s.cache then Some(s.cache[k])
      else if k.device in bundle then Some(bundle[k.device]) else None
  }

  // ---- two maps that agree on the session dictionaries read alike ----

  lemma StoredAlike(legacy: LegacyDecoder, a: KvMap, b: KvMap, k: SessionKey)
    requires At(a, SessionLoc(k.identity, k.name)) == At(b, SessionLoc(k.identity, k.name))
    ensures BundleOf(legacy, a, k.identity, k.name) == BundleOf(legacy, b, k.identity, k.name)
    ensures Stored(legacy, a, k) == Stored(legacy, b, k)
  {
  }

  lemma AllStoredAlike(legacy: LegacyDecoder, a: KvMap, b: KvMap)
    requires forall loc: Loc :: IsSessionDict(loc.dict) ==> At(a, loc) == At(b, loc)
    ensures forall k :: Stored(legacy, a, k) == Stored(legacy, b, k)
    ensures Readable(legacy, a) <==> Readable(legacy, b)
  {
    forall identity, name ensures BundleOf(legacy, a, identity, name) == BundleOf(legacy, b, identity, name) {
      assert IsSessionDict(SessionLoc(identity, name).dict);
      StoredAlike(legacy, a, b, SessionKey(identity, name, 0));
    }
  }

  lemma ElsewhereKeepsSessions(s: Snap, op: KvOp, s': Snap)
    requires WritesElsewhere(s, op, s')
    ensures forall loc: Loc :: IsSessionDict(loc.dict) ==> At(s'.View(), loc) == At(s.View(), loc)
    ensures forall loc: Loc :: IsSessionDict(loc.dict) ==> At(s'.backend.kv, loc) == At(s.backend.kv, loc)
  {
    forall loc: Loc | IsSessionDict(loc.dict)
      ensures At(s'.View(), loc) == At(s.View(), loc) && At(s'.backend.kv, loc) == At(s.backend.kv, loc)
    {
      ElsewhereKeepsLoc(s, op, s', loc);
    }
  }

  lemma ElsewhereKeepsLoc(s: Snap, op: KvOp, s': Snap, loc': Loc)
    requires WritesElsewhere(s, op, s') && IsSessionDict(loc'.dict)
    ensures At(s'.View(), loc') == At(s.View(), loc') && At(s'.backend.kv, loc') == At(s.backend.kv, loc')
  {
    match op
    case PutOp(loc, value) => OverlayPut(s.backend.kv, s.backend.buffer, loc, value);
    case DeleteOp(loc) => OverlayDelete(s.backend.kv, s.backend.buffer, loc);
    case DeleteDictOp(dict) => OverlayDeleteDict(s.backend.kv, s.backend.buffer, dict);
  }

  // ---- one step keeps the invariant ----

  lemma ElsewhereKeepsInv(s: Snap, op: KvOp, s': Snap, flushed: bool)
    requires s.Inv(flushed) && WritesElsewhere(s, op, s')
    ensures s'.Inv(flushed)
    ensures forall k :: s'.Session(k) == s.Session(k)
  {
    ElsewhereKeepsSessions(s, op, s');
    AllStoredAlike(s.legacy, s.View(), s'.View());
    AllStoredAlike(s.legacy, s.backend.kv, s'.backend.kv);
  }

  lemma UnbatchedView(b: BufState)
    requires b.Valid() && !b.batching
    ensures b.View() == b.kv
  {
    OverlayNothing(b.kv);
  }

  /** A write that only takes sessions away keeps an open batch safe to abort. */
  lemma TakingAwayKeepsAbortSafe(s: Snap, s': Snap)
    requires s.backend.Valid() && BackendWrites(s, s') && s.AbortSafe()
    requires forall k :: Stored(s.legacy, s'.View(), k).Some?
               ==> Stored(s.legacy, s'.View(), k) == Stored(s.legacy, s.View(), k)
    ensures s'.AbortSafe()
  {
    if !s.backend.batching { UnbatchedView(s'.backend); }
  }

  lemma WipedInv(s: Snap, s': Snap, flushed: bool)
    requires Wipes(s, s')
    ensures s'.Inv(flushed)
    ensures forall k :: s'.Session(k) == None
  {
    forall identity, name
      ensures BundleOf(s'.legacy, s'.View(), identity, name) == Some(map[])
              && BundleOf(s'.legacy, s'.backend.kv, identity, name) == Some(map[])
    {
      assert IsSessionDict(SessionLoc(identity, name).dict);
    }
  }

  lemma NextKeepsInv(t: Tracked, op: SessionOp, t': Tracked)
    requires t.s.Inv(t.flushed) && Next(t, op, t')
    ensures t'.s.Inv(t'.flushed)
  {
    var s, s' := t.s, t'.s;
    match op
    case Load(_, _) =>
      assert s'.View() == s.View();
    case Store(_, _) =>
      assert s'.View() == s.View();
    case Flush(_) =>
      if !s'.backend.batching { UnbatchedView(s'.backend); }
    case Delete(_) =>
      if !t.flushed { TakingAwayKeepsAbortSafe(s, s'); }
      if !s'.backend.batching { UnbatchedView(s'.backend); }
    case DeleteAll(_, _, _) =>
      if !t.flushed { TakingAwayKeepsAbortSafe(s, s'); }
      if !s'.backend.batching { UnbatchedView(s'.backend); }
    case Wipe => WipedInv(s, s', t'.flushed);
    case Elsewhere(kvOp) => ElsewhereKeepsInv(s, kvOp, s', t.flushed);
    case OpenBatch =>
      UnbatchedView(s.backend);
    case CommitBatch =>
      OverlayNothing(s'.backend.kv);
    case AbortBatch =>
      OverlayNothing(s'.backend.kv);
  }

  /** What every allowed step keeps, every run of allowed steps keeps. */
  lemma {:induction false} RunInduction(states: seq<Tracked>, ops: seq<SessionOp>, i: nat,
                                        good: Tracked -> bool, allowed: SessionOp -> bool)
    requires IsRun(states, ops) && i <= |ops| && good(states[0])
    requires forall j :: 0 <= j < |ops| ==> allowed(ops[j])
    requires forall t, op, t' :: good(t) && allowed(op) && Next(t, op, t') ==> good(t')
    ensures good(states[i])
  {
    if i > 0 {
      RunInduction(states, ops, i - 1, good, allowed);
      assert Next(states[i - 1], ops[i - 1], states[i]);
    }
  }

  /** In every run the cache never lies: at every point unsaved sessions are
      cached and every clean cached session is what the backend decodes. */
  lemma RunKeepsInv(states: seq<Tracked>, ops: seq<SessionOp>, i: nat)
    requires IsRun(states, ops) && i <= |ops|
    requires states[0].s.Inv(states[0].flushed)
    ensures states[i].s.Inv(states[i].flushed)
  {
    forall t: Tracked, op, t' | t.s.Inv(t.flushed) && Next(t, op, t') ensures t'.s.Inv(t'.flushed) {
      NextKeepsInv(t, op, t');
    }
    RunInduction(states, ops, i, (t: Tracked) => t.s.Inv(t.flushed), _ => true);
  }

  // ---- the plain map ----

  /** One session under one step. */
  function SessionAfter(op: SessionOp, k: SessionKey, before: Option<Record>): Option<Record> {
    match op
    case Store(k', record) => if k' == k then Some(record) else before
    case Delete(k') => if k' == k then None else before
    case DeleteAll(identity, name, _) => if Of(k, identity, name) then None else before
    case Wipe => None
    case _ => before
  }

  lemma CacheStepSession(t: Tracked, op: SessionOp, t': Tracked, k: SessionKey)
    requires t.s.backend.Valid() && Next(t, op, t') && (op.Load? || op.Store? || op.OpenBatch? || op.CommitBatch?)
    ensures t'.s.Session(k) == SessionAfter(op, k, t.s.Session(k))
  {
    OverlayNothing(t'.s.backend.kv);
    assert t'.s.View() == t.s.View();
  }

  lemma WriteStepSession(t: Tracked, op: SessionOp, t': Tracked, k: SessionKey)
    requires t.s.Coherent() && Next(t, op, t') && (op.Flush? || op.Delete? || op.DeleteAll?)
    ensures t'.s.Session(k) == SessionAfter(op, k, t.s.Session(k))
  {
    if op.Flush? {
      assert Stored(t.s.legacy, t'.s.View(), k)
          == if k in t.s.dirty && k in t.s.cache then Some(t.s.cache[k]) else Stored(t.s.legacy, t.s.View(), k);
    }
  }

  lemma NextSession(t: Tracked, op: SessionOp, t': Tracked, k: SessionKey)
    requires t.s.Inv(t.flushed) && Next(t, op, t') && !op.AbortBatch?
    ensures t'.s.Session(k) == SessionAfter(op, k, t.s.Session(k))
  {
    match op
    case Wipe => WipedInv(t.s, t'.s, t'.flushed);
    case Elsewhere(kvOp) => ElsewhereKeepsInv(t.s, kvOp, t'.s, t.flushed);
    case Flush(_) => WriteStepSession(t, op, t', k);
    case Delete(_) => WriteStepSession(t, op, t', k);
    case DeleteAll(_, _, _) => WriteStepSession(t, op, t', k);
    case _ => CacheStepSession(t, op, t', k);
  }

  /** Every step but an abort does to the sessions exactly what the plain map
      does: loads, flushes, batch edges and writes elsewhere change nothing. */
  lemma NextRefinesMap(t: Tracked, op: SessionOp, t': Tracked)
    requires t.s.Inv(t.flushed) && Next(t, op, t') && !op.AbortBatch?
    ensures t'.s.Sessions() == MapStep(t.s.Sessions(), op)
  {
    forall k ensures t'.s.Session(k) == SessionAfter(op, k, t.s.Session(k)) {
      NextSession(t, op, t', k);
    }
    MapStepAlike(t.s, op, t'.s);
  }

  ghost function MapAt(m: SessionMap, k: SessionKey): Option<Record> {
    if k in m then Some(m[k]) else None
  }

  lemma SameSessionMaps(m: SessionMap, m': SessionMap)
    requires forall k :: MapAt(m, k) == MapAt(m', k)
    ensures m == m'
  {
    assert forall k :: k in m <==> MapAt(m, k).Some?;
    assert forall k :: k in m' <==> MapAt(m', k).Some?;
  }

  lemma MapStepAt(m: SessionMap, op: SessionOp, k: SessionKey)
    ensures MapAt(MapStep(m, op), k) == SessionAfter(op, k, MapAt(m, k))
  {
  }

  lemma MapStepAlike(s: Snap, op: SessionOp, s': Snap)
    requires forall k :: s'.Session(k) == SessionAfter(op, k, s.Session(k))
    ensures s'.Sessions() == MapStep(s.Sessions(), op)
  {
    var m, m' := MapStep(s.Sessions(), op), s'.Sessions();
    forall k ensures MapAt(m, k) == MapAt(m', k) {
      MapStepAt(s.Sessions(), op, k);
      assert MapAt(s.Sessions(), k) == s.Session(k) && MapAt(m', k) == s'.Session(k);
    }
    SameSessionMaps(m, m');
  }

  /** What an abort does to the sessions: cached ones stay, and of the rest the
      ones below the batch come back. */
  lemma AbortSessions(t: Tracked, t': Tracked, k: SessionKey)
    requires t.s.Inv(t.flushed) && Next(t, AbortBatch, t')
    ensures t'.s.Session(k) == if k in t.s.cache then Some(t.s.cache[k]) else Stored(t.s.legacy, t.s.backend.kv, k)
    ensures t.s.Session(k).Some? ==> t'.s.Session(k) == t.s.Session(k)
  {
    OverlayNothing(t'.s.backend.kv);
  }

  /** An operation on one identity leaves the other's sessions alone. */
  lemma IdentitiesApart(t: Tracked, op: SessionOp, t': Tracked, k: SessionKey)
    requires t.s.Inv(t.flushed) && Next(t, op, t')
    requires (op.Store? && op.k.identity != k.identity) || (op.Delete? && op.k.identity != k.identity)
             || (op.DeleteAll? && op.identity != k.identity) || op.Load?
    ensures t'.s.Session(k) == t.s.Session(k)
  {
    assert op.Load? || op.Store? ==> t'.s.View() == t.s.View();
  }

  /** Flush, then commit: nothing is dirty, no batch is open, and the backend
      below alone holds every session, so the cache may be dropped. */
  lemma FlushThenCommitIsDurable(t0: Tracked, n: nat, t1: Tracked, t2: Tracked, k: SessionKey)
    requires t0.s.Inv(t0.flushed) && Next(t0, Flush(n), t1) && Next(t1, CommitBatch, t2)
    ensures t2.s.dirty == {} && !t2.s.backend.batching && t2.s.backend.buffer == map[]
    ensures Stored(t2.s.legacy, t2.s.backend.kv, k) == t0.s.Session(k)
    ensures t2.s.(cache := map[]).Session(k) == t0.s.Session(k)
  {
    NextKeepsInv(t0, Flush(n), t1);
    OverlayNothing(t2.s.backend.kv);
  }
}
