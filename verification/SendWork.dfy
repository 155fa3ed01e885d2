/** What sending or receiving a message does to the store: storage calls, inside a
    send's batch or outside any. */
module SendWork {
  import opened ByteStrings
  import opened PddbServer
  import opened Buffering
  import opened SessionBundle
  import opened SessionModel
  import opened PddbStore
  import SessionStoreExt

  /** One storage call made while a message is encrypted or decrypted. */
  datatype StoreStep =
    | LoadOne(k: SessionKey)
    | StoreOne(k: SessionKey, record: Record)
    | DeleteOne(k: SessionKey)
    | DeleteAddressOf(identity: IdentityType, name: Name)
    | PutOther(loc: Loc, value: Bytes)
    | DeleteOther(loc: Loc)
    | DropDict(dict: Name)

  /** Session data goes through the session calls only, and names fit. */
  predicate Legal(step: StoreStep) {
    match step
    case LoadOne(k) => true
    case StoreOne(k, _) => Fits(SessionLoc(k.identity, k.name))
    case DeleteOne(k) => true
    case DeleteAddressOf(_, _) => true
    case PutOther(loc, _) => !IsSessionDict(loc.dict) && Fits(loc)
    case DeleteOther(loc) => !IsSessionDict(loc.dict)
    case DropDict(dict) => !IsSessionDict(dict)
  }

  predicate AllLegal(work: seq<StoreStep>) {
    forall i :: 0 <= i < |work| ==> Legal(work[i])
  }

  predicate DropsNoDict(work: seq<StoreStep>) {
    forall i :: 0 <= i < |work| ==> !work[i].DropDict?
  }

  // ---- what a sequence of calls leaves behind ----

  predicate Touches(step: StoreStep, k: SessionKey) {
    match step
    case StoreOne(o, _) => o == k
    case DeleteOne(o) => o == k
    case DeleteAddressOf(identity, name) => Of(k, identity, name)
    case _ => false
  }

  predicate TouchesLoc(step: StoreStep, loc: Loc) {
    match step
    case PutOther(o, _) => o == loc
    case DeleteOther(o) => o == loc
    case DropDict(dict) => loc.dict == dict
    case _ => false
  }

  /** The last call about this session stored this record. */
  ghost predicate StoresLast(work: seq<StoreStep>, k: SessionKey, record: Record) {
    exists i :: 0 <= i < |work| && work[i] == StoreOne(k, record) && forall j :: i < j < |work| ==> !Touches(work[j], k)
  }

  /** The last call about this other key wrote this value. */
  ghost predicate PutsLast(work: seq<StoreStep>, loc: Loc, value: Bytes) {
    exists i :: 0 <= i < |work| && work[i] == PutOther(loc, value)
                && forall j :: i < j < |work| ==> !TouchesLoc(work[j], loc)
  }

  /** All of that is there: the sessions in the cache, the rest for readers. */
  ghost predicate Leaves(work: seq<StoreStep>, s: Snap) {
    (forall k, record :: StoresLast(work, k, record) ==> k in s.cache && s.cache[k] == record)
    && (forall loc, value :: PutsLast(work, loc, value)
          ==> !IsSessionDict(loc.dict) && At(s.View(), loc) == Some(value))
  }

  /** What one call changes, and what it leaves alone. */
  ghost predicate StepLeaves(step: StoreStep, s: Snap, s': Snap) {
    (forall k :: k in s.cache && !Touches(step, k) ==> k in s'.cache && s'.cache[k] == s.cache[k])
    && (step.StoreOne? ==> step.k in s'.cache && s'.cache[step.k] == step.record)
    && (forall loc: Loc :: !IsSessionDict(loc.dict) && !TouchesLoc(step, loc)
          ==> At(s'.View(), loc) == At(s.View(), loc))
    && (step.PutOther? ==> At(s'.View(), step.loc) == Some(step.value))
  }

  lemma LeavesMore(work: seq<StoreStep>, step: StoreStep, s: Snap, s': Snap)
    requires Legal(step) && Leaves(work, s) && StepLeaves(step, s, s')
    ensures Leaves(work + [step], s')
  {
    var n, all := |work|, work + [step];
    forall k, record | StoresLast(all, k, record) ensures k in s'.cache && s'.cache[k] == record {
      var i :| 0 <= i <= n && all[i] == StoreOne(k, record) && forall j :: i < j <= n ==> !Touches(all[j], k);
      if i < n {
        assert work[i] == StoreOne(k, record) && !Touches(all[n], k);
        assert forall j :: i < j < n ==> work[j] == all[j];
        assert StoresLast(work, k, record);
      }
    }
    forall loc, value | PutsLast(all, loc, value)
      ensures !IsSessionDict(loc.dict) && At(s'.View(), loc) == Some(value)
    {
      var i :| 0 <= i <= n && all[i] == PutOther(loc, value) && forall j :: i < j <= n ==> !TouchesLoc(all[j], loc);
      if i < n {
        assert work[i] == PutOther(loc, value) && !TouchesLoc(all[n], loc);
        assert forall j :: i < j < n ==> work[j] == all[j];
        assert PutsLast(work, loc, value);
      }
    }
  }

  /** Every name in sight is one the server takes. */
  ghost predicate NamesFit(s: Snap) {
    (forall loc :: loc in s.View() ==> Fits(loc)) && DirtyFits(s.dirty)
  }

  /** A trustworthy cache over writable names. */
  ghost predicate Sound(s: Snap, flushed: bool) {
    s.Inv(flushed) && NamesFit(s)
  }

  lemma SoundBufferFits(s: Snap)
    requires NamesFit(s)
    ensures BufferFits(s.backend.buffer)
  {
    forall loc | loc in s.backend.buffer && s.backend.buffer[loc].BufPut? ensures Fits(loc) {
      assert loc in s.View();
    }
  }

  lemma CacheStepSound(t: Tracked, op: SessionOp, t': Tracked)
    requires Sound(t.s, t.flushed) && Next(t, op, t')
    requires op.Load? || (op.Store? && Fits(SessionLoc(op.k.identity, op.k.name))) || op.Delete? || op.DeleteAll?
    ensures Sound(t'.s, t'.flushed)
  {
    NextKeepsInv(t, op, t');
    assert op.Delete? || op.DeleteAll? || t'.s.View() == t.s.View();
  }

  lemma ForgottenSound(s: Snap, k: SessionKey)
    requires Sound(s, false)
    ensures Sound(SessionStoreExt.Without(s, k), false)
  {
    assert SessionStoreExt.Without(s, k).View() == s.View();
  }

  lemma AddressForgottenSound(s: Snap, identity: IdentityType, name: Name)
    requires Sound(s, false)
    ensures Sound(SessionStoreExt.WithoutAddress(s, identity, name), false)
  {
    assert SessionStoreExt.WithoutAddress(s, identity, name).View() == s.View();
  }

  lemma ElsewhereSound(s: Snap, op: KvOp, s': Snap)
    requires Sound(s, false) && WritesElsewhere(s, op, s') && (op.PutOp? ==> Fits(op.loc))
    ensures Sound(s', false)
  {
    ElsewhereKeepsInv(s, op, s', false);
    match op
    case PutOp(loc, value) => StepView(s.backend, loc, value);
    case DeleteOp(loc) => StepView(s.backend, loc, []);
    case DeleteDictOp(dict) => OverlayDeleteDict(s.backend.kv, s.backend.buffer, dict);
  }

  /** Either the calls go into a batch or every request is answered. */
  predicate Sheltered(st: PddbStore)
    reads st, st.backend, st.backend.inner
  {
    st.backend.batching || st.backend.inner.server.reliable
  }

  /** The calls in order. Individual calls may fail; an open batch stays open, the
      cache stays trustworthy, and of calls inside a batch only a dropped
      dictionary reaches the backend below. */
  method Perform(st: PddbStore, work: seq<StoreStep>)
    requires st.Valid() && AllLegal(work)
    modifies st, st.backend, st.backend.inner.server
    ensures st.Valid() && st.backend.batching == old(st.backend.batching)
    ensures Sheltered(st) && old(Sound(st.Snapshot(), false)) ==> Sound(st.Snapshot(), false)
    ensures st.backend.batching && DropsNoDict(work) ==> st.backend.inner.server.kv == old(st.backend.inner.server.kv)
    ensures Sheltered(st) ==> Leaves(work, st.Snapshot())
  {
    assert work[..|work|] == work;
    for i := 0 to |work|
      invariant st.Valid() && st.backend.batching == old(st.backend.batching)
      invariant Sheltered(st) ==> Leaves(work[..i], st.Snapshot())
      invariant Sheltered(st) && old(Sound(st.Snapshot(), false)) ==> Sound(st.Snapshot(), false)
      invariant st.backend.batching && DropsNoDict(work)
                ==> st.backend.inner.server.kv == old(st.backend.inner.server.kv)
    {
      assert Legal(work[i]) && work[..i + 1] == work[..i] + [work[i]];
      ghost var s := st.Snapshot();
      DoStep(st, work[i]);
      if Sheltered(st) { LeavesMore(work[..i], work[i], s, st.Snapshot()); }
    }
  }

  method DoStep(st: PddbStore, step: StoreStep)
    requires st.Valid() && Legal(step)
    modifies st, st.backend, st.backend.inner.server
    ensures st.Valid() && st.backend.batching == old(st.backend.batching)
    ensures Sheltered(st) && old(Sound(st.Snapshot(), false)) ==> Sound(st.Snapshot(), false)
    ensures st.backend.batching && !step.DropDict? ==> st.backend.inner.server.kv == old(st.backend.inner.server.kv)
    ensures Sheltered(st) ==> StepLeaves(step, old(st.Snapshot()), st.Snapshot())
  {
    match step {
      case LoadOne(k) => DoLoad(st, k);
      case StoreOne(k, record) => DoStore(st, k, record);
      case DeleteOne(k) => DoDelete(st, k);
      case DeleteAddressOf(identity, name) => DoDeleteAll(st, identity, name);
      case _ => DoElsewhere(st, step);
    }
  }

  method DoLoad(st: PddbStore, k: SessionKey)
    requires st.Valid()
    modifies st, st.backend.inner.server
    ensures st.Valid() && st.backend.batching == old(st.backend.batching)
    ensures old(Sound(st.Snapshot(), false)) ==> Sound(st.Snapshot(), false)
    ensures st.backend.inner.server.kv == old(st.backend.inner.server.kv)
    ensures StepLeaves(LoadOne(k), old(st.Snapshot()), st.Snapshot())
  {
    ghost var s := st.Snapshot();
    var r := st.LoadSession(k);
    if r.Ok? && Sound(s, false) { CacheStepSound(Tracked(s, false), Load(k, r.value), Tracked(st.Snapshot(), false)); }
    assert st.Snapshot().backend == s.backend;
    if r.Ok? { LoadedLeaves(s, k, r.value, st.Snapshot()); }
  }

  /** A load never replaces what is cached. */
  lemma LoadedLeaves(s: Snap, k: SessionKey, found: Option<Record>, s': Snap)
    requires Loads(s, k, found, s')
    ensures StepLeaves(LoadOne(k), s, s')
  {
    forall o | o in s.cache ensures o in s'.cache && s'.cache[o] == s.cache[o] {
      assert Some(s'.cache[o]) == s.Session(o);
    }
  }

  method DoStore(st: PddbStore, k: SessionKey, record: Record)
    requires st.Valid() && Fits(SessionLoc(k.identity, k.name))
    modifies st
    ensures st.Valid()
    ensures old(Sound(st.Snapshot(), false)) ==> Sound(st.Snapshot(), false)
    ensures StepLeaves(StoreOne(k, record), old(st.Snapshot()), st.Snapshot())
  {
    ghost var s := st.Snapshot();
    st.StoreSession(k, record);
    if Sound(s, false) { CacheStepSound(Tracked(s, false), Store(k, record), Tracked(st.Snapshot(), false)); }
  }

  /** After an error outside a batch the address may be in doubt, unless every
      request is answered: then only the read had failed. */
  lemma StoppedDeleteSound(s: Snap, k: SessionKey, now: Snap)
    requires Sound(s, false) && SessionStoreExt.DeleteStops(SessionStoreExt.Without(s, k), k.identity, k.name, now)
    requires s.backend.batching || now == SessionStoreExt.Without(s, k)
    ensures Sound(now, false) && now.backend == s.backend
  {
    ForgottenSound(s, k);
  }

  method DoDelete(st: PddbStore, k: SessionKey)
    requires st.Valid()
    modifies st, st.backend, st.backend.inner.server
    ensures st.Valid() && st.backend.batching == old(st.backend.batching)
    ensures Sheltered(st) && old(Sound(st.Snapshot(), false)) ==> Sound(st.Snapshot(), false)
    ensures st.backend.batching ==> st.backend.inner.server.kv == old(st.backend.inner.server.kv)
    ensures StepLeaves(DeleteOne(k), old(st.Snapshot()), st.Snapshot())
  {
    ghost var s := st.Snapshot();
    var r := SessionStoreExt.DeleteSession(st, k);
    assert st.Snapshot().backend.batching == st.backend.batching
        && st.Snapshot().backend.kv == st.backend.inner.server.kv;
    if r.Ok? {
      if Sound(s, false) { CacheStepSound(Tracked(s, false), Delete(k), Tracked(st.Snapshot(), false)); }
    } else if Sheltered(st) && Sound(s, false) {
      StoppedDeleteSound(s, k, st.Snapshot());
    }
  }

  lemma AddressLeaves(s: Snap, identity: IdentityType, name: Name, n: nat, s': Snap)
    requires DeletesAll(s, identity, name, n, s') || s' == SessionStoreExt.WithoutAddress(s, identity, name)
    ensures StepLeaves(DeleteAddressOf(identity, name), s, s')
  {
  }

  method DoDeleteAll(st: PddbStore, identity: IdentityType, name: Name)
    requires st.Valid()
    modifies st, st.backend, st.backend.inner.server
    ensures st.Valid() && st.backend.batching == old(st.backend.batching)
    ensures old(Sound(st.Snapshot(), false)) ==> Sound(st.Snapshot(), false)
    ensures st.backend.batching ==> st.backend.inner.server.kv == old(st.backend.inner.server.kv)
    ensures StepLeaves(DeleteAddressOf(identity, name), old(st.Snapshot()), st.Snapshot())
  {
    ghost var s := st.Snapshot();
    var r := SessionStoreExt.DeleteAllSessions(st, identity, name);
    AddressLeaves(s, identity, name, if r.Ok? then r.value else 0, st.Snapshot());
    assert st.Snapshot().backend.batching == st.backend.batching
        && st.Snapshot().backend.kv == st.backend.inner.server.kv;
    if Sound(s, false) {
      if r.Ok? {
        CacheStepSound(Tracked(s, false), DeleteAll(identity, name, r.value), Tracked(st.Snapshot(), false));
      } else {
        AddressForgottenSound(s, identity, name);
      }
    }
  }

  lemma PutLeaves(s: Snap, loc: Loc, value: Bytes, s': Snap)
    requires s.backend.Valid() && s' == s.(backend := Step(s.backend, PutOp(loc, value)))
    ensures StepLeaves(PutOther(loc, value), s, s')
  {
    StepView(s.backend, loc, value);
  }

  lemma DeleteLeaves(s: Snap, loc: Loc, s': Snap)
    requires s.backend.Valid() && s' == s.(backend := Step(s.backend, DeleteOp(loc)))
    ensures StepLeaves(DeleteOther(loc), s, s')
  {
    StepView(s.backend, loc, []);
  }

  lemma DropLeaves(s: Snap, dict: Name, s': Snap)
    requires s.backend.Valid()
    requires s' == s.(backend := Step(s.backend, DeleteDictOp(dict)))
             || s' == s.(backend := s.backend.(buffer := BufferWithoutDict(s.backend.buffer, dict)))
    ensures StepLeaves(DropDict(dict), s, s')
  {
    OverlayDeleteDict(s.backend.kv, s.backend.buffer, dict);
    OtherDictsShow(s.backend.kv, s.backend.buffer, dict);
  }

  method DoElsewhere(st: PddbStore, step: StoreStep)
    requires st.Valid() && Legal(step) && (step.PutOther? || step.DeleteOther? || step.DropDict?)
    modifies st.backend, st.backend.inner.server
    ensures st.Valid() && st.backend.batching == old(st.backend.batching)
    ensures Sheltered(st) && old(Sound(st.Snapshot(), false)) ==> Sound(st.Snapshot(), false)
    ensures st.backend.batching && !step.DropDict? ==> st.backend.inner.server.kv == old(st.backend.inner.server.kv)
    ensures Sheltered(st) ==> StepLeaves(step, old(st.Snapshot()), st.Snapshot())
  {
    ghost var s := st.Snapshot();
    match step {
      case PutOther(loc, value) =>
        var r := st.backend.Put(loc, value);
        if r.Ok? {
          PutLeaves(s, loc, value, st.Snapshot());
          if Sound(s, false) { ElsewhereSound(s, PutOp(loc, value), st.Snapshot()); }
        }
      case DeleteOther(loc) =>
        var r := st.backend.Delete(loc);
        if r.Ok? {
          DeleteLeaves(s, loc, st.Snapshot());
          if Sound(s, false) { ElsewhereSound(s, DeleteOp(loc), st.Snapshot()); }
        }
      case DropDict(dict) =>
        var r := st.backend.DeleteDict(dict);
        DropLeaves(s, dict, st.Snapshot());
        if Sound(s, false) {
          if r.Ok? {
            ElsewhereSound(s, DeleteDictOp(dict), st.Snapshot());
          } else {
            DroppedBufferSound(s, dict, st.Snapshot());
          }
        }
      case _ =>
    }
  }

  lemma OtherDictsShow(kv: KvMap, buffer: Buffer, dict: Name)
    ensures forall loc: Loc :: loc.dict != dict
              ==> At(Overlay(kv, BufferWithoutDict(buffer, dict)), loc) == At(Overlay(kv, buffer), loc)
  {
  }

  /** A dictionary deletion that fails has still forgotten its buffered entries;
      no session is among them. */
  lemma DroppedBufferSound(s: Snap, dict: Name, s': Snap)
    requires Sound(s, false) && !IsSessionDict(dict)
    requires s' == s.(backend := s.backend.(buffer := BufferWithoutDict(s.backend.buffer, dict)))
    requires forall loc :: loc in s.backend.kv ==> Fits(loc)
    ensures Sound(s', false)
  {
    OtherDictsShow(s.backend.kv, s.backend.buffer, dict);
    AllStoredAlike(s.legacy, s.View(), s'.View());
    forall loc | loc in s'.View() ensures Fits(loc) {
      assert loc.dict != dict ==> At(s'.View(), loc) == At(s.View(), loc);
    }
  }
}
