/** The store: session cache and dirty set over the batch layer, with load,
    store and the grouped flush. */
module PddbStore {
  import opened ByteStrings
  import opened PddbServer
  import opened PddbBackend
  import opened Buffering
  import opened SessionBundle
  import opened SessionModel

  datatype StoreError = Backend(kind: ErrorKind) | Decode

  // ---- how one bundle write or delete shows ----

  lemma SessionLocInjective(identity: IdentityType, name: Name, identity': IdentityType, name': Name)
    requires SessionLoc(identity, name) == SessionLoc(identity', name')
    ensures identity == identity' && name == name'
  {
    SessionDictsDiffer();
  }

  /** After a change at one session address only that address reads anew. */
  lemma OneAddressChanged(legacy: LegacyDecoder, v: KvMap, v': KvMap, identity: IdentityType, name: Name)
    requires forall loc :: loc != SessionLoc(identity, name) ==> At(v', loc) == At(v, loc)
    ensures forall k :: !Of(k, identity, name) ==> Stored(legacy, v', k) == Stored(legacy, v, k)
    ensures forall i, n :: i != identity || n != name ==> BundleOf(legacy, v', i, n) == BundleOf(legacy, v, i, n)
    ensures forall loc: Loc :: !IsSessionDict(loc.dict) ==> At(v', loc) == At(v, loc)
  {
    forall i, n | i != identity || n != name ensures BundleOf(legacy, v', i, n) == BundleOf(legacy, v, i, n) {
      if SessionLoc(i, n) == SessionLoc(identity, name) { SessionLocInjective(i, n, identity, name); }
      StoredAlike(legacy, v, v', SessionKey(i, n, 0));
    }
    forall k | !Of(k, identity, name) ensures Stored(legacy, v', k) == Stored(legacy, v, k) {
      assert BundleOf(legacy, v', k.identity, k.name) == BundleOf(legacy, v, k.identity, k.name);
    }
  }

  lemma MissLoads(s: Snap, k: SessionKey, bundle: Bundle, s': Snap)
    requires k !in s.cache && s' == s.(cache := s'.cache)
    requires BundleOf(s.legacy, s.View(), k.identity, k.name) == Some(bundle)
    requires forall o :: o in s'.cache <==> o in s.cache || (Of(o, k.identity, k.name) && o.device in bundle)
    requires forall o :: o in s'.cache ==> s'.cache[o] == if o in s.cache then s.cache[o] else bundle[o.device]
    ensures Loads(s, k, if k.device in bundle then Some(bundle[k.device]) else None, s')
  {
    forall o: SessionKey | Of(o, k.identity, k.name)
      ensures Stored(s.legacy, s.View(), o) == if o.device in bundle then Some(bundle[o.device]) else None
    {
    }
  }

  // ---- flushing, group by group ----

  type Groups = map<(IdentityType, Name), Bundle>

  /** The dirty cached sessions, grouped by address. */
  ghost predicate GroupsOf(groups: Groups, s: Snap) {
    && (forall g :: g in groups ==> groups[g] != map[])
    && (forall g :: g in groups ==> forall d :: d in groups[g] ==>
          var k := SessionKey(g.0, g.1, d); k in s.dirty && k in s.cache && groups[g][d] == s.cache[k])
    && (forall k :: k in s.dirty && k in s.cache
          ==> (k.identity, k.name) in groups && k.device in groups[(k.identity, k.name)])
  }

  function KeysOf(identity: IdentityType, name: Name, bundle: Bundle): (keys: set<SessionKey>)
    ensures forall k :: k in keys <==> Of(k, identity, name) && k.device in bundle
  {
    set d | d in bundle :: SessionKey(identity, name, d)
  }

  lemma {:induction false} KeyCount(identity: IdentityType, name: Name, bundle: Bundle)
    ensures |KeysOf(identity, name, bundle)| == |bundle|
    decreases |bundle|
  {
    if bundle == map[] {
      assert KeysOf(identity, name, bundle) == {};
    } else {
      var d :| d in bundle;
      KeyCount(identity, name, bundle - {d});
      assert KeysOf(identity, name, bundle) == KeysOf(identity, name, bundle - {d}) + {SessionKey(identity, name, d)};
    }
  }

  /** The sessions in `done` are written; nothing else has moved. */
  ghost predicate FlushedSoFar(s: Snap, done: set<SessionKey>, s': Snap) {
    && BackendWrites(s, s') && OthersKept(s, s') && NewKeysOnlyFor(s, done, s')
    && s'.cache == s.cache && s'.dirty == s.dirty
    && done <= s.dirty * s.cache.Keys
    && (forall k :: Stored(s.legacy, s'.View(), k)
          == if k in done then Some(s.cache[k]) else Stored(s.legacy, s.View(), k))
  }

  /** The sessions of the address all read as before, or none reads at all. (The
      legacy decoder is what meets an empty value.) */
  ghost predicate KeptOrLost(s: Snap, identity: IdentityType, name: Name, s': Snap) {
    (forall k :: Of(k, identity, name) ==> Stored(s.legacy, s'.View(), k) == Stored(s.legacy, s.View(), k))
    || (s.legacy([]) == None ==> forall k :: Of(k, identity, name) ==> Stored(s.legacy, s'.View(), k) == None)
  }

  /** A flush that gave up at one address: the sessions in `done` are written,
      that address is in doubt, everything else is as before and all that was
      dirty still is. */
  ghost predicate FlushStops(s: Snap, done: set<SessionKey>, identity: IdentityType, name: Name, s': Snap) {
    && s'.legacy == s.legacy && s'.cache == s.cache && s'.dirty == s.dirty
    && s'.backend.Valid() && s'.backend.batching == s.backend.batching
    && (s.backend.batching ==> s'.backend.kv == s.backend.kv)
    && (s.backend.batching
        ==> forall k :: Of(k, identity, name) ==> Stored(s.legacy, s'.View(), k) == Stored(s.legacy, s.View(), k))
    && done <= s.dirty * s.cache.Keys && (forall k :: k in done ==> !Of(k, identity, name))
    && OthersKept(s, s') && KeptOrLost(s, identity, name, s')
    && (forall i, n :: (s.backend.batching || i != identity || n != name) && BundleOf(s.legacy, s.View(), i, n).Some?
                       ==> BundleOf(s.legacy, s'.View(), i, n).Some?)
    && (forall k :: !Of(k, identity, name) ==>
          Stored(s.legacy, s'.View(), k) == if k in done then Some(s.cache[k]) else Stored(s.legacy, s.View(), k))
  }

  predicate DirtyFits(dirty: set<SessionKey>) {
    forall k :: k in dirty ==> Fits(SessionLoc(k.identity, k.name))
  }

  lemma WritesCompose(s: Snap, mid: Snap, s': Snap)
    requires BackendWrites(s, mid) && BackendWrites(mid, s') && OthersKept(s, mid) && OthersKept(mid, s')
    ensures BackendWrites(s, s') && OthersKept(s, s')
  {
  }

  /** One address written: its sessions are the new bundle's, all others stay. */
  ghost predicate AddressWritten(before: Snap, identity: IdentityType, name: Name, bundle: Bundle, after: Snap) {
    && BackendWrites(before, after) && OthersKept(before, after)
    && (forall loc :: loc in after.View() ==> loc in before.View() || loc == SessionLoc(identity, name))
    && after.cache == before.cache && after.dirty == before.dirty
    && forall k :: Stored(before.legacy, after.View(), k) ==
         if !Of(k, identity, name) then Stored(before.legacy, before.View(), k)
         else if k.device in bundle then Some(bundle[k.device]) else None
  }

  lemma PutWritesAddress(s: Snap, identity: IdentityType, name: Name, bytes: Bytes, bundle: Bundle, s': Snap)
    requires s.backend.Valid() && Deserialize(bytes, s.legacy) == Some(bundle)
    requires s' == s.(backend := Step(s.backend, PutOp(SessionLoc(identity, name), bytes)))
    ensures AddressWritten(s, identity, name, bundle, s')
  {
    StepView(s.backend, SessionLoc(identity, name), bytes);
    OneAddressChanged(s.legacy, s.View(), s'.View(), identity, name);
    assert BundleOf(s.legacy, s'.View(), identity, name) == Some(bundle);
    forall i, n | BundleOf(s.legacy, s.View(), i, n).Some? ensures BundleOf(s.legacy, s'.View(), i, n).Some? {
      assert i != identity || n != name ==> BundleOf(s.legacy, s'.View(), i, n) == BundleOf(s.legacy, s.View(), i, n);
    }
  }

  /** What a failed put of a bundle leaves at its key: the old value, nothing, or
      a value cut short, which does not read. */
  predicate TornTo(legacy: LegacyDecoder, was: Option<Bytes>, now: Option<Bytes>) {
    now == was || now == None || (legacy([]) == None ==> Deserialize(now.value, legacy) == None)
  }

  /** A write that failed outside any batch: only that address may differ, and it
      is as it was, gone or unreadable. */
  ghost predicate AddressInDoubt(before: Snap, identity: IdentityType, name: Name, after: Snap) {
    && !before.backend.batching && after == before.(backend := after.backend)
    && after.backend.Valid() && !after.backend.batching
    && (forall loc :: loc != SessionLoc(identity, name) ==> At(after.View(), loc) == At(before.View(), loc))
    && TornTo(before.legacy, At(before.View(), SessionLoc(identity, name)),
              At(after.View(), SessionLoc(identity, name)))
  }

  lemma TornKey(legacy: LegacyDecoder, kv: KvMap, kv': KvMap, loc: Loc, bytes: Bytes, bundle: Bundle)
    requires IsSerialized(bytes, bundle) && PutFailed(kv, kv', loc, bytes)
    ensures TornTo(legacy, At(kv, loc), At(kv', loc)) && forall o :: o != loc ==> At(kv', o) == At(kv, o)
  {
    if kv' != kv && kv' != kv - {loc} {
      var n: nat :| n < |bytes| && kv' == kv[loc := bytes[..n]];
      if legacy([]) == None { TornValueUnreadable(bytes, bundle, n, legacy); }
    }
  }

  lemma TornAddress(s: Snap, identity: IdentityType, name: Name, bytes: Bytes, bundle: Bundle, s': Snap)
    requires s.backend.Valid() && !s.backend.batching && s' == s.(backend := s.backend.(kv := s'.backend.kv))
    requires IsSerialized(bytes, bundle) && PutFailed(s.backend.kv, s'.backend.kv, SessionLoc(identity, name), bytes)
    ensures AddressInDoubt(s, identity, name, s')
  {
    OverlayNothing(s.backend.kv);
    OverlayNothing(s'.backend.kv);
    TornKey(s.legacy, s.backend.kv, s'.backend.kv, SessionLoc(identity, name), bytes, bundle);
  }

  lemma NewKeysGrow(s: Snap, done: set<SessionKey>, before: Snap, identity: IdentityType, name: Name, changes: Bundle,
          after: Snap)
    requires NewKeysOnlyFor(s, done, before) && changes != map[]
    requires forall loc :: loc in after.View() ==> loc in before.View() || loc == SessionLoc(identity, name)
    ensures NewKeysOnlyFor(s, done + KeysOf(identity, name, changes), after)
  {
    var d :| d in changes;
    var k := SessionKey(identity, name, d);
    assert k in done + KeysOf(identity, name, changes) && SessionLoc(k.identity, k.name) == SessionLoc(identity, name);
  }

  lemma GroupFlushed(s: Snap, done: set<SessionKey>, before: Snap, identity: IdentityType, name: Name,
                     was: Bundle, changes: Bundle, after: Snap)
    requires FlushedSoFar(s, done, before)
    requires KeysOf(identity, name, changes) <= s.dirty * s.cache.Keys
    requires forall d :: d in changes ==> changes[d] == s.cache[SessionKey(identity, name, d)]
    requires BundleOf(s.legacy, before.View(), identity, name) == Some(was)
    requires changes != map[] && AddressWritten(before, identity, name, was + changes, after)
    ensures FlushedSoFar(s, done + KeysOf(identity, name, changes), after)
  {
    WritesCompose(s, before, after);
    NewKeysGrow(s, done, before, identity, name, changes, after);
    var done' := done + KeysOf(identity, name, changes);
    forall k
      ensures Stored(s.legacy, after.View(), k)
              == if k in done' then Some(s.cache[k]) else Stored(s.legacy, s.View(), k)
    {
      if Of(k, identity, name) {
        assert k == SessionKey(identity, name, k.device);
        assert Stored(s.legacy, before.View(), k) == if k.device in was then Some(was[k.device]) else None;
      }
    }
  }

  lemma NothingFlushed(s: Snap)
    requires s.backend.Valid()
    ensures FlushedSoFar(s, {}, s)
  {
  }

  lemma FlushDone(s: Snap, done: set<SessionKey>, now: Snap)
    requires FlushedSoFar(s, done, now) && done == s.dirty * s.cache.Keys
    ensures Flushes(s, |done|, now.(dirty := {})) && LegacyMerged(s, now.(dirty := {}))
  {
    assert now.(dirty := {}).View() == now.View();
    forall k: SessionKey, bundle | HoldsLegacy(s.legacy, s.View(), k.identity, k.name, bundle)
      ensures Stored(s.legacy, now.View(), k) ==
              if k in s.dirty && k in s.cache then Some(s.cache[k])
              else if k.device in bundle then Some(bundle[k.device]) else None
    {
      LegacyReads(s.legacy, s.View(), k.identity, k.name, bundle);
    }
  }

  /** The sessions of the groups already written. */
  ghost function DoneKeys(s: Snap, left: set<(IdentityType, Name)>): set<SessionKey> {
    set k | k in s.dirty && k in s.cache && (k.identity, k.name) !in left
  }

  /** A group is nonempty and names dirty cached sessions only. */
  lemma GroupMembers(s: Snap, groups: Groups, g: (IdentityType, Name))
    requires GroupsOf(groups, s) && g in groups
    ensures groups[g] != map[] && KeysOf(g.0, g.1, groups[g]) <= s.dirty * s.cache.Keys
    ensures forall d :: d in groups[g] ==> groups[g][d] == s.cache[SessionKey(g.0, g.1, d)]
    ensures DirtyFits(s.dirty) ==> Fits(SessionLoc(g.0, g.1))
  {
    var d :| d in groups[g];
    assert SessionKey(g.0, g.1, d) in s.dirty;
  }

  lemma GroupJoinsDone(s: Snap, groups: Groups, left: set<(IdentityType, Name)>, g: (IdentityType, Name))
    requires GroupsOf(groups, s) && g in left && left <= groups.Keys
    ensures forall k :: k in DoneKeys(s, left) ==> !Of(k, g.0, g.1)
    ensures DoneKeys(s, left - {g}) == DoneKeys(s, left) + KeysOf(g.0, g.1, groups[g])
  {
    GroupMembers(s, groups, g);
    forall k ensures k in DoneKeys(s, left - {g}) <==> k in DoneKeys(s, left) + KeysOf(g.0, g.1, groups[g]) {
      if Of(k, g.0, g.1) { assert (k.identity, k.name) == g; }
    }
  }

  lemma AllDone(s: Snap, groups: Groups)
    requires GroupsOf(groups, s)
    ensures DoneKeys(s, {}) == s.dirty * s.cache.Keys
    ensures DoneKeys(s, groups.Keys) == {}
  {
  }

  lemma DoubtKeepsOrLoses(s: Snap, identity: IdentityType, name: Name, s': Snap)
    requires AddressInDoubt(s, identity, name, s')
    ensures KeptOrLost(s, identity, name, s')
  {
    var loc := SessionLoc(identity, name);
    if At(s'.View(), loc) == At(s.View(), loc) {
      forall k | Of(k, identity, name) ensures Stored(s.legacy, s'.View(), k) == Stored(s.legacy, s.View(), k) {
        StoredAlike(s.legacy, s.View(), s'.View(), k);
      }
    }
  }

  lemma StopsThere(s: Snap, done: set<SessionKey>, before: Snap, identity: IdentityType, name: Name, after: Snap)
    requires FlushedSoFar(s, done, before) && forall k :: k in done ==> !Of(k, identity, name)
    requires after == before || AddressInDoubt(before, identity, name, after)
    ensures FlushStops(s, done, identity, name, after)
  {
    OneAddressChanged(s.legacy, before.View(), after.View(), identity, name);
    if after != before { DoubtKeepsOrLoses(before, identity, name, after); }
    assert forall k :: Of(k, identity, name) ==> Stored(s.legacy, before.View(), k) == Stored(s.legacy, s.View(), k);
  }

  type Address = (IdentityType, Name)

  /** The address has a value that does not decode. */
  ghost predicate Unreadable(s: Snap, a: Address) {
    BundleOf(s.legacy, s.View(), a.0, a.1).None?
  }

  lemma PutLeavesUnreadable(s: Snap, identity: IdentityType, name: Name, bytes: Bytes, s': Snap, bad: Address)
    requires s.backend.Valid() && s' == s.(backend := Step(s.backend, PutOp(SessionLoc(identity, name), bytes)))
    requires bad != (identity, name) && Unreadable(s, bad)
    ensures Unreadable(s', bad)
  {
    StepView(s.backend, SessionLoc(identity, name), bytes);
    OneAddressChanged(s.legacy, s.View(), s'.View(), identity, name);
  }

  /** Every dirty cached session's address can be read. */
  ghost predicate DirtyReadable(s: Snap) {
    forall k :: k in s.dirty && k in s.cache ==> !Unreadable(s, (k.identity, k.name))
  }

  /** A dirty session whose address cannot be read has its group. */
  lemma UnreadableGroup(s: Snap, groups: Groups) returns (bad: Option<Address>)
    requires GroupsOf(groups, s)
    ensures bad.Some? ==> bad.value in groups && Unreadable(s, bad.value)
    ensures bad.None? ==> DirtyReadable(s)
  {
    if k :| k in s.dirty && k in s.cache && Unreadable(s, (k.identity, k.name)) {
      bad := Some((k.identity, k.name));
    } else {
      bad := None;
    }
  }

  class PddbStore {
    const backend: BufferingBackend
    const legacy: LegacyDecoder
    var cache: map<SessionKey, Record>
    var dirty: set<SessionKey>

    constructor (backend: BufferingBackend, legacy: LegacyDecoder)
      ensures this.backend == backend && this.legacy == legacy && cache == map[] && dirty == {}
    {
      this.backend, this.legacy, this.cache, this.dirty := backend, legacy, map[], {};
    }

    predicate Valid()
      reads this, backend, backend.inner.server
    {
      backend.Valid()
    }

    ghost function Snapshot(): Snap
      reads this, backend, backend.inner.server
    {
      Snap(legacy, backend.State(), cache, dirty)
    }

    ghost predicate Reliable() {
      backend.inner.server.reliable
    }

    /** `None` when the address has no value; an unreadable value is an error. */
    method GetBundle(identity: IdentityType, name: Name) returns (r: Result<Option<Bundle>, StoreError>)
      requires Valid()
      modifies backend.inner.server
      ensures Valid() && Snapshot() == old(Snapshot())
      ensures r.Ok? ==> (r.value.None? <==> SessionLoc(identity, name) !in Snapshot().View())
      ensures r.Ok? ==> BundleOf(legacy, Snapshot().View(), identity, name)
                        == Some(if r.value.Some? then r.value.value else map[])
      ensures forall b :: HoldsLegacy(legacy, Snapshot().View(), identity, name, b)
                          ==> r == Ok(Some(b)) || (r.Err? && r.error.Backend?)
      ensures (&& Reliable() && Fits(SessionLoc(identity, name))
               && BundleOf(legacy, Snapshot().View(), identity, name).Some?)
              ==> r.Ok?
    {
      var bytes := backend.Get(SessionLoc(identity, name));
      if bytes.Err? { return Err(Backend(bytes.error)); }
      if bytes.value.None? { return Ok(None); }
      var bundle := Deserialize(bytes.value.value, legacy);
      if bundle.None? { return Err(Decode); }
      return Ok(bundle);
    }

    /** Writes one address; every other key keeps its value, so another address
        `bad` that cannot be read still cannot. */
    method PutBundle(identity: IdentityType, name: Name, bundle: Bundle, ghost bad: Option<Address>)
      returns (r: Result<(), StoreError>)
      requires Valid()
      modifies backend, backend.inner.server
      ensures Valid()
      ensures r.Ok? ==> AddressWritten(old(Snapshot()), identity, name, bundle, Snapshot())
      ensures r.Ok? ==> forall b :: !HoldsLegacy(legacy, Snapshot().View(), identity, name, b)
      ensures r.Ok? && bad.Some? && bad.value != (identity, name) && old(Unreadable(Snapshot(), bad.value))
              ==> Unreadable(Snapshot(), bad.value)
      ensures r.Err? ==> AddressInDoubt(old(Snapshot()), identity, name, Snapshot())
      ensures old(backend.batching) || (Reliable() && Fits(SessionLoc(identity, name))) ==> r.Ok?
    {
      var bytes := Serialize(bundle);
      ghost var s := Snapshot();
      var put := backend.Put(SessionLoc(identity, name), bytes);
      if put.Err? {
        TornAddress(s, identity, name, bytes, bundle, Snapshot());
        return Err(Backend(put.error));
      }
      PutWritesAddress(s, identity, name, bytes, bundle, Snapshot());
      StepView(s.backend, SessionLoc(identity, name), bytes);
      assert bytes[0] == 0x01;
      if bad.Some? && bad.value != (identity, name) && Unreadable(s, bad.value) {
        PutLeavesUnreadable(s, identity, name, bytes, Snapshot(), bad.value);
      }
      return Ok(());
    }

    /** Cache first; on a miss the address's whole bundle is cached, behind what
        the cache holds already. */
    method LoadSession(k: SessionKey) returns (r: Result<Option<Record>, StoreError>)
      requires Valid()
      modifies this`cache, backend.inner.server
      ensures Valid()
      ensures r.Ok? ==> Loads(old(Snapshot()), k, r.value, Snapshot())
      ensures k in old(cache) ==> r == Ok(Some(old(cache)[k]))
      ensures forall b :: k !in old(cache) && HoldsLegacy(legacy, old(Snapshot()).View(), k.identity, k.name, b)
                          ==> r == Ok(if k.device in b then Some(b[k.device]) else None) || (r.Err? && r.error.Backend?)
      ensures r.Ok? ==> k in old(cache) || BundleOf(legacy, old(Snapshot()).View(), k.identity, k.name).Some?
      ensures r.Err? ==> Snapshot() == old(Snapshot())
      ensures (&& Reliable() && Fits(SessionLoc(k.identity, k.name))
               && BundleOf(legacy, old(Snapshot()).View(), k.identity, k.name).Some?)
              ==> r.Ok?
    {
      if k in cache { return Ok(Some(cache[k])); }
      ghost var s := Snapshot();
      var got := GetBundle(k.identity, k.name);
      if got.Err? { return Err(got.error); }
      if got.value.None? {
        MissLoads(s, k, map[], Snapshot());
        return Ok(None);
      }
      var bundle := got.value.value;
      ghost var was := cache;
      var left := bundle.Keys;
      while left != {}
        invariant left <= bundle.Keys && Snapshot() == s.(cache := cache)
        invariant forall o :: o in cache
                    <==> o in was || (Of(o, k.identity, k.name) && o.device in bundle && o.device !in left)
        invariant forall o :: o in cache ==> cache[o] == if o in was then was[o] else bundle[o.device]
        decreases left
      {
        var d :| d in left;
        var cacheKey := SessionKey(k.identity, k.name, d);
        if cacheKey !in cache {
          cache := cache[cacheKey := bundle[d]];
        }
        left := left - {d};
      }
      MissLoads(s, k, bundle, Snapshot());
      return Ok(if k.device in bundle then Some(bundle[k.device]) else None);
    }

    /** Cache and dirty set only; nothing is written below. */
    method StoreSession(k: SessionKey, record: Record)
      requires Valid()
      modifies this
      ensures Valid() && Stores(old(Snapshot()), k, record, Snapshot())
    {
      cache := cache[k := record];
      dirty := dirty + {k};
    }

    /** Writes every dirty session, one bundle per address, and only then calls
        them clean. After an error everything dirty is still dirty. */
    method FlushSessions() returns (r: Result<nat, StoreError>)
      requires Valid()
      modifies this`dirty, backend, backend.inner.server
      ensures Valid() && backend.batching == old(backend.batching)
      ensures r.Ok? ==> Flushes(old(Snapshot()), r.value, Snapshot()) && DirtyReadable(old(Snapshot()))
      ensures r.Ok? ==> LegacyMerged(old(Snapshot()), Snapshot())
      ensures r.Err? ==> exists done, identity, name :: FlushStops(old(Snapshot()), done, identity, name, Snapshot())
      ensures Reliable() && Readable(legacy, old(Snapshot()).View()) && DirtyFits(old(dirty)) ==> r.Ok?
    {
      ghost var s := Snapshot();
      NothingFlushed(s);
      if dirty == {} {
        FlushDone(s, {}, s);
        return Ok(0);
      }
      var groups := GroupDirty();
      ghost var bad := UnreadableGroup(s, groups);
      r := FlushGroups(groups, bad);
      if r.Err? { return; }
      FlushDone(s, s.dirty * s.cache.Keys, Snapshot());
      dirty := {};
    }

    /** Every group, in an arbitrary order, stopping at the first error; a group
        whose address cannot be read is one. */
    method FlushGroups(groups: Groups, ghost bad: Option<Address>) returns (r: Result<nat, StoreError>)
      requires Valid() && GroupsOf(groups, Snapshot())
      requires bad.Some? ==> bad.value in groups && Unreadable(Snapshot(), bad.value)
      modifies backend, backend.inner.server
      ensures Valid()
      ensures r.Ok? ==> FlushedSoFar(old(Snapshot()), dirty * cache.Keys, Snapshot()) && r.value == |dirty * cache.Keys|
      ensures r.Ok? ==> bad.None?
      ensures r.Err? ==> exists done, identity, name :: FlushStops(old(Snapshot()), done, identity, name, Snapshot())
      ensures Reliable() && Readable(legacy, old(Snapshot()).View()) && DirtyFits(dirty) ==> r.Ok?
    {
      ghost var s := Snapshot();
      NothingFlushed(s);
      AllDone(s, groups);
      var written := 0;
      var left := groups.Keys;
      while left != {}
        invariant Valid() && left <= groups.Keys && FlushedSoFar(s, DoneKeys(s, left), Snapshot())
        invariant written == |DoneKeys(s, left)|
        invariant bad.Some? ==> bad.value in left && Unreadable(Snapshot(), bad.value)
        decreases left
      {
        var g :| g in left;
        var count := FlushNext(s, groups, left, g, bad);
        if count.Err? { return Err(count.error); }
        written := written + count.value;
        left := left - {g};
      }
      return Ok(written);
    }

    method FlushNext(ghost s: Snap, groups: Groups, ghost left: set<Address>, g: Address, ghost bad: Option<Address>)
      returns (r: Result<nat, StoreError>)
      requires Valid() && GroupsOf(groups, s) && g in left && left <= groups.Keys
               && FlushedSoFar(s, DoneKeys(s, left), Snapshot())
      modifies backend, backend.inner.server
      ensures Valid()
      ensures r.Ok? ==> FlushedSoFar(s, DoneKeys(s, left - {g}), Snapshot())
      ensures r.Ok? ==> |DoneKeys(s, left - {g})| == |DoneKeys(s, left)| + r.value
      ensures r.Ok? && bad.Some? && old(Unreadable(Snapshot(), bad.value))
              ==> bad.value != g && Unreadable(Snapshot(), bad.value)
      ensures r.Err? ==> exists done, identity, name :: FlushStops(s, done, identity, name, Snapshot())
      ensures Reliable() && Readable(s.legacy, s.View()) && DirtyFits(s.dirty) ==> r.Ok?
    {
      GroupMembers(s, groups, g);
      GroupJoinsDone(s, groups, left, g);
      r := FlushGroup(s, DoneKeys(s, left), g.0, g.1, groups[g], bad);
    }

    /** One address: read the bundle, put the changes in, write it back. */
    method FlushGroup(ghost s: Snap, ghost done: set<SessionKey>, identity: IdentityType, name: Name, changes: Bundle,
                      ghost bad: Option<Address>)
      returns (r: Result<nat, StoreError>)
      requires Valid() && FlushedSoFar(s, done, Snapshot())
      requires changes != map[] && KeysOf(identity, name, changes) <= s.dirty * s.cache.Keys
      requires forall d :: d in changes ==> changes[d] == s.cache[SessionKey(identity, name, d)]
      requires forall k :: k in done ==> !Of(k, identity, name)
      modifies backend, backend.inner.server
      ensures Valid()
      ensures r.Ok? ==> FlushedSoFar(s, done + KeysOf(identity, name, changes), Snapshot())
      ensures r.Ok? ==> |done + KeysOf(identity, name, changes)| == |done| + r.value
      ensures r.Ok? && bad.Some? && old(Unreadable(Snapshot(), bad.value))
              ==> bad.value != (identity, name) && Unreadable(Snapshot(), bad.value)
      ensures r.Err? ==> FlushStops(s, done, identity, name, Snapshot())
      ensures (&& Reliable() && Fits(SessionLoc(identity, name))
               && BundleOf(legacy, old(Snapshot()).View(), identity, name).Some?)
              ==> r.Ok?
    {
      ghost var before := Snapshot();
      var got := GetBundle(identity, name);
      if got.Err? {
        StopsThere(s, done, before, identity, name, Snapshot());
        return Err(got.error);
      }
      var was := if got.value.Some? then got.value.value else map[];
      var bundle, count := InsertAll(was, changes);
      var put := PutBundle(identity, name, bundle, bad);
      if put.Err? {
        StopsThere(s, done, before, identity, name, Snapshot());
        return Err(put.error);
      }
      GroupFlushed(s, done, before, identity, name, was, changes, Snapshot());
      KeyCount(identity, name, changes);
      assert done !! KeysOf(identity, name, changes);
      return Ok(count);
    }

    method GroupDirty() returns (groups: Groups)
      requires Valid()
      ensures GroupsOf(groups, Snapshot())
    {
      groups := map[];
      var left := dirty;
      while left != {}
        invariant left <= dirty
        invariant forall g :: g in groups ==> groups[g] != map[]
        invariant forall g :: g in groups ==> forall d :: d in groups[g] ==>
                    var k := SessionKey(g.0, g.1, d); k in dirty && k in cache && groups[g][d] == cache[k]
        invariant forall k :: k in dirty && k !in left && k in cache ==>
                    (k.identity, k.name) in groups && k.device in groups[(k.identity, k.name)]
        decreases left
      {
        var k :| k in left;
        left := left - {k};
        if k in cache {
          var g := (k.identity, k.name);
          var entries: Bundle := if g in groups then groups[g] else map[];
          groups := groups[g := entries[k.device := cache[k]]];
        }
      }
    }
  }

  /** The changes made so far, those in `left` being still to come. */
  ghost function MergedBut<K, V>(base: map<K, V>, changes: map<K, V>, left: set<K>): map<K, V> {
    base + (changes - left)
  }

  lemma MergeStep<K, V>(base: map<K, V>, changes: map<K, V>, left: set<K>, d: K)
    requires d in left && d in changes
    ensures MergedBut(base, changes, left)[d := changes[d]] == MergedBut(base, changes, left - {d})
  {
  }

  lemma MergeStarts<K, V>(base: map<K, V>, changes: map<K, V>)
    ensures MergedBut(base, changes, changes.Keys) == base
  {
    assert changes - changes.Keys == map[];
  }

  lemma MergeEnds<K, V>(base: map<K, V>, changes: map<K, V>)
    ensures MergedBut(base, changes, {}) == base + changes
  {
    assert changes - {} == changes;
  }

  /** The map with every change put in, and how many there were. */
  method InsertAll<K, V>(base: map<K, V>, changes: map<K, V>) returns (merged: map<K, V>, count: nat)
    ensures merged == base + changes && count == |changes|
  {
    merged, count := base, 0;
    var left := changes.Keys;
    MergeStarts(base, changes);
    MergeEnds(base, changes);
    while left != {}
      invariant left <= changes.Keys && count + |left| == |changes.Keys|
      invariant merged == MergedBut(base, changes, left)
      decreases left
    {
      var d :| d in left;
      MergeStep(base, changes, left, d);
      merged, count := merged[d := changes[d]], count + 1;
      left := left - {d};
    }
  }
}
