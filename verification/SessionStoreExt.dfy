/** Bulk session operations: deletion from cache and backend together, and the
    listing of an address's other devices. */
module SessionStoreExt {
  import opened Basics
  import opened ByteStrings
  import opened PddbServer
  import opened Buffering
  import opened SessionBundle
  import opened SessionModel
  import opened PddbStore
  import opened Sorting

  const DEFAULT_DEVICE_ID := 1

  // ---- what a deletion leaves ----

  function Without(s: Snap, k: SessionKey): Snap {
    s.(cache := s.cache - {k}, dirty := s.dirty - {k})
  }

  function WithoutAddress(s: Snap, identity: IdentityType, name: Name): Snap {
    s.(cache := map k | k in s.cache && !Of(k, identity, name) :: s.cache[k],
       dirty := set k | k in s.dirty && (k !in s.cache || !Of(k, identity, name)))
  }

  /** After an error the cache and dirty set have let go already; the backend is
      as it was, or outside a batch its one address is in doubt. */
  ghost predicate DeleteStops(mid: Snap, identity: IdentityType, name: Name, now: Snap) {
    now == mid || AddressInDoubt(mid, identity, name, now)
  }

  lemma BundleWithoutDevice(s: Snap, k: SessionKey, bundle: Bundle, now: Snap)
    requires BundleOf(s.legacy, s.View(), k.identity, k.name) == Some(bundle)
             && SessionLoc(k.identity, k.name) in s.View()
    requires AddressWritten(Without(s, k), k.identity, k.name, bundle - {k.device}, now)
    ensures Deletes(s, k, now)
  {
    assert Without(s, k).View() == s.View();
    forall o ensures Stored(s.legacy, now.View(), o) == if o == k then None else Stored(s.legacy, s.View(), o) {
      if Of(o, k.identity, k.name) {
        assert o.device == k.device ==> o == k;
      }
    }
  }

  /** The devices an address has a session for, cached or stored. */
  predicate AddressDevices(devices: set<DeviceId>, s: Snap, identity: IdentityType, name: Name) {
    forall d :: d in devices <==> s.Session(SessionKey(identity, name, d)).Some?
  }

  lemma CountDevices(s: Snap, identity: IdentityType, name: Name, bundle: Bundle, cached: set<DeviceId>)
    requires BundleOf(s.legacy, s.View(), identity, name) == Some(bundle)
    requires forall d :: d in cached <==> SessionKey(identity, name, d) in s.cache
    ensures AddressDevices(cached + bundle.Keys, s, identity, name)
  {
  }

  lemma AddressGone(s: Snap, identity: IdentityType, name: Name, devices: set<DeviceId>, now: Snap)
    requires s.backend.Valid() && AddressDevices(devices, s, identity, name)
    requires AddressWritten(WithoutAddress(s, identity, name), identity, name, map[], now)
    requires SessionLoc(identity, name) !in now.View()
    ensures DeletesAll(s, identity, name, |devices|, now)
  {
    var mid := WithoutAddress(s, identity, name);
    assert mid.View() == s.View();
    assert BackendWrites(s, now) && OthersKept(s, now);
  }

  lemma AbsentAddressWritten(s: Snap, identity: IdentityType, name: Name)
    requires s.backend.Valid() && SessionLoc(identity, name) !in s.View()
    ensures AddressWritten(s, identity, name, map[], s)
  {
    assert BundleOf(s.legacy, s.View(), identity, name) == Some(map[]);
  }

  lemma AddressDeleted(s: Snap, identity: IdentityType, name: Name, now: Snap)
    requires s.backend.Valid() && now == s.(backend := Step(s.backend, DeleteOp(SessionLoc(identity, name))))
    ensures AddressWritten(s, identity, name, map[], now) && SessionLoc(identity, name) !in now.View()
  {
    StepView(s.backend, SessionLoc(identity, name), []);
    OneAddressChanged(s.legacy, s.View(), now.View(), identity, name);
    assert BundleOf(s.legacy, now.View(), identity, name) == Some(map[]);
    forall i, n | BundleOf(s.legacy, s.View(), i, n).Some? ensures BundleOf(s.legacy, now.View(), i, n).Some? {
      assert i != identity || n != name ==> BundleOf(s.legacy, now.View(), i, n) == BundleOf(s.legacy, s.View(), i, n);
    }
  }

  // ---- the operations ----

  method DeleteAddress(st: PddbStore, identity: IdentityType, name: Name) returns (r: Result<(), StoreError>)
    requires st.Valid()
    modifies st.backend, st.backend.inner.server
    ensures st.Valid()
    ensures r.Ok? ==> AddressWritten(old(st.Snapshot()), identity, name, map[], st.Snapshot())
                      && SessionLoc(identity, name) !in st.Snapshot().View()
    ensures r.Err? ==> st.Snapshot() == old(st.Snapshot())
    ensures st.Reliable() ==> r.Ok?
  {
    ghost var s := st.Snapshot();
    var deleted := st.backend.Delete(SessionLoc(identity, name));
    if deleted.Err? { return Err(Backend(deleted.error)); }
    AddressDeleted(s, identity, name, st.Snapshot());
    return Ok(());
  }

  /** Drops one device's session from cache, dirty set and bundle. */
  method DeleteSession(st: PddbStore, k: SessionKey) returns (r: Result<(), StoreError>)
    requires st.Valid()
    modifies st, st.backend, st.backend.inner.server
    ensures st.Valid()
    ensures r.Ok? ==> Deletes(old(st.Snapshot()), k, st.Snapshot())
    ensures r.Ok? ==> BundleOf(st.legacy, old(st.Snapshot()).View(), k.identity, k.name).Some?
    ensures r.Err? ==> DeleteStops(Without(old(st.Snapshot()), k), k.identity, k.name, st.Snapshot())
    ensures r.Err? && st.Reliable()
            && (SessionLoc(k.identity, k.name) in old(st.Snapshot()).View() ==> Fits(SessionLoc(k.identity, k.name)))
            ==> st.Snapshot() == Without(old(st.Snapshot()), k)
  {
    ghost var s := st.Snapshot();
    st.cache := st.cache - {k};
    st.dirty := st.dirty - {k};
    assert st.Snapshot() == Without(s, k) && st.Snapshot().View() == s.View();
    var got := st.GetBundle(k.identity, k.name);
    if got.Err? { return Err(got.error); }
    if got.value.None? || k.device !in got.value.value {
      return Ok(());
    }
    r := DropDevice(st, k.identity, k.name, k.device, got.value.value);
    if r.Ok? { BundleWithoutDevice(s, k, got.value.value, st.Snapshot()); }
  }

  /** Rewrites an address without one device; an address left without any loses
      its key instead of keeping an empty value. */
  method DropDevice(st: PddbStore, identity: IdentityType, name: Name, device: DeviceId, bundle: Bundle)
    returns (r: Result<(), StoreError>)
    requires st.Valid() && device in bundle
    modifies st.backend, st.backend.inner.server
    ensures st.Valid()
    ensures r.Ok? ==> AddressWritten(old(st.Snapshot()), identity, name, bundle - {device}, st.Snapshot())
    ensures r.Ok? && bundle.Keys == {device} ==> SessionLoc(identity, name) !in st.Snapshot().View()
    ensures r.Err? ==> DeleteStops(old(st.Snapshot()), identity, name, st.Snapshot())
    ensures st.Reliable() && Fits(SessionLoc(identity, name)) ==> r.Ok?
  {
    var rest := bundle - {device};
    assert rest.Keys == bundle.Keys - {device};
    if rest == map[] {
      r := DeleteAddress(st, identity, name);
    } else {
      r := st.PutBundle(identity, name, rest, None);
    }
  }

  /** Drops every device of an address and says how many there were, counting a
      device once however many places held it. */
  method DeleteAllSessions(st: PddbStore, identity: IdentityType, name: Name) returns (r: Result<nat, StoreError>)
    requires st.Valid()
    modifies st, st.backend, st.backend.inner.server
    ensures st.Valid()
    ensures r.Ok? ==> DeletesAll(old(st.Snapshot()), identity, name, r.value, st.Snapshot())
    ensures r.Ok? ==> SessionLoc(identity, name) !in st.Snapshot().View()
    ensures r.Ok? ==> BundleOf(st.legacy, old(st.Snapshot()).View(), identity, name).Some?
    ensures r.Err? ==> st.Snapshot() == WithoutAddress(old(st.Snapshot()), identity, name)
  {
    ghost var s := st.Snapshot();
    var affected := DropCached(st, identity, name);
    ghost var cached := affected;
    assert st.Snapshot() == WithoutAddress(s, identity, name) && st.Snapshot().View() == s.View();
    var got := st.GetBundle(identity, name);
    if got.Err? { return Err(got.error); }
    if got.value.None? {
      AbsentAddressWritten(st.Snapshot(), identity, name);
      CountDevices(s, identity, name, map[], cached);
      AddressGone(s, identity, name, affected, st.Snapshot());
      return Ok(|affected|);
    }
    var bundle := got.value.value;
    affected := affected + bundle.Keys;
    var deleted := DeleteAddress(st, identity, name);
    if deleted.Err? { return Err(deleted.error); }
    CountDevices(s, identity, name, bundle, cached);
    AddressGone(s, identity, name, affected, st.Snapshot());
    return Ok(|affected|);
  }

  /** Takes the address's entries out of cache and dirty set. */
  method DropCached(st: PddbStore, identity: IdentityType, name: Name) returns (affected: set<DeviceId>)
    requires st.Valid()
    modifies st
    ensures st.Valid() && st.Snapshot() == WithoutAddress(old(st.Snapshot()), identity, name)
    ensures forall d :: d in affected <==> SessionKey(identity, name, d) in old(st.cache)
  {
    affected := {};
    var left := st.cache.Keys;
    ghost var cache0, dirty0 := st.cache, st.dirty;
    while left != {}
      invariant left <= cache0.Keys
      invariant forall k :: k in st.cache <==> k in cache0 && (k in left || !Of(k, identity, name))
      invariant forall k :: k in st.cache ==> st.cache[k] == cache0[k]
      invariant forall k :: k in st.dirty <==> k in dirty0 && (k in left || k !in cache0 || !Of(k, identity, name))
      invariant forall d :: d in affected <==> SessionKey(identity, name, d) in cache0.Keys - left
      decreases left
    {
      var k :| k in left;
      left := left - {k};
      if k.identity == identity && k.name == name {
        affected := affected + {k.device};
        st.dirty := st.dirty - {k};
        st.cache := st.cache - {k};
      }
    }
  }

  /** Every other device with a session, ascending and once, of those a device
      number may be; `accepts` is libsignal's check on device numbers. */
  method GetSubDeviceSessions(st: PddbStore, identity: IdentityType, name: Name, accepts: DeviceId -> bool)
    returns (r: Result<seq<DeviceId>, StoreError>)
    requires st.Valid()
    modifies st.backend.inner.server
    ensures st.Valid() && st.Snapshot() == old(st.Snapshot())
    ensures r.Ok? ==> StrictlyAscending(r.value)
    ensures r.Ok? ==> forall d :: d in r.value <==>
                        d != DEFAULT_DEVICE_ID && accepts(d)
                        && st.Snapshot().Session(SessionKey(identity, name, d)).Some?
  {
    var ids: seq<int> := [];
    var left := st.cache.Keys;
    while left != {}
      invariant left <= st.cache.Keys
      invariant forall d: int :: d in ids <==>
                  0 <= d < U32_LIMIT && d != DEFAULT_DEVICE_ID && SessionKey(identity, name, d) in st.cache.Keys - left
      decreases left
    {
      var k :| k in left;
      left := left - {k};
      if k.identity == identity && k.name == name && k.device != DEFAULT_DEVICE_ID { ids := ids + [k.device]; }
    }
    var got := st.GetBundle(identity, name);
    if got.Err? { return Err(got.error); }
    var bundle := if got.value.Some? then got.value.value else map[];
    ids := AddDevices(ids, bundle);
    SortMembers(ids);
    var sorted := Dedup(Sort(ids));
    var out := KeepAccepted(sorted, accepts);
    return Ok(out);
  }

  method AddDevices(ids: seq<int>, bundle: Bundle) returns (r: seq<int>)
    ensures forall d: int :: d in r <==> d in ids || (0 <= d < U32_LIMIT && d in bundle && d != DEFAULT_DEVICE_ID)
  {
    r := ids;
    var devices := bundle.Keys;
    while devices != {}
      invariant devices <= bundle.Keys
      invariant forall d: int :: d in r
                  <==> d in ids || (0 <= d < U32_LIMIT && d in bundle.Keys - devices && d != DEFAULT_DEVICE_ID)
      decreases devices
    {
      var d :| d in devices;
      devices := devices - {d};
      if d != DEFAULT_DEVICE_ID { r := r + [d]; }
    }
  }

  method KeepAccepted(sorted: seq<int>, accepts: DeviceId -> bool) returns (out: seq<DeviceId>)
    requires StrictlyAscending(sorted) && forall d :: d in sorted ==> 0 <= d < U32_LIMIT
    ensures StrictlyAscending(out) && forall d: DeviceId :: d in out <==> d in sorted && accepts(d)
  {
    out := [];
    for i := 0 to |sorted|
      invariant StrictlyAscending(out)
      invariant forall d: DeviceId :: d in out <==> d in sorted[..i] && accepts(d)
      invariant forall d :: d in out && i < |sorted| ==> d < sorted[i]
    {
      assert sorted[i] in sorted;
      assert sorted[..i + 1] == sorted[..i] + [sorted[i]];
      assert forall j :: 0 <= j < |out| ==> out[j] in out;
      if accepts(sorted[i]) { out := out + [sorted[i]]; }
    }
    assert sorted[..|sorted|] == sorted;
  }
}
