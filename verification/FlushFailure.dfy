/** What a flush or a commit that fails leaves behind: which sessions are safe,
    when a retry ends as if nothing had happened, and what a torn write costs. */
module FlushFailure {
  import opened ByteStrings
  import opened PddbServer
  import opened PddbBackend
  import opened Buffering
  import opened SessionBundle
  import opened SessionModel
  import opened PddbStore

  /** The address the flush stopped at still has the value it had. */
  predicate ValueSurvived(s: Snap, identity: IdentityType, name: Name, s': Snap) {
    At(s'.View(), SessionLoc(identity, name)) == At(s.View(), SessionLoc(identity, name))
  }

  lemma SurvivedReadsAlike(s: Snap, done: set<SessionKey>, identity: IdentityType, name: Name, s': Snap)
    requires FlushStops(s, done, identity, name, s') && ValueSurvived(s, identity, name, s')
    ensures forall k :: Stored(s.legacy, s'.View(), k)
              == if k in done then Some(s.cache[k]) else Stored(s.legacy, s.View(), k)
    ensures BundleOf(s.legacy, s'.View(), identity, name) == BundleOf(s.legacy, s.View(), identity, name)
  {
    forall k | Of(k, identity, name) ensures Stored(s.legacy, s'.View(), k) == Stored(s.legacy, s.View(), k) {
      StoredAlike(s.legacy, s.View(), s'.View(), k);
    }
    StoredAlike(s.legacy, s.View(), s'.View(), SessionKey(identity, name, 0));
  }

  /** Over a backend whose failed put leaves its key alone, a failed flush drops
      nothing: every dirty entry is still dirty, no session has changed, and the
      cache is as trustworthy as before. */
  lemma FailedFlushLosesNothing(s: Snap, done: set<SessionKey>, identity: IdentityType, name: Name, s': Snap)
    requires s.Coherent() && Readable(s.legacy, s.View())
    requires FlushStops(s, done, identity, name, s') && ValueSurvived(s, identity, name, s')
    ensures s'.dirty == s.dirty && s'.Coherent() && Readable(s'.legacy, s'.View())
    ensures s'.Sessions() == s.Sessions()
  {
    SurvivedReadsAlike(s, done, identity, name, s');
    forall k ensures s'.Session(k) == s.Session(k) {
      assert k in done ==> k in s.cache;
    }
    SameSessionsSameMap(s, s');
  }

  /** The next successful flush ends as if the first had succeeded, whatever the
      order of the groups in either. */
  lemma RetryEndsTheSame(s: Snap, done: set<SessionKey>, identity: IdentityType, name: Name, s': Snap,
                         n: nat, retried: Snap, m: nat, direct: Snap)
    requires FlushStops(s, done, identity, name, s') && ValueSurvived(s, identity, name, s')
    requires Flushes(s', n, retried) && Flushes(s, m, direct)
    ensures n == m && retried.cache == direct.cache && retried.dirty == direct.dirty == {}
    ensures forall k :: Stored(s.legacy, retried.View(), k) == Stored(s.legacy, direct.View(), k)
    ensures forall loc: Loc :: !IsSessionDict(loc.dict) ==> At(retried.View(), loc) == At(direct.View(), loc)
  {
    SurvivedReadsAlike(s, done, identity, name, s');
    forall k ensures Stored(s.legacy, retried.View(), k) == Stored(s.legacy, direct.View(), k) {
      assert Stored(s'.legacy, retried.View(), k)
          == if k in s'.dirty && k in s'.cache then Some(s'.cache[k]) else Stored(s'.legacy, s'.View(), k);
      assert Stored(s.legacy, direct.View(), k)
          == if k in s.dirty && k in s.cache then Some(s.cache[k]) else Stored(s.legacy, s.View(), k);
    }
    forall loc: Loc | !IsSessionDict(loc.dict) ensures At(retried.View(), loc) == At(direct.View(), loc) {
      assert At(retried.View(), loc) == At(s'.View(), loc) && At(direct.View(), loc) == At(s.View(), loc);
    }
  }

  /** Whatever the failed put did to its key, a session can only be lost if it
      was not cached and belongs to the one address in doubt. */
  lemma LossIsConfined(s: Snap, done: set<SessionKey>, identity: IdentityType, name: Name, s': Snap, k: SessionKey)
    requires FlushStops(s, done, identity, name, s')
    requires k in s.cache || !Of(k, identity, name)
    ensures s'.Session(k) == s.Session(k)
  {
  }

  // ---- when nothing can be lost ----

  /** Every session stored at the address is in the cache. */
  ghost predicate AllCached(s: Snap, identity: IdentityType, name: Name) {
    forall k :: Of(k, identity, name) && Stored(s.legacy, s.View(), k).Some? ==> k in s.cache
  }

  lemma SameSessionsSameMap(s: Snap, s': Snap)
    requires forall k :: s'.Session(k) == s.Session(k)
    ensures s'.Sessions() == s.Sessions()
  {
    forall k ensures MapAt(s'.Sessions(), k) == MapAt(s.Sessions(), k) {
      assert s'.Session(k) == s.Session(k);
    }
    SameSessionMaps(s'.Sessions(), s.Sessions());
  }

  lemma AllCachedLosesNothing(s: Snap, done: set<SessionKey>, identity: IdentityType, name: Name, s': Snap)
    requires FlushStops(s, done, identity, name, s') && AllCached(s, identity, name) && s.legacy([]) == None
    ensures s'.Sessions() == s.Sessions()
  {
    forall k ensures s'.Session(k) == s.Session(k) {
      if k in s.cache || !Of(k, identity, name) {
        LossIsConfined(s, done, identity, name, s', k);
      } else {
        assert Stored(s.legacy, s.View(), k) == None;
      }
    }
    SameSessionsSameMap(s, s');
  }

  /** What the pre-delete alone leaves. */
  function KeyDropped(s: Snap, identity: IdentityType, name: Name): Snap {
    s.(backend := s.backend.(kv := s.backend.kv - {SessionLoc(identity, name)}))
  }

  lemma DroppedStops(s: Snap, identity: IdentityType, name: Name)
    requires s.backend.Valid() && !s.backend.batching
    ensures FlushStops(s, {}, identity, name, KeyDropped(s, identity, name))
    ensures forall k :: Of(k, identity, name) ==> Stored(s.legacy, KeyDropped(s, identity, name).View(), k) == None
  {
    var s' := KeyDropped(s, identity, name);
    OverlayNothing(s.backend.kv);
    OverlayNothing(s'.backend.kv);
    NothingFlushed(s);
    assert AddressInDoubt(s, identity, name, s');
    StopsThere(s, {}, s, identity, name, s');
  }

  lemma UncachedIsLost(s: Snap, identity: IdentityType, name: Name)
    requires s.backend.Valid() && !s.backend.batching && !AllCached(s, identity, name)
    ensures KeyDropped(s, identity, name).Sessions() != s.Sessions()
  {
    DroppedStops(s, identity, name);
    var k :| Of(k, identity, name) && Stored(s.legacy, s.View(), k).Some? && k !in s.cache;
    assert k in s.Sessions() && k !in KeyDropped(s, identity, name).Sessions();
  }

  /** A flush outside a batch that stops at an address can lose no session, however
      far it got and whatever the failing request left, if and only if every
      session stored there is cached before it. */
  lemma NothingLostExactlyWhen(s: Snap, identity: IdentityType, name: Name)
    requires s.backend.Valid() && !s.backend.batching && s.legacy([]) == None
    ensures (forall done, s' :: FlushStops(s, done, identity, name, s') ==> s'.Sessions() == s.Sessions())
            <==> AllCached(s, identity, name)
  {
    if AllCached(s, identity, name) {
      forall done, s' | FlushStops(s, done, identity, name, s') ensures s'.Sessions() == s.Sessions() {
        AllCachedLosesNothing(s, done, identity, name, s');
      }
    } else {
      DroppedStops(s, identity, name);
      UncachedIsLost(s, identity, name);
    }
  }

  function WithKv(s: Snap, kv: KvMap): Snap {
    s.(backend := s.backend.(kv := kv))
  }

  lemma FailedPutStops(s: Snap, identity: IdentityType, name: Name, bytes: Bytes, bundle: Bundle, kv: KvMap)
    requires s.backend.Valid() && !s.backend.batching && IsSerialized(bytes, bundle)
    requires PutFailed(s.backend.kv, kv, SessionLoc(identity, name), bytes)
    ensures FlushStops(s, {}, identity, name, WithKv(s, kv))
  {
    NothingFlushed(s);
    TornAddress(s, identity, name, bytes, bundle, WithKv(s, kv));
    StopsThere(s, {}, s, identity, name, WithKv(s, kv));
  }

  /** The same of the real put and the value it writes: no outcome of its failure
      loses a session if and only if all of them are cached. */
  lemma FailedPutLosesNothingExactlyWhen(s: Snap, identity: IdentityType, name: Name, bytes: Bytes, bundle: Bundle)
    requires s.backend.Valid() && !s.backend.batching && s.legacy([]) == None && IsSerialized(bytes, bundle)
    ensures (forall kv :: PutFailed(s.backend.kv, kv, SessionLoc(identity, name), bytes)
               ==> WithKv(s, kv).Sessions() == s.Sessions())
            <==> AllCached(s, identity, name)
  {
    if AllCached(s, identity, name) {
      forall kv | PutFailed(s.backend.kv, kv, SessionLoc(identity, name), bytes)
        ensures WithKv(s, kv).Sessions() == s.Sessions()
      {
        FailedPutStops(s, identity, name, bytes, bundle, kv);
        AllCachedLosesNothing(s, {}, identity, name, WithKv(s, kv));
      }
    } else {
      UncachedIsLost(s, identity, name);
      var kv := s.backend.kv - {SessionLoc(identity, name)};
      assert WithKv(s, kv) == KeyDropped(s, identity, name);
      assert PutFailed(s.backend.kv, kv, SessionLoc(identity, name), bytes);
    }
  }

  /** A put cut short leaves its address unreadable, not merely poorer: from then
      on no load past the cache, no flush of a dirty session there and no deletion
      can succeed, as their contracts say. */
  lemma TornPutUnreadable(s: Snap, identity: IdentityType, name: Name, bytes: Bytes, bundle: Bundle, n: nat)
    requires s.backend.Valid() && !s.backend.batching && s.legacy([]) == None
    requires IsSerialized(bytes, bundle) && n < |bytes|
    ensures PutFailed(s.backend.kv, s.backend.kv[SessionLoc(identity, name) := bytes[..n]], SessionLoc(identity, name),
                      bytes)
    ensures Unreadable(WithKv(s, s.backend.kv[SessionLoc(identity, name) := bytes[..n]]), (identity, name))
  {
    TornValueUnreadable(bytes, bundle, n, s.legacy);
    OverlayNothing(s.backend.kv[SessionLoc(identity, name) := bytes[..n]]);
  }

  /** No session the store knows is waiting in the buffer, and none that is still
      dirty waits for a flush to bring it below. */
  ghost predicate AllBelow(s: Snap) {
    forall k :: s.Session(k).Some? ==>
      SessionLoc(k.identity, k.name) !in s.backend.buffer
      && (k in s.dirty ==> Stored(s.legacy, s.backend.kv, k) == s.Session(k))
  }

  /** A session that is not in the buffer reads the same before and after. */
  lemma UnbufferedStays(s: Snap, kv: KvMap, k: SessionKey)
    requires AllReplaying(s.backend.kv, s.backend.buffer, kv) && SessionLoc(k.identity, k.name) !in s.backend.buffer
    ensures Stored(s.legacy, kv, k) == Stored(s.legacy, s.backend.kv, k) == Stored(s.legacy, s.View(), k)
  {
    var loc := SessionLoc(k.identity, k.name);
    assert At(kv, loc) == At(s.backend.kv, loc) == At(s.View(), loc);
    StoredAlike(s.legacy, s.View(), kv, k);
    StoredAlike(s.legacy, s.View(), s.backend.kv, k);
  }

  lemma DroppedReplaying(kv: KvMap, buffer: Buffer, loc: Loc)
    requires loc in buffer
    ensures AllReplaying(kv, buffer, kv - {loc})
  {
    assert forall o :: o != loc ==> At(kv - {loc}, o) == At(kv, o);
  }

  lemma CommitLoses(s: Snap, k: SessionKey) returns (kv: KvMap)
    requires s.Inv(true) && s.Session(k).Some?
    requires SessionLoc(k.identity, k.name) in s.backend.buffer
             || (k in s.dirty && Stored(s.legacy, s.backend.kv, k) != s.Session(k))
    ensures AllReplaying(s.backend.kv, s.backend.buffer, kv) && Stored(s.legacy, kv, k) != s.Session(k)
  {
    var loc := SessionLoc(k.identity, k.name);
    if loc in s.backend.buffer {
      kv := s.backend.kv - {loc};
      DroppedReplaying(s.backend.kv, s.backend.buffer, loc);
      assert Stored(s.legacy, kv, k) == None;
    } else {
      kv := s.backend.kv;
    }
  }

  /** A commit leaves every session below, whatever of its replay failed and
      whether or not the flush before it succeeded, if and only if none was in the
      buffer and every dirty one already read the same below: deferring them to the
      commit is what puts them at risk. */
  lemma CommitDurableExactlyWhen(s: Snap)
    requires s.Inv(true)
    ensures (forall kv, k :: AllReplaying(s.backend.kv, s.backend.buffer, kv) && s.Session(k).Some?
                             ==> Stored(s.legacy, kv, k) == s.Session(k))
            <==> AllBelow(s)
  {
    if AllBelow(s) {
      forall kv, k | AllReplaying(s.backend.kv, s.backend.buffer, kv) && s.Session(k).Some?
        ensures Stored(s.legacy, kv, k) == s.Session(k)
      {
        UnbufferedStays(s, kv, k);
      }
    } else {
      var k :| s.Session(k).Some?
               && (SessionLoc(k.identity, k.name) in s.backend.buffer
                   || (k in s.dirty && Stored(s.legacy, s.backend.kv, k) != s.Session(k)));
      var kv := CommitLoses(s, k);
    }
  }

  // ---- two runs in which something is lost ----

  /** A readable value holding one empty record for `device`. */
  function OneSession(device: DeviceId): Bytes {
    [SESSION_BUNDLE_VERSION_BINCODE_V1] + LittleEndian(1, 8) + EncodeEntries([device], map[device := []])
  }

  lemma OneSessionReads(device: DeviceId, legacy: LegacyDecoder)
    ensures Deserialize(OneSession(device), legacy) == Some(map[device := []])
  {
    var bundle: Bundle := map[device := []];
    AnyOrderRoundTrip([device], bundle, []);
    assert OneSession(device)[1..] == LittleEndian(1, 8) + EncodeEntries([device], bundle) + [];
  }

  /** A map holding just that value. */
  function OnlyAddress(name: Name, device: DeviceId): KvMap {
    map[SessionLoc(Aci, name) := OneSession(device)]
  }

  lemma OnlyAddressReads(legacy: LegacyDecoder, name: Name, device: DeviceId)
    ensures Readable(legacy, OnlyAddress(name, device)) && Readable(legacy, map[])
    ensures forall k :: Stored(legacy, OnlyAddress(name, device), k)
              == if k == SessionKey(Aci, name, device) then Some([]) else None
    ensures forall k :: Stored(legacy, map[], k) == None
  {
    OneSessionReads(device, legacy);
    var kv := OnlyAddress(name, device);
    forall i, n
      ensures BundleOf(legacy, kv, i, n) == if i == Aci && n == name then Some(map[device := []]) else Some(map[])
    {
      if SessionLoc(i, n) == SessionLoc(Aci, name) { SessionLocInjective(i, n, Aci, name); }
    }
    forall k ensures Stored(legacy, kv, k) == if k == SessionKey(Aci, name, device) then Some([]) else None {
      assert BundleOf(legacy, kv, k.identity, k.name)
          == if k.identity == Aci && k.name == name then Some(map[device := []]) else Some(map[]);
    }
  }

  /** The pre-delete of a put whose write then fails takes an uncached sibling
      device with it. */
  lemma TornPutLosesSibling(name: Name) returns (s: Snap, s': Snap, lost: SessionKey)
    ensures s.Inv(false) && FlushStops(s, {}, Aci, name, s') && s' == WithKv(s, s'.backend.kv)
    ensures forall bytes :: PutFailed(s.backend.kv, s'.backend.kv, SessionLoc(Aci, name), bytes)
    ensures s.Session(lost).Some? && s'.Session(lost).None?
  {
    var legacy: LegacyDecoder := _ => None;
    var mine := SessionKey(Aci, name, 1);
    lost := SessionKey(Aci, name, 2);
    var kv := OnlyAddress(name, 2);
    OnlyAddressReads(legacy, name, 2);
    OverlayNothing(kv);
    OverlayNothing(map[]);
    s := Snap(legacy, BufState(kv, false, map[]), map[mine := []], {mine});
    s' := s.(backend := BufState(map[], false, map[]));
    assert s.View() == kv && s'.View() == map[];
    OneAddressChanged(legacy, kv, map[], Aci, name);
  }

  /** A commit whose replay fails after an in-batch flush leaves a session clean
      in the cache and nowhere below: the next restart loses it. */
  lemma FailedCommitLosesFlushed(name: Name) returns (s: Snap, s': Snap, k: SessionKey)
    ensures s.Inv(true) && k in s.cache && k !in s.dirty
    ensures s'.backend.Valid() && !s'.backend.batching && s' == s.(backend := s'.backend)
    ensures AllReplaying(s.backend.kv, s.backend.buffer, s'.backend.kv)
    ensures !s'.Coherent() && s'.(cache := map[]).Session(k).None?
  {
    var legacy: LegacyDecoder := _ => None;
    k := SessionKey(Aci, name, 1);
    var buffer: Buffer := map[SessionLoc(Aci, name) := BufPut(OneSession(1))];
    OnlyAddressReads(legacy, name, 1);
    OverlayNothing(map[]);
    s := Snap(legacy, BufState(map[], true, buffer), map[k := []], {});
    s' := s.(backend := BufState(map[], false, map[]));
    assert s.View() == OnlyAddress(name, 1) && s'.View() == map[];
    assert s'.(cache := map[]).View() == map[];
    assert Stored(legacy, s'.View(), k) == None;
  }
}
