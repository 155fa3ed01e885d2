/** The account wipe and the probe that looks for leftovers of an account. */
module AccountWipe {
  import opened ByteStrings
  import opened BatchWire
  import opened PddbServer
  import opened Buffering
  import opened SessionBundle
  import opened SessionModel
  import opened PddbStore

  // ---- dictionaries ----

  function ProtocolDicts(identity: IdentityType): (dicts: seq<Name>)
    ensures |dicts| == 7 && dicts[0] == DictSession(identity)
    ensures forall d :: d in dicts ==> |d| <= 33
  {
    [DictSession(identity), ProtocolDict(identity, "identity"), ProtocolDict(identity, "prekey_bundle"),
     ProtocolDict(identity, "signed_prekey"), ProtocolDict(identity, "kyber_prekey"),
     ProtocolDict(identity, "kyber_meta"), ProtocolDict(identity, "sender_key")]
  }

  function ContentsDicts(): seq<Name> {
    [Ascii("signal.contacts"), Ascii("signal.groups"), Ascii("signal.group_avatars"),
     Ascii("signal.profiles"), Ascii("signal.profile_keys"), Ascii("signal.profile_avatars")]
  }

  function StateDict(): (dict: Name)
    ensures |dict| == 12
  {
    Ascii("signal.state")
  }

  /** What the probe looks at: account state and both identities' protocol data. */
  function AccountDicts(): (dicts: seq<Name>)
    ensures forall d :: d in dicts ==> |d| <= DICT_NAME_LEN - 1
  {
    [StateDict()] + ProtocolDicts(Aci) + ProtocolDicts(Pni)
  }

  /** The order in which a wipe goes. */
  function WipeOrder(): seq<Name> {
    [StateDict()] + ContentsDicts() + ProtocolDicts(Aci) + ProtocolDicts(Pni)
  }

  /** One identity's data: sessions, identity keys, the three kinds of pre-keys, the
      base keys seen, and sender keys. */
  predicate IsProtocolContent(content: string) {
    || content == "session" || content == "identity" || content == "prekey_bundle" || content == "signed_prekey"
    || content == "kyber_prekey" || content == "kyber_meta" || content == "sender_key"
  }

  ghost predicate IsAccountDict(dict: Name) {
    dict == Ascii("signal.state")
    || exists identity: IdentityType, content ::
         IsProtocolContent(content) && dict == Ascii("signal.protocol." + AsStr(identity) + "." + content)
  }

  predicate IsContactDict(dict: Name) {
    || dict == Ascii("signal.contacts") || dict == Ascii("signal.groups") || dict == Ascii("signal.group_avatars")
    || dict == Ascii("signal.profiles") || dict == Ascii("signal.profile_keys")
    || dict == Ascii("signal.profile_avatars")
  }

  lemma ProtocolDictsListed(identity: IdentityType, dict: Name)
    ensures dict in ProtocolDicts(identity) <==>
            exists content :: IsProtocolContent(content) && dict == ProtocolDict(identity, content)
  {
    if dict in ProtocolDicts(identity) { var content := ContentOf(identity, dict); }
  }

  lemma ContentOf(identity: IdentityType, dict: Name) returns (content: string)
    requires dict in ProtocolDicts(identity)
    ensures IsProtocolContent(content) && dict == ProtocolDict(identity, content)
  {
    content := if dict == ProtocolDict(identity, "session") then "session"
    else if dict == ProtocolDict(identity, "identity") then "identity"
    else if dict == ProtocolDict(identity, "prekey_bundle") then "prekey_bundle"
    else if dict == ProtocolDict(identity, "signed_prekey") then "signed_prekey"
    else if dict == ProtocolDict(identity, "kyber_prekey") then "kyber_prekey"
    else if dict == ProtocolDict(identity, "kyber_meta") then "kyber_meta" else "sender_key";
  }

  /** The probe looks at the account state and at both identities' data, and a wipe
      goes over these and the contact data: nothing else, and nothing less. */
  lemma DictsListed(dict: Name)
    ensures dict in AccountDicts() <==> IsAccountDict(dict)
    ensures dict in WipeOrder() <==> IsAccountDict(dict) || IsContactDict(dict)
  {
    ProtocolDictsListed(Aci, dict);
    ProtocolDictsListed(Pni, dict);
    var contents := ContentsDicts();
    assert dict in contents <==> IsContactDict(dict);
    assert IsAccountDict(dict) <==> dict == StateDict() || dict in ProtocolDicts(Aci) || dict in ProtocolDicts(Pni);
  }

  lemma SessionDictsAreAccount()
    ensures HasSessionDicts(AccountDicts()) && HasSessionDicts(WipeOrder())
  {
    assert DictSession(Aci) in ProtocolDicts(Aci) && DictSession(Pni) in ProtocolDicts(Pni);
  }

  predicate HasSessionDicts(dicts: seq<Name>) {
    DictSession(Aci) in dicts && DictSession(Pni) in dicts
  }

  // ---- deleting dictionaries, one after the other ----

  /** After deleting the first `n` of them, in order. */
  function Deleted(b: BufState, dicts: seq<Name>, n: nat): BufState
    requires n <= |dicts|
  {
    if n == 0 then b else Step(Deleted(b, dicts, n - 1), DeleteDictOp(dicts[n - 1]))
  }

  predicate Among(dict: Name, dicts: seq<Name>, n: nat)
    requires n <= |dicts|
  {
    exists i :: 0 <= i < n && dicts[i] == dict
  }

  /** Nothing of those dictionaries is left, in the buffer or below it, and
      everything else is. */
  lemma {:induction false} DeletedExactly(b: BufState, dicts: seq<Name>, n: nat, loc: Loc)
    requires n <= |dicts|
    ensures At(Deleted(b, dicts, n).kv, loc) == if Among(loc.dict, dicts, n) then None else At(b.kv, loc)
    ensures loc in Deleted(b, dicts, n).buffer <==> loc in b.buffer && !Among(loc.dict, dicts, n)
    ensures loc in Deleted(b, dicts, n).buffer ==> Deleted(b, dicts, n).buffer[loc] == b.buffer[loc]
    ensures Deleted(b, dicts, n).batching == b.batching
  {
    if n > 0 {
      DeletedExactly(b, dicts, n - 1, loc);
      assert Among(loc.dict, dicts, n) <==> Among(loc.dict, dicts, n - 1) || loc.dict == dicts[n - 1];
    }
  }

  // ---- wiped, and staying so ----

  /** No key of these dictionaries anywhere a later step could bring back. */
  ghost predicate Wiped(s: Snap, dicts: seq<Name>) {
    && s.backend.Valid() && s.cache == map[] && s.dirty == {}
    && forall loc: Loc :: loc.dict in dicts ==> loc !in s.View() && loc !in s.backend.kv
  }

  lemma ClearedKeepsValid(b: BufState, dicts: seq<Name>)
    requires b.Valid()
    ensures Deleted(b, dicts, |dicts|).Valid() && Deleted(b, dicts, |dicts|).batching == b.batching
  {
    DeletedExactly(b, dicts, |dicts|, Loc([], []));
    forall loc | loc in Deleted(b, dicts, |dicts|).buffer ensures loc in b.buffer {
      DeletedExactly(b, dicts, |dicts|, loc);
    }
  }

  lemma ClearedIsWiped(s: Snap, s': Snap, dicts: seq<Name>)
    requires s.backend.Valid() && HasSessionDicts(dicts)
    requires s' == Snap(s.legacy, Deleted(s.backend, dicts, |dicts|), map[], {})
    ensures Wiped(s', dicts) && Wipes(s, s')
  {
    ClearedKeepsValid(s.backend, dicts);
    forall loc: Loc | loc.dict in dicts ensures loc !in s'.backend.kv && loc !in s'.View() {
      DeletedExactly(s.backend, dicts, |dicts|, loc);
      assert Among(loc.dict, dicts, |dicts|);
    }
  }

  /** Steps that write no new protocol or state data: everything but storing a
      session and putting a value into one of the dictionaries. */
  predicate WritesNothingInto(dicts: seq<Name>, op: SessionOp) {
    && !op.Store? && !op.Wipe?
    && (op.Elsewhere? && op.op.PutOp? ==> op.op.loc.dict !in dicts)
  }

  lemma ElsewhereStaysWiped(s: Snap, op: KvOp, s': Snap, dicts: seq<Name>)
    requires Wiped(s, dicts) && WritesElsewhere(s, op, s') && (op.PutOp? ==> op.loc.dict !in dicts)
    ensures Wiped(s', dicts)
  {
    match op
    case PutOp(loc, value) => StepView(s.backend, loc, value);
    case DeleteOp(loc) => StepView(s.backend, loc, []);
    case DeleteDictOp(dict) => OverlayDeleteDict(s.backend.kv, s.backend.buffer, dict);
  }

  lemma LoadFindsNothing(s: Snap, k: SessionKey, found: Option<Record>, s': Snap, dicts: seq<Name>)
    requires Wiped(s, dicts) && HasSessionDicts(dicts) && Loads(s, k, found, s')
    ensures found == None && s' == s
  {
    forall o ensures Stored(s.legacy, s.View(), o) == None {
      assert SessionLoc(o.identity, o.name).dict in dicts;
    }
    assert s'.cache == map[];
  }

  lemma WriteStaysWiped(s: Snap, s': Snap, dicts: seq<Name>)
    requires Wiped(s, dicts) && BackendWrites(s, s') && NoNewKeys(s, s') && s'.cache == map[] && s'.dirty == {}
    ensures Wiped(s', dicts)
  {
    if !s'.backend.batching { UnbatchedView(s'.backend); }
  }

  lemma NextStaysWiped(t: Tracked, op: SessionOp, t': Tracked, dicts: seq<Name>)
    requires Wiped(t.s, dicts) && HasSessionDicts(dicts) && Next(t, op, t') && WritesNothingInto(dicts, op)
    ensures Wiped(t'.s, dicts)
  {
    var s, s' := t.s, t'.s;
    match op
    case Load(k, found) => LoadFindsNothing(s, k, found, s', dicts);
    case Flush(n) => FlushStaysWiped(s, n, s', dicts);
    case Delete(k) => DeleteStaysWiped(s, k, s', dicts);
    case DeleteAll(identity, name, n) => DeleteAllStaysWiped(s, identity, name, n, s', dicts);
    case Elsewhere(kvOp) => ElsewhereStaysWiped(s, kvOp, s', dicts);
    case _ => BatchEdgeStaysWiped(t, op, t', dicts);
  }

  lemma FlushStaysWiped(s: Snap, n: nat, s': Snap, dicts: seq<Name>)
    requires Wiped(s, dicts) && Flushes(s, n, s')
    ensures Wiped(s', dicts)
  {
    assert s.dirty * s.cache.Keys == {};
    WriteStaysWiped(s, s', dicts);
  }

  lemma DeleteStaysWiped(s: Snap, k: SessionKey, s': Snap, dicts: seq<Name>)
    requires Wiped(s, dicts) && Deletes(s, k, s')
    ensures Wiped(s', dicts)
  {
    assert s'.cache == map[] && s'.dirty == {};
    WriteStaysWiped(s, s', dicts);
  }

  lemma DeleteAllStaysWiped(s: Snap, identity: IdentityType, name: Name, n: nat, s': Snap, dicts: seq<Name>)
    requires Wiped(s, dicts) && DeletesAll(s, identity, name, n, s')
    ensures Wiped(s', dicts)
  {
    assert s'.cache == map[] && s'.dirty == {};
    WriteStaysWiped(s, s', dicts);
  }

  ghost predicate KeptOut(b: BufState, dicts: seq<Name>) {
    forall loc: Loc :: loc.dict in dicts ==> loc !in b.View() && loc !in b.kv
  }

  lemma EdgeKeepsOut(b: BufState, op: KvOp, dicts: seq<Name>)
    requires KeptOut(b, dicts) && b.Valid() && (op.Begin? || op.Commit? || op.Abort?)
    ensures KeptOut(Step(b, op), dicts) && Step(b, op).Valid()
  {
    OverlayNothing(b.kv);
    OverlayNothing(b.View());
  }

  lemma BatchEdgeStaysWiped(t: Tracked, op: SessionOp, t': Tracked, dicts: seq<Name>)
    requires Wiped(t.s, dicts) && Next(t, op, t') && (op.OpenBatch? || op.CommitBatch? || op.AbortBatch?)
    ensures Wiped(t'.s, dicts)
  {
    var kvOp := if op.OpenBatch? then Begin else if op.CommitBatch? then Commit else Abort;
    assert KeptOut(t.s.backend, dicts);
    EdgeKeepsOut(t.s.backend, kvOp, dicts);
    assert t'.s == t.s.(backend := Step(t.s.backend, kvOp));
    assert KeptOut(t'.s.backend, dicts);
  }

  /** Once wiped, an account stays wiped through every later flush, load,
      delete, batch, commit or abort that writes no new account data. */
  lemma AccountStaysWiped(states: seq<Tracked>, ops: seq<SessionOp>, i: nat)
    requires IsRun(states, ops) && i <= |ops| && Wiped(states[0].s, AccountDicts())
    requires forall j :: 0 <= j < |ops| ==> WritesNothingInto(AccountDicts(), ops[j])
    ensures Wiped(states[i].s, AccountDicts())
  {
    SessionDictsAreAccount();
    var dicts := AccountDicts();
    forall t: Tracked, op, t' | Wiped(t.s, dicts) && WritesNothingInto(dicts, op) && Next(t, op, t')
      ensures Wiped(t'.s, dicts)
    {
      NextStaysWiped(t, op, t', dicts);
    }
    RunInduction(states, ops, i, (t: Tracked) => Wiped(t.s, dicts), op => WritesNothingInto(dicts, op));
  }

  // ---- the operations ----

  /** Deletes every dictionary in turn and only then empties cache and dirty set;
      an error leaves those two as they were and the rest of the order undone. */
  method Clear(st: PddbStore) returns (r: Result<(), StoreError>)
    requires st.Valid()
    modifies st, st.backend, st.backend.inner.server
    ensures st.Valid()
    ensures r.Ok? ==> Wiped(st.Snapshot(), AccountDicts()) && Wipes(old(st.Snapshot()), st.Snapshot())
    ensures r.Ok? ==> forall loc: Loc :: IsAccountDict(loc.dict) || IsContactDict(loc.dict) ==>
                        loc !in st.Snapshot().View() && loc !in st.Snapshot().backend.kv
    ensures r.Err? ==> st.cache == old(st.cache) && st.dirty == old(st.dirty)
    ensures r.Err? ==> StoppedWithin(old(st.backend.State()), WipeOrder(), st.backend.State())
    ensures st.Reliable() ==> r.Ok?
  {
    SessionDictsAreAccount();
    r := ClearDicts(st, WipeOrder());
    if r.Ok? {
      WipedAccount(st.Snapshot());
      forall loc: Loc | IsAccountDict(loc.dict) || IsContactDict(loc.dict) ensures loc.dict in WipeOrder() {
        DictsListed(loc.dict);
      }
    }
  }

  method ClearDicts(st: PddbStore, dicts: seq<Name>) returns (r: Result<(), StoreError>)
    requires st.Valid() && HasSessionDicts(dicts)
    modifies st, st.backend, st.backend.inner.server
    ensures st.Valid()
    ensures r.Ok? ==> Wiped(st.Snapshot(), dicts) && Wipes(old(st.Snapshot()), st.Snapshot())
    ensures r.Err? ==> st.cache == old(st.cache) && st.dirty == old(st.dirty)
    ensures r.Err? ==> StoppedWithin(old(st.backend.State()), dicts, st.backend.State())
    ensures st.Reliable() ==> r.Ok?
  {
    r := DeleteDicts(st, dicts);
    if r.Err? { return; }
    st.cache := map[];
    st.dirty := {};
    ClearedIsWiped(old(st.Snapshot()), st.Snapshot(), dicts);
  }

  /** A prefix of the dictionaries is gone below. */
  ghost predicate StoppedWithin(b: BufState, dicts: seq<Name>, b': BufState) {
    exists n: nat :: n < |dicts| && b'.kv == Deleted(b, dicts, n).kv
  }

  method DeleteDicts(st: PddbStore, dicts: seq<Name>) returns (r: Result<(), StoreError>)
    requires st.Valid()
    modifies st.backend, st.backend.inner.server
    ensures st.Valid()
    ensures r.Ok? ==> st.backend.State() == Deleted(old(st.backend.State()), dicts, |dicts|)
    ensures r.Err? ==> StoppedWithin(old(st.backend.State()), dicts, st.backend.State())
    ensures st.Reliable() ==> r.Ok?
  {
    for i := 0 to |dicts|
      invariant st.Valid()
      invariant st.backend.State() == Deleted(old(st.backend.State()), dicts, i)
    {
      var deleted := st.backend.DeleteDict(dicts[i]);
      if deleted.Err? { return Err(Backend(deleted.error)); }
    }
    return Ok(());
  }

  lemma WipedAccount(s: Snap)
    requires Wiped(s, WipeOrder())
    ensures Wiped(s, AccountDicts())
  {
    assert forall dict :: dict in AccountDicts() ==> dict in WipeOrder();
  }

  ghost predicate HoldsIn(kv: KvMap, dict: Name) {
    exists loc :: loc in kv && loc.dict == dict
  }

  ghost predicate HoldsAny(kv: KvMap, dicts: seq<Name>) {
    exists i :: 0 <= i < |dicts| && HoldsIn(kv, dicts[i])
  }

  lemma HoldsAnyKey(kv: KvMap)
    ensures HoldsAny(kv, AccountDicts()) <==> exists loc: Loc :: loc in kv && IsAccountDict(loc.dict)
  {
    var dicts := AccountDicts();
    if HoldsAny(kv, dicts) {
      var i :| 0 <= i < |dicts| && HoldsIn(kv, dicts[i]);
      var loc :| loc in kv && loc.dict == dicts[i];
      DictsListed(loc.dict);
    }
    if loc: Loc :| loc in kv && IsAccountDict(loc.dict) {
      DictsListed(loc.dict);
      var i :| 0 <= i < |dicts| && dicts[i] == loc.dict;
      assert HoldsIn(kv, dicts[i]);
    }
  }

  /** Looks for any key of an account dictionary. A dictionary that cannot be
      listed counts as empty, so only a reliable backend makes "no" certain. */
  method HasAccountState(st: PddbStore) returns (found: bool)
    requires st.Valid()
    ensures found ==> HoldsAny(st.Snapshot().View(), AccountDicts())
    ensures st.Reliable() ==>
              (found <==> exists loc: Loc :: loc in st.Snapshot().View() && IsAccountDict(loc.dict))
    ensures Wiped(st.Snapshot(), AccountDicts()) ==> !found
  {
    found := AnyKeyIn(st, AccountDicts());
    HoldsAnyKey(st.Snapshot().View());
  }

  method AnyKeyIn(st: PddbStore, dicts: seq<Name>) returns (found: bool)
    requires st.Valid() && forall i :: 0 <= i < |dicts| ==> |dicts[i]| <= DICT_NAME_LEN - 1
    ensures found ==> HoldsAny(st.Snapshot().View(), dicts)
    ensures st.Reliable() ==> (found <==> HoldsAny(st.Snapshot().View(), dicts))
  {
    hide HoldsIn;
    for i := 0 to |dicts|
      invariant st.Reliable() ==> forall j :: 0 <= j < i ==> !HoldsIn(st.Snapshot().View(), dicts[j])
    {
      var here := AnyKeyOf(st, dicts[i]);
      if here { return true; }
    }
    return false;
  }

  method AnyKeyOf(st: PddbStore, dict: Name) returns (found: bool)
    requires st.Valid() && |dict| <= DICT_NAME_LEN - 1
    ensures found ==> HoldsIn(st.Snapshot().View(), dict)
    ensures st.Reliable() ==> (found <==> HoldsIn(st.Snapshot().View(), dict))
  {
    var keys := st.backend.ListKeys(dict);
    if keys.Err? { return false; }
    ListedOrNot(keys.value, st.Snapshot().View(), dict);
    return keys.value != [];
  }

  lemma ListedOrNot(names: seq<Name>, kv: KvMap, dict: Name)
    requires Enumerates(names, kv, dict)
    ensures names != [] <==> HoldsIn(kv, dict)
  {
    forall loc | loc in kv && loc.dict == dict ensures loc.key in names {
      assert loc == Loc(dict, loc.key);
    }
    if names != [] {
      assert names[0] in names;
      assert Loc(dict, names[0]) in kv;
    }
  }
}
