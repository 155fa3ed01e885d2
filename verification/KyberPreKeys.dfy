/** The store of post-quantum pre-keys over the batch layer. */
module KyberPreKeys {
  import opened ByteStrings
  import opened BatchWire
  import opened PddbServer
  import opened PddbBackend
  import opened Buffering
  import opened Numerals
  import SessionModel
  import opened KyberModel
  import AccountWipe

  /** What the envelope's JSON does, of which only the round trip is known. */
  datatype Codec = Codec(encode: Envelope -> Bytes, decode: Bytes -> Option<Envelope>) {
    ghost predicate RoundTrips() {
      forall e :: decode(encode(e)) == Some(e)
    }
  }

  // ---- the places on disk ----

  /** One identity's dictionaries: of pre-keys, and of base keys seen. */
  datatype Dicts = Dicts(keys: Name, memory: Name) {
    predicate Valid() {
      keys != memory && 1 <= |keys| <= DICT_NAME_LEN - 1 && 1 <= |memory| <= DICT_NAME_LEN - 1
    }
  }

  function DictsOf(identity: SessionModel.IdentityType): (dicts: Dicts)
    ensures dicts.Valid()
  {
    Dicts(SessionModel.ProtocolDict(identity, "kyber_prekey"), SessionModel.ProtocolDict(identity, "kyber_meta"))
  }

  function KeyLoc(dicts: Dicts, id: U32): Loc {
    Loc(dicts.keys, DecimalName(id))
  }

  function MetaLoc(dicts: Dicts, id: U32, ec: U32): Loc {
    Loc(dicts.memory, DottedName(id, ec))
  }

  /** Where the documented schema puts them: keys under the decimal identifier, base
      keys under both identifiers around a dot. */
  lemma PlacesNamed(identity: SessionModel.IdentityType, id: U32, ec: U32)
    ensures var prefix := "signal.protocol." + (if identity.Aci? then "aci" else "pni");
            KeyLoc(DictsOf(identity), id) == Loc(Ascii(prefix + ".kyber_prekey"), DecimalName(id))
            && MetaLoc(DictsOf(identity), id, ec) == Loc(Ascii(prefix + ".kyber_meta"), DottedName(id, ec))
  {
    hide DecimalName, DottedName;
    var prefix := "signal.protocol." + (if identity.Aci? then "aci" else "pni");
    assert prefix + "." + "kyber_prekey" == prefix + ".kyber_prekey";
    assert prefix + "." + "kyber_meta" == prefix + ".kyber_meta";
  }

  lemma KeyLocInjective(dicts: Dicts, id: U32, id': U32)
    requires KeyLoc(dicts, id) == KeyLoc(dicts, id')
    ensures id == id'
  {
    DecimalInjective(id, id');
  }

  lemma MetaLocInjective(dicts: Dicts, id: U32, ec: U32, id': U32, ec': U32)
    requires MetaLoc(dicts, id, ec) == MetaLoc(dicts, id', ec')
    ensures id == id' && ec == ec'
  {
    DottedInjective(id, ec, id', ec');
  }

  lemma PlacesFit(dicts: Dicts, id: U32, ec: U32)
    requires dicts.Valid()
    ensures Fits(KeyLoc(dicts, id)) && Fits(MetaLoc(dicts, id, ec))
  {
    DecimalU32(id);
    DecimalU32(ec);
  }

  // ---- the state it stands for ----

  ghost function KyberOf(codec: Codec, dicts: Dicts, kv: KvMap): Kyber {
    Kyber(imap id: U32 | KeyLoc(dicts, id) in kv :: codec.decode(kv[KeyLoc(dicts, id)]),
          imap p: Pair | MetaLoc(dicts, p.id, p.ec) in kv :: kv[MetaLoc(dicts, p.id, p.ec)])
  }

  ghost function KeysIn(dicts: Dicts, buffer: Buffer): iset<U32> {
    iset id: U32 | KeyLoc(dicts, id) in buffer
  }

  ghost function PairsIn(dicts: Dicts, buffer: Buffer): iset<Pair> {
    iset p: Pair | MetaLoc(dicts, p.id, p.ec) in buffer
  }

  /** The state the batch layer stands for. */
  ghost function StateOf(codec: Codec, dicts: Dicts, b: BufState): KyberState {
    KyberState(KyberOf(codec, dicts, b.View()),
               if b.batching
               then Some(Batch(KyberOf(codec, dicts, b.kv), KeysIn(dicts, b.buffer), PairsIn(dicts, b.buffer)))
               else None)
  }

  // ---- how writes show ----

  lemma KeysAlike(codec: Codec, dicts: Dicts, a: KvMap, b: KvMap)
    requires forall id: U32 :: At(a, KeyLoc(dicts, id)) == At(b, KeyLoc(dicts, id))
    ensures KyberOf(codec, dicts, a).keys == KyberOf(codec, dicts, b).keys
  {
  }

  lemma MemoryAlike(codec: Codec, dicts: Dicts, a: KvMap, b: KvMap)
    requires forall p: Pair :: At(a, MetaLoc(dicts, p.id, p.ec)) == At(b, MetaLoc(dicts, p.id, p.ec))
    ensures KyberOf(codec, dicts, a).memory == KyberOf(codec, dicts, b).memory
  {
  }

  lemma KeyAlike(codec: Codec, dicts: Dicts, a: KvMap, b: KvMap, id: U32)
    requires At(a, KeyLoc(dicts, id)) == At(b, KeyLoc(dicts, id))
    ensures SameKeyAt(KyberOf(codec, dicts, a), id, KyberOf(codec, dicts, b))
  {
  }

  lemma PairAlike(codec: Codec, dicts: Dicts, a: KvMap, b: KvMap, p: Pair)
    requires At(a, MetaLoc(dicts, p.id, p.ec)) == At(b, MetaLoc(dicts, p.id, p.ec))
    ensures SameMemoryAt(KyberOf(codec, dicts, a), p, KyberOf(codec, dicts, b))
  {
  }

  lemma KeyLocsDiffer(dicts: Dicts, id: U32, o: U32)
    requires o != id
    ensures KeyLoc(dicts, o) != KeyLoc(dicts, id)
  {
    if KeyLoc(dicts, o) == KeyLoc(dicts, id) { KeyLocInjective(dicts, o, id); }
  }

  lemma MetaLocsDiffer(dicts: Dicts, p: Pair, q: Pair)
    requires q != p
    ensures MetaLoc(dicts, q.id, q.ec) != MetaLoc(dicts, p.id, p.ec)
  {
    if MetaLoc(dicts, q.id, q.ec) == MetaLoc(dicts, p.id, p.ec) { MetaLocInjective(dicts, q.id, q.ec, p.id, p.ec); }
  }

  /** A write under one key identifier changes that key and no memory. */
  lemma KeyWritten(codec: Codec, dicts: Dicts, kv: KvMap, kv': KvMap, id: U32)
    requires dicts.Valid() && forall loc :: loc != KeyLoc(dicts, id) ==> At(kv', loc) == At(kv, loc)
    ensures SameKeysBut(KyberOf(codec, dicts, kv), id, KyberOf(codec, dicts, kv'))
  {
    forall o: U32 | o != id ensures SameKeyAt(KyberOf(codec, dicts, kv), o, KyberOf(codec, dicts, kv')) {
      KeyLocsDiffer(dicts, id, o);
      KeyAlike(codec, dicts, kv, kv', o);
    }
    forall p: Pair ensures At(kv', MetaLoc(dicts, p.id, p.ec)) == At(kv, MetaLoc(dicts, p.id, p.ec)) {
      assert MetaLoc(dicts, p.id, p.ec).dict != KeyLoc(dicts, id).dict;
    }
    MemoryAlike(codec, dicts, kv', kv);
  }

  lemma KeyPut(codec: Codec, dicts: Dicts, kv: KvMap, id: U32, envelope: Envelope)
    requires dicts.Valid() && codec.RoundTrips()
    ensures var s := KyberOf(codec, dicts, kv);
            var s' := KyberOf(codec, dicts, kv[KeyLoc(dicts, id) := codec.encode(envelope)]);
            s' == s.(keys := s.keys[id := Some(envelope)])
  {
    var s, s' := KyberOf(codec, dicts, kv), KyberOf(codec, dicts, kv[KeyLoc(dicts, id) := codec.encode(envelope)]);
    KeyWritten(codec, dicts, kv, kv[KeyLoc(dicts, id) := codec.encode(envelope)], id);
    forall o: U32 | o != id ensures (o in s'.keys <==> o in s.keys) && (o in s.keys ==> s'.keys[o] == s.keys[o]) {
      assert SameKeyAt(s, o, s');
    }
    assert s'.keys == s.keys[id := Some(envelope)];
  }

  lemma KeyDeleted(codec: Codec, dicts: Dicts, kv: KvMap, id: U32)
    requires dicts.Valid()
    ensures var s := KyberOf(codec, dicts, kv);
            KyberOf(codec, dicts, kv - {KeyLoc(dicts, id)}) == s.(keys := s.keys - {id})
  {
    var s, s' := KyberOf(codec, dicts, kv), KyberOf(codec, dicts, kv - {KeyLoc(dicts, id)});
    KeyWritten(codec, dicts, kv, kv - {KeyLoc(dicts, id)}, id);
    forall o: U32 | o != id ensures (o in s'.keys <==> o in s.keys) && (o in s.keys ==> s'.keys[o] == s.keys[o]) {
      assert SameKeyAt(s, o, s');
    }
    assert s'.keys == s.keys - {id};
  }

  /** A write under one pair changes that pair's memory and no key. */
  lemma MemoryWritten(codec: Codec, dicts: Dicts, kv: KvMap, kv': KvMap, id: U32, ec: U32)
    requires dicts.Valid() && forall loc :: loc != MetaLoc(dicts, id, ec) ==> At(kv', loc) == At(kv, loc)
    ensures SameMemoryBut(KyberOf(codec, dicts, kv), Pair(id, ec), KyberOf(codec, dicts, kv'))
  {
    forall q: Pair | q != Pair(id, ec) ensures SameMemoryAt(KyberOf(codec, dicts, kv), q, KyberOf(codec, dicts, kv')) {
      MetaLocsDiffer(dicts, Pair(id, ec), q);
      PairAlike(codec, dicts, kv, kv', q);
    }
    forall o: U32 ensures At(kv', KeyLoc(dicts, o)) == At(kv, KeyLoc(dicts, o)) {
      assert KeyLoc(dicts, o).dict != MetaLoc(dicts, id, ec).dict;
    }
    KeysAlike(codec, dicts, kv', kv);
  }

  lemma MemoryPut(codec: Codec, dicts: Dicts, kv: KvMap, id: U32, ec: U32, base: Bytes)
    requires dicts.Valid()
    ensures var s, s' := KyberOf(codec, dicts, kv), KyberOf(codec, dicts, kv[MetaLoc(dicts, id, ec) := base]);
            s' == s.(memory := s.memory[Pair(id, ec) := base])
  {
    hide MetaLoc;
    var s, s' := KyberOf(codec, dicts, kv), KyberOf(codec, dicts, kv[MetaLoc(dicts, id, ec) := base]);
    MemoryWritten(codec, dicts, kv, kv[MetaLoc(dicts, id, ec) := base], id, ec);
    forall q: Pair | q != Pair(id, ec)
      ensures (q in s'.memory <==> q in s.memory) && (q in s.memory ==> s'.memory[q] == s.memory[q])
    {
      assert SameMemoryAt(s, q, s');
    }
    assert s'.memory == s.memory[Pair(id, ec) := base];
  }

  lemma FailedPutShows(before: BufState, after: BufState, loc: Loc, value: Bytes)
    requires before.Valid() && !before.batching && after == before.(kv := after.kv)
             && PutFailed(before.kv, after.kv, loc, value)
    ensures forall o :: o != loc ==> At(after.View(), o) == At(before.View(), o)
  {
    OverlayNothing(before.kv);
    OverlayNothing(after.kv);
  }

  /** A buffered write is one more buffered entry, and nothing below. */
  lemma KeyBuffered(dicts: Dicts, buffer: Buffer, id: U32, entry: BufferEntry)
    requires dicts.Valid()
    ensures KeysIn(dicts, buffer[KeyLoc(dicts, id) := entry]) == KeysIn(dicts, buffer) + iset{id}
    ensures PairsIn(dicts, buffer[KeyLoc(dicts, id) := entry]) == PairsIn(dicts, buffer)
  {
    forall o: U32 | o != id ensures KeyLoc(dicts, o) != KeyLoc(dicts, id) { KeyLocsDiffer(dicts, id, o); }
    forall p: Pair ensures MetaLoc(dicts, p.id, p.ec) != KeyLoc(dicts, id) {
      assert MetaLoc(dicts, p.id, p.ec).dict != KeyLoc(dicts, id).dict;
    }
  }

  lemma MemoryBuffered(dicts: Dicts, buffer: Buffer, p: Pair, entry: BufferEntry)
    requires dicts.Valid()
    ensures PairsIn(dicts, buffer[MetaLoc(dicts, p.id, p.ec) := entry]) == PairsIn(dicts, buffer) + iset{p}
    ensures KeysIn(dicts, buffer[MetaLoc(dicts, p.id, p.ec) := entry]) == KeysIn(dicts, buffer)
  {
    forall q: Pair | q != p ensures MetaLoc(dicts, q.id, q.ec) != MetaLoc(dicts, p.id, p.ec) {
      MetaLocsDiffer(dicts, p, q);
    }
    forall o: U32 ensures KeyLoc(dicts, o) != MetaLoc(dicts, p.id, p.ec) {
      assert KeyLoc(dicts, o).dict != MetaLoc(dicts, p.id, p.ec).dict;
    }
  }

  lemma SaveSteps(codec: Codec, dicts: Dicts, b: BufState, id: U32, envelope: Envelope)
    requires dicts.Valid() && codec.RoundTrips() && b.Valid()
    ensures Next(StateOf(codec, dicts, b), Save(id, envelope),
                 StateOf(codec, dicts, Step(b, PutOp(KeyLoc(dicts, id), codec.encode(envelope)))))
  {
    StepView(b, KeyLoc(dicts, id), codec.encode(envelope));
    KeyPut(codec, dicts, b.View(), id, envelope);
    if b.batching { KeyBuffered(dicts, b.buffer, id, BufPut(codec.encode(envelope))); }
  }

  lemma RemoveSteps(codec: Codec, dicts: Dicts, b: BufState, id: U32)
    requires dicts.Valid() && b.Valid()
    ensures var s := StateOf(codec, dicts, b);
            StateOf(codec, dicts, Step(b, DeleteOp(KeyLoc(dicts, id)))) == KeysWritten(s, id, s.now.keys - {id})
  {
    StepView(b, KeyLoc(dicts, id), []);
    KeyDeleted(codec, dicts, b.View(), id);
    if b.batching { KeyBuffered(dicts, b.buffer, id, BufDelete); }
  }

  lemma NoteSteps(codec: Codec, dicts: Dicts, b: BufState, p: Pair, base: Bytes)
    requires dicts.Valid() && b.Valid()
    ensures StateOf(codec, dicts, Step(b, PutOp(MetaLoc(dicts, p.id, p.ec), base)))
            == MemoryNoted(StateOf(codec, dicts, b), p, base)
  {
    StepView(b, MetaLoc(dicts, p.id, p.ec), base);
    MemoryPut(codec, dicts, b.View(), p.id, p.ec, base);
    if b.batching { MemoryBuffered(dicts, b.buffer, p, BufPut(base)); }
  }

  lemma NoteFailedSteps(codec: Codec, dicts: Dicts, before: BufState, after: BufState, id: U32, ec: U32, base: Bytes)
    requires dicts.Valid() && before.Valid() && !before.batching && StateOf(codec, dicts, before).now.LastResort(id)
    requires after == before.(kv := after.kv) && PutFailed(before.kv, after.kv, MetaLoc(dicts, id, ec), base)
    ensures Next(StateOf(codec, dicts, before), Use(id, ec, base, BackendFailed), StateOf(codec, dicts, after))
  {
    FailedPutShows(before, after, MetaLoc(dicts, id, ec), base);
    MemoryWritten(codec, dicts, before.View(), after.View(), id, ec);
  }

  // ---- the steps of the batch layer itself ----

  lemma OpenSteps(codec: Codec, dicts: Dicts, b: BufState)
    requires b.Valid() && !b.batching
    ensures Next(StateOf(codec, dicts, b), OpenBatch, StateOf(codec, dicts, Step(b, Begin)))
  {
    var s' := StateOf(codec, dicts, Step(b, Begin));
    OverlayNothing(b.kv);
    assert Step(b, Begin).View() == b.View() == b.kv;
    assert s'.batch.value.keys == iset{} && s'.batch.value.pairs == iset{};
  }

  lemma CommitSteps(codec: Codec, dicts: Dicts, b: BufState)
    requires b.Valid()
    ensures Next(StateOf(codec, dicts, b), CommitBatch, StateOf(codec, dicts, Step(b, Commit)))
  {
    OverlayNothing(b.View());
    assert Step(b, Commit).View() == b.View();
  }

  lemma AbortSteps(codec: Codec, dicts: Dicts, b: BufState)
    requires b.Valid()
    ensures Next(StateOf(codec, dicts, b), AbortBatch, StateOf(codec, dicts, Step(b, Abort)))
  {
    OverlayNothing(b.kv);
    assert Step(b, Abort).View() == b.kv && (!b.batching ==> Step(b, Abort) == b);
  }

  /** A commit that fails leaves in doubt what it was to write, and that alone. */
  lemma FailedCommitSteps(codec: Codec, dicts: Dicts, b: BufState, kv: KvMap)
    requires b.batching && AllReplaying(b.kv, b.buffer, kv)
    ensures Next(StateOf(codec, dicts, b), CommitFailed, StateOf(codec, dicts, BufState(kv, false, map[])))
  {
    var s, s' := StateOf(codec, dicts, b), StateOf(codec, dicts, BufState(kv, false, map[]));
    OverlayNothing(kv);
    forall loc | loc !in b.buffer ensures At(kv, loc) == At(b.View(), loc) {
      assert At(kv, loc) == At(b.kv, loc);
    }
    forall id: U32 | id !in s.batch.value.keys ensures SameKeyAt(s.now, id, s'.now) {
      assert At(kv, KeyLoc(dicts, id)) == At(b.View(), KeyLoc(dicts, id));
    }
    forall p: Pair | p !in s.batch.value.pairs ensures SameMemoryAt(s.now, p, s'.now) {
      assert At(kv, MetaLoc(dicts, p.id, p.ec)) == At(b.View(), MetaLoc(dicts, p.id, p.ec));
    }
  }

  /** Deleting one of the dictionaries, or failing to. */
  lemma DropSteps(codec: Codec, dicts: Dicts, b: BufState, done: bool)
    requires dicts.Valid() && b.Valid()
    ensures Next(StateOf(codec, dicts, b), DropKeys(done), StateOf(codec, dicts, DictDropped(b, dicts.keys, done)))
    ensures Next(StateOf(codec, dicts, b), DropMemory(done), StateOf(codec, dicts, DictDropped(b, dicts.memory, done)))
  {
    KeysDropShows(codec, dicts, b, done);
    MemoryDropShows(codec, dicts, b, done);
  }

  /** What a dictionary deletion leaves in the batch layer. */
  function DictDropped(b: BufState, dict: Name, done: bool): BufState {
    if done then Step(b, DeleteDictOp(dict)) else b.(buffer := BufferWithoutDict(b.buffer, dict))
  }

  lemma DroppedAt(b: BufState, dict: Name, done: bool, loc: Loc)
    requires b.Valid()
    ensures var b' := DictDropped(b, dict, done);
            At(b'.View(), loc) == (if loc.dict != dict then At(b.View(), loc) else if done then None else At(b.kv, loc))
            && At(b'.kv, loc) == (if loc.dict != dict || !done then At(b.kv, loc) else None)
            && (loc in b'.buffer <==> loc in b.buffer && loc.dict != dict)
            && b'.batching == b.batching
  {
    if done { OverlayDeleteDict(b.kv, b.buffer, dict); }
  }

  lemma NothingKept(codec: Codec, dicts: Dicts, kv: KvMap)
    ensures (forall id: U32 :: KeyLoc(dicts, id) !in kv) ==> KyberOf(codec, dicts, kv).keys == imap[]
    ensures (forall p: Pair :: MetaLoc(dicts, p.id, p.ec) !in kv) ==> KyberOf(codec, dicts, kv).memory == imap[]
  {
  }

  /** How the deletion shows, above and below an open batch. */
  lemma KeysDropMaps(codec: Codec, dicts: Dicts, b: BufState, done: bool)
    requires dicts.Valid() && b.Valid()
    ensures var b' := DictDropped(b, dicts.keys, done);
            var left := if done then imap[] else KyberOf(codec, dicts, b.kv).keys;
            KyberOf(codec, dicts, b'.View()) == KyberOf(codec, dicts, b.View()).(keys := left)
            && KyberOf(codec, dicts, b'.kv) == KyberOf(codec, dicts, b.kv).(keys := left)
  {
    var b' := DictDropped(b, dicts.keys, done);
    forall loc { DroppedAt(b, dicts.keys, done, loc); }
    MemoryAlike(codec, dicts, b'.View(), b.View());
    MemoryAlike(codec, dicts, b'.kv, b.kv);
    if done {
      forall id: U32 ensures KeyLoc(dicts, id) !in b'.View() && KeyLoc(dicts, id) !in b'.kv {
        DroppedAt(b, dicts.keys, done, KeyLoc(dicts, id));
      }
      NothingKept(codec, dicts, b'.View());
      NothingKept(codec, dicts, b'.kv);
    } else {
      KeysAlike(codec, dicts, b'.View(), b.kv);
      KeysAlike(codec, dicts, b'.kv, b.kv);
    }
  }

  lemma MemoryDropMaps(codec: Codec, dicts: Dicts, b: BufState, done: bool)
    requires dicts.Valid() && b.Valid()
    ensures var b' := DictDropped(b, dicts.memory, done);
            var left := if done then imap[] else KyberOf(codec, dicts, b.kv).memory;
            KyberOf(codec, dicts, b'.View()) == KyberOf(codec, dicts, b.View()).(memory := left)
            && KyberOf(codec, dicts, b'.kv) == KyberOf(codec, dicts, b.kv).(memory := left)
  {
    var b' := DictDropped(b, dicts.memory, done);
    forall loc { DroppedAt(b, dicts.memory, done, loc); }
    KeysAlike(codec, dicts, b'.View(), b.View());
    KeysAlike(codec, dicts, b'.kv, b.kv);
    if done {
      forall p: Pair ensures MetaLoc(dicts, p.id, p.ec) !in b'.View() && MetaLoc(dicts, p.id, p.ec) !in b'.kv {
        DroppedAt(b, dicts.memory, done, MetaLoc(dicts, p.id, p.ec));
      }
      NothingKept(codec, dicts, b'.View());
      NothingKept(codec, dicts, b'.kv);
    } else {
      MemoryAlike(codec, dicts, b'.View(), b.kv);
      MemoryAlike(codec, dicts, b'.kv, b.kv);
    }
  }

  lemma KeysDropShows(codec: Codec, dicts: Dicts, b: BufState, done: bool)
    requires dicts.Valid() && b.Valid()
    ensures StateOf(codec, dicts, DictDropped(b, dicts.keys, done)) == KeysDropped(StateOf(codec, dicts, b), done)
  {
    var s, s' := StateOf(codec, dicts, b), StateOf(codec, dicts, DictDropped(b, dicts.keys, done));
    KeysDropMaps(codec, dicts, b, done);
    if b.batching {
      assert s'.batch.value.keys == iset{} && s'.batch.value.pairs == s.batch.value.pairs;
    } else {
      OverlayNothing(b.kv);
    }
  }

  lemma MemoryDropShows(codec: Codec, dicts: Dicts, b: BufState, done: bool)
    requires dicts.Valid() && b.Valid()
    ensures StateOf(codec, dicts, DictDropped(b, dicts.memory, done)) == MemoryDropped(StateOf(codec, dicts, b), done)
  {
    var s, s' := StateOf(codec, dicts, b), StateOf(codec, dicts, DictDropped(b, dicts.memory, done));
    MemoryDropMaps(codec, dicts, b, done);
    if b.batching {
      assert s'.batch.value.keys == s.batch.value.keys && s'.batch.value.pairs == iset{};
    } else {
      OverlayNothing(b.kv);
    }
  }

  /** A cleared account has no pre-key and remembers no base key, above an open
      batch or below it. */
  lemma WipedForgets(codec: Codec, identity: SessionModel.IdentityType, s: SessionModel.Snap)
    requires AccountWipe.Wiped(s, AccountWipe.AccountDicts())
    ensures KyberOf(codec, DictsOf(identity), s.View()) == Kyber(imap[], imap[])
    ensures KyberOf(codec, DictsOf(identity), s.backend.kv) == Kyber(imap[], imap[])
  {
    var dicts := DictsOf(identity);
    DictsAreAccount(identity);
    assert forall id: U32 :: KeyLoc(dicts, id) !in s.View() && KeyLoc(dicts, id) !in s.backend.kv;
    assert forall p: Pair :: MetaLoc(dicts, p.id, p.ec) !in s.View() && MetaLoc(dicts, p.id, p.ec) !in s.backend.kv;
    assert KyberOf(codec, dicts, s.View()).keys == imap[] && KyberOf(codec, dicts, s.View()).memory == imap[];
    assert KyberOf(codec, dicts, s.backend.kv).keys == imap[] && KyberOf(codec, dicts, s.backend.kv).memory == imap[];
  }

  lemma DictsAreAccount(identity: SessionModel.IdentityType)
    ensures DictsOf(identity).keys in AccountWipe.AccountDicts()
            && DictsOf(identity).memory in AccountWipe.AccountDicts()
  {
    var all := AccountWipe.ProtocolDicts(identity);
    assert all[4] == DictsOf(identity).keys && all[5] == DictsOf(identity).memory;
    assert all[4] in all && all[5] in all;
  }

  class KyberPreKeyStore {
    const backend: BufferingBackend
    const dicts: Dicts
    const codec: Codec

    constructor (backend: BufferingBackend, identity: SessionModel.IdentityType, codec: Codec)
      ensures this.backend == backend && dicts == DictsOf(identity) && this.codec == codec
    {
      this.backend, dicts, this.codec := backend, DictsOf(identity), codec;
    }

    ghost predicate Valid()
      reads backend, backend.inner.server
    {
      backend.Valid() && dicts.Valid() && codec.RoundTrips()
    }

    ghost function State(): KyberState
      reads backend, backend.inner.server
    {
      StateOf(codec, dicts, backend.State())
    }

    method StoreEnvelope(id: U32, envelope: Envelope) returns (r: Done)
      requires Valid()
      modifies backend, backend.inner.server
      ensures Valid()
      ensures Next(old(State()), if r.Ok? then Save(id, envelope) else SaveFailed(id), State())
      ensures backend.batching || backend.inner.server.reliable ==> r.Ok?
    {
      ghost var before := backend.State();
      PlacesFit(dicts, id, 0);
      r := backend.Put(KeyLoc(dicts, id), codec.encode(envelope));
      if r.Ok? {
        SaveSteps(codec, dicts, before, id, envelope);
      } else {
        FailedPutShows(before, backend.State(), KeyLoc(dicts, id), codec.encode(envelope));
        KeyWritten(codec, dicts, before.View(), backend.State().View(), id);
      }
    }

    method LoadEnvelope(id: U32) returns (envelope: Option<Envelope>, failure: Option<Outcome>)
      requires Valid()
      modifies backend.inner.server
      ensures Valid() && backend.State() == old(backend.State())
      ensures failure.None? ==> (envelope.Some? <==> id in State().now.keys)
      ensures failure.None? && envelope.Some? ==> State().now.keys[id] == envelope
      ensures failure.Some? ==>
                failure.value == BackendFailed
                || (failure.value == BadEnvelope && id in State().now.keys && State().now.keys[id] == None)
      ensures backend.inner.server.reliable ==> failure != Some(BackendFailed)
    {
      PlacesFit(dicts, id, 0);
      var got := backend.Get(KeyLoc(dicts, id));
      match got {
        case Err(_) => return None, Some(BackendFailed);
        case Ok(None) => return None, None;
        case Ok(Some(bytes)) =>
          envelope := codec.decode(bytes);
          return envelope, if envelope.None? then Some(BadEnvelope) else None;
      }
    }

    /** Refuses the pair's latest base key of a last-resort key; anything else is
        noted, a one-time key by deleting it. */
    method MarkUsed(id: U32, ec: U32, base: Bytes) returns (r: Outcome)
      requires Valid()
      modifies backend, backend.inner.server
      ensures Valid() && Next(old(State()), Use(id, ec, base, r), State())
      ensures r == UnknownKey ==> id !in old(State()).now.keys
      ensures r == BadEnvelope ==> id in old(State()).now.keys && old(State()).now.keys[id] == None
      ensures r == Reused ==> old(State()).now.LastResort(id) && old(State()).now.Remembers(Pair(id, ec), base)
      ensures r == Accepted ==>
                (old(State()).now.OneTime(id)
                 && State().now == old(State()).now.(keys := old(State()).now.keys - {id}))
                || (old(State()).now.LastResort(id) && !old(State()).now.Remembers(Pair(id, ec), base)
                    && State().now == old(State()).now.(memory := old(State()).now.memory[Pair(id, ec) := base]))
      ensures r != Accepted && r != BackendFailed ==> State() == old(State())
      ensures backend.inner.server.reliable ==> r != BackendFailed
    {
      var envelope, failure := LoadEnvelope(id);
      if failure.Some? { return failure.value; }
      if envelope.None? { return UnknownKey; }
      if envelope.value.isLastResort {
        r := NoteBaseKey(id, ec, base);
      } else {
        var removed := RemoveKey(id);
        return if removed.Ok? then Accepted else BackendFailed;
      }
    }

    method NoteBaseKey(id: U32, ec: U32, base: Bytes) returns (r: Outcome)
      requires Valid() && State().now.LastResort(id)
      modifies backend, backend.inner.server
      ensures Valid() && Next(old(State()), Use(id, ec, base, r), State())
      ensures backend.inner.server.reliable ==> r != BackendFailed
    {
      PlacesFit(dicts, id, ec);
      ghost var before := backend.State();
      var loc := MetaLoc(dicts, id, ec);
      var prior := backend.Get(loc);
      if prior.Err? { return BackendFailed; }
      if prior.value == Some(base) { return Reused; }
      var noted := backend.Put(loc, base);
      if noted.Err? {
        NoteFailedSteps(codec, dicts, before, backend.State(), id, ec, base);
        return BackendFailed;
      }
      NoteSteps(codec, dicts, before, Pair(id, ec), base);
      return Accepted;
    }

    method RemoveKey(id: U32) returns (r: Done)
      requires Valid()
      modifies backend, backend.inner.server
      ensures Valid()
      ensures r.Ok? ==> Next(old(State()), Remove(id), State())
      ensures r.Err? ==> State() == old(State())
      ensures backend.batching || backend.inner.server.reliable ==> r.Ok?
    {
      ghost var before := backend.State();
      r := backend.Delete(KeyLoc(dicts, id));
      if r.Ok? {
        RemoveSteps(codec, dicts, before, id);
      }
    }
  }
}
