/** The key-value server as its documented opcodes describe it: a map of byte
    strings whose writes may be partial, whose batch may stop after a prefix and
    whose every request may fail unless the server is `reliable`. */
module PddbServer {
  import opened ByteStrings
  import opened BatchWire
  import opened KeyListWire

  datatype Loc = Loc(dict: Name, key: Name)

  type KvMap = map<Loc, Bytes>

  datatype ErrorKind = NotFound | NotMounted | InvalidInput | NoFreeSpace | Internal | IpcBroken

  type Done = Result<(), ErrorKind>

  /** Names the server stores: neither empty nor over the wire caps. */
  predicate Fits(loc: Loc) {
    1 <= |loc.dict| <= DICT_NAME_LEN - 1 && 1 <= |loc.key| <= KEY_NAME_LEN - 1
  }

  /** A write at `pos` replaces what it covers and truncates nothing. */
  function Overwrite(old_: Bytes, pos: nat, data: Bytes): (r: Bytes)
    requires pos <= |old_|
    ensures |r| == if pos + |data| < |old_| then |old_| else pos + |data|
  {
    if pos + |data| < |old_| then old_[..pos] + data + old_[pos + |data|..] else old_[..pos] + data
  }

  function LocOf(e: BatchEntry): Loc {
    Loc(e.dict, e.key)
  }

  /** Whole-value writes, first to last. */
  function ApplyPuts(kv: KvMap, entries: seq<BatchEntry>): KvMap {
    if entries == [] then kv
    else
      var last := entries[|entries| - 1];
      ApplyPuts(kv, entries[..|entries| - 1])[LocOf(last) := last.value]
  }

  function WithoutDict(kv: KvMap, dict: Name): KvMap {
    map loc | loc in kv && loc.dict != dict :: kv[loc]
  }

  ghost predicate NoDuplicates<T>(s: seq<T>) {
    forall i, j :: 0 <= i < j < |s| ==> s[i] != s[j]
  }

  lemma AppendNew<T>(s: seq<T>, x: T)
    requires NoDuplicates(s) && x !in s
    ensures NoDuplicates(s + [x]) && forall y :: y in s + [x] <==> y in s || y == x
  {
  }

  /** `names` lists the keys of the dictionary, each once, in any order. */
  ghost predicate Enumerates(names: seq<Name>, kv: KvMap, dict: Name) {
    NoDuplicates(names) && forall k: Name :: k in names <==> Loc(dict, k) in kv
  }

  datatype ReadReply = Data(bytes: Bytes) | Eof | ReadFailed(error: ErrorKind)

  class PddbServer {
    const reliable: bool
    var kv: KvMap

    constructor (reliable: bool)
      ensures this.reliable == reliable && kv == map[] && Valid()
    {
      this.reliable := reliable;
      kv := map[];
    }

    predicate Valid()
      reads this
    {
      forall loc :: loc in kv ==> Fits(loc)
    }

    method Fault() returns (failed: bool)
      ensures reliable ==> !failed
    {
      failed := *;
      failed := failed && !reliable;
    }

    method DeleteKey(loc: Loc) returns (r: Done)
      requires Valid()
      modifies this
      ensures Valid()
      ensures r.Ok? ==> kv == old(kv) - {loc}
      ensures r.Err? ==> kv == old(kv)
      ensures r.Err? && r.error == NotFound ==> loc !in kv
      ensures reliable && r.Err? ==> r.error == NotFound
    {
      var failed := Fault();
      if failed { return Err(NotMounted); }
      if loc !in kv { return Err(NotFound); }
      kv := kv - {loc};
      return Ok(());
    }

    method DeleteDict(dict: Name) returns (r: Done)
      requires Valid()
      modifies this
      ensures Valid()
      ensures r.Ok? ==> kv == WithoutDict(old(kv), dict)
      ensures r.Err? ==> kv == old(kv)
      ensures reliable ==> r.Ok?
    {
      var failed := Fault();
      if failed { return Err(NotMounted); }
      kv := WithoutDict(kv, dict);
      return Ok(());
    }

    /** Opens `(dict, key)`, creating an empty key if asked to. */
    method KeyRequest(loc: Loc, create: bool) returns (r: Done)
      requires Valid()
      modifies this
      ensures Valid()
      ensures r.Ok? ==> kv == (if loc in old(kv) then old(kv) else old(kv)[loc := []]) && loc in kv
      ensures r.Ok? && !create ==> kv == old(kv)
      ensures r.Err? ==> kv == old(kv)
      ensures r.Err? && r.error == NotFound ==> loc !in kv && !create
      ensures reliable && Fits(loc) && r.Err? ==> r.error == NotFound
      ensures reliable && !create && r.Err? ==> r.error == NotFound
    {
      var failed := Fault();
      if failed { return Err(NoFreeSpace); }
      if loc in kv { return Ok(()); }
      if !create { return Err(NotFound); }
      if !Fits(loc) { return Err(Internal); }
      kv := kv[loc := []];
      return Ok(());
    }

    /** Returns between one byte and `len` bytes, or says the end is reached. */
    method ReadKey(loc: Loc, pos: nat, len: nat) returns (r: ReadReply)
      requires Valid() && loc in kv && pos <= |kv[loc]| && len > 0
      ensures r.Data? ==> 1 <= |r.bytes| <= len && pos + |r.bytes| <= |kv[loc]|
                          && r.bytes == kv[loc][pos..pos + |r.bytes|]
      ensures r.Eof? ==> pos == |kv[loc]|
      ensures reliable ==> !r.ReadFailed?
    {
      var failed := Fault();
      if failed { return ReadFailed(IpcBroken); }
      var left := |kv[loc]| - pos;
      if left == 0 { return Eof; }
      var n: int := *;
      if n <= 0 || n > len || n > left { n := 1; }
      return Data(kv[loc][pos..pos + n]);
    }

    /** Accepts between one byte and all of `data`. */
    method WriteKey(loc: Loc, pos: nat, data: Bytes) returns (r: Result<nat, ErrorKind>)
      requires Valid() && loc in kv && pos <= |kv[loc]| && data != []
      modifies this
      ensures Valid()
      ensures r.Ok? ==> 1 <= r.value <= |data| && kv == old(kv)[loc := Overwrite(old(kv)[loc], pos, data[..r.value])]
      ensures r.Err? ==> kv == old(kv)
      ensures reliable ==> r.Ok?
    {
      var failed := Fault();
      if failed { return Err(NoFreeSpace); }
      var n: int := *;
      if n <= 0 || n > |data| { n := |data|; }
      kv := kv[loc := Overwrite(kv[loc], pos, data[..n])];
      return Ok(n);
    }

    /** Applies the packed entries one by one, each replacing the whole value;
        on a failure the entries before it stay applied. */
    method WriteKeyBatch(data: Bytes) returns (r: Done)
      requires Valid()
      modifies this
      ensures Valid()
      ensures r.Ok? ==> DecodeBatch(data).Some? && kv == ApplyPuts(old(kv), DecodeBatch(data).value)
      ensures r.Err? && DecodeBatch(data).Some? ==>
                exists n: nat :: n <= |DecodeBatch(data).value|
                  && kv == ApplyPuts(old(kv), DecodeBatch(data).value[..n])
      ensures r.Err? && DecodeBatch(data).None? ==> kv == old(kv)
      ensures reliable && DecodeBatch(data).Some? && (forall e :: e in DecodeBatch(data).value ==> Fits(LocOf(e)))
              ==> r.Ok?
    {
      var decoded := DecodeBatch(data);
      if decoded.None? { return Err(Internal); }
      var entries := decoded.value;
      assert entries[..|entries|] == entries;
      for i := 0 to |entries|
        invariant Valid() && kv == ApplyPuts(old(kv), entries[..i])
      {
        var failed := Fault();
        if failed || !Fits(LocOf(entries[i])) { return Err(NoFreeSpace); }
        assert entries[..i + 1][..i] == entries[..i];
        kv := kv[LocOf(entries[i]) := entries[i].value];
      }
      return Ok(());
    }

    /** The keys of a dictionary, in an arbitrary order. */
    method KeysInDict(dict: Name) returns (names: seq<Name>)
      ensures Enumerates(names, kv, dict)
    {
      names := [];
      var left := set loc | loc in kv && loc.dict == dict :: loc.key;
      ghost var all := left;
      while left != {}
        invariant left <= all && NoDuplicates(names)
        invariant forall k :: k in names <==> k in all - left
        decreases left
      {
        var k :| k in left;
        AppendNew(names, k);
        names := names + [k];
        left := left - {k};
      }
    }

    /** `KeyCountInDict` followed by every `ListKeyV2` page it leads to. The keys
        come in any order and any paging; a request may fail on the way. */
    method ListPages(dict: Name) returns (replies: seq<ListReply>)
      requires Valid()
      ensures forall chunks :: Drains(replies, chunks) ==> Enumerates(Flatten(chunks), kv, dict)
      ensures reliable ==> exists chunks :: Drains(replies, chunks)
    {
      var names := KeysInDict(dict);
      assert forall k :: k in names ==> Fits(Loc(dict, k));
      ghost var chunks;
      replies, chunks := BuildPages(names);
      Finished(replies, chunks);
      var failed := Fault();
      if failed {
        var cut: int := *;
        if cut < 0 || cut >= |replies| { cut := 0; }
        replies := replies[..cut] + [IpcFailure];
        NeverDrains(replies, chunks[..cut]);
      }
    }

    /** Names go on a page until it is full, or earlier if the server likes. */
    method BuildPages(names: seq<Name>) returns (replies: seq<ListReply>, ghost chunks: seq<seq<Name>>)
      requires AllListable(names)
      ensures Drains(replies, chunks) && Flatten(chunks) == names && |chunks| == |replies|
    {
      replies, chunks := [], [];
      var start, i := 0, 0;
      while i < |names|
        invariant start <= i <= |names|
        invariant |chunks| == |replies| && ReadSoFar(replies, chunks) && Flatten(chunks) == names[..start]
        invariant PageFits(names[start..i])
      {
        assert Listable(names[i]);
        var turn: bool := *;
        if turn || |EncodeNames(names[start..i])| + 1 + |names[i]| > MAX_PDDBKLISTLEN {
          replies := replies + [Page(Okay, Padded(names[start..i]), false)];
          chunks := ReadOn(replies, chunks, names, start, i);
          start := i;
        }
        ExtendPage(names, start, i);
        i := i + 1;
      }
      assert names[start..i] == names[start..];
      replies := replies + [Page(Okay, Padded(names[start..]), true)];
      chunks := FinishListing(replies, chunks, names, start);
    }
  }

  // ---- how the server fills its pages ----

  predicate PageFits(names: seq<Name>) {
    AllListable(names) && |EncodeNames(names)| <= MAX_PDDBKLISTLEN
  }

  /** The names, then zeros up to the page size. */
  function Padded(names: seq<Name>): (data: Bytes)
    requires PageFits(names)
    ensures |data| == MAX_PDDBKLISTLEN && PageHolds(data, names)
  {
    EncodeNames(names) + seq(MAX_PDDBKLISTLEN - |EncodeNames(names)|, _ => 0)
  }

  lemma NeverDrains(replies: seq<ListReply>, got: seq<seq<Name>>)
    requires |replies| == |got| + 1 && replies[|got|].IpcFailure? && ReadSoFar(replies, got)
    ensures forall chunks :: !Drains(replies, chunks)
  {
    forall chunks | Drains(replies, chunks) ensures false {
      NeedsNext(replies, got, chunks);
    }
  }

  lemma ExtendPage(names: seq<Name>, start: nat, i: nat)
    requires start <= i < |names| && PageFits(names[start..i]) && Listable(names[i])
    requires |EncodeNames(names[start..i])| + 1 + |names[i]| <= MAX_PDDBKLISTLEN
    ensures PageFits(names[start..i + 1])
  {
    assert names[start..i + 1] == names[start..i] + [names[i]];
    assert names[start..i + 1][..i - start] == names[start..i];
  }

  ghost function ReadOn(replies: seq<ListReply>, got: seq<seq<Name>>, names: seq<Name>, start: nat, i: nat)
    : (r: seq<seq<Name>>)
    requires |replies| == |got| + 1 && ReadSoFar(replies[..|got|], got) && start <= i <= |names|
    requires ReplyHolds(replies[|got|], names[start..i]) && !replies[|got|].end
    requires Flatten(got) == names[..start]
    ensures |r| == |replies| && ReadSoFar(replies, r) && Flatten(r) == names[..i]
  {
    var r := got + [names[start..i]];
    assert r[..|got|] == got && names[..start] + names[start..i] == names[..i];
    r
  }

  ghost function FinishListing(replies: seq<ListReply>, got: seq<seq<Name>>, names: seq<Name>, start: nat)
    : (r: seq<seq<Name>>)
    requires |replies| == |got| + 1 && ReadSoFar(replies[..|got|], got) && start <= |names|
    requires ReplyHolds(replies[|got|], names[start..]) && replies[|got|].end
    requires Flatten(got) == names[..start]
    ensures Drains(replies, r) && Flatten(r) == names && |r| == |replies|
  {
    var r := got + [names[start..]];
    assert r[..|got|] == got && names[..start] + names[start..] == names;
    r
  }
}
