/** The real key-value backend: streaming handles over the server's 4072-byte
    requests, and the get, put, delete and list operations built on them. */
module PddbBackend {
  import opened Basics
  import opened ByteStrings
  import opened BatchWire
  import opened KeyListWire
  import opened PddbServer

  const PDDB_BUF_DATA_LEN := 4072
  const READ_CHUNK := 4096

  /** What `open` refuses before any request goes out. */
  predicate TooLong(loc: Loc) {
    |loc.dict| > DICT_NAME_LEN - 1 || |loc.key| > KEY_NAME_LEN - 1
  }

  /** An open `(dict, key)` with its own position. */
  class KeyHandle {
    const server: PddbServer
    const loc: Loc
    var pos: nat

    constructor (server: PddbServer, loc: Loc)
      ensures this.server == server && this.loc == loc && pos == 0
    {
      this.server, this.loc, this.pos := server, loc, 0;
    }

    predicate Valid()
      reads this, server
    {
      server.Valid() && loc in server.kv && pos <= |server.kv[loc]|
    }

    /** One request's worth of bytes; none means the end of the value. */
    method Read(want: nat) returns (r: Result<Bytes, ErrorKind>)
      requires Valid() && want > 0
      modifies this
      ensures Valid()
      ensures r.Ok? ==> |r.value| <= want && pos == old(pos) + |r.value|
                        && r.value == server.kv[loc][old(pos)..pos]
                        && (r.value == [] ==> pos == |server.kv[loc]|)
      ensures server.reliable ==> r.Ok?
    {
      var reply := server.ReadKey(loc, pos, Min(want, PDDB_BUF_DATA_LEN));
      match reply {
        case Eof => return Ok([]);
        case ReadFailed(e) => return Err(e);
        case Data(bytes) =>
          pos := pos + |bytes|;
          return Ok(bytes);
      }
    }

    /** Offers at most one request's worth; the position moves by what the
        server took. */
    method Write(buf: Bytes) returns (r: Result<nat, ErrorKind>)
      requires Valid() && buf != []
      modifies this, server
      ensures Valid()
      ensures r.Ok? ==> 1 <= r.value <= |buf| && pos == old(pos) + r.value
                        && server.kv == old(server.kv)[loc := Overwrite(old(server.kv)[loc], old(pos), buf[..r.value])]
      ensures r.Err? ==> pos == old(pos) && server.kv == old(server.kv)
      ensures server.reliable ==> r.Ok?
    {
      var n := Min(|buf|, PDDB_BUF_DATA_LEN);
      var reply := server.WriteKey(loc, pos, buf[..n]);
      if reply.Err? { return Err(reply.error); }
      assert buf[..n][..reply.value] == buf[..reply.value];
      pos := pos + reply.value;
      return Ok(reply.value);
    }

    /** Writes until nothing is left. Whatever the server accepts each time, the
        value ends as one overwrite; on an error only a prefix got there. */
    method WriteAll(buf: Bytes) returns (r: Done)
      requires Valid() && pos == 0
      modifies this, server
      ensures server.Valid()
      ensures r.Ok? ==> server.kv == old(server.kv)[loc := Overwrite(old(server.kv)[loc], 0, buf)]
      ensures r.Err? ==> exists n: nat :: (n < |buf|
                && server.kv == old(server.kv)[loc := Overwrite(old(server.kv)[loc], 0, buf[..n])])
      ensures server.reliable ==> r.Ok?
    {
      ghost var was := server.kv[loc];
      OverwriteNothing(was, buf);
      while pos < |buf|
        invariant Valid() && pos <= |buf|
        invariant server.kv == old(server.kv)[loc := Overwrite(was, 0, buf[..pos])]
        decreases |buf| - pos
      {
        ghost var at := pos;
        var w := Write(buf[pos..]);
        if w.Err? { return Err(w.error); }
        OverwriteTwice(was, buf, at, w.value);
      }
      assert buf[..|buf|] == buf;
      return Ok(());
    }
  }

  lemma OverwriteNothing(was: Bytes, buf: Bytes)
    ensures Overwrite(was, 0, buf[..0]) == was
  {
  }

  /** Two adjoining overwrites are one. */
  lemma OverwriteTwice(was: Bytes, buf: Bytes, at: nat, n: nat)
    requires at + n <= |buf|
    ensures Overwrite(Overwrite(was, 0, buf[..at]), at, buf[at..][..n]) == Overwrite(was, 0, buf[..at + n])
  {
    assert buf[..at] + buf[at..][..n] == buf[..at + n];
  }

  /** Why `put` deletes first: writing over an old value leaves its tail, so the
      new value alone is read back exactly when the old one was no longer. */
  lemma TailSurvives(was: Bytes, value: Bytes)
    ensures Overwrite(was, 0, value) == value + (if |was| > |value| then was[|value|..] else [])
    ensures Overwrite(was, 0, value) == value <==> |was| <= |value|
  {
    if |was| > |value| {
      assert |Overwrite(was, 0, value)| > |value|;
    }
  }

  /** What a failed `put` may leave behind: the old value, no value, or a proper
      prefix of the new one. */
  ghost predicate PutFailed(before: KvMap, after: KvMap, loc: Loc, value: Bytes) {
    || after == before
    || after == before - {loc}
    || exists n: nat :: n < |value| && after == before[loc := value[..n]]
  }

  class PddbBackend {
    const server: PddbServer

    constructor (server: PddbServer)
      ensures this.server == server
    {
      this.server := server;
    }

    /** Reads a value whole, however the server cuts it up. */
    method Get(loc: Loc) returns (r: Result<Option<Bytes>, ErrorKind>)
      requires server.Valid()
      modifies server
      ensures server.Valid() && server.kv == old(server.kv)
      ensures r.Ok? ==> r.value == if loc in server.kv then Some(server.kv[loc]) else None
      ensures server.reliable && Fits(loc) ==> r.Ok?
    {
      if TooLong(loc) { return Err(InvalidInput); }
      var request := server.KeyRequest(loc, false);
      if request.Err? {
        if request.error == NotFound { return Ok(None); }
        return Err(request.error);
      }
      var handle := new KeyHandle(server, loc);
      var bytes := [];
      while true
        invariant fresh(handle) && handle.server == server && handle.loc == loc && handle.Valid()
        invariant server.kv == old(server.kv)
        invariant bytes == server.kv[loc][..handle.pos]
        decreases |server.kv[loc]| - handle.pos
      {
        var chunk := handle.Read(READ_CHUNK);
        if chunk.Err? { return Err(chunk.error); }
        if chunk.value == [] { break; }
        bytes := bytes + chunk.value;
      }
      assert bytes == server.kv[loc];
      return Ok(Some(bytes));
    }

    /** Replaces a value: afterwards exactly the new one is there. */
    method Put(loc: Loc, value: Bytes) returns (r: Done)
      requires server.Valid()
      modifies server
      ensures server.Valid()
      ensures r.Ok? ==> server.kv == old(server.kv)[loc := value]
      ensures r.Err? ==> PutFailed(old(server.kv), server.kv, loc, value)
      ensures server.reliable && Fits(loc) ==> r.Ok?
    {
      var deleted := server.DeleteKey(loc);
      if deleted.Err? && deleted.error != NotFound { return Err(deleted.error); }
      if TooLong(loc) { return Err(InvalidInput); }
      var request := server.KeyRequest(loc, true);
      if request.Err? { return Err(request.error); }
      var handle := new KeyHandle(server, loc);
      ghost var cleared := server.kv;
      var written := handle.WriteAll(value);
      TailSurvives([], value);
      if written.Err? {
        ghost var n: nat :| n < |value| && server.kv == cleared[loc := Overwrite([], 0, value[..n])];
        TailSurvives([], value[..n]);
        assert server.kv == old(server.kv)[loc := value[..n]];
        return Err(written.error);
      }
      return Ok(());
    }

    /** One bulk request. Nothing reaches the server when packing refuses;
        otherwise a failure leaves a prefix of the entries applied. */
    method PutBatch(entries: seq<BatchEntry>) returns (r: Done)
      requires server.Valid()
      modifies server
      ensures server.Valid()
      ensures r.Ok? ==> server.kv == ApplyPuts(old(server.kv), entries)
      ensures r.Err? ==> exists n: nat :: n <= |entries| && server.kv == ApplyPuts(old(server.kv), entries[..n])
      ensures entries != [] && !Accepted(entries) ==> r == Err(InvalidInput) && server.kv == old(server.kv)
      ensures server.reliable && Accepted(entries) && (forall e :: e in entries ==> Fits(LocOf(e))) ==> r.Ok?
    {
      if entries == [] { return Ok(()); }
      var packed := PackBatch(entries);
      if packed.Err? {
        assert server.kv == ApplyPuts(old(server.kv), entries[..0]);
        return Err(InvalidInput);
      }
      r := server.WriteKeyBatch(packed.value[..]);
    }

    method Delete(loc: Loc) returns (r: Done)
      requires server.Valid()
      modifies server
      ensures server.Valid()
      ensures r.Ok? ==> server.kv == old(server.kv) - {loc}
      ensures r.Err? ==> server.kv == old(server.kv)
      ensures server.reliable ==> r.Ok?
    {
      r := server.DeleteKey(loc);
      if r.Err? && r.error == NotFound { return Ok(()); }
    }

    method DeleteDict(dict: Name) returns (r: Done)
      requires server.Valid()
      modifies server
      ensures server.Valid()
      ensures r.Ok? ==> server.kv == WithoutDict(old(server.kv), dict)
      ensures r.Err? ==> server.kv == old(server.kv)
      ensures server.reliable ==> r.Ok?
    {
      r := server.DeleteDict(dict);
    }

    /** Every key of the dictionary, in whatever order and paging they came. */
    method ListKeys(dict: Name) returns (r: Result<seq<Name>, ErrorKind>)
      requires server.Valid()
      ensures r.Ok? ==> Enumerates(r.value, server.kv, dict)
      ensures server.reliable && |dict| <= DICT_NAME_LEN - 1 ==> r.Ok?
    {
      if |dict| > DICT_NAME_LEN - 1 { return Err(InvalidInput); }
      var replies := server.ListPages(dict);
      var names := DrainKeys(replies);
      if names.Err? { return Err(Internal); }
      return Ok(names.value);
    }
  }
}
