/** The packed buffer of a bulk write: its layout, the client's packing loop and
    the proof that the server reads back exactly what the client was given. */
module BatchWire {
  import opened Basics
  import opened ByteStrings

  const DICT_NAME_LEN := 111
  const KEY_NAME_LEN := 95
  const MAX_PDDB_WRITE_BATCH_LEN := 3800
  const U16_MAX := 0xFFFF

  datatype BatchEntry = BatchEntry(dict: Name, key: Name, value: Bytes)

  datatype PackError = EmptyDict | DictTooLong | KeyTooLong | ValueTooLarge | BatchTooLarge

  // ---- the documented layout ----

  predicate FieldsFit(e: BatchEntry) {
    1 <= |e.dict| <= DICT_NAME_LEN - 1 && |e.key| <= KEY_NAME_LEN - 1 && |e.value| <= U16_MAX
  }

  predicate AllFit(entries: seq<BatchEntry>) {
    forall e :: e in entries ==> FieldsFit(e)
  }

  function EntrySize(e: BatchEntry): nat {
    1 + |e.dict| + 1 + |e.key| + 2 + |e.value|
  }

  function PackedSize(entries: seq<BatchEntry>): nat {
    if entries == [] then 0 else PackedSize(entries[..|entries| - 1]) + EntrySize(entries[|entries| - 1])
  }

  /** A name behind its one-byte length. */
  function Prefixed(name: Bytes): (r: Bytes)
    requires |name| < 256
    ensures |r| == 1 + |name|
  {
    [|name| as byte] + name
  }

  /** A value length as two little-endian bytes. */
  function ValueLength(value: Bytes): (r: Bytes)
    requires |value| <= U16_MAX
    ensures |r| == 2
  {
    [(|value| % 256) as byte, (|value| / 256) as byte]
  }

  function PackEntry(e: BatchEntry): (r: Bytes)
    requires FieldsFit(e)
    ensures |r| == EntrySize(e)
  {
    Prefixed(e.dict) + Prefixed(e.key) + ValueLength(e.value) + e.value
  }

  function Pack(entries: seq<BatchEntry>): (r: Bytes)
    requires AllFit(entries)
    ensures |r| == PackedSize(entries)
  {
    if entries == [] then []
    else
      Pack(entries[..|entries| - 1]) + PackEntry(entries[|entries| - 1])
  }

  /** A batch goes out exactly when every field fits and the packed entries
      leave room for the terminator. */
  predicate Accepted(entries: seq<BatchEntry>) {
    AllFit(entries) && PackedSize(entries) + 1 <= MAX_PDDB_WRITE_BATCH_LEN
  }

  // ---- the server's reading of that layout ----

  /** One entry off the front of `data`, with what follows it. */
  function DecodeEntry(data: Bytes): (r: Option<(BatchEntry, Bytes)>)
    ensures r.Some? ==> |r.value.1| < |data|
  {
    if |data| == 0 then None else
    var d := data[0] as int;
    if |data| < 1 + d + 1 then None else
    var dict := data[1..1 + d];
    var k := data[1 + d] as int;
    if |data| < 2 + d + k + 2 then None else
    var key := data[2 + d..2 + d + k];
    var v := data[2 + d + k] as int + 256 * data[3 + d + k] as int;
    if |data| < 4 + d + k + v || !ValidUtf8(dict) || !ValidUtf8(key) then None
    else Some((BatchEntry(dict, key, data[4 + d + k..4 + d + k + v]), data[4 + d + k + v..]))
  }

  /** All entries up to the terminator, a dictionary name of length zero. */
  function DecodeBatch(data: Bytes): Option<seq<BatchEntry>>
    decreases |data|
  {
    if |data| == 0 then None
    else if data[0] == 0 then Some([])
    else
      match DecodeEntry(data)
      case None => None
      case Some((e, rest)) =>
        match DecodeBatch(rest)
        case None => None
        case Some(es) => Some([e] + es)
  }

  /** The documented layout, byte by byte: a length and the dictionary, a length and
      the key, two length bytes, low before high, and the value. */
  lemma EntryLayout(e: BatchEntry)
    requires FieldsFit(e)
    ensures var p, d, k, v := PackEntry(e), |e.dict|, |e.key|, |e.value|;
            |p| == 4 + d + k + v
            && p[0] as int == d && p[1..1 + d] == e.dict
            && p[1 + d] as int == k && p[2 + d..2 + d + k] == e.key
            && p[2 + d + k] as int + 256 * p[3 + d + k] as int == v && p[4 + d + k..] == e.value
  {
    var p, d, k, v := PackEntry(e), |e.dict|, |e.key|, |e.value|;
    assert p[2 + d + k] as int == v % 256 && p[3 + d + k] as int == v / 256;
  }

  lemma DecodeEntryRoundTrip(e: BatchEntry, rest: Bytes)
    requires FieldsFit(e)
    ensures DecodeEntry(PackEntry(e) + rest) == Some((e, rest))
  {
    var data := PackEntry(e) + rest;
    var d, k, v := |e.dict|, |e.key|, |e.value|;
    assert data[0] as int == d;
    assert data[1..1 + d] == e.dict;
    assert data[1 + d] as int == k;
    assert data[2 + d..2 + d + k] == e.key;
    assert data[2 + d + k] as int == v % 256 && data[3 + d + k] as int == v / 256;
    assert data[4 + d + k..4 + d + k + v] == e.value;
    assert data[4 + d + k + v..] == rest;
  }

  lemma {:induction false} PackHead(entries: seq<BatchEntry>)
    requires AllFit(entries) && entries != []
    ensures AllFit(entries[1..]) && Pack(entries) == PackEntry(entries[0]) + Pack(entries[1..])
  {
    var front, last := entries[..|entries| - 1], entries[|entries| - 1];
    assert AllFit(entries[1..]) by {
      assert forall e :: e in entries[1..] ==> e in entries;
    }
    if |entries| == 1 {
      assert entries[1..] == [] && front == [];
    } else {
      var tail := entries[1..];
      assert front[0] == entries[0] && tail[|tail| - 1] == last && tail[..|tail| - 1] == front[1..];
      assert Pack(tail) == Pack(front[1..]) + PackEntry(last);
      PackHead(front);
      Associate(PackEntry(entries[0]), Pack(front[1..]), PackEntry(last));
    }
  }

  lemma Reassociate(a: Bytes, b: Bytes, c: Bytes, d: Bytes)
    ensures (a + b) + c + d == a + (b + c + d)
  {
  }

  lemma DecodeStep(e: BatchEntry, rest: Bytes, es: seq<BatchEntry>)
    requires FieldsFit(e) && DecodeBatch(rest) == Some(es)
    ensures DecodeBatch(PackEntry(e) + rest) == Some([e] + es)
  {
    DecodeEntryRoundTrip(e, rest);
  }

  /** The server reads back the client's entries, in order, whatever bytes
      follow the terminator. */
  lemma {:induction false} DecodePackedBatch(entries: seq<BatchEntry>, junk: Bytes)
    requires AllFit(entries)
    ensures DecodeBatch(Pack(entries) + [0] + junk) == Some(entries)
  {
    if entries == [] {
      assert Pack(entries) + [0] + junk == [0] + junk;
    } else {
      PackHead(entries);
      var rest := Pack(entries[1..]) + [0] + junk;
      Reassociate(PackEntry(entries[0]), Pack(entries[1..]), [0], junk);
      DecodePackedBatch(entries[1..], junk);
      DecodeStep(entries[0], rest, entries[1..]);
      assert [entries[0]] + entries[1..] == entries;
    }
  }

  // ---- which entry is refused, and why ----

  /** The refusal `e` draws when `used` bytes are already packed. */
  function Refusal(used: nat, e: BatchEntry): Option<PackError> {
    if e.dict == [] then Some(EmptyDict)
    else if |e.dict| > DICT_NAME_LEN - 1 then Some(DictTooLong)
    else if |e.key| > KEY_NAME_LEN - 1 then Some(KeyTooLong)
    else if |e.value| > U16_MAX then Some(ValueTooLarge)
    else if used + EntrySize(e) + 1 > MAX_PDDB_WRITE_BATCH_LEN then Some(BatchTooLarge)
    else None
  }

  /** `entries` is refused with `error`: some entry after an acceptable prefix
      draws it. */
  ghost predicate RefusedWith(entries: seq<BatchEntry>, error: PackError) {
    exists i: nat :: i < |entries| && RefusedAt(entries, i, error)
  }

  ghost predicate RefusedAt(entries: seq<BatchEntry>, i: nat, error: PackError)
    requires i < |entries|
  {
    Accepted(entries[..i]) && Refusal(PackedSize(entries[..i]), entries[i]) == Some(error)
  }

  lemma {:induction false} PrefixSizes(entries: seq<BatchEntry>, i: nat)
    requires i < |entries|
    ensures PackedSize(entries[..i]) + EntrySize(entries[i]) <= PackedSize(entries)
  {
    var front := entries[..|entries| - 1];
    if i < |front| {
      PrefixSizes(front, i);
      assert front[..i] == entries[..i];
    }
  }

  /** A refusal of any entry means the whole batch is unacceptable. */
  lemma RefusedIsNotAccepted(entries: seq<BatchEntry>, error: PackError)
    requires RefusedWith(entries, error)
    ensures !Accepted(entries)
  {
    var i: nat :| i < |entries| && RefusedAt(entries, i, error);
    PrefixSizes(entries, i);
    assert entries[i] in entries;
  }

  // ---- the packing loop ----

  method CopyInto(data: array<byte>, at: nat, src: Bytes)
    requires at + |src| <= data.Length
    modifies data
    ensures data[..at + |src|] == old(data[..at]) + src
    ensures data[at + |src|..] == old(data[at + |src|..])
  {
    for i := 0 to |src|
      invariant data[..at] == old(data[..at])
      invariant data[at..at + i] == src[..i]
      invariant data[at + i..] == old(data[at + i..])
    {
      data[at + i] := src[i];
    }
  }

  /** Fills a zeroed buffer with the entries; refuses the batch at the first
      entry that breaks a cap. */
  method PackBatch(entries: seq<BatchEntry>) returns (r: Result<array<byte>, PackError>)
    ensures r.Ok? <==> Accepted(entries)
    ensures r.Ok? <==> (forall e :: e in entries ==>
                          1 <= |e.dict| <= 110 && |e.key| <= 94 && |e.value| <= 65_535)
                       && PackedSize(entries) + 1 <= 3800
    ensures r.Err? ==> RefusedWith(entries, r.error)
    ensures r.Ok? ==> fresh(r.value) && r.value.Length == MAX_PDDB_WRITE_BATCH_LEN
    ensures r.Ok? ==> DecodeBatch(r.value[..]) == Some(entries)
  {
    var data := new byte[MAX_PDDB_WRITE_BATCH_LEN](_ => 0);
    var index := 0;
    for i := 0 to |entries|
      invariant Accepted(entries[..i])
      invariant index == PackedSize(entries[..i])
      invariant fresh(data)
      invariant data[..index] == Pack(entries[..i])
    {
      var e := entries[i];
      assert entries[..i + 1][..i] == entries[..i];
      assert entries[..|entries|] == entries;
      ghost var refusal := Refusal(index, e);
      if refusal.Some? { RefuseAt(entries, i, refusal.value); }
      if e.dict == [] { return Err(EmptyDict); }
      if |e.dict| > DICT_NAME_LEN - 1 { return Err(DictTooLong); }
      if |e.key| > KEY_NAME_LEN - 1 { return Err(KeyTooLong); }
      if |e.value| > U16_MAX { return Err(ValueTooLarge); }
      var needed := 1 + |e.dict| + 1 + |e.key| + 2 + |e.value|;
      if index + needed + 1 > MAX_PDDB_WRITE_BATCH_LEN { return Err(BatchTooLarge); }
      PackOne(data, index, e);
      index := index + needed;
    }
    assert entries[..|entries|] == entries;
    if index < MAX_PDDB_WRITE_BATCH_LEN {
      data[index] := 0;
    }
    assert data[..] == Pack(entries) + [0] + data[index + 1..];
    DecodePackedBatch(entries, data[index + 1..]);
    return Ok(data);
  }

  lemma RefuseAt(entries: seq<BatchEntry>, i: nat, error: PackError)
    requires i < |entries| && RefusedAt(entries, i, error)
    ensures RefusedWith(entries, error) && !Accepted(entries)
  {
    RefusedIsNotAccepted(entries, error);
  }

  method PackName(data: array<byte>, at: nat, name: Bytes)
    requires |name| < 256 && at + 1 + |name| <= data.Length
    modifies data
    ensures data[..at + 1 + |name|] == old(data[..at]) + Prefixed(name)
  {
    CopyInto(data, at, [|name| as byte]);
    CopyInto(data, at + 1, name);
  }

  lemma EntryBehind(before: Bytes, e: BatchEntry)
    requires FieldsFit(e)
    ensures before + Prefixed(e.dict) + Prefixed(e.key) + ValueLength(e.value) + e.value == before + PackEntry(e)
  {
    Reassociate(before + Prefixed(e.dict), Prefixed(e.key), ValueLength(e.value), e.value);
    Reassociate(before, Prefixed(e.dict), Prefixed(e.key), ValueLength(e.value) + e.value);
    Reassociate(Prefixed(e.dict), Prefixed(e.key), ValueLength(e.value), e.value);
  }

  /** Writes one entry field by field behind a moving index. */
  method PackOne(data: array<byte>, at: nat, e: BatchEntry)
    requires FieldsFit(e) && at + EntrySize(e) <= data.Length
    modifies data
    ensures data[..at + EntrySize(e)] == old(data[..at]) + PackEntry(e)
  {
    ghost var before := data[..at];
    var index := at;
    PackName(data, index, e.dict);
    index := index + 1 + |e.dict|;
    PackName(data, index, e.key);
    index := index + 1 + |e.key|;
    CopyInto(data, index, ValueLength(e.value));
    index := index + 2;
    CopyInto(data, index, e.value);
    EntryBehind(before, e);
  }
}
