/** The on-disk value of one address: every device's serialized session, behind
    a version byte, with a legacy reading for values without it. */
module SessionBundle {
  import opened Basics
  import opened ByteStrings

  type DeviceId = n: int | 0 <= n < U32_LIMIT

  /** A session record as libsignal serializes it; its length fits a u64. */
  type Record = b: Bytes | |b| < U64_LIMIT

  lemma Widths()
    ensures Pow256(4) == U32_LIMIT && Pow256(8) == U64_LIMIT
  {
    assert Pow256(8) == 256 * 256 * 256 * 256 * Pow256(4);
  }

  type Bundle = map<DeviceId, Record>

  /** The reader for values written before the version byte existed. */
  type LegacyDecoder = Bytes -> Option<Bundle>

  const SESSION_BUNDLE_VERSION_BINCODE_V1: byte := 0x01

  // ---- bincode's fixed-width layout ----

  function EncodeEntry(device: DeviceId, record: Record): Bytes {
    LittleEndian(device, 4) + LittleEndian(|record|, 8) + record
  }

  function EncodeEntries(order: seq<DeviceId>, bundle: Bundle): Bytes
    requires forall d :: d in order ==> d in bundle
  {
    if order == [] then [] else EncodeEntry(order[0], bundle[order[0]]) + EncodeEntries(order[1..], bundle)
  }

  /** Reads `count` entries; of two entries for one device the later wins, and
      bytes after the last entry are ignored. */
  function DecodeEntries(count: nat, bytes: Bytes): Option<Bundle> {
    if count == 0 then Some(map[])
    else if |bytes| < 12 then None
    else
      Widths();
      var device := FromLittleEndian(bytes[..4]);
      var len := FromLittleEndian(bytes[4..12]);
      if |bytes| < 12 + len then None
      else
        match DecodeEntries(count - 1, bytes[12 + len..])
        case None => None
        case Some(rest) => Some(map[device as DeviceId := bytes[12..12 + len]] + rest)
  }

  function DecodeBincode(bytes: Bytes): Option<Bundle> {
    if |bytes| < 8 then None else DecodeEntries(FromLittleEndian(bytes[..8]), bytes[8..])
  }

  /** Routes on the first byte. */
  function Deserialize(bytes: Bytes, legacy: LegacyDecoder): Option<Bundle> {
    if |bytes| > 0 && bytes[0] == SESSION_BUNDLE_VERSION_BINCODE_V1 then DecodeBincode(bytes[1..]) else legacy(bytes)
  }

  // ---- what is written is what is read ----

  lemma EntryParts(device: DeviceId, record: Record, rest: Bytes)
    ensures var bytes := EncodeEntry(device, record) + rest;
            |bytes| >= 12 + |record| && FromLittleEndian(bytes[..4]) == device
            && FromLittleEndian(bytes[4..12]) == |record|
            && bytes[12..12 + |record|] == record && bytes[12 + |record|..] == rest
  {
    Widths();
    LittleEndianRoundTrip(device, 4);
    LittleEndianRoundTrip(|record|, 8);
    var bytes := EncodeEntry(device, record) + rest;
    assert bytes[..4] == LittleEndian(device, 4);
    assert bytes[4..12] == LittleEndian(|record|, 8);
  }

  /** A number's bytes, lowest first. */
  predicate InFour(n: nat, b: Bytes)
    requires |b| == 4
  {
    n == b[0] as int + 0x100 * b[1] as int + 0x1_0000 * b[2] as int + 0x100_0000 * b[3] as int
  }

  predicate InEight(n: nat, b: Bytes)
    requires |b| == 8
  {
    n == b[0] as int + 0x100 * b[1] as int + 0x1_0000 * b[2] as int + 0x100_0000 * b[3] as int
         + 0x1_0000_0000 * (b[4] as int + 0x100 * b[5] as int + 0x1_0000 * b[6] as int + 0x100_0000 * b[7] as int)
  }

  /** One device's entry byte by byte: its number in four bytes, the length in eight,
      lowest first, and the record. */
  lemma EntryLayout(device: DeviceId, record: Record)
    ensures var e := EncodeEntry(device, record);
            |e| == 12 + |record| && InFour(device, e[..4]) && InEight(|record|, e[4..12]) && e[12..] == record
  {
    var e := EncodeEntry(device, record);
    EntryParts(device, record, []);
    assert e + [] == e;
    FourBytes(e[..4]);
    EightBytes(e[4..12]);
  }

  function Restricted(bundle: Bundle, order: seq<DeviceId>): Bundle {
    map d | d in bundle && d in order :: bundle[d]
  }

  lemma DecodeOne(device: DeviceId, record: Record, count: nat, rest: Bytes, others: Bundle)
    requires DecodeEntries(count, rest) == Some(others)
    ensures DecodeEntries(count + 1, EncodeEntry(device, record) + rest) == Some(map[device := record] + others)
  {
    EntryParts(device, record, rest);
  }

  lemma {:induction false} EntriesRoundTrip(order: seq<DeviceId>, bundle: Bundle, junk: Bytes)
    requires forall d :: d in order ==> d in bundle
    ensures DecodeEntries(|order|, EncodeEntries(order, bundle) + junk) == Some(Restricted(bundle, order))
  {
    hide EncodeEntry;
    if order == [] {
      assert EncodeEntries(order, bundle) + junk == junk;
      assert Restricted(bundle, order) == map[];
    } else {
      var d, rest := order[0], EncodeEntries(order[1..], bundle);
      EntriesRoundTrip(order[1..], bundle, junk);
      DecodeOne(d, bundle[d], |order| - 1, rest + junk, Restricted(bundle, order[1..]));
      assert EncodeEntries(order, bundle) + junk == EncodeEntry(d, bundle[d]) + (rest + junk);
      RestrictedCons(bundle, order);
    }
  }

  lemma RestrictedCons(bundle: Bundle, order: seq<DeviceId>)
    requires order != [] && order[0] in bundle
    ensures map[order[0] := bundle[order[0]]] + Restricted(bundle, order[1..]) == Restricted(bundle, order)
  {
  }

  /** Whatever the iteration order, and whatever follows, the body reads back. */
  lemma AnyOrderRoundTrip(order: seq<DeviceId>, bundle: Bundle, junk: Bytes)
    requires |order| == |bundle| < U64_LIMIT && forall d :: d in order <==> d in bundle
    ensures DecodeBincode(LittleEndian(|bundle|, 8) + EncodeEntries(order, bundle) + junk) == Some(bundle)
  {
    var head, rest := LittleEndian(|bundle|, 8), EncodeEntries(order, bundle);
    SplitAt(head, rest, junk);
    Widths();
    LittleEndianRoundTrip(|bundle|, 8);
    EntriesRoundTrip(order, bundle, junk);
    assert Restricted(bundle, order) == bundle;
  }

  lemma {:induction false} EncodeAppend(order: seq<DeviceId>, d: DeviceId, bundle: Bundle)
    requires d in bundle && forall x :: x in order ==> x in bundle
    ensures EncodeEntries(order + [d], bundle) == EncodeEntries(order, bundle) + EncodeEntry(d, bundle[d])
  {
    hide EncodeEntry;
    if order == [] {
      assert order + [d] == [d] && [d][1..] == [];
    } else {
      EncodeAppend(order[1..], d, bundle);
      assert (order + [d])[1..] == order[1..] + [d];
    }
  }

  lemma {:induction false} CountBelow(s: set<DeviceId>, n: nat)
    requires forall d :: d in s ==> d < n
    ensures |s| <= n
  {
    if n == 0 {
      assert s == {};
    } else if n - 1 < U32_LIMIT {
      CountBelow(s - {n - 1}, n - 1);
    } else {
      CountBelow(s, n - 1);
    }
  }

  lemma CountFitsU64(bundle: Bundle)
    ensures |bundle| < U64_LIMIT
  {
    CountBelow(bundle.Keys, U32_LIMIT);
  }

  // ---- the stored value, whole and torn ----

  /** Every device of the bundle once. */
  ghost predicate IsOrder(order: seq<DeviceId>, bundle: Bundle) {
    |order| == |bundle| && forall d :: d in order <==> d in bundle
  }

  function Layout(order: seq<DeviceId>, bundle: Bundle): Bytes
    requires forall d :: d in order ==> d in bundle
  {
    [SESSION_BUNDLE_VERSION_BINCODE_V1] + LittleEndian(|bundle|, 8) + EncodeEntries(order, bundle)
  }

  ghost predicate IsSerialized(value: Bytes, bundle: Bundle) {
    exists order :: IsOrder(order, bundle) && value == Layout(order, bundle)
  }

  /** A stored value opens with the version byte and the number of devices in eight
      bytes, lowest first. */
  lemma ValueLayout(value: Bytes, bundle: Bundle)
    requires IsSerialized(value, bundle)
    ensures |value| >= 9 && value[0] == 0x01 && InEight(|bundle|, value[1..9])
  {
    CountFitsU64(bundle);
    Widths();
    LittleEndianRoundTrip(|bundle|, 8);
    assert value[1..9] == LittleEndian(|bundle|, 8);
    EightBytes(value[1..9]);
  }

  /** A stored value reads back whatever the legacy decoder does. */
  lemma SerializedReads(value: Bytes, bundle: Bundle, legacy: LegacyDecoder)
    requires IsSerialized(value, bundle)
    ensures Deserialize(value, legacy) == Some(bundle)
  {
    var order :| IsOrder(order, bundle) && value == Layout(order, bundle);
    CountFitsU64(bundle);
    AnyOrderRoundTrip(order, bundle, []);
    assert value[1..] == LittleEndian(|bundle|, 8) + EncodeEntries(order, bundle) + [];
  }

  lemma TornEntry(device: DeviceId, record: Record, count: nat, n: nat)
    requires n < |EncodeEntry(device, record)|
    ensures DecodeEntries(count + 1, EncodeEntry(device, record)[..n]) == None
  {
    if n >= 12 {
      EntryParts(device, record, []);
      var whole := EncodeEntry(device, record);
      assert whole + [] == whole && whole[..n][4..12] == whole[4..12];
    }
  }

  /** No proper prefix of the entries holds as many as the whole. */
  lemma {:induction false} TornEntries(order: seq<DeviceId>, bundle: Bundle, n: nat)
    requires (forall d :: d in order ==> d in bundle) && n < |EncodeEntries(order, bundle)|
    ensures DecodeEntries(|order|, EncodeEntries(order, bundle)[..n]) == None
  {
    if order != [] {
      var d, rest := order[0], EncodeEntries(order[1..], bundle);
      var head := EncodeEntry(d, bundle[d]);
      if n < |head| {
        TornEntry(d, bundle[d], |order| - 1, n);
        assert (head + rest)[..n] == head[..n];
      } else {
        TornEntries(order[1..], bundle, n - |head|);
        EntryParts(d, bundle[d], rest[..n - |head|]);
        assert (head + rest)[..n] == head + rest[..n - |head|];
      }
    }
  }

  /** A value cut short anywhere reads as nothing, an empty one being the legacy
      decoder's to refuse. */
  lemma TornValueUnreadable(value: Bytes, bundle: Bundle, n: nat, legacy: LegacyDecoder)
    requires IsSerialized(value, bundle) && n < |value| && legacy([]) == None
    ensures Deserialize(value[..n], legacy) == None
  {
    hide DecodeBincode, EncodeEntries, LittleEndian;
    var order :| IsOrder(order, bundle) && value == Layout(order, bundle);
    if n == 0 {
      assert value[..0] == [];
    } else {
      TornBody(order, bundle, n - 1);
      assert value[..n][1..] == (LittleEndian(|bundle|, 8) + EncodeEntries(order, bundle))[..n - 1];
      assert value[..n][0] == SESSION_BUNDLE_VERSION_BINCODE_V1;
    }
  }

  lemma TornBody(order: seq<DeviceId>, bundle: Bundle, n: nat)
    requires IsOrder(order, bundle) && n < 8 + |EncodeEntries(order, bundle)|
    ensures DecodeBincode((LittleEndian(|bundle|, 8) + EncodeEntries(order, bundle))[..n]) == None
  {
    var count, entries := LittleEndian(|bundle|, 8), EncodeEntries(order, bundle);
    var body := (count + entries)[..n];
    if n >= 8 {
      CountFitsU64(bundle);
      Widths();
      LittleEndianRoundTrip(|bundle|, 8);
      TornEntries(order, bundle, n - 8);
      assert body[..8] == count && body[8..] == entries[..n - 8];
    }
  }

  /** Entries go out in an arbitrary order, and every reader gets the bundle
      back from the version byte on. */
  method Serialize(bundle: Bundle) returns (out: Bytes)
    ensures IsSerialized(out, bundle)
    ensures forall legacy: LegacyDecoder :: Deserialize(out, legacy) == Some(bundle)
  {
    hide EncodeEntry, Deserialize, LittleEndian;
    CountFitsU64(bundle);
    ghost var head := LittleEndian(|bundle|, 8);
    var body := LittleEndian(|bundle|, 8);
    ghost var order: seq<DeviceId> := [];
    var left := bundle.Keys;
    while left != {}
      invariant left <= bundle.Keys
      invariant forall d :: d in order <==> d in bundle.Keys - left
      invariant |order| + |left| == |bundle|
      invariant body == head + EncodeEntries(order, bundle)
      decreases left
    {
      var d :| d in left;
      EncodeAppend(order, d, bundle);
      body := body + EncodeEntry(d, bundle[d]);
      order := order + [d];
      left := left - {d};
    }
    out := [SESSION_BUNDLE_VERSION_BINCODE_V1] + body;
    assert out == Layout(order, bundle);
    forall legacy: LegacyDecoder ensures Deserialize(out, legacy) == Some(bundle) {
      SerializedReads(out, bundle, legacy);
    }
  }
}
