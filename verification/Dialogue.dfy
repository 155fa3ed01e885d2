/** The conversation list: one row per conversation, folded from the messages and
    sorted newest first. */
module Dialogue {
  import opened ByteStrings

  const SNIPPET_CHARS := 32
  const U32_MAX := 0xFFFF_FFFF

  type Uuid = u: Bytes | |u| == 16 witness seq(16, _ => 0)

  datatype SendStatus = Pending | Sent | Delivered | Failed

  datatype Message = Message(
    uuid: Uuid, author: string, body: string, timestamp: nat,
    outgoing: bool, status: SendStatus, read: bool, group: bool)

  datatype Row = Row(
    uuid: Uuid, name: string, snippet: string, lastTs: nat,
    lastOutgoing: bool, lastStatus: SendStatus, unread: nat, group: bool)

  // ---- labels ----

  function HexDigit(n: nat): (c: char)
    requires n < 16
    ensures IsHexDigit(c)
  {
    "0123456789abcdef"[n]
  }

  function Nibble(u: Uuid, i: nat): (c: char)
    requires i < 32
    ensures IsHexDigit(c)
  {
    HexDigit(if i % 2 == 0 then u[i / 2] as int / 16 else u[i / 2] as int % 16)
  }

  /** The first eight hex digits stand for the whole identifier. */
  function ShortLabel(u: Uuid): string {
    "uuid:" + seq(8, i requires 0 <= i < 8 => Nibble(u, i))
  }

  predicate IsHexDigit(c: char) {
    '0' <= c <= '9' || 'a' <= c <= 'f' || 'A' <= c <= 'F'
  }

  predicate IsDashPlace(i: nat) {
    i == 8 || i == 13 || i == 18 || i == 23
  }

  /** A contact lookup that failed leaves the identifier itself as the label:
      with its dashes or without. Only ASCII passes, so the length in bytes is the
      length in characters. */
  predicate LooksLikeRawUuid(s: string) {
    (|s| == 36 && forall i :: 0 <= i < 36 ==> if IsDashPlace(i) then s[i] == '-' else IsHexDigit(s[i]))
    || (|s| == 32 && forall i :: 0 <= i < 32 ==> IsHexDigit(s[i]))
  }

  /** An identifier as text: digits and dashes, or digits alone. */
  function Hyphenated(u: Uuid): string {
    NibbleString(u, 0, 8) + "-" + NibbleString(u, 8, 12) + "-" + NibbleString(u, 12, 16) + "-"
    + NibbleString(u, 16, 20) + "-" + NibbleString(u, 20, 32)
  }

  function Simple(u: Uuid): string {
    NibbleString(u, 0, 32)
  }

  /** The hex digits `from` up to `to`, the high half of each byte first. */
  function NibbleString(u: Uuid, from: nat, to: nat): (s: string)
    requires from <= to <= 32
    ensures |s| == to - from && forall i :: 0 <= i < |s| ==> IsHexDigit(s[i])
  {
    var s := seq(to - from, i requires 0 <= i < to - from => Nibble(u, from + i));
    assert forall i :: 0 <= i < |s| ==> s[i] == Nibble(u, from + i);
    s
  }

  /** Every identifier is recognised in both of its texts; a text of any other
      length, or with anything but hex digits and dashes, is a name. */
  lemma RawUuidsRecognised(u: Uuid, s: string)
    ensures LooksLikeRawUuid(Hyphenated(u)) && LooksLikeRawUuid(Simple(u))
    ensures |s| != 36 && |s| != 32 ==> !LooksLikeRawUuid(s)
    ensures (exists i :: 0 <= i < |s| && s[i] != '-' && !IsHexDigit(s[i])) ==> !LooksLikeRawUuid(s)
  {
    var h := Hyphenated(u);
    assert |h| == 36 && h[8] == h[13] == h[18] == h[23] == '-';
    forall i | 0 <= i < 36 && !IsDashPlace(i) ensures IsHexDigit(h[i]) {
      HyphenatedDigit(u, i);
    }
  }

  lemma HyphenatedDigit(u: Uuid, i: nat)
    requires i < 36 && !IsDashPlace(i)
    ensures |Hyphenated(u)| == 36 && IsHexDigit(Hyphenated(u)[i])
  {
    var a, b, c, d, e := NibbleString(u, 0, 8), NibbleString(u, 8, 12), NibbleString(u, 12, 16),
                         NibbleString(u, 16, 20), NibbleString(u, 20, 32);
    assert Hyphenated(u)[i] == if i < 8 then a[i] else if i < 13 then b[i - 9] else if i < 18 then c[i - 14]
                               else if i < 23 then d[i - 19] else e[i - 24];
  }

  /** "uuid:" and the eight hex digits of the first four bytes. */
  lemma ShortLabelReads(u: Uuid)
    ensures |ShortLabel(u)| == 13 && ShortLabel(u)[..5] == "uuid:"
    ensures forall i :: 0 <= i < 4 ==>
              ShortLabel(u)[5 + 2 * i] == "0123456789abcdef"[u[i] as int / 16]
              && ShortLabel(u)[6 + 2 * i] == "0123456789abcdef"[u[i] as int % 16]
  {
  }

  function Ellipsize(s: string, max: nat): (r: string)
    ensures |r| <= max && (|s| <= max ==> r == s)
    ensures |s| > max > 0 ==> |r| == max && r[..max - 1] == s[..max - 1] && r[max - 1] == '\U{2026}'
  {
    if max == 0 then "" else if |s| <= max then s else s[..max - 1] + "\U{2026}"
  }

  /** What an incoming message says its conversation is called. */
  function NameFrom(m: Message): string {
    if LooksLikeRawUuid(m.author) then ShortLabel(m.uuid) else m.author
  }

  // ---- what a row should say, independently of how it is computed ----

  predicate In(messages: seq<Message>, i: int, u: Uuid) {
    0 <= i < |messages| && messages[i].uuid == u
  }

  /** The latest among the conversation's messages with the greatest timestamp. */
  ghost predicate IsLatest(messages: seq<Message>, u: Uuid, i: int) {
    In(messages, i, u)
    && forall j :: In(messages, j, u)
         ==> messages[j].timestamp <= messages[i].timestamp && (j > i ==> messages[j].timestamp < messages[i].timestamp)
  }

  ghost predicate IsLastIncoming(messages: seq<Message>, u: Uuid, i: int) {
    In(messages, i, u) && !messages[i].outgoing
    && forall j :: In(messages, j, u) && j > i ==> messages[j].outgoing
  }

  predicate IsUnread(m: Message) {
    !m.outgoing && m.status == Sent && !m.read
  }

  function UnreadIn(messages: seq<Message>, u: Uuid): nat {
    if messages == [] then 0
    else
      var m := messages[|messages| - 1];
      UnreadIn(messages[..|messages| - 1], u) + if m.uuid == u && IsUnread(m) then 1 else 0
  }

  /** The incoming messages of a conversation that are there to be read. */
  function UnreadPlaces(messages: seq<Message>, u: Uuid): set<int> {
    set i | 0 <= i < |messages| && messages[i].uuid == u && !messages[i].outgoing && messages[i].status == Sent
            && !messages[i].read
  }

  lemma UnreadPlacesGrow(messages: seq<Message>, u: Uuid)
    requires messages != []
    ensures var n := |messages| - 1;
            var before := UnreadPlaces(messages[..n], u);
            n !in before
            && UnreadPlaces(messages, u) == before + if messages[n].uuid == u && IsUnread(messages[n]) then {n} else {}
  {
  }

  lemma {:induction false} UnreadCounted(messages: seq<Message>, u: Uuid)
    ensures UnreadIn(messages, u) == |UnreadPlaces(messages, u)|
  {
    if messages == [] {
      assert UnreadPlaces(messages, u) == {};
    } else {
      var n := |messages| - 1;
      UnreadCounted(messages[..n], u);
      UnreadPlacesGrow(messages, u);
    }
  }

  function Saturated(n: nat): nat {
    if n > U32_MAX then U32_MAX else n
  }

  ghost predicate ShowsLatest(messages: seq<Message>, row: Row, i: int)
  {
    IsLatest(messages, row.uuid, i)
    && row.lastTs == messages[i].timestamp && row.snippet == Ellipsize(messages[i].body, SNIPPET_CHARS)
    && row.lastOutgoing == messages[i].outgoing && row.lastStatus == messages[i].status
  }

  ghost predicate NamedRight(messages: seq<Message>, row: Row) {
    (forall i :: IsLastIncoming(messages, row.uuid, i) ==> row.name == NameFrom(messages[i]))
    && ((forall i :: In(messages, i, row.uuid) ==> messages[i].outgoing) ==> row.name == ShortLabel(row.uuid))
  }

  ghost predicate Summarises(messages: seq<Message>, row: Row) {
    (exists i :: ShowsLatest(messages, row, i))
    && NamedRight(messages, row)
    && row.unread == Saturated(UnreadIn(messages, row.uuid))
    && (row.group <==> exists i :: In(messages, i, row.uuid) && messages[i].group)
  }

  predicate NewestFirst(rows: seq<Row>) {
    forall i, j :: 0 <= i < j < |rows| ==> rows[i].lastTs >= rows[j].lastTs
  }

  predicate OneEach(rows: seq<Row>) {
    forall i, j :: 0 <= i < j < |rows| ==> rows[i].uuid != rows[j].uuid
  }

  ghost predicate Lists(rows: seq<Row>, u: Uuid) {
    exists i :: 0 <= i < |rows| && rows[i].uuid == u
  }

  /** A faithful conversation list for these messages. */
  ghost predicate IsRebuild(messages: seq<Message>, rows: seq<Row>) {
    (forall r :: r in rows ==> Summarises(messages, r))
    && (forall i :: 0 <= i < |messages| ==> Lists(rows, messages[i].uuid))
    && OneEach(rows) && NewestFirst(rows)
  }

  lemma {:induction false} LastIncomingExists(messages: seq<Message>, u: Uuid)
    ensures (exists i :: IsLastIncoming(messages, u, i)) || (forall i :: In(messages, i, u) ==> messages[i].outgoing)
  {
    if messages != [] {
      var n := |messages| - 1;
      var front := messages[..n];
      LastIncomingExists(front, u);
      if In(messages, n, u) && !messages[n].outgoing {
        assert IsLastIncoming(messages, u, n);
      } else if i :| IsLastIncoming(front, u, i) {
        assert IsLastIncoming(messages, u, i);
      } else {
        forall j | In(messages, j, u) ensures messages[j].outgoing {
          assert j < n ==> In(front, j, u);
        }
      }
    }
  }

  /** The messages leave no freedom in what a row says. */
  lemma SummaryUnique(messages: seq<Message>, a: Row, b: Row)
    requires Summarises(messages, a) && Summarises(messages, b) && a.uuid == b.uuid
    ensures a == b
  {
    LastIncomingExists(messages, a.uuid);
    var i :| ShowsLatest(messages, a, i);
    var j :| ShowsLatest(messages, b, j);
    assert In(messages, i, a.uuid) && In(messages, j, a.uuid);
    assert i == j;
  }

  /** Two faithful lists hold the same rows; only ties may be ordered apart. */
  lemma RebuildUnique(messages: seq<Message>, a: seq<Row>, b: seq<Row>)
    requires IsRebuild(messages, a) && IsRebuild(messages, b)
    ensures forall r :: r in a <==> r in b
  {
    forall r ensures r in a ==> r in b { RowShared(messages, a, b, r); }
    forall r ensures r in b ==> r in a { RowShared(messages, b, a, r); }
  }

  lemma RowShared(messages: seq<Message>, a: seq<Row>, b: seq<Row>, r: Row)
    requires IsRebuild(messages, a) && IsRebuild(messages, b)
    ensures r in a ==> r in b
  {
    if r in a {
      var i :| ShowsLatest(messages, r, i);
      assert Lists(b, messages[i].uuid);
      var k :| 0 <= k < |b| && b[k].uuid == r.uuid;
      assert b[k] in b;
      SummaryUnique(messages, r, b[k]);
    }
  }

  /** The conversation's row in a faithful list is called what its last incoming
      message says: the contact's name, or for an identifier standing in for it the
      short label. */
  lemma RowIsNamed(messages: seq<Message>, rows: seq<Row>, u: Uuid, i: nat)
    requires IsRebuild(messages, rows) && IsLastIncoming(messages, u, i)
    ensures Lists(rows, u)
    ensures forall r :: r in rows && r.uuid == u ==>
              r.name == if LooksLikeRawUuid(messages[i].author) then ShortLabel(u) else messages[i].author
  {
    assert messages[i].uuid == u;
    forall r | r in rows && r.uuid == u
      ensures r.name == if LooksLikeRawUuid(messages[i].author) then ShortLabel(u) else messages[i].author
    {
      assert Summarises(messages, r);
    }
  }

  // ---- the fold ----

  function NewRow(u: Uuid): Row {
    Row(u, ShortLabel(u), "", 0, false, Sent, 0, false)
  }

  /** One message folded into its conversation's row. */
  function Absorb(row: Row, m: Message): Row {
    var named := row.(group := row.group || m.group, name := if m.outgoing then row.name else NameFrom(m));
    var dated := if m.timestamp >= row.lastTs
                 then named.(lastTs := m.timestamp, snippet := Ellipsize(m.body, SNIPPET_CHARS),
                             lastOutgoing := m.outgoing, lastStatus := m.status)
                 else named;
    if IsUnread(m) then dated.(unread := Saturated(row.unread + 1)) else dated
  }

  ghost predicate FoldedTo(messages: seq<Message>, u: Uuid, row: Row) {
    row.uuid == u
    && if exists i :: In(messages, i, u) then Summarises(messages, row) else row == NewRow(u)
  }

  lemma NameAbsorbed(messages: seq<Message>, m: Message, row: Row)
    requires FoldedTo(messages, m.uuid, row)
    ensures NamedRight(messages + [m], Absorb(row, m))
  {
    var n, u, after, row' := |messages|, m.uuid, messages + [m], Absorb(row, m);
    forall i | IsLastIncoming(after, u, i) ensures row'.name == NameFrom(after[i]) {
      assert In(after, n, u);
      if i < n {
        assert IsLastIncoming(messages, u, i) by {
          forall j | In(messages, j, u) && j > i ensures messages[j].outgoing { assert In(after, j, u); }
        }
      }
    }
    if forall i :: In(after, i, u) ==> after[i].outgoing {
      assert In(after, n, u);
      forall i | In(messages, i, u) ensures messages[i].outgoing { assert In(after, i, u); }
    }
  }

  lemma LatestAbsorbed(messages: seq<Message>, m: Message, row: Row)
    requires FoldedTo(messages, m.uuid, row)
    ensures exists i :: ShowsLatest(messages + [m], Absorb(row, m), i)
  {
    var n, u, after, row' := |messages|, m.uuid, messages + [m], Absorb(row, m);
    assert forall j :: In(after, j, u) <==> j == n || In(messages, j, u);
    if exists i :: In(messages, i, u) {
      var k :| ShowsLatest(messages, row, k);
      assert IsLatest(after, u, if m.timestamp >= row.lastTs then n else k);
      assert ShowsLatest(after, row', if m.timestamp >= row.lastTs then n else k);
    } else {
      assert ShowsLatest(after, row', n);
    }
  }

  lemma {:induction false} NothingUnread(messages: seq<Message>, u: Uuid)
    requires forall i :: !In(messages, i, u)
    ensures UnreadIn(messages, u) == 0
  {
    if messages != [] {
      var front := messages[..|messages| - 1];
      assert !In(messages, |messages| - 1, u);
      forall i ensures !In(front, i, u) { assert !In(messages, i, u); }
      NothingUnread(front, u);
    }
  }

  lemma CountAbsorbed(messages: seq<Message>, m: Message, row: Row)
    requires FoldedTo(messages, m.uuid, row)
    ensures Absorb(row, m).unread == Saturated(UnreadIn(messages + [m], m.uuid))
  {
    assert (messages + [m])[..|messages|] == messages;
    if forall i :: !In(messages, i, m.uuid) { NothingUnread(messages, m.uuid); }
  }

  lemma GroupAbsorbed(messages: seq<Message>, m: Message, row: Row)
    requires FoldedTo(messages, m.uuid, row)
    ensures Absorb(row, m).group <==> exists i :: In(messages + [m], i, m.uuid) && (messages + [m])[i].group
  {
    var after := messages + [m];
    forall j ensures In(after, j, m.uuid) <==> j == |messages| || In(messages, j, m.uuid) { }
    if m.group {
      assert In(after, |messages|, m.uuid) && after[|messages|].group;
    } else if i :| In(messages, i, m.uuid) && messages[i].group {
      assert In(after, i, m.uuid) && after[i].group;
    }
  }

  /** Folding in one more message of the conversation keeps the row right. */
  lemma Absorbed(messages: seq<Message>, m: Message, row: Row)
    requires FoldedTo(messages, m.uuid, row)
    ensures FoldedTo(messages + [m], m.uuid, Absorb(row, m))
  {
    LatestAbsorbed(messages, m, row);
    NameAbsorbed(messages, m, row);
    CountAbsorbed(messages, m, row);
    GroupAbsorbed(messages, m, row);
    assert In(messages + [m], |messages|, m.uuid);
  }

  /** Messages of other conversations are none of a row's business. */
  lemma OthersIgnored(messages: seq<Message>, m: Message, u: Uuid, row: Row)
    requires FoldedTo(messages, u, row) && m.uuid != u
    ensures FoldedTo(messages + [m], u, row)
  {
    var after := messages + [m];
    assert after[..|messages|] == messages;
    forall j ensures In(after, j, u) <==> In(messages, j, u) { }
    forall j ensures IsLastIncoming(after, u, j) <==> IsLastIncoming(messages, u, j) { }
    if exists i :: In(messages, i, u) {
      var k :| ShowsLatest(messages, row, k);
      assert ShowsLatest(after, row, k);
    }
  }

  // ---- sorting ----

  /** A stable insertion from the left. */
  function Place(rows: seq<Row>, r: Row): (out: seq<Row>)
    ensures forall x :: x in out <==> x in rows || x == r
  {
    if rows == [] || r.lastTs > rows[0].lastTs then [r] + rows
    else
      assert rows == [rows[0]] + rows[1..];
      [rows[0]] + Place(rows[1..], r)
  }

  lemma {:induction false} PlaceSorts(rows: seq<Row>, r: Row)
    requires NewestFirst(rows) && OneEach(rows) && forall x :: x in rows ==> x.uuid != r.uuid
    ensures NewestFirst(Place(rows, r)) && OneEach(Place(rows, r))
  {
    if rows != [] && r.lastTs <= rows[0].lastTs {
      var rest := Place(rows[1..], r);
      PlaceSorts(rows[1..], r);
      forall i | 0 <= i < |rest| ensures rest[i].uuid != rows[0].uuid && rest[i].lastTs <= rows[0].lastTs {
        assert rest[i] in rest;
      }
    }
  }

  function SortRows(rows: seq<Row>): (out: seq<Row>)
    requires OneEach(rows)
    ensures NewestFirst(out) && OneEach(out) && forall x :: x in out <==> x in rows
  {
    if rows == [] then []
    else
      var n := |rows| - 1;
      var sorted := SortRows(rows[..n]);
      assert rows == rows[..n] + [rows[n]];
      PlaceSorts(sorted, rows[n]);
      Place(sorted, rows[n])
  }

  // ---- the rebuild ----

  method FoldMessages(messages: seq<Message>) returns (entries: map<Uuid, Row>)
    ensures forall u :: u in entries <==> exists i :: In(messages, i, u)
    ensures forall u :: u in entries ==> FoldedTo(messages, u, entries[u])
  {
    entries := map[];
    assert messages[..|messages|] == messages;
    for n := 0 to |messages|
      invariant forall u :: u in entries <==> exists i :: In(messages[..n], i, u)
      invariant forall u :: u in entries ==> FoldedTo(messages[..n], u, entries[u])
    {
      var m := messages[n];
      ghost var seen, before := messages[..n], entries;
      assert messages[..n + 1] == seen + [m];
      var row := if m.uuid in entries then entries[m.uuid] else NewRow(m.uuid);
      entries := entries[m.uuid := Absorb(row, m)];
      Absorbed(seen, m, row);
      forall u ensures u in entries <==> exists i :: In(seen + [m], i, u) { MembersGrow(seen, m, u); }
      forall u | u in entries ensures FoldedTo(seen + [m], u, entries[u]) {
        if u != m.uuid { OthersIgnored(seen, m, u, before[u]); }
      }
    }
  }

  lemma MembersGrow(messages: seq<Message>, m: Message, u: Uuid)
    ensures (exists i :: In(messages + [m], i, u)) <==> u == m.uuid || exists i :: In(messages, i, u)
  {
    if u == m.uuid { assert In(messages + [m], |messages|, u); }
    if i :| In(messages, i, u) { assert In(messages + [m], i, u); }
    if i :| In(messages + [m], i, u) { assert u == m.uuid || In(messages, i, u); }
  }

  /** The values of the map, in whatever order it yields them. */
  method ValuesOf(entries: map<Uuid, Row>) returns (rows: seq<Row>)
    requires forall u :: u in entries ==> entries[u].uuid == u
    ensures OneEach(rows) && forall r :: r in rows <==> r.uuid in entries && entries[r.uuid] == r
  {
    rows := [];
    var left := entries.Keys;
    while left != {}
      invariant left <= entries.Keys && OneEach(rows)
      invariant forall r :: r in rows <==> r.uuid in entries.Keys - left && entries[r.uuid] == r
      decreases left
    {
      var u :| u in left;
      left := left - {u};
      assert forall i :: 0 <= i < |rows| ==> rows[i] in rows && rows[i].uuid != u;
      rows := rows + [entries[u]];
    }
  }

  method RebuildSummaries(messages: seq<Message>) returns (rows: seq<Row>)
    ensures IsRebuild(messages, rows)
  {
    var entries := FoldMessages(messages);
    var values := ValuesOf(entries);
    rows := SortRows(values);
    forall i | 0 <= i < |messages| ensures Lists(rows, messages[i].uuid) {
      var u := messages[i].uuid;
      assert In(messages, i, u);
      assert entries[u] in rows;
    }
  }

  // ---- the unread total ----

  function SumUnread(rows: seq<Row>): nat {
    if rows == [] then 0 else SumUnread(rows[..|rows| - 1]) + rows[|rows| - 1].unread
  }

  /** Unread messages, over all conversations. */
  function AllUnread(messages: seq<Message>): nat {
    if messages == [] then 0
    else AllUnread(messages[..|messages| - 1]) + if IsUnread(messages[|messages| - 1]) then 1 else 0
  }

  function SumOver(messages: seq<Message>, rows: seq<Row>): nat {
    if rows == [] then 0 else SumOver(messages, rows[..|rows| - 1]) + UnreadIn(messages, rows[|rows| - 1].uuid)
  }

  lemma {:induction false} SumOverNone(rows: seq<Row>)
    ensures SumOver([], rows) == 0
  {
    if rows != [] { SumOverNone(rows[..|rows| - 1]); }
  }

  /** One more message counts once: in its own conversation's row. */
  lemma {:induction false} SumOverGrows(messages: seq<Message>, m: Message, rows: seq<Row>)
    requires OneEach(rows)
    ensures SumOver(messages + [m], rows)
            == SumOver(messages, rows) + if IsUnread(m) && Lists(rows, m.uuid) then 1 else 0
  {
    assert (messages + [m])[..|messages|] == messages;
    if rows != [] {
      var n := |rows| - 1;
      SumOverGrows(messages, m, rows[..n]);
      assert Lists(rows, m.uuid) <==> Lists(rows[..n], m.uuid) || rows[n].uuid == m.uuid by {
        if rows[n].uuid != m.uuid && Lists(rows, m.uuid) {
          var i :| 0 <= i < |rows| && rows[i].uuid == m.uuid;
          assert rows[..n][i].uuid == m.uuid;
        }
      }
    }
  }

  lemma {:induction false} SumOverAll(messages: seq<Message>, rows: seq<Row>)
    requires OneEach(rows) && forall i :: 0 <= i < |messages| ==> Lists(rows, messages[i].uuid)
    ensures SumOver(messages, rows) == AllUnread(messages)
  {
    if messages == [] {
      SumOverNone(rows);
    } else {
      var n := |messages| - 1;
      SumOverAll(messages[..n], rows);
      SumOverGrows(messages[..n], messages[n], rows);
      assert messages == messages[..n] + [messages[n]];
    }
  }

  /** Saturation never shows while the whole count fits. */
  lemma {:induction false} SumsAgree(messages: seq<Message>, rows: seq<Row>)
    requires forall r :: r in rows ==> r.unread == Saturated(UnreadIn(messages, r.uuid))
    requires SumOver(messages, rows) <= U32_MAX
    ensures SumUnread(rows) == SumOver(messages, rows)
  {
    if rows != [] {
      assert rows[|rows| - 1] in rows;
      SumsAgree(messages, rows[..|rows| - 1]);
    }
  }

  /** The header's count: the rows' counts added up in 32 bits. */
  function TotalUnread(rows: seq<Row>): nat {
    SumUnread(rows) % (U32_MAX + 1)
  }

  /** The header is right exactly while the unread messages fit 32 bits. */
  lemma TotalIsCount(messages: seq<Message>, rows: seq<Row>)
    requires IsRebuild(messages, rows)
    ensures TotalUnread(rows) == AllUnread(messages) <==> AllUnread(messages) <= U32_MAX
  {
    SumOverAll(messages, rows);
    forall r | r in rows ensures r.unread == Saturated(UnreadIn(messages, r.uuid)) {
      assert Summarises(messages, r);
    }
    if SumOver(messages, rows) <= U32_MAX {
      SumsAgree(messages, rows);
    }
    WrapsAbove(SumUnread(rows));
  }

  lemma WrapsAbove(n: nat)
    ensures n % (U32_MAX + 1) <= U32_MAX && (n <= U32_MAX ==> n % (U32_MAX + 1) == n)
  {
  }
}
