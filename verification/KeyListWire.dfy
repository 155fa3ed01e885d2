/** Paged key listings: packed name pages, the client's parser over arbitrary
    page bytes, and the drain of a whole listing. */
module KeyListWire {
  import opened ByteStrings

  const MAX_PDDBKLISTLEN := 4064

  datatype Retcode = Okay | AccessDenied | OtherCode

  /** What one `ListKeyV2` round trip brings back. */
  datatype ListReply = IpcFailure | Page(retcode: Retcode, data: Bytes, end: bool)

  datatype ListError = Ipc | Denied | Unexpected | Overrun | NotUtf8

  // ---- the page format ----

  predicate Listable(name: Bytes) {
    1 <= |name| <= 255 && ValidUtf8(name)
  }

  predicate AllListable(names: seq<Name>) {
    forall n :: n in names ==> Listable(n)
  }

  function EncodeName(name: Name): (r: Bytes)
    requires Listable(name)
    ensures |r| == 1 + |name|
  {
    [|name| as byte] + name
  }

  function EncodeNames(names: seq<Name>): Bytes
    requires AllListable(names)
  {
    if names == [] then [] else EncodeNames(names[..|names| - 1]) + EncodeName(names[|names| - 1])
  }

  /** `data` opens with exactly these names: after them the page is full, or a
      zero byte follows. */
  predicate PageHolds(data: Bytes, names: seq<Name>) {
    AllListable(names) && EncodeNames(names) <= data
    && (|EncodeNames(names)| == |data| || data[|EncodeNames(names)|] == 0)
  }

  /** After some well-formed names comes a record that overruns the page or is
      not UTF-8. */
  ghost predicate Malformed(data: Bytes) {
    exists names: seq<Name> :: AllListable(names) && EncodeNames(names) <= data
      && BadRecordAt(data, |EncodeNames(names)|)
  }

  predicate BadRecordAt(data: Bytes, idx: nat) {
    idx < |data| && data[idx] != 0
    && (idx + 1 + data[idx] as int > |data| || !ValidUtf8(data[idx + 1..idx + 1 + data[idx] as int]))
  }

  lemma {:induction false} EncodePrefix(names: seq<Name>, k: nat)
    requires AllListable(names) && k <= |names|
    ensures AllListable(names[..k]) && EncodeNames(names[..k]) <= EncodeNames(names)
    decreases |names|
  {
    if k < |names| {
      EncodePrefix(names[..|names| - 1], k);
      assert names[..|names| - 1][..k] == names[..k];
    } else {
      assert names[..k] == names;
    }
  }

  /** The record right behind the first `k` names is name `k`. */
  lemma EncodeAt(data: Bytes, names: seq<Name>, k: nat)
    requires AllListable(names) && k < |names| && EncodeNames(names) <= data
    ensures AllListable(names[..k])
    ensures var at := |EncodeNames(names[..k])|;
            at + 1 + |names[k]| <= |data| && data[at] as int == |names[k]|
            && data[at + 1..at + 1 + |names[k]|] == names[k]
  {
    EncodePrefix(names, k);
    EncodePrefix(names, k + 1);
    assert names[..k + 1][..k] == names[..k];
    var at := |EncodeNames(names[..k])|;
    var upTo := EncodeNames(names[..k]) + EncodeName(names[k]);
    assert upTo == EncodeNames(names[..k + 1]) <= data;
    assert upTo[at] == data[at];
    assert data[at + 1..at + 1 + |names[k]|] == upTo[at + 1..];
  }

  lemma RecordFollows(data: Bytes, names: seq<Name>, k: nat, prefix: seq<Name>)
    requires AllListable(names) && k < |names| && EncodeNames(names) <= data && names[..k] == prefix
    ensures AllListable(prefix) && |EncodeNames(prefix)| < |data| && data[|EncodeNames(prefix)|] != 0
  {
    EncodeAt(data, names, k);
    assert Listable(names[k]);
  }

  /** Two readings of one page agree as far as both go. */
  lemma {:induction false} ReadingsAgree(data: Bytes, a: seq<Name>, b: seq<Name>, k: nat)
    requires AllListable(a) && AllListable(b) && EncodeNames(a) <= data && EncodeNames(b) <= data
    requires k <= |a| && k <= |b|
    ensures a[..k] == b[..k]
    decreases k
  {
    if k > 0 {
      ReadingsAgree(data, a, b, k - 1);
      EncodeAt(data, a, k - 1);
      EncodeAt(data, b, k - 1);
      assert a[..k] == a[..k - 1] + [a[k - 1]] && b[..k] == b[..k - 1] + [b[k - 1]];
    }
  }

  /** A complete reading of a page cannot be continued. */
  lemma NoLonger(data: Bytes, a: seq<Name>, b: seq<Name>)
    requires PageHolds(data, a) && AllListable(b) && EncodeNames(b) <= data
    ensures |b| <= |a|
  {
    if |b| > |a| {
      ReadingsAgree(data, a, b, |a|);
      assert a[..|a|] == a;
      RecordFollows(data, b, |a|, a);
    }
  }

  lemma PageUnique(data: Bytes, a: seq<Name>, b: seq<Name>)
    requires PageHolds(data, a) && PageHolds(data, b)
    ensures a == b
  {
    NoLonger(data, a, b);
    NoLonger(data, b, a);
    ReadingsAgree(data, a, b, |a|);
    assert a[..|a|] == a && b[..|b|] == b;
  }

  /** A bad record is never followed by more names, nor is it the page's end. */
  lemma BadRecordEnds(data: Bytes, names: seq<Name>, k: nat)
    requires PageHolds(data, names) && k <= |names| && AllListable(names[..k])
    ensures !BadRecordAt(data, |EncodeNames(names[..k])|)
  {
    if k < |names| {
      EncodeAt(data, names, k);
    } else {
      assert names[..k] == names;
    }
  }

  /** A malformed page holds no list of names at all. */
  lemma MalformedHoldsNothing(data: Bytes, names: seq<Name>)
    requires Malformed(data)
    ensures !PageHolds(data, names)
  {
    var good: seq<Name> :| AllListable(good) && EncodeNames(good) <= data && BadRecordAt(data, |EncodeNames(good)|);
    if PageHolds(data, names) {
      NoLonger(data, names, good);
      ReadingsAgree(data, names, good, |good|);
      assert good[..|good|] == good;
      assert names[..|good|] == good;
      BadRecordEnds(data, names, |good|);
    }
  }

  // ---- the parser ----

  /** Reads one page of arbitrary bytes: every index stays inside the page, and
      the answer is the names it holds, or an error exactly when malformed. */
  method ParsePage(data: Bytes) returns (r: Result<seq<Name>, ListError>)
    ensures r.Ok? ==> PageHolds(data, r.value)
    ensures r.Err? ==> Malformed(data)
  {
    var keys: seq<Name> := [];
    var idx := 0;
    while idx < |data| && data[idx] != 0
      invariant idx <= |data| && AllListable(keys) && data[..idx] == EncodeNames(keys)
      decreases |data| - idx
    {
      ghost var seen := keys;
      assert BadRecordAt(data, idx) ==> Malformed(data) by { assert EncodeNames(seen) <= data; }
      var strlen := data[idx] as int;
      idx := idx + 1;
      if idx + strlen > |data| { return Err(Overrun); }
      var name := data[idx..idx + strlen];
      if !ValidUtf8(name) { return Err(NotUtf8); }
      keys := keys + [name];
      assert keys[..|keys| - 1] == seen;
      assert data[..idx + strlen] == data[..idx - 1] + EncodeName(name);
      idx := idx + strlen;
    }
    return Ok(keys);
  }

  // ---- draining a listing ----

  function Flatten(chunks: seq<seq<Name>>): seq<Name> {
    if chunks == [] then [] else Flatten(chunks[..|chunks| - 1]) + chunks[|chunks| - 1]
  }

  predicate ReplyHolds(reply: ListReply, names: seq<Name>) {
    reply.Page? && reply.retcode == Okay && PageHolds(reply.data, names)
  }

  /** The replies are a complete listing of `chunks`: good pages, only the last
      of them marked as the end. Later replies are never asked for. */
  predicate Drains(replies: seq<ListReply>, chunks: seq<seq<Name>>) {
    0 < |chunks| <= |replies|
    && forall i :: 0 <= i < |chunks| ==> ReplyHolds(replies[i], chunks[i]) && replies[i].end == (i == |chunks| - 1)
  }

  /** Good pages read so far, none of them the last. */
  predicate ReadSoFar(replies: seq<ListReply>, got: seq<seq<Name>>) {
    |got| <= |replies|
    && forall i :: 0 <= i < |got| ==> ReplyHolds(replies[i], got[i]) && !replies[i].end
  }

  /** A complete listing needs the next page too. */
  lemma NeedsNext(replies: seq<ListReply>, got: seq<seq<Name>>, chunks: seq<seq<Name>>)
    requires ReadSoFar(replies, got) && Drains(replies, chunks)
    ensures |got| < |chunks| && ReplyHolds(replies[|got|], chunks[|got|])
  {
    assert replies[|chunks| - 1].end;
  }

  lemma ListingUnique(replies: seq<ListReply>, a: seq<seq<Name>>, b: seq<seq<Name>>)
    requires Drains(replies, a) && Drains(replies, b)
    ensures a == b
  {
    var k := if |a| <= |b| then |a| - 1 else |b| - 1;
    assert replies[k].end == (k == |a| - 1);
    assert replies[k].end == (k == |b| - 1);
    forall i | 0 <= i < |a| ensures a[i] == b[i] {
      PageUnique(replies[i].data, a[i], b[i]);
    }
  }

  /** Where the next reply holds no names at all, nothing is a listing. */
  lemma Stuck(replies: seq<ListReply>, got: seq<seq<Name>>)
    requires ReadSoFar(replies, got)
    requires |got| < |replies| ==> forall names :: !ReplyHolds(replies[|got|], names)
    ensures forall chunks :: !Drains(replies, chunks)
  {
    forall chunks | Drains(replies, chunks) ensures false {
      NeedsNext(replies, got, chunks);
    }
  }

  lemma Finished(replies: seq<ListReply>, got: seq<seq<Name>>)
    requires Drains(replies, got)
    ensures forall chunks :: Drains(replies, chunks) ==> chunks == got
  {
    forall chunks | Drains(replies, chunks) ensures chunks == got {
      ListingUnique(replies, chunks, got);
    }
  }

  /** Asks for pages until one says `end`. Replies beyond the given ones are a
      broken connection. The names come back exactly when the replies are a
      complete listing, and then they are its concatenation. */
  method DrainKeys(replies: seq<ListReply>) returns (r: Result<seq<Name>, ListError>)
    ensures r.Ok? ==> exists chunks :: Drains(replies, chunks) && r.value == Flatten(chunks)
    ensures forall chunks :: Drains(replies, chunks) ==> r == Ok(Flatten(chunks))
  {
    var keys: seq<Name> := [];
    ghost var got: seq<seq<Name>> := [];
    var i := 0;
    while i < |replies|
      invariant ReadSoFar(replies, got) && |got| == i && keys == Flatten(got)
    {
      var page := ReadReply(replies[i]);
      if page.Err? {
        Stuck(replies, got);
        return Err(page.error);
      }
      assert (got + [page.value])[..i] == got;
      got := got + [page.value];
      keys := keys + page.value;
      if replies[i].end {
        assert Drains(replies, got);
        Finished(replies, got);
        return Ok(keys);
      }
      i := i + 1;
    }
    Stuck(replies, got);
    return Err(Ipc);
  }

  method ReadReply(reply: ListReply) returns (r: Result<seq<Name>, ListError>)
    ensures r.Ok? ==> ReplyHolds(reply, r.value)
    ensures r.Err? ==> forall names :: !ReplyHolds(reply, names)
  {
    if reply.IpcFailure? { return Err(Ipc); }
    if reply.retcode == AccessDenied { return Err(Denied); }
    if reply.retcode != Okay { return Err(Unexpected); }
    r := ParsePage(reply.data);
    if r.Err? {
      forall names ensures !ReplyHolds(reply, names) {
        MalformedHoldsNothing(reply.data, names);
      }
    }
  }

  /** A listing holds exactly the names on its pages. */
  lemma {:induction false} FlattenMembers(chunks: seq<seq<Name>>, n: Name)
    ensures n in Flatten(chunks) <==> exists i :: 0 <= i < |chunks| && n in chunks[i]
  {
    if chunks != [] {
      var front := chunks[..|chunks| - 1];
      FlattenMembers(front, n);
      if n in Flatten(front) {
        var i :| 0 <= i < |front| && n in front[i];
        assert n in chunks[i];
      }
      if i :| 0 <= i < |chunks| && n in chunks[i] {
        assert i < |front| ==> n in front[i];
      }
    }
  }
}
