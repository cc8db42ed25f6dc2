/**
 * The messages `DBApiLayer` hands to its connector, and the fixed layouts
 * it writes or reads itself: the update and remove flag words, the body of
 * a kill-cursors message, and the 20-byte header at the front of a query
 * reply.  The byte layout of documents and name strings belongs to the
 * encoder, which is not part of this model, so a message keeps its
 * documents as values.
 */
module Wire {
  import opened Bson
  import LE = LittleEndian

  // Operation codes of the MongoDB wire protocol.
  const OP_UPDATE: int := 2001
  const OP_INSERT: int := 2002
  const OP_QUERY: int := 2004
  const OP_GET_MORE: int := 2005
  const OP_DELETE: int := 2006
  const OP_KILL_CURSORS: int := 2007

  /** A request, with the fields in the order the driver writes them after the reserved int32. */
  datatype Message =
    | Insert(ns: string, docs: seq<Document>)
    | Update(ns: string, flags: bv32, query: Document, obj: Document)
    | Remove(ns: string, flag: int, selector: Document)
    | Query(options: int, ns: string, numToSkip: int, batchSize: int, query: Document, fields: Option<Document>)
    | GetMore(ns: string, numToReturn: int, cursor: int)
    | KillCursors(body: seq<byte>)

  function OpCode(m: Message): int
  {
    match m
    case Insert(_, _) => OP_INSERT
    case Update(_, _, _, _) => OP_UPDATE
    case Remove(_, _, _) => OP_DELETE
    case Query(_, _, _, _, _, _) => OP_QUERY
    case GetMore(_, _, _) => OP_GET_MORE
    case KillCursors(_) => OP_KILL_CURSORS
  }

  // ---- update and remove flags ----

  /** `flags |= 1` for an upsert, `flags |= 2` for a multi-update: each bit says one thing, no other bit is set. */
  function UpdateFlags(upsert: bool, multi: bool): (flags: bv32)
    ensures (flags & 1 == 1) == upsert
    ensures (flags & 2 == 2) == multi
    ensures flags & !3 == 0
  {
    var f: bv32 := 0;
    var f' := if upsert then f | 1 else f;
    if multi then f' | 2 else f'
  }

  /**
   * The remove flag: 1 when the selector's key set is just "_id" and the
   * value under it is an ObjectId (a single-document delete), else 0.
   */
  function RemoveFlag(selector: Document): (flag: int)
    ensures flag == 0 || flag == 1
    ensures flag == 1 <==>
      && (forall k :: HasKey(selector, k) <==> k == OBJECT_ID_KEY)
      && Lookup(selector, OBJECT_ID_KEY).Some? && Lookup(selector, OBJECT_ID_KEY).value.Oid?
  {
    LoneKey(selector, OBJECT_ID_KEY);
    var keys := Keys(selector);
    if keys != [] && forall i | 0 <= i < |keys| :: keys[i] == OBJECT_ID_KEY then
      match Lookup(selector, OBJECT_ID_KEY)
      case Some(Oid(_, _, _)) => 1
      case _ => 0
    else 0
  }

  /** A document's key set is `{name}` exactly when it has a field and every field is named `name`. */
  lemma LoneKey(doc: Document, name: seq<byte>)
    ensures (Keys(doc) != [] && forall i | 0 <= i < |Keys(doc)| :: Keys(doc)[i] == name) <==>
            (forall k :: HasKey(doc, k) <==> k == name)
  {
    var keys := Keys(doc);
    if keys != [] && forall i | 0 <= i < |keys| :: keys[i] == name {
      forall k ensures HasKey(doc, k) <==> k == name {
        if k in keys {
          var i :| 0 <= i < |keys| && keys[i] == k;
        }
        assert keys[0] == name;
      }
    }
    if forall k :: HasKey(doc, k) <==> k == name {
      assert HasKey(doc, name);
      forall i | 0 <= i < |keys| ensures keys[i] == name {
        assert HasKey(doc, keys[i]);
      }
    }
  }

  /** For a selector without repeated names the key set is a lone "_id" exactly when it has one field, named "_id". */
  lemma RemoveFlagOfDistinct(selector: Document)
    requires DistinctKeys(selector)
    ensures RemoveFlag(selector) == 1 <==> |selector| == 1 && selector[0].name == OBJECT_ID_KEY && selector[0].value.Oid?
  {
    if RemoveFlag(selector) == 1 {
      assert HasKey(selector, OBJECT_ID_KEY);
      if |selector| > 1 {
        assert false;
      }
    }
    if |selector| == 1 && selector[0].name == OBJECT_ID_KEY {
      forall k ensures HasKey(selector, k) <==> k == OBJECT_ID_KEY {
        assert Keys(selector) == [OBJECT_ID_KEY];
      }
    }
  }

  // ---- kill-cursors body ----

  /** The ids as consecutive little-endian int64s. */
  function Longs(ids: seq<int>): (bytes: seq<byte>)
    ensures |bytes| == 8 * |ids| && |bytes| % 8 == 0
  {
    if ids == [] then [] else LE.Int64Bytes(ids[0]) + Longs(ids[1..])
  }

  /** Reads consecutive int64s. */
  function ParseLongs(bytes: seq<byte>): (ids: seq<int>)
    requires |bytes| % 8 == 0
    ensures |ids| == |bytes| / 8
  {
    if bytes == [] then [] else [LE.Int64Of(bytes[..8])] + ParseLongs(bytes[8..])
  }

  /** The body of a kill-cursors message: int32 0, int32 count, then each id as an int64. */
  function KillCursorsBody(ids: seq<int>): (body: seq<byte>)
    ensures |body| == 8 + 8 * |ids|
  {
    LE.Int32Bytes(0) + LE.Int32Bytes(|ids|) + Longs(ids)
  }

  predicate AllInt64(ids: seq<int>)
  {
    forall i :: 0 <= i < |ids| ==> LE.IsInt64(ids[i])
  }

  lemma {:induction false} LongsRoundTrip(ids: seq<int>)
    requires AllInt64(ids)
    ensures ParseLongs(Longs(ids)) == ids
  {
    if ids != [] {
      var b := Longs(ids);
      assert b[..8] == LE.Int64Bytes(ids[0]);
      assert b[8..] == Longs(ids[1..]);
      LE.Int64RoundTrip(ids[0]);
      LongsRoundTrip(ids[1..]);
    }
  }

  /**
   * Read back, a kill-cursors body gives 0, the number of ids, and the ids
   * in list order.
   */
  lemma KillCursorsBodyRoundTrip(ids: seq<int>)
    requires AllInt64(ids) && |ids| < LE.TWO_31
    ensures var body := KillCursorsBody(ids);
      LE.Int32Of(body[0..4]) == 0 && LE.Int32Of(body[4..8]) == |ids| && ParseLongs(body[8..]) == ids
  {
    var body := KillCursorsBody(ids);
    assert body[0..4] == LE.Int32Bytes(0);
    assert body[4..8] == LE.Int32Bytes(|ids|);
    assert body[8..] == Longs(ids);
    LE.Int32RoundTrip(0);
    LE.Int32RoundTrip(|ids|);
    LongsRoundTrip(ids);
  }

  // ---- the reply header ----

  /** `QueryHeader.headerSize()`. */
  const HEADER_SIZE: nat := 20

  /** `QueryHeader`: the fields at offsets 0, 4, 12 and 16 of a reply. */
  datatype Header = Header(reserved: int, cursor: int, startingFrom: int, num: int)

  predicate WellFormed(h: Header)
  {
    LE.IsInt32(h.reserved) && LE.IsInt64(h.cursor) && LE.IsInt32(h.startingFrom) && LE.IsInt32(h.num)
  }

  /**
   * `new QueryHeader(buf, start)`: four absolute reads, which do not move the
   * position; any of them past the limit is an index error.
   */
  function ParseHeader(buf: seq<byte>, start: nat): (r: Result<Header>)
    ensures r.Ok? <==> start + HEADER_SIZE <= |buf|
    ensures r.Err? ==> r.error == IndexOutOfBounds
    ensures r.Ok? ==> WellFormed(r.value)
  {
    if start + HEADER_SIZE > |buf| then Err(IndexOutOfBounds)
    else Ok(Header(LE.Int32Of(buf[start..start + 4]), LE.Int64Of(buf[start + 4..start + 12]),
                   LE.Int32Of(buf[start + 12..start + 16]), LE.Int32Of(buf[start + 16..start + 20])))
  }

  /** The header as a server writes it. */
  function HeaderBytes(h: Header): (bytes: seq<byte>)
    ensures |bytes| == HEADER_SIZE
  {
    LE.Int32Bytes(h.reserved) + LE.Int64Bytes(h.cursor) + LE.Int32Bytes(h.startingFrom) + LE.Int32Bytes(h.num)
  }

  /** Parsing a header written at any offset gives it back. */
  lemma HeaderRoundTrip(h: Header, before: seq<byte>, after: seq<byte>)
    requires WellFormed(h)
    ensures ParseHeader(before + HeaderBytes(h) + after, |before|) == Ok(h)
  {
    var buf := before + HeaderBytes(h) + after;
    var s := |before|;
    assert buf[s..s + 4] == LE.Int32Bytes(h.reserved);
    assert buf[s + 4..s + 12] == LE.Int64Bytes(h.cursor);
    assert buf[s + 12..s + 16] == LE.Int32Bytes(h.startingFrom);
    assert buf[s + 16..s + 20] == LE.Int32Bytes(h.num);
    LE.Int32RoundTrip(h.reserved);
    LE.Int64RoundTrip(h.cursor);
    LE.Int32RoundTrip(h.startingFrom);
    LE.Int32RoundTrip(h.num);
  }

  /** `hasGetMore()`: the batch was not empty and the server kept a cursor open. */
  predicate HasGetMore(h: Header)
  {
    h.num > 0 && h.cursor > 0
  }
}
