/**
 * `SingleResult`: one reply to a query or get-more.  The 20-byte header is
 * read at the decoder's position without moving it, the bytes remaining
 * (header included) are recorded, the position skips the header, and then
 * documents are read while bytes remain, at most as many as the header
 * announces.
 */
module Replies {
  import opened Bson
  import opened Wire
  import N = Namespaces
  import S = DecodeSpec
  import opened ByteDecoder

  /** A decoded reply: its header, its size in bytes, its namespace in both forms, and its documents. */
  datatype SingleResult = SingleResult(header: Header, bytes: nat, fullNs: string, shortNs: string, docs: seq<Document>)

  /** Puts documents in front of the documents of a read. */
  function PrependDocs(ds: seq<Document>, r: Result<Read<seq<Document>>>): Result<Read<seq<Document>>>
  {
    match r
    case Err(e) => Err(e)
    case Ok(Read(rest, q)) => Ok(Read(ds + rest, q))
  }

  /**
   * The document loop: reads documents from `pos` while the buffer is not
   * exhausted and fewer than `left` more are wanted.
   */
  function ReadDocs(buf: seq<byte>, cap: nat, pos: nat, left: int): (r: Result<Read<seq<Document>>>)
    decreases |buf| - pos
  {
    if pos >= |buf| || left <= 0 then Ok(Read([], pos))
    else
      match S.ReadObject(buf, cap, pos)
      case Err(e) => Err(e)
      case Ok(Read(o, q)) => PrependDocs([o.value], ReadDocs(buf, cap, q, left - 1))
  }

  /** `new SingleResult(fullNameSpace, decoder)` with the decoder at `start`. */
  function ParseSingleResult(buf: seq<byte>, cap: nat, start: nat, root: string, fullNs: string): Result<SingleResult>
    requires start <= |buf|
  {
    match ParseHeader(buf, start)
    case Err(e) => Err(e)
    case Ok(h) =>
      match ReadDocs(buf, cap, start + HEADER_SIZE, h.num)
      case Err(e) => Err(e)
      case Ok(Read(docs, _)) => Ok(SingleResult(h, |buf| - start, fullNs, N.RemoveRoot(root, fullNs), docs))
  }

  lemma PrependDocsTwice(a: seq<Document>, b: seq<Document>, r: Result<Read<seq<Document>>>)
    ensures PrependDocs(a, PrependDocs(b, r)) == PrependDocs(a + b, r)
  {
    if r.Ok? {
      assert a + (b + r.value.value) == (a + b) + r.value.value;
    }
  }

  lemma PrependNothing(r: Result<Read<seq<Document>>>)
    ensures PrependDocs([], r) == r
  {
    if r.Ok? {
      assert [] + r.value.value == r.value.value;
    }
  }

  /** One turn of the loop: the document just read joins those before it, or its error ends the read. */
  lemma ReadDocsStep(buf: seq<byte>, cap: nat, pos: nat, left: int, docs: seq<Document>)
    requires pos < |buf| && left > 0
    ensures match S.ReadObject(buf, cap, pos)
      case Err(e) => PrependDocs(docs, ReadDocs(buf, cap, pos, left)) == Err(e)
      case Ok(Read(o, q)) =>
        PrependDocs(docs, ReadDocs(buf, cap, pos, left)) == PrependDocs(docs + [o.value], ReadDocs(buf, cap, q, left - 1))
  {
    var o := S.ReadObject(buf, cap, pos);
    if o.Ok? {
      PrependDocsTwice(docs, [o.value.value.value], ReadDocs(buf, cap, o.value.next, left - 1));
    }
  }

  /**
   * The loop reads at most `left` documents and stops early only at the end
   * of the buffer; it never moves backwards nor past the end.
   */
  lemma {:induction false} ReadDocsBounds(buf: seq<byte>, cap: nat, pos: nat, left: int)
    requires pos <= |buf|
    decreases |buf| - pos
    ensures var r := ReadDocs(buf, cap, pos, left);
      r.Ok? ==> && pos <= r.value.next <= |buf|
                && |r.value.value| <= (if left < 0 then 0 else left)
                && (|r.value.value| < left ==> r.value.next == |buf|)
  {
    if pos < |buf| && left > 0 {
      var o := S.ReadObject(buf, cap, pos);
      if o.Ok? {
        ReadDocsBounds(buf, cap, o.value.next, left - 1);
      }
    }
  }

  /**
   * Read back, a reply gives its header unchanged and counts the header in
   * its size; a header announcing no documents gives no documents, whatever
   * follows it.  Only a short header or a bad document makes it fail.
   */
  lemma SingleResultOfReply(h: Header, body: seq<byte>, cap: nat, root: string, fullNs: string)
    requires WellFormed(h)
    ensures var r := ParseSingleResult(HeaderBytes(h) + body, cap, 0, root, fullNs);
      && (r.Ok? ==> r.value.header == h && r.value.bytes == HEADER_SIZE + |body| && r.value.shortNs == N.RemoveRoot(root, fullNs))
      && (r.Err? ==> ReadDocs(HeaderBytes(h) + body, cap, HEADER_SIZE, h.num).Err?)
      && (h.num <= 0 ==> r == Ok(SingleResult(h, HEADER_SIZE + |body|, fullNs, N.RemoveRoot(root, fullNs), [])))
  {
    HeaderRoundTrip(h, [], body);
    assert [] + HeaderBytes(h) + body == HeaderBytes(h) + body;
  }

  /** A buffer too short for the header fails as an index error, before any document is read. */
  lemma ShortReply(buf: seq<byte>, cap: nat, start: nat, root: string, fullNs: string)
    requires start <= |buf| < start + HEADER_SIZE
    ensures ParseSingleResult(buf, cap, start, root, fullNs) == Err(IndexOutOfBounds)
  {
  }

  /**
   * The document loop of the `SingleResult` constructor: reads from the
   * decoder while it has bytes and fewer than `want` documents were read.
   */
  method ReadDocuments(d: Decoder, want: int) returns (r: Result<seq<Document>>)
    requires d.Valid()
    modifies d`pos, d.namebuf
    ensures d.Valid()
    ensures r == Drop(ReadDocs(d.buf, d.namebuf.Length, old(d.pos), want))
  {
    var docs: seq<Document> := [];
    var num := 0;
    ghost var cap := d.namebuf.Length;
    ghost var all := ReadDocs(d.buf, cap, d.pos, want);
    PrependNothing(all);
    while d.More() && num < want
      invariant d.Valid() && d.namebuf.Length == cap && num == |docs|
      invariant all == PrependDocs(docs, ReadDocs(d.buf, cap, d.pos, want - num))
      decreases |d.buf| - d.pos
    {
      ReadDocsStep(d.buf, cap, d.pos, want - num, docs);
      var o := d.ReadObject();
      if o.Err? {
        return Err(o.error);
      }
      docs := docs + [o.value.value];
      num := num + 1;
    }
    assert ReadDocs(d.buf, cap, d.pos, want - num) == Ok(Read([], d.pos));
    assert docs + [] == docs;
    return Ok(docs);
  }

  /**
   * The `SingleResult` constructor on decoder `d`: the header at the
   * current position, then the document loop after it.
   */
  method ReadSingleResult(d: Decoder, root: string, fullNs: string) returns (r: Result<SingleResult>)
    requires d.Valid()
    modifies d`pos, d.namebuf
    ensures d.Valid()
    ensures r == ParseSingleResult(d.buf, d.namebuf.Length, old(d.pos), root, fullNs)
  {
    var header := ParseHeader(d.buf, d.pos);
    if header.Err? {
      return Err(header.error);
    }
    var h := header.value;
    var bytes := d.Remaining();
    var shortNs := N.RemoveRoot(root, fullNs);
    d.pos := d.pos + HEADER_SIZE;
    var docs := ReadDocuments(d, h.num);
    if docs.Err? {
      return Err(docs.error);
    }
    return Ok(SingleResult(h, bytes, fullNs, shortNs, docs.value));
  }
}
