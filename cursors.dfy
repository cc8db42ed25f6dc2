/**
 * The iterator `find` returns (`DBApiLayer.Result`), as a function of its
 * state and of the connector's script.  It hands out the documents of the
 * current reply in order; when they run out and the reply announces more
 * (`hasGetMore`), it asks the server for the next batch with a get-more and
 * carries on in that batch.
 */
module Cursors {
  import opened Bson
  import opened Wire
  import opened Connection
  import opened Replies

  /** What a cursor keeps fixed: its database root, the decoder's name buffer size, and `_numToReturn`. */
  datatype Config = Config(root: string, cap: nat, numToReturn: int)

  /** `_curResult`, the iterator's index in its documents, and the statistics `_totalBytes`, `_numGetMores`, `_sizes`. */
  datatype CursorState = CursorState(batch: SingleResult, idx: nat, totalBytes: int, numGetMores: int, sizes: seq<int>)

  /** `init`: makes `res` the current batch, rewinds the iterator and records the batch's size. */
  function Init(s: CursorState, res: SingleResult): CursorState
  {
    CursorState(res, 0, s.totalBytes + res.bytes, s.numGetMores, s.sizes + [|res.docs|])
  }

  /** The state the constructor leaves: `init` on fresh statistics. */
  function Open(res: SingleResult): CursorState
  {
    Init(CursorState(res, 0, 0, 0, []), res)
  }

  /** `_cur.hasNext()`: documents of the current batch remain. */
  predicate Buffered(s: CursorState)
  {
    s.idx < |s.batch.docs|
  }

  /** The errors that are `MongoException`s, which `_advance` wraps; the others propagate as they are. */
  predicate IsMongoError(e: Error)
  {
    e.InvalidBson? || e.LengthMismatch? || e.BadBinarySize? || e.ConnectorFailure? || e.GetMoreFailed?
  }

  /** The outcome of a cursor operation: its result, the new state, the script left, and the messages sent. */
  datatype Step<T> = Step(result: Result<T>, state: CursorState, script: seq<Reply>, sent: seq<Message>)

  /** The get-more `_advance` sends for the current batch. */
  function GetMoreOf(c: Config, s: CursorState): Message
  {
    GetMore(s.batch.fullNs, c.numToReturn, s.batch.header.cursor)
  }

  /**
   * `_advance`: refuses a cursor id that is not positive; otherwise sends a
   * get-more and reads the reply into a new batch.  The get-more counter
   * moves once the call returns, even if the reply then fails to decode.
   */
  function Advance(c: Config, s: CursorState, script: seq<Reply>): (a: Step<()>)
    ensures a.result.Ok? ==> script != [] && |a.script| == |script| - 1
  {
    if s.batch.header.cursor <= 0 then Step(Err(CannotAdvance), s, script, [])
    else
      var m := GetMoreOf(c, s);
      match Answer(script)
      case Fail => Step(Err(GetMoreFailed(ConnectorFailure)), s, Rest(script), [m])
      case Bytes(data) =>
        var counted := s.(numGetMores := s.numGetMores + 1);
        match ParseSingleResult(data, c.cap, 0, c.root, s.batch.fullNs)
        case Err(e) => Step(Err(if IsMongoError(e) then GetMoreFailed(e) else e), counted, Rest(script), [m])
        case Ok(res) => Step(Ok(()), Init(counted, res), Rest(script), [m])
  }

  /** `next`: the next buffered document, else "no more" without a get-more, else advance and retry. */
  function Next(c: Config, s: CursorState, script: seq<Reply>): Step<Document>
    decreases |script|
  {
    if Buffered(s) then Step(Ok(s.batch.docs[s.idx]), s.(idx := s.idx + 1), script, [])
    else if !HasGetMore(s.batch.header) then Step(Err(NoMore), s, script, [])
    else
      var a := Advance(c, s, script);
      if a.result.Err? then Step(Err(a.result.error), a.state, a.script, a.sent)
      else
        var n := Next(c, a.state, a.script);
        Step(n.result, n.state, n.script, a.sent + n.sent)
  }

  /** `hasNext`: true while documents are buffered, false when no get-more is due, else advance and retry. */
  function HasNext(c: Config, s: CursorState, script: seq<Reply>): Step<bool>
    decreases |script|
  {
    if Buffered(s) then Step(Ok(true), s, script, [])
    else if !HasGetMore(s.batch.header) then Step(Ok(false), s, script, [])
    else
      var a := Advance(c, s, script);
      if a.result.Err? then Step(Err(a.result.error), a.state, a.script, a.sent)
      else
        var n := HasNext(c, a.state, a.script);
        Step(n.result, n.state, n.script, a.sent + n.sent)
  }

  /** `k` calls of `next` in a row, collecting the documents, stopping at the first error. */
  function Take(c: Config, s: CursorState, script: seq<Reply>, k: nat): Step<seq<Document>>
    decreases k
  {
    if k == 0 then Step(Ok([]), s, script, [])
    else
      var n := Next(c, s, script);
      if n.result.Err? then Step(Err(n.result.error), n.state, n.script, n.sent)
      else
        var t := Take(c, n.state, n.script, k - 1);
        var docs := if t.result.Ok? then Ok([n.result.value] + t.result.value) else t.result;
        Step(docs, t.state, t.script, n.sent + t.sent)
  }

  /** The statistics only grow: `_sizes` is extended, never rewritten, and the batch's namespace stays. */
  predicate Grows(s: CursorState, t: CursorState)
  {
    s.sizes <= t.sizes && s.numGetMores <= t.numGetMores && s.totalBytes <= t.totalBytes
    && t.batch.fullNs == s.batch.fullNs
    && |t.sizes| - |s.sizes| <= t.numGetMores - s.numGetMores
  }

  /** Every message sent is a get-more on the cursor's namespace with a positive cursor id. */
  predicate GetMoresOn(ns: string, c: Config, sent: seq<Message>)
  {
    forall m | m in sent :: m.GetMore? && m.ns == ns && m.numToReturn == c.numToReturn && m.cursor > 0
  }
}

/** What the cursor functions promise. */
module CursorFacts {
  import opened Bson
  import opened Wire
  import opened Connection
  import opened Replies
  import opened Cursors

  /** A reply read for a namespace keeps that namespace, and its size is never negative. */
  lemma ParsedKeepsNamespace(data: seq<byte>, cap: nat, root: string, ns: string)
    ensures var r := ParseSingleResult(data, cap, 0, root, ns);
      r.Ok? ==> r.value.fullNs == ns && r.value.bytes == |data|
  {
  }

  /**
   * `_advance` sends exactly one get-more for the current cursor (none when
   * the cursor id is not positive), consumes one answer, counts a returned
   * call, and on success starts the new batch at its first document.
   */
  lemma AdvanceEffects(c: Config, s: CursorState, script: seq<Reply>)
    ensures var a := Advance(c, s, script);
      && (s.batch.header.cursor <= 0 ==> a == Step(Err(CannotAdvance), s, script, []))
      && (s.batch.header.cursor > 0 ==>
            a.sent == [GetMoreOf(c, s)] && a.script == Rest(script)
            && a.state.numGetMores == s.numGetMores + (if Answer(script).Bytes? then 1 else 0))
      && (a.result.Ok? ==>
            && a.state.idx == 0 && a.state.sizes == s.sizes + [|a.state.batch.docs|]
            && a.state.totalBytes == s.totalBytes + a.state.batch.bytes)
      && (a.result.Err? && s.batch.header.cursor > 0 ==>
            a.result.error.GetMoreFailed? || !IsMongoError(a.result.error))
      && Grows(s, a.state)
  {
    if s.batch.header.cursor > 0 && Answer(script).Bytes? {
      ParsedKeepsNamespace(Answer(script).data, c.cap, c.root, s.batch.fullNs);
    }
  }

  /** A failing connector loses no state: the batch and statistics stay as they were. */
  lemma AdvanceOnFailedCall(c: Config, s: CursorState, script: seq<Reply>)
    requires s.batch.header.cursor > 0 && Answer(script).Fail?
    ensures Advance(c, s, script) == Step(Err(GetMoreFailed(ConnectorFailure)), s, Rest(script), [GetMoreOf(c, s)])
  {
  }

  lemma GrowsTrans(s: CursorState, t: CursorState, u: CursorState)
    requires Grows(s, t) && Grows(t, u)
    ensures Grows(s, u)
  {
  }

  /** The get-more of a batch that announces more is one `GetMoresOn` accepts. */
  lemma GetMoreOfBatch(c: Config, s: CursorState)
    requires HasGetMore(s.batch.header)
    ensures GetMoresOn(s.batch.fullNs, c, [GetMoreOf(c, s)])
  {
  }

  lemma GetMoresOnAppend(ns: string, c: Config, a: seq<Message>, b: seq<Message>)
    requires GetMoresOn(ns, c, a) && GetMoresOn(ns, c, b)
    ensures GetMoresOn(ns, c, a + b)
  {
    assert forall m | m in a + b :: m in a || m in b;
  }

  /**
   * `next` advances only when `hasGetMore` holds, which needs a positive
   * cursor id, so "can't advance" is never reached: without traffic the only
   * error is "no more".  What it sends is only get-mores on its namespace.
   */
  lemma {:induction false} NextSendsGetMores(c: Config, s: CursorState, script: seq<Reply>)
    decreases |script|
    ensures var n := Next(c, s, script);
      (n.sent == [] && n.result.Err? ==> n.result.error == NoMore) && GetMoresOn(s.batch.fullNs, c, n.sent)
  {
    if !Buffered(s) && HasGetMore(s.batch.header) {
      var a := Advance(c, s, script);
      AdvanceEffects(c, s, script);
      GetMoreOfBatch(c, s);
      if a.result.Ok? {
        var n := Next(c, a.state, a.script);
        NextSendsGetMores(c, a.state, a.script);
        GetMoresOnAppend(s.batch.fullNs, c, a.sent, n.sent);
      }
    }
  }

  /**
   * Through `next` the statistics grow; each get-more that got an answer is
   * counted and at most one went unanswered; a document comes from the same
   * batch or, after a get-more, is the first of the new batch.
   */
  lemma {:induction false} NextCounts(c: Config, s: CursorState, script: seq<Reply>)
    decreases |script|
    ensures var n := Next(c, s, script);
      && Grows(s, n.state)
      && n.state.numGetMores - s.numGetMores <= |n.sent| <= n.state.numGetMores - s.numGetMores + 1
      && (n.result.Ok? ==> n.state.idx == s.idx + 1 || (n.sent != [] && n.state.idx == 1))
  {
    if !Buffered(s) && HasGetMore(s.batch.header) {
      var a := Advance(c, s, script);
      AdvanceEffects(c, s, script);
      if a.result.Ok? {
        var n := Next(c, a.state, a.script);
        NextCounts(c, a.state, a.script);
        GrowsTrans(s, a.state, n.state);
      }
    }
  }

  /** `hasNext` fails only after traffic, and sends only get-mores on its namespace. */
  lemma {:induction false} HasNextSendsGetMores(c: Config, s: CursorState, script: seq<Reply>)
    decreases |script|
    ensures var h := HasNext(c, s, script);
      (h.sent == [] ==> h.result.Ok?) && GetMoresOn(s.batch.fullNs, c, h.sent)
  {
    if !Buffered(s) && HasGetMore(s.batch.header) {
      var a := Advance(c, s, script);
      AdvanceEffects(c, s, script);
      GetMoreOfBatch(c, s);
      if a.result.Ok? {
        var h := HasNext(c, a.state, a.script);
        HasNextSendsGetMores(c, a.state, a.script);
        GetMoresOnAppend(s.batch.fullNs, c, a.sent, h.sent);
      }
    }
  }

  /** Through `hasNext` the statistics grow as through `next`, and without traffic nothing changes. */
  lemma {:induction false} HasNextCounts(c: Config, s: CursorState, script: seq<Reply>)
    decreases |script|
    ensures var h := HasNext(c, s, script);
      && Grows(s, h.state)
      && h.state.numGetMores - s.numGetMores <= |h.sent| <= h.state.numGetMores - s.numGetMores + 1
      && (h.sent == [] ==> h.state == s && h.script == script)
  {
    if !Buffered(s) && HasGetMore(s.batch.header) {
      var a := Advance(c, s, script);
      AdvanceEffects(c, s, script);
      if a.result.Ok? {
        var h := HasNext(c, a.state, a.script);
        HasNextCounts(c, a.state, a.script);
        GrowsTrans(s, a.state, h.state);
      }
    }
  }

  /**
   * `hasNext` answers whether `next` would succeed without further traffic:
   * after true, `next` returns the next buffered document and sends nothing;
   * after false, `next` fails with "no more" and sends nothing.
   */
  lemma {:induction false} HasNextThenNext(c: Config, s: CursorState, script: seq<Reply>)
    decreases |script|
    ensures var h := HasNext(c, s, script);
      var n := Next(c, h.state, h.script);
      && (h.result == Ok(true) ==>
            Buffered(h.state) && n == Step(Ok(h.state.batch.docs[h.state.idx]), h.state.(idx := h.state.idx + 1), h.script, []))
      && (h.result == Ok(false) ==> n == Step(Err(NoMore), h.state, h.script, []))
  {
    if !Buffered(s) && HasGetMore(s.batch.header) {
      var a := Advance(c, s, script);
      if a.result.Ok? {
        HasNextThenNext(c, a.state, a.script);
      }
    }
  }

  /**
   * `next` does what `hasNext` does and then takes the document: the same
   * traffic and the same errors, a document where `hasNext` says true and
   * "no more" where it says false.
   */
  lemma {:induction false} NextAgreesWithHasNext(c: Config, s: CursorState, script: seq<Reply>)
    decreases |script|
    ensures var h := HasNext(c, s, script);
      var n := Next(c, s, script);
      && (h.result == Ok(true) ==> n.result.Ok? && n.sent == h.sent && n.script == h.script && n.state == h.state.(idx := h.state.idx + 1))
      && (h.result == Ok(false) ==> n.result == Err(NoMore) && n.sent == h.sent && n.script == h.script && n.state == h.state)
      && (h.result.Err? ==> n == Step(Err(h.result.error), h.state, h.script, h.sent))
  {
    if !Buffered(s) && HasGetMore(s.batch.header) {
      var a := Advance(c, s, script);
      if a.result.Ok? {
        NextAgreesWithHasNext(c, a.state, a.script);
      }
    }
  }

  /** Within a batch, `k` calls of `next` return the next `k` documents in order, without any traffic. */
  lemma {:induction false} TakeWithinBatch(c: Config, s: CursorState, script: seq<Reply>, k: nat)
    requires s.idx + k <= |s.batch.docs|
    decreases k
    ensures Take(c, s, script, k) == Step(Ok(s.batch.docs[s.idx..s.idx + k]), s.(idx := s.idx + k), script, [])
  {
    if k > 0 {
      var n := Next(c, s, script);
      assert n == Step(Ok(s.batch.docs[s.idx]), s.(idx := s.idx + 1), script, []);
      TakeWithinBatch(c, n.state, script, k - 1);
      assert n.state.(idx := n.state.idx + (k - 1)) == s.(idx := s.idx + k);
      assert [s.batch.docs[s.idx]] + s.batch.docs[s.idx + 1..s.idx + k] == s.batch.docs[s.idx..s.idx + k];
      var t := Take(c, n.state, script, k - 1);
      assert n.sent + t.sent == [];
      assert Take(c, s, script, k) == Step(Ok([n.result.value] + t.result.value), t.state, t.script, n.sent + t.sent);
    } else {
      assert s.(idx := s.idx + k) == s;
      assert s.batch.docs[s.idx..s.idx + k] == [];
    }
  }

  /** A cursor whose reply announces no more documents yields exactly the documents of that reply, then "no more". */
  lemma LastBatchDrains(c: Config, s: CursorState, script: seq<Reply>)
    requires s.idx <= |s.batch.docs| && !HasGetMore(s.batch.header)
    ensures var k := |s.batch.docs| - s.idx;
      var t := Take(c, s, script, k);
      && t == Step(Ok(s.batch.docs[s.idx..]), s.(idx := |s.batch.docs|), script, [])
      && Next(c, t.state, script) == Step(Err(NoMore), t.state, script, [])
  {
    TakeWithinBatch(c, s, script, |s.batch.docs| - s.idx);
    assert s.batch.docs[s.idx..s.idx + (|s.batch.docs| - s.idx)] == s.batch.docs[s.idx..];
  }
}
