/**
 * What the collection operations of `DBApiLayer.MyCollection` send and
 * decide, as functions: the messages of `insert`, `remove`, `update`,
 * `find` and `killCursors`, the batching of an insert into messages, the
 * dead-cursor flush of `_cleanCursors`, and the checks `find` makes on the
 * first reply.
 */
module Operations {
  import opened Bson
  import opened Wire
  import opened Connection
  import opened Replies
  import opened Batching
  import BF = BatchingFacts
  import LE = LittleEndian

  /** `NUM_CURSORS_BEFORE_KILL`. */
  const NUM_CURSORS_BEFORE_KILL: nat := 100

  /** The bytes an insert message holds before its documents: the reserved int32 and the namespace as a C string. */
  function InsertHeader(ns: string): nat
  {
    4 + |ns| + 1
  }

  /** The insert messages of the batches ending at `ends`, the first starting at document 0. */
  function BatchMessages(ns: string, docs: seq<Document>, ends: seq<nat>): (ms: seq<Message>)
    requires Chain(0, ends, |docs|)
    ensures |ms| == |ends|
  {
    seq(|ends|, j requires 0 <= j < |ends| => Insert(ns, docs[Start(0, ends, j)..ends[j]]))
  }

  /** The messages `insert` sends when nothing fails on the way: one per batch of the plan. */
  function InsertMessages(ns: string, docs: seq<Document>, capacity: nat, sizeOf: Document -> nat): seq<Message>
  {
    var p := PlanInsert(docs, InsertHeader(ns), capacity, sizeOf);
    BF.PlanChain(docs, 0, InsertHeader(ns), capacity, sizeOf);
    BatchMessages(ns, docs, p.ends)
  }

  /** How `insert` ends: the connector's failure first, else the plan's own failure. */
  function InsertOutcome(p: Plan, d: Delivery): Result<()>
  {
    if !d.ok then Err(ConnectorFailure)
    else match p.failure
      case Some(e) => Err(e)
      case None => Ok(())
  }

  /** The message `remove` sends. */
  function RemoveMessage(ns: string, selector: Document): Message
  {
    Remove(ns, RemoveFlag(selector), selector)
  }

  /** The message `update` sends. */
  function UpdateMessage(ns: string, query: Document, obj: Document, upsert: bool, multi: bool): Message
  {
    Update(ns, UpdateFlags(upsert, multi), query, obj)
  }

  /** The message `killCursors` sends for a non-empty list of ids. */
  function KillMessage(ids: seq<int>): Message
  {
    KillCursors(KillCursorsBody(ids))
  }

  /** The query `find` sends; a missing selector is an empty document. */
  function FindMessage(ns: string, ref: Option<Document>, fields: Option<Document>, numToSkip: int, batchSize: int, options: int): Message
  {
    Query(options, ns, numToSkip, batchSize, if ref.Some? then ref.value else [], fields)
  }

  /** Whether `_cleanCursors` sends the dead cursors: some are pending, and they number a multiple of 20 or at least 100. */
  predicate ShouldFlush(n: nat)
  {
    n != 0 && (n % 20 == 0 || n >= NUM_CURSORS_BEFORE_KILL)
  }

  /** After `_cleanCursors`: the ids still pending, what was sent, and the script left. */
  datatype Cleaned = Cleaned(dead: seq<int>, sent: seq<Message>, script: seq<Reply>)

  /**
   * `_cleanCursors`: takes the pending ids and kills them in one message;
   * if that throws, the ids are pending again.  It never fails itself.
   */
  function Clean(dead: seq<int>, script: seq<Reply>): Cleaned
  {
    if !ShouldFlush(|dead|) then Cleaned(dead, [], script)
    else Cleaned(if Answer(script).Fail? then dead else [], [KillMessage(dead)], Rest(script))
  }

  /** The value of a "$err" field, unless it is absent or null (`get("$err") != null`). */
  function ServerErr(doc: Document): Option<Value>
  {
    match Lookup(doc, ERR_KEY)
    case Some(v) => if v.Null? then None else Some(v)
    case None => None
  }

  /** The checks `find` makes on its first reply: no documents is no cursor; a lone error document throws. */
  function Screen(res: SingleResult): Result<Option<SingleResult>>
  {
    if |res.docs| == 0 then Ok(None)
    else if |res.docs| == 1 && ServerErr(res.docs[0]).Some? then Err(ServerError(ServerErr(res.docs[0]).value))
    else Ok(Some(res))
  }

  /** What `find` makes of the connector's answer to its query. */
  function FindOutcome(root: string, cap: nat, ns: string, answer: Reply): Result<Option<SingleResult>>
  {
    match answer
    case Fail => Err(ConnectorFailure)
    case Bytes(data) =>
      match ParseSingleResult(data, cap, 0, root, ns)
      case Err(e) => Err(e)
      case Ok(res) => Screen(res)
  }
}

/** What the operations promise, and the steps the imperative `insert` is proved by. */
module OperationsFacts {
  import opened Bson
  import opened Wire
  import opened Connection
  import opened Replies
  import opened Batching
  import BF = BatchingFacts
  import opened Operations
  import LE = LittleEndian

  /**
   * The insert messages are the plan's batches in order, on the collection's
   * namespace: the first starts at the first document, each starts where the
   * one before ended and holds at least one document, and unless the plan
   * fails the last ends with the last document.
   */
  lemma InsertMessagesAreBatches(ns: string, docs: seq<Document>, capacity: nat, sizeOf: Document -> nat)
    ensures var p := PlanInsert(docs, InsertHeader(ns), capacity, sizeOf);
      var ms := InsertMessages(ns, docs, capacity, sizeOf);
      && Chain(0, p.ends, |docs|) && |ms| == |p.ends|
      && (forall j | 0 <= j < |ms| :: ms[j] == Insert(ns, docs[Start(0, p.ends, j)..p.ends[j]]))
      && (p.failure.None? <==> Last(0, p.ends) == |docs|)
  {
    BF.PlanChain(docs, 0, InsertHeader(ns), capacity, sizeOf);
  }

  /**
   * `insert` succeeds exactly when every document fits in a message on its
   * own and the connector accepts every message; then the messages hold
   * all the documents, in order, batch after batch.
   */
  lemma InsertSucceedsIff(ns: string, docs: seq<Document>, capacity: nat, sizeOf: Document -> nat, script: seq<Reply>)
    ensures var p := PlanInsert(docs, InsertHeader(ns), capacity, sizeOf);
      var d := Deliver(InsertMessages(ns, docs, capacity, sizeOf), script);
      InsertOutcome(p, d) == Ok(()) <==>
        (docs == [] || InsertHeader(ns) <= capacity)
        && (forall i :: 0 <= i < |docs| ==> InsertHeader(ns) + sizeOf(docs[i]) <= capacity)
        && d.ok
  {
    var header := InsertHeader(ns);
    var p := PlanInsert(docs, header, capacity, sizeOf);
    BF.PlanChain(docs, 0, header, capacity, sizeOf);
    BF.PlanFailures(docs, 0, header, capacity, sizeOf);
    if header <= capacity {
      BF.AllSentIffAllFit(docs, header, capacity, sizeOf);
    } else if docs != [] {
      assert p.failure == Some(BufferOverflow);
    }
  }

  /** A plan split after some batches: the batches so far, then those still to come from `cur`. */
  predicate SplitAt(docs: seq<Document>, header: nat, capacity: nat, sizeOf: Document -> nat, ends: seq<nat>, cur: nat)
    requires cur <= |docs|
  {
    var rest := PlanFrom(docs, cur, header, capacity, sizeOf);
    Chain(0, ends, |docs|) && Last(0, ends) == cur
    && PlanInsert(docs, header, capacity, sizeOf) == Plan(ends + rest.ends, rest.failure)
  }

  lemma SplitAtStart(docs: seq<Document>, header: nat, capacity: nat, sizeOf: Document -> nat)
    ensures SplitAt(docs, header, capacity, sizeOf, [], 0)
  {
    assert [] + PlanInsert(docs, header, capacity, sizeOf).ends == PlanInsert(docs, header, capacity, sizeOf).ends;
  }

  /** The messages of some batches are a prefix of the messages of those and further batches. */
  lemma {:induction false} BatchMessagesPrefix(ns: string, docs: seq<Document>, ends: seq<nat>, rest: seq<nat>)
    requires Chain(0, ends + rest, |docs|)
    ensures Chain(0, ends, |docs|) && BatchMessages(ns, docs, ends) <= BatchMessages(ns, docs, ends + rest)
  {
    var all := ends + rest;
    forall j | 0 <= j < |ends|
      ensures Start(0, ends, j) == Start(0, all, j) && ends[j] == all[j]
    {
    }
    assert Chain(0, ends, |docs|) by {
      forall j | 0 <= j < |ends|
        ensures Start(0, ends, j) < ends[j] <= |docs|
      {
        assert Start(0, all, j) < all[j] <= |docs|;
      }
    }
  }

  /** Appending a later end to a chain of batches keeps it a chain, and leaves the earlier batches as they were. */
  lemma ChainSnoc(ends: seq<nat>, e: nat, limit: nat)
    requires Chain(0, ends, limit) && Last(0, ends) < e <= limit
    ensures Chain(0, ends + [e], limit) && Last(0, ends + [e]) == e
    ensures forall j | 0 <= j < |ends| :: Start(0, ends + [e], j) == Start(0, ends, j) && (ends + [e])[j] == ends[j]
  {
    var ends' := ends + [e];
    forall j | 0 <= j < |ends'|
      ensures Start(0, ends', j) < ends'[j] <= limit
    {
      if j < |ends| {
        assert ends'[j] == ends[j];
        assert Start(0, ends', j) == Start(0, ends, j);
        assert Start(0, ends, j) < ends[j] <= limit;
      } else {
        assert Start(0, ends', j) == Last(0, ends);
      }
    }
  }

  /** The messages of one more batch are the earlier messages followed by that batch's message. */
  lemma MessagesSnoc(ns: string, docs: seq<Document>, ends: seq<nat>, e: nat)
    requires Chain(0, ends, |docs|) && Last(0, ends) < e <= |docs|
    ensures Chain(0, ends + [e], |docs|)
    ensures BatchMessages(ns, docs, ends + [e]) == BatchMessages(ns, docs, ends) + [Insert(ns, docs[Last(0, ends)..e])]
  {
    var ends' := ends + [e];
    ChainSnoc(ends, e, |docs|);
    var longer := BatchMessages(ns, docs, ends');
    var shorter := BatchMessages(ns, docs, ends);
    forall j | 0 <= j < |longer|
      ensures longer[j] == (shorter + [Insert(ns, docs[Last(0, ends)..e])])[j]
    {
      if j < |ends| {
        assert longer[j] == shorter[j];
      } else {
        assert Start(0, ends', j) == Last(0, ends);
      }
    }
  }

  /**
   * One turn of `insert`'s outer loop: the batch `cur..end` the inner loop
   * found is the plan's next batch.
   */
  lemma SplitStep(docs: seq<Document>, header: nat, capacity: nat, sizeOf: Document -> nat, ends: seq<nat>, cur: nat)
    requires cur < |docs| && header <= capacity
    requires SplitAt(docs, header, capacity, sizeOf, ends, cur)
    requires Fill(docs, cur, capacity - header, sizeOf) > cur
    ensures SplitAt(docs, header, capacity, sizeOf, ends + [Fill(docs, cur, capacity - header, sizeOf)], Fill(docs, cur, capacity - header, sizeOf))
  {
    var end := Fill(docs, cur, capacity - header, sizeOf);
    var rest := PlanFrom(docs, end, header, capacity, sizeOf);
    BF.PlanStep(docs, cur, header, capacity, sizeOf);
    ChainSnoc(ends, end, |docs|);
    assert ends + ([end] + rest.ends) == (ends + [end]) + rest.ends;
  }

  /**
   * Where `insert` stops: when no batch is left, or the connector refused
   * the last message, delivering the whole plan is delivering what was sent.
   */
  lemma InsertStops(ns: string, docs: seq<Document>, capacity: nat, sizeOf: Document -> nat, ends: seq<nat>, cur: nat, script: seq<Reply>)
    requires cur <= |docs| && SplitAt(docs, InsertHeader(ns), capacity, sizeOf, ends, cur)
    requires PlanFrom(docs, cur, InsertHeader(ns), capacity, sizeOf).ends == [] || !Deliver(BatchMessages(ns, docs, ends), script).ok
    ensures Deliver(InsertMessages(ns, docs, capacity, sizeOf), script) == Deliver(BatchMessages(ns, docs, ends), script)
  {
    var header := InsertHeader(ns);
    var rest := PlanFrom(docs, cur, header, capacity, sizeOf);
    var all := InsertMessages(ns, docs, capacity, sizeOf);
    BF.PlanChain(docs, 0, header, capacity, sizeOf);
    BatchMessagesPrefix(ns, docs, ends, rest.ends);
    var pre := BatchMessages(ns, docs, ends);
    if rest.ends == [] {
      assert ends + rest.ends == ends;
    } else {
      assert all == pre + all[|pre|..];
      DeliverAppend(pre, all[|pre|..], script);
    }
  }

  /** Sending after a delivery that went through extends it by that message. */
  lemma DeliverSnoc(ms: seq<Message>, m: Message, script: seq<Reply>)
    requires Deliver(ms, script).ok
    ensures var d := Deliver(ms, script);
      Deliver(ms + [m], script) == Delivery(d.sent + [m], Rest(d.script), Answer(d.script).Bytes?)
  {
    DeliverAppend(ms, [m], script);
  }

  /**
   * Every pending id is either still pending after `_cleanCursors` or was
   * sent in a kill-cursors message the connector took; nothing is sent
   * unless the flush condition holds.
   */
  lemma CleanLosesNoIds(dead: seq<int>, script: seq<Reply>)
    ensures var cl := Clean(dead, script);
      && (cl.sent == [] <==> !ShouldFlush(|dead|))
      && (cl.sent == [] ==> cl.dead == dead && cl.script == script)
      && (forall id :: id in dead ==> id in cl.dead || (cl.sent == [KillMessage(dead)] && Answer(script).Bytes?))
      && (cl.dead == [] || cl.dead == dead)
  {
  }

  /** At least 100 pending ids are always flushed, whatever their number modulo 20. */
  lemma HundredPendingFlush(dead: seq<int>, script: seq<Reply>)
    requires |dead| >= NUM_CURSORS_BEFORE_KILL
    ensures Clean(dead, script).sent == [KillMessage(dead)]
    ensures Answer(script).Bytes? ==> Clean(dead, script).dead == []
  {
  }

  /** Below 100 pending ids, only a multiple of 20 is flushed. */
  lemma FewPendingWait(dead: seq<int>, script: seq<Reply>)
    requires 0 < |dead| < NUM_CURSORS_BEFORE_KILL
    ensures Clean(dead, script).sent != [] <==> |dead| % 20 == 0
  {
  }

  /** The kill-cursors message reads back as 0, the number of ids, and the ids in order. */
  lemma KillMessageReadsBack(ids: seq<int>)
    requires AllInt64(ids) && |ids| < LE.TWO_31
    ensures var body := KillMessage(ids).body;
      LE.Int32Of(body[0..4]) == 0 && LE.Int32Of(body[4..8]) == |ids| && ParseLongs(body[8..]) == ids
  {
    KillCursorsBodyRoundTrip(ids);
  }

  /**
   * `find`'s checks: no documents gives no cursor; a single document with a
   * non-null "$err" is a server error carrying that value; anything else,
   * including several documents one of which holds "$err", is a cursor.
   */
  lemma ScreenCases(res: SingleResult)
    ensures Screen(res) == Ok(None) <==> res.docs == []
    ensures Screen(res).Err? <==> |res.docs| == 1 && Lookup(res.docs[0], ERR_KEY).Some? && !Lookup(res.docs[0], ERR_KEY).value.Null?
    ensures Screen(res).Err? ==> Screen(res).error == ServerError(Lookup(res.docs[0], ERR_KEY).value)
    ensures Screen(res).Ok? && Screen(res).value.Some? ==> Screen(res).value.value == res
  {
  }

  /** A lone reply document whose "$err" holds null is returned as a cursor, not thrown. */
  lemma NullErrIsNotAnError(res: SingleResult)
    requires |res.docs| == 1 && Lookup(res.docs[0], ERR_KEY) == Some(Null)
    ensures Screen(res) == Ok(Some(res))
  {
  }

  /**
   * A reply to a query that announces no documents gives no cursor,
   * whatever bytes follow its header.
   */
  lemma EmptyReplyIsNoCursor(h: Header, body: seq<byte>, cap: nat, root: string, ns: string)
    requires WellFormed(h) && h.num <= 0
    ensures FindOutcome(root, cap, ns, Bytes(HeaderBytes(h) + body)) == Ok(None)
  {
    SingleResultOfReply(h, body, cap, root, ns);
  }
}
