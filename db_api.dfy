/**
 * `DBApiLayer`: a database reached through a connector, its collections
 * (`MyCollection`) and the cursors `find` returns (`Result`).  Each
 * operation is proved to do what the functions of `Operations` and
 * `Cursors` say.
 */
module DBApi {
  import opened Bson
  import opened Wire
  import opened Connection
  import N = Namespaces
  import opened ByteDecoder
  import opened Replies
  import opened Batching
  import opened Cursors
  import opened Operations
  import F = OperationsFacts

  class Database {
    /** `_root`, the database name. */
    const root: string
    const connector: Connector
    /** The size of the name buffer of the decoders replies are read with. */
    const nameCapacity: nat
    /** The room in one message buffer, and the encoded size of a document. */
    const capacity: nat
    const sizeOf: Document -> nat
    /** `_collections`. */
    var collections: map<string, Collection>
    /** `_deadCursorIds`. */
    var deadCursorIds: seq<int>

    /** Every collection is registered under its own name and belongs to this database. */
    ghost predicate Valid()
      reads this
    {
      forall k | k in collections ::
        collections[k].db == this && collections[k].name == k && collections[k].fullName == N.FullName(root, k)
    }

    constructor (root: string, connector: Connector, nameCapacity: nat, capacity: nat, sizeOf: Document -> nat)
      ensures this.root == root && this.connector == connector && this.nameCapacity == nameCapacity
      ensures this.capacity == capacity && this.sizeOf == sizeOf
      ensures collections == map[] && deadCursorIds == [] && Valid()
    {
      this.root := root;
      this.connector := connector;
      this.nameCapacity := nameCapacity;
      this.capacity := capacity;
      this.sizeOf := sizeOf;
      collections := map[];
      deadCursorIds := [];
    }

    /** `doGetCollection`: the registered collection of that name, else a new one, registered. */
    method DoGetCollection(name: string) returns (c: Collection)
      requires Valid()
      modifies this`collections
      ensures Valid() && c.db == this && c.name == name && c.fullName == N.FullName(root, name)
      ensures name in old(collections) ==> c == old(collections)[name] && collections == old(collections)
      ensures name !in old(collections) ==> fresh(c) && collections == old(collections)[name := c]
    {
      if name in collections {
        c := collections[name];
        return;
      }
      c := new Collection(this, name);
      collections := collections[name := c];
    }

    /**
     * `getCollectionFromFull`: a name without a dot, or one whose database
     * part is this database, is a collection of this database; any other is
     * a collection of a new sister database on the same connector.
     */
    method GetCollectionFromFull(full: string) returns (c: Collection)
      requires Valid()
      modifies this`collections
      ensures Valid() && c.db.connector == connector && c.db.Valid()
      ensures match N.Locate(root, full)
        case Local(name) =>
          && c.db == this && c.name == name && c.fullName == N.FullName(root, name)
          && (name in old(collections) ==> c == old(collections)[name] && collections == old(collections))
          && (name !in old(collections) ==> fresh(c) && collections == old(collections)[name := c])
        case Sister(db, name) =>
          && fresh(c.db) && c.db.root == db && c.name == name && c.fullName == N.FullName(db, name)
          && fresh(c) && c.db.collections == map[name := c] && c.db.deadCursorIds == []
          && c.db.nameCapacity == nameCapacity && c.db.capacity == capacity && c.db.sizeOf == sizeOf
          && collections == old(collections)
    {
      match N.Locate(root, full)
      case Local(name) =>
        c := DoGetCollection(name);
      case Sister(db, name) =>
        var sister := new Database(db, connector, nameCapacity, capacity, sizeOf);
        c := sister.DoGetCollection(name);
    }

    /** `finalize` of a cursor: its id, if positive, joins the dead cursors. */
    method Bury(cursorId: int)
      modifies this`deadCursorIds
      ensures deadCursorIds == old(deadCursorIds) + (if cursorId > 0 then [cursorId] else [])
    {
      if cursorId > 0 {
        deadCursorIds := deadCursorIds + [cursorId];
      }
    }
  }

  class Collection {
    const db: Database
    const name: string
    /** `_fullNameSpace`. */
    const fullName: string

    constructor (db: Database, name: string)
      ensures this.db == db && this.name == name && fullName == N.FullName(db.root, name)
    {
      this.db := db;
      this.name := name;
      fullName := N.FullName(db.root, name);
    }

    /**
     * The inner loop of `insert`: puts documents from `start` after the
     * header until one overflows the buffer (its bytes are rewound) or none
     * is left, and says where the batch ends.
     */
    method FillBatch(docs: seq<Document>, start: nat) returns (end: nat)
      requires start <= |docs| && InsertHeader(fullName) <= db.capacity
      ensures end == Fill(docs, start, db.capacity - InsertHeader(fullName), db.sizeOf)
    {
      var used := InsertHeader(fullName);
      end := start;
      while end < |docs|
        invariant start <= end <= |docs| && used <= db.capacity
        invariant Fill(docs, start, db.capacity - InsertHeader(fullName), db.sizeOf) == Fill(docs, end, db.capacity - used, db.sizeOf)
        decreases |docs| - end
      {
        var size := db.sizeOf(docs[end]);
        if used + size > db.capacity {
          return;
        }
        used := used + size;
        end := end + 1;
      }
    }

    /**
     * `insert`: sends the documents in as few messages as the buffer allows,
     * in order, each message as full as it can be; a document that fits in
     * no message, or a header that does not fit, stops it after the messages
     * already sent, as does a failing connector.
     */
    method Insert(docs: seq<Document>) returns (r: Result<()>)
      modifies db.connector
      ensures var p := PlanInsert(docs, InsertHeader(fullName), db.capacity, db.sizeOf);
        var d := Deliver(InsertMessages(fullName, docs, db.capacity, db.sizeOf), old(db.connector.script));
        && db.connector.sent == old(db.connector.sent) + d.sent
        && db.connector.script == d.script
        && r == InsertOutcome(p, d)
    {
      var header := InsertHeader(fullName);
      ghost var script := db.connector.script;
      ghost var ends: seq<nat> := [];
      F.SplitAtStart(docs, header, db.capacity, db.sizeOf);
      var cur := 0;
      while cur < |docs|
        invariant cur <= |docs| && F.SplitAt(docs, header, db.capacity, db.sizeOf, ends, cur)
        invariant Deliver(BatchMessages(fullName, docs, ends), script).ok
        invariant db.connector.sent == old(db.connector.sent) + Deliver(BatchMessages(fullName, docs, ends), script).sent
        invariant db.connector.script == Deliver(BatchMessages(fullName, docs, ends), script).script
        decreases |docs| - cur
      {
        if header > db.capacity {
          F.InsertStops(fullName, docs, db.capacity, db.sizeOf, ends, cur, script);
          return Err(BufferOverflow);
        }
        var end := FillBatch(docs, cur);
        if end == cur {
          F.InsertStops(fullName, docs, db.capacity, db.sizeOf, ends, cur, script);
          return Err(TooLarge);
        }
        ghost var before := BatchMessages(fullName, docs, ends);
        var said := db.connector.Say(Wire.Insert(fullName, docs[cur..end]));
        F.SplitStep(docs, header, db.capacity, db.sizeOf, ends, cur);
        F.MessagesSnoc(fullName, docs, ends, end);
        F.DeliverSnoc(before, Wire.Insert(fullName, docs[cur..end]), script);
        ends := ends + [end];
        cur := end;
        if said.Err? {
          F.InsertStops(fullName, docs, db.capacity, db.sizeOf, ends, cur, script);
          return said;
        }
      }
      F.InsertStops(fullName, docs, db.capacity, db.sizeOf, ends, cur, script);
      return Ok(());
    }

    /** `remove`: one delete message, flagged single when the selector is just an ObjectId "_id". */
    method Remove(selector: Document) returns (r: Result<()>)
      modifies db.connector
      ensures db.connector.sent == old(db.connector.sent) + [RemoveMessage(fullName, selector)]
      ensures db.connector.script == Rest(old(db.connector.script))
      ensures r == if Answer(old(db.connector.script)).Fail? then Err(ConnectorFailure) else Ok(())
    {
      r := db.connector.Say(RemoveMessage(fullName, selector));
    }

    /** `update`: one update message with the upsert and multi flags. */
    method Update(query: Document, obj: Document, upsert: bool, multi: bool) returns (r: Result<()>)
      modifies db.connector
      ensures db.connector.sent == old(db.connector.sent) + [UpdateMessage(fullName, query, obj, upsert, multi)]
      ensures db.connector.script == Rest(old(db.connector.script))
      ensures r == if Answer(old(db.connector.script)).Fail? then Err(ConnectorFailure) else Ok(())
    {
      r := db.connector.Say(UpdateMessage(fullName, query, obj, upsert, multi));
    }

    /** `killCursors`: nothing for a missing or empty list, else one kill-cursors message with every id. */
    method KillCursors(all: Option<seq<int>>) returns (r: Result<()>)
      modifies db.connector
      ensures all.None? || all.value == [] ==> r == Ok(()) && unchanged(db.connector)
      ensures all.Some? && all.value != [] ==>
        && db.connector.sent == old(db.connector.sent) + [KillMessage(all.value)]
        && db.connector.script == Rest(old(db.connector.script))
        && r == if Answer(old(db.connector.script)).Fail? then Err(ConnectorFailure) else Ok(())
    {
      if all.None? || all.value == [] {
        return Ok(());
      }
      r := db.connector.Say(KillMessage(all.value));
    }

    /** `_cleanCursors`: flushes the dead cursors when `ShouldFlush` says so; a failure puts them back. */
    method CleanCursors()
      modifies db`deadCursorIds, db.connector
      ensures var cl := Clean(old(db.deadCursorIds), old(db.connector.script));
        && db.deadCursorIds == cl.dead
        && db.connector.sent == old(db.connector.sent) + cl.sent
        && db.connector.script == cl.script
    {
      var n := |db.deadCursorIds|;
      if n == 0 {
        return;
      }
      if n % 20 != 0 && n < NUM_CURSORS_BEFORE_KILL {
        return;
      }
      var l := db.deadCursorIds;
      db.deadCursorIds := [];
      var killed := KillCursors(Some(l));
      if killed.Err? {
        db.deadCursorIds := db.deadCursorIds + l;
      }
    }

    /**
     * `find`: cleans the dead cursors, sends the query and reads the reply;
     * no documents gives no cursor, a lone "$err" document is an error, and
     * anything else opens a cursor on the reply.
     */
    method Find(ref: Option<Document>, fields: Option<Document>, numToSkip: int, batchSize: int, options: int)
      returns (r: Result<Option<Cursor>>)
      modifies db`deadCursorIds, db.connector
      ensures var cl := Clean(old(db.deadCursorIds), old(db.connector.script));
        && db.deadCursorIds == cl.dead
        && db.connector.sent == old(db.connector.sent) + cl.sent + [FindMessage(fullName, ref, fields, numToSkip, batchSize, options)]
        && db.connector.script == Rest(cl.script)
        && match FindOutcome(db.root, db.nameCapacity, fullName, Answer(cl.script))
           case Err(e) => r == Err(e)
           case Ok(None) => r == Ok(None)
           case Ok(Some(res)) =>
             && r.Ok? && r.value.Some? && fresh(r.value.value)
             && r.value.value.coll == this && r.value.value.numToReturn == batchSize
             && r.value.value.State() == Open(res)
    {
      CleanCursors();
      var answer := db.connector.Call(FindMessage(fullName, ref, fields, numToSkip, batchSize, options));
      if answer.Err? {
        return Err(answer.error);
      }
      var decoder := new Decoder(answer.value, db.nameCapacity);
      var res := ReadSingleResult(decoder, db.root, fullName);
      if res.Err? {
        return Err(res.error);
      }
      var screened := Screen(res.value);
      if screened.Err? {
        return Err(screened.error);
      }
      if screened.value.None? {
        return Ok(None);
      }
      var cursor := new Cursor(this, res.value, batchSize);
      return Ok(Some(cursor));
    }
  }

  class Cursor {
    /** `_collection` and `_numToReturn`. */
    const coll: Collection
    const numToReturn: int
    /** `_curResult` and the position of `_cur` in its documents. */
    var batch: SingleResult
    var idx: nat
    var totalBytes: int
    var numGetMores: int
    var sizes: seq<int>

    function State(): CursorState
      reads this
    {
      CursorState(batch, idx, totalBytes, numGetMores, sizes)
    }

    function Conf(): Config
    {
      Config(coll.db.root, coll.db.nameCapacity, numToReturn)
    }

    constructor (coll: Collection, res: SingleResult, numToReturn: int)
      ensures this.coll == coll && this.numToReturn == numToReturn && State() == Open(res)
    {
      this.coll := coll;
      this.numToReturn := numToReturn;
      batch := res;
      idx := 0;
      totalBytes := res.bytes;
      numGetMores := 0;
      sizes := [|res.docs|];
    }

    /** `init`: the new batch becomes current, read from its start. */
    method Init(res: SingleResult)
      modifies this
      ensures State() == Cursors.Init(old(State()), res)
    {
      totalBytes := totalBytes + res.bytes;
      batch := res;
      idx := 0;
      sizes := sizes + [|res.docs|];
    }

    /** `_advance`: one get-more for the current cursor id, its reply read into a new batch. */
    method Advance() returns (r: Result<()>)
      modifies this, coll.db.connector
      ensures var a := Cursors.Advance(Conf(), old(State()), old(coll.db.connector.script));
        && r == a.result && State() == a.state
        && coll.db.connector.script == a.script && coll.db.connector.sent == old(coll.db.connector.sent) + a.sent
    {
      if batch.header.cursor <= 0 {
        return Err(CannotAdvance);
      }
      var answer := coll.db.connector.Call(GetMore(batch.fullNs, numToReturn, batch.header.cursor));
      if answer.Err? {
        return Err(GetMoreFailed(answer.error));
      }
      numGetMores := numGetMores + 1;
      var decoder := new Decoder(answer.value, coll.db.nameCapacity);
      var res := ReadSingleResult(decoder, coll.db.root, batch.fullNs);
      if res.Err? {
        return Err(if IsMongoError(res.error) then GetMoreFailed(res.error) else res.error);
      }
      Init(res.value);
      return Ok(());
    }

    /** `next`: the next document, getting more batches from the server as they are announced. */
    method Next() returns (r: Result<Document>)
      modifies this, coll.db.connector
      decreases |coll.db.connector.script|
      ensures var n := Cursors.Next(Conf(), old(State()), old(coll.db.connector.script));
        && r == n.result && State() == n.state
        && coll.db.connector.script == n.script && coll.db.connector.sent == old(coll.db.connector.sent) + n.sent
    {
      if idx < |batch.docs| {
        r := Ok(batch.docs[idx]);
        idx := idx + 1;
        return;
      }
      if !HasGetMore(batch.header) {
        return Err(NoMore);
      }
      var advanced := Advance();
      if advanced.Err? {
        return Err(advanced.error);
      }
      ghost var a := Cursors.Advance(Conf(), old(State()), old(coll.db.connector.script));
      r := Next();
      ghost var n := Cursors.Next(Conf(), a.state, a.script);
      LogAssoc(old(coll.db.connector.sent), a.sent, n.sent);
    }

    /** `hasNext`: whether a document is buffered, getting more batches from the server as they are announced. */
    method HasNext() returns (r: Result<bool>)
      modifies this, coll.db.connector
      decreases |coll.db.connector.script|
      ensures var h := Cursors.HasNext(Conf(), old(State()), old(coll.db.connector.script));
        && r == h.result && State() == h.state
        && coll.db.connector.script == h.script && coll.db.connector.sent == old(coll.db.connector.sent) + h.sent
    {
      if idx < |batch.docs| {
        return Ok(true);
      }
      if !HasGetMore(batch.header) {
        return Ok(false);
      }
      var advanced := Advance();
      if advanced.Err? {
        return Err(advanced.error);
      }
      ghost var a := Cursors.Advance(Conf(), old(State()), old(coll.db.connector.script));
      r := HasNext();
      ghost var n := Cursors.HasNext(Conf(), a.state, a.script);
      LogAssoc(old(coll.db.connector.sent), a.sent, n.sent);
    }

    /** `finalize`: the current cursor id, if positive, is handed back to the database as dead. */
    method Abandon()
      modifies coll.db`deadCursorIds
      ensures coll.db.deadCursorIds == old(coll.db.deadCursorIds) + (if batch.header.cursor > 0 then [batch.header.cursor] else [])
    {
      coll.db.Bury(batch.header.cursor);
    }

    /** `totalBytes()`: the bytes of every reply read so far, headers included. */
    function TotalBytes(): int
      reads this
    {
      totalBytes
    }

    /** `numGetMores()`. */
    function NumGetMores(): int
      reads this
    {
      numGetMores
    }

    /** `getSizes()`: the number of documents of each reply, in order. */
    function Sizes(): seq<int>
      reads this
    {
      sizes
    }
  }
}
