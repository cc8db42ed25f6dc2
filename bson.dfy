/**
 * The values the decoder produces and the ordered documents that hold them.
 * A decoded `DBObject` is a `BasicDBObject`, i.e. an insertion-ordered hash
 * map from field name to value; here it is a sequence of fields whose names
 * are kept distinct by `Put`.  Field names and strings stay UTF-8 bytes.
 */
module Bson {
  import LE = LittleEndian

  type byte = LE.byte

  datatype Option<+T> = None | Some(value: T)

  /** The exceptions the modelled code throws, one constructor per cause. */
  datatype Error =
    | BufferUnderflow                          // ByteBuffer read past its limit
    | IndexOutOfBounds                         // array index, absolute buffer read, or get(dst, off, len) bounds
    | NegativeArraySize(size: int)             // new byte[n] with n < 0
    | InvalidBson(size: int, remaining: int)   // "invalid bson? size: ... remaining: ..."
    | BadBinarySize(len: int, totalLen: int)   // "bad data size got subtype 2 len: ..."
    | LengthMismatch(consumed: int, declared: int) // "lengths don't match ..."
    | UnsupportedCode                          // "can't handle CODE yet"
    | UnsupportedType(tag: byte)                // "ByteDecoder can't handle type : ..."
    | BufferOverflow                           // encoder buffer full outside a document write
    | TooLarge                                 // a single document does not fit in a message
    | ConnectorFailure                         // the connector's say/call threw
    | ServerError(err: Value)                  // "db error [...]": a lone reply document with "$err"
    | NoMore                                   // "no more"
    | CannotAdvance                            // "can't advance a cursor <= 0"
    | GetMoreFailed(cause: Error)              // "can't do getmore", wrapping a MongoException
    | NullPointer                              // a "$ref" holding null dereferenced by toString()

  datatype Result<+T> = Ok(value: T) | Err(error: Error)

  /** A value read from a buffer together with the position just after it. */
  datatype Read<+T> = Read(value: T, next: nat)

  /** Drops the position from a read. */
  function Drop<T>(r: Result<Read<T>>): Result<T>
  {
    match r
    case Ok(Read(v, _)) => Ok(v)
    case Err(e) => Err(e)
  }

  // Element type tags (a Java `byte`; MINKEY is -1).
  const EOO: byte := 0
  const NUMBER: byte := 1
  const STRING: byte := 2
  const OBJECT: byte := 3
  const ARRAY: byte := 4
  const BINARY: byte := 5
  const UNDEFINED: byte := 6
  const OID: byte := 7
  const BOOLEAN: byte := 8
  const DATE: byte := 9
  const NULL: byte := 10
  const REGEX: byte := 11
  const REF: byte := 12
  const CODE: byte := 13
  const SYMBOL: byte := 14
  const CODE_W_SCOPE: byte := 15
  const NUMBER_INT: byte := 16
  const TIMESTAMP: byte := 17
  const NUMBER_LONG: byte := 18
  const MINKEY: byte := 0xFF
  const MAXKEY: byte := 127

  /** Binary subtype that carries its own inner length. */
  const B_BINARY: byte := 2

  // ASCII field names and strings used by the code.
  const REF_KEY: seq<byte> := [0x24, 0x72, 0x65, 0x66]          // "$ref"
  const ID_KEY: seq<byte> := [0x24, 0x69, 0x64]                 // "$id"
  const OBJECT_ID_KEY: seq<byte> := [0x5F, 0x69, 0x64]          // "_id"
  const ERR_KEY: seq<byte> := [0x24, 0x65, 0x72, 0x72]          // "$err"
  const MIN_KEY_TEXT: seq<byte> := [0x4D, 0x69, 0x6E, 0x4B, 0x65, 0x79] // "MinKey"
  const MAX_KEY_TEXT: seq<byte> := [0x4D, 0x61, 0x78, 0x4B, 0x65, 0x79] // "MaxKey"

  /**
   * What `decodeNext` stores.  SYMBOL and STRING both give a Java String,
   * NULL and UNDEFINED both store null, MINKEY and MAXKEY store the strings
   * "MinKey" and "MaxKey"; a double is kept as its eight raw bytes.
   */
  datatype Value =
    | Null
    | Bool(b: bool)
    | Double(raw: seq<byte>)
    | Int32(i: int)
    | Int64(l: int)
    | Str(utf8: seq<byte>)
    | Oid(time: int, machine: int, inc: int)
    | Pointer(ns: seq<byte>, id: Value)
    | Date(millis: int)
    | Regex(pattern: seq<byte>, flags: seq<byte>)
    | ByteArray(data: seq<byte>)
    | Binary(subtype: byte, data: seq<byte>)
    | List(items: seq<Value>)
    | Object(fields: seq<Field>)
    | Ref(ref: Value, id: Value)
    | Timestamp(time: int, inc: int)

  datatype Field = Field(name: seq<byte>, value: Value)

  type Document = seq<Field>

  /** The field names of `doc`, in insertion order. */
  function Keys(doc: Document): (ks: seq<seq<byte>>)
    ensures |ks| == |doc|
    ensures forall i :: 0 <= i < |doc| ==> ks[i] == doc[i].name
  {
    if doc == [] then [] else [doc[0].name] + Keys(doc[1..])
  }

  /** `DBObject.get`: the value stored under `name`, if any. */
  function Lookup(doc: Document, name: seq<byte>): (r: Option<Value>)
    ensures r.Some? <==> name in Keys(doc)
  {
    if doc == [] then None
    else if doc[0].name == name then Some(doc[0].value)
    else Lookup(doc[1..], name)
  }

  /** `DBObject.containsKey`. */
  predicate HasKey(doc: Document, name: seq<byte>)
  {
    name in Keys(doc)
  }

  /** No field name occurs twice. */
  predicate DistinctKeys(doc: Document)
  {
    forall i, j :: 0 <= i < j < |doc| ==> doc[i].name != doc[j].name
  }

  /**
   * `DBObject.put` on an insertion-ordered map: an existing key keeps its
   * place and gets the new value, a new key is appended (see `PutSemantics`).
   */
  function Put(doc: Document, name: seq<byte>, v: Value): (r: Document)
    ensures |r| == |doc| || |r| == |doc| + 1
  {
    if doc == [] then [Field(name, v)]
    else if doc[0].name == name then [Field(name, v)] + doc[1..]
    else [doc[0]] + Put(doc[1..], name, v)
  }

  lemma LookupCons(f: Field, rest: Document, m: seq<byte>)
    ensures Lookup([f] + rest, m) == if f.name == m then Some(f.value) else Lookup(rest, m)
  {
    assert ([f] + rest)[1..] == rest;
  }

  lemma KeysCons(f: Field, rest: Document)
    ensures Keys([f] + rest) == [f.name] + Keys(rest)
  {
    assert ([f] + rest)[1..] == rest;
  }

  /** After `Put`, `name` maps to `v` and every other key is unaffected. */
  lemma {:induction false} PutLookup(doc: Document, name: seq<byte>, v: Value, m: seq<byte>)
    ensures Lookup(Put(doc, name, v), m) == if m == name then Some(v) else Lookup(doc, m)
  {
    if doc != [] {
      assert doc == [doc[0]] + doc[1..];
      LookupCons(doc[0], doc[1..], m);
      if doc[0].name == name {
        LookupCons(Field(name, v), doc[1..], m);
      } else {
        PutLookup(doc[1..], name, v, m);
        LookupCons(doc[0], Put(doc[1..], name, v), m);
      }
    }
  }

  /** `Put` keeps the order of the keys and appends a new key at the end. */
  lemma {:induction false} PutKeys(doc: Document, name: seq<byte>, v: Value)
    ensures Keys(Put(doc, name, v)) == if name in Keys(doc) then Keys(doc) else Keys(doc) + [name]
  {
    if doc != [] {
      assert doc == [doc[0]] + doc[1..];
      KeysCons(doc[0], doc[1..]);
      if doc[0].name == name {
        KeysCons(Field(name, v), doc[1..]);
      } else {
        PutKeys(doc[1..], name, v);
        KeysCons(doc[0], Put(doc[1..], name, v));
      }
    }
  }

  /** Both halves of `DBObject.put`'s meaning. */
  lemma PutSemantics(doc: Document, name: seq<byte>, v: Value, m: seq<byte>)
    ensures Lookup(Put(doc, name, v), m) == if m == name then Some(v) else Lookup(doc, m)
    ensures Keys(Put(doc, name, v)) == if name in Keys(doc) then Keys(doc) else Keys(doc) + [name]
  {
    PutLookup(doc, name, v, m);
    PutKeys(doc, name, v);
  }

  lemma {:induction false} PutKeepsKeysDistinct(doc: Document, name: seq<byte>, v: Value)
    requires DistinctKeys(doc)
    ensures DistinctKeys(Put(doc, name, v))
  {
    var r := Put(doc, name, v);
    PutSemantics(doc, name, v, name);
    forall i, j | 0 <= i < j < |r| ensures r[i].name != r[j].name {
      assert Keys(r)[i] == r[i].name && Keys(r)[j] == r[j].name;
      if name !in Keys(doc) && j == |doc| {
        assert Keys(doc)[i] == Keys(r)[i];
      } else {
        assert Keys(doc)[i] == Keys(r)[i] && Keys(doc)[j] == Keys(r)[j];
        assert Keys(doc)[i] == doc[i].name && Keys(doc)[j] == doc[j].name;
      }
    }
  }

  /**
   * The object `decodeNext` fills: a document, or a `BasicDBList` whose
   * elements are appended in read order (their field names are ignored).
   */
  datatype Target = Doc(fields: Document) | Arr(items: seq<Value>)

  /** `o.put(name, v)` on the target. */
  function Store(t: Target, name: seq<byte>, v: Value): (r: Target)
    ensures r.Doc? == t.Doc?
    ensures r.Doc? ==> Lookup(r.fields, name) == Some(v)
    ensures r.Arr? ==> r.items == t.items + [v]
  {
    match t
    case Doc(f) => PutSemantics(f, name, v, name); Doc(Put(f, name, v))
    case Arr(xs) => Arr(xs + [v])
  }
}
