/**
 * What `ByteDecoder` computes, as pure functions of the buffer contents
 * `buf` (the bytes before the buffer's limit), the read position and the
 * capacity `cap` of the decoder's name buffer.  Each function returns the
 * decoded value with the position after it, or the exception the Java code
 * throws.  The class `ByteDecoder.Decoder` is proved to compute exactly these.
 */
module DecodeSpec {
  import opened Bson
  import LE = LittleEndian

  // ---- ByteBuffer relative reads (underflow leaves nothing read) ----

  function ReadByte(buf: seq<byte>, pos: nat): Result<Read<byte>>
  {
    if pos < |buf| then Ok(Read(buf[pos], pos + 1)) else Err(BufferUnderflow)
  }

  function ReadBytes(buf: seq<byte>, pos: nat, n: nat): Result<Read<seq<byte>>>
  {
    if pos + n <= |buf| then Ok(Read(buf[pos..pos + n], pos + n)) else Err(BufferUnderflow)
  }

  function ReadInt32(buf: seq<byte>, pos: nat): Result<Read<int>>
  {
    if pos + 4 <= |buf| then Ok(Read(LE.Int32Of(buf[pos..pos + 4]), pos + 4)) else Err(BufferUnderflow)
  }

  function ReadInt64(buf: seq<byte>, pos: nat): Result<Read<int>>
  {
    if pos + 8 <= |buf| then Ok(Read(LE.Int64Of(buf[pos..pos + 8]), pos + 8)) else Err(BufferUnderflow)
  }

  /** Java's signed reading of a byte. */
  function SignedByte(b: byte): int
  {
    if b < 0x80 then b as int else b as int - 256
  }

  predicate NoZero(s: seq<byte>)
  {
    forall i :: 0 <= i < |s| ==> s[i] != 0
  }

  // ---- readCStr ----

  /**
   * `readCStr`: the bytes up to the first 0x00, which is consumed too.  Each
   * non-zero byte goes into the name buffer, so a name longer than `cap`
   * overruns it; running out of bytes first is an underflow.
   */
  function ReadCStr(buf: seq<byte>, pos: nat, cap: nat): (r: Result<Read<seq<byte>>>)
    decreases |buf| - pos
    ensures r.Ok? ==> pos < r.value.next <= |buf|
  {
    if pos >= |buf| then Err(BufferUnderflow)
    else if buf[pos] == 0 then Ok(Read([], pos + 1))
    else if cap == 0 then Err(IndexOutOfBounds)
    else
      match ReadCStr(buf, pos + 1, cap - 1)
      case Err(e) => Err(e)
      case Ok(Read(s, n)) => Ok(Read([buf[pos]] + s, n))
  }

  /** A name read by `ReadCStr` is exactly the non-zero bytes before the first 0x00, which is consumed. */
  lemma {:induction false} ReadCStrShape(buf: seq<byte>, pos: nat, cap: nat)
    requires ReadCStr(buf, pos, cap).Ok?
    ensures var Read(s, next) := ReadCStr(buf, pos, cap).value;
      next == pos + |s| + 1 <= |buf| && s == buf[pos..next - 1] && buf[next - 1] == 0 &&
      NoZero(s) && |s| <= cap
    decreases |buf| - pos
  {
    if buf[pos] != 0 {
      ReadCStrShape(buf, pos + 1, cap - 1);
    }
  }

  /** Conversely, a terminator within reach and a name that fits always read successfully. */
  lemma {:induction false} ReadCStrSucceeds(buf: seq<byte>, pos: nat, cap: nat, z: nat)
    requires pos <= z < |buf| && buf[z] == 0 && NoZero(buf[pos..z]) && z - pos <= cap
    ensures ReadCStr(buf, pos, cap) == Ok(Read(buf[pos..z], z + 1))
    decreases z - pos
  {
    if pos < z {
      assert buf[pos] != 0 && cap > 0;
      assert buf[pos..z][0] == buf[pos];
      assert buf[pos + 1..z] == buf[pos..z][1..];
      ReadCStrSucceeds(buf, pos + 1, cap - 1, z);
      assert buf[pos..z] == [buf[pos]] + buf[pos + 1..z];
    }
  }

  /** ... and without a terminator in the buffer, or with a name longer than `cap`, it fails. */
  lemma {:induction false} ReadCStrFails(buf: seq<byte>, pos: nat, cap: nat)
    requires pos <= |buf|
    requires NoZero(buf[pos..]) || (pos + cap < |buf| && NoZero(buf[pos..pos + cap + 1]))
    ensures ReadCStr(buf, pos, cap).Err?
    decreases |buf| - pos
  {
    if pos < |buf| {
      if NoZero(buf[pos..]) {
        assert buf[pos..][0] == buf[pos];
        assert buf[pos + 1..] == buf[pos..][1..];
        if cap > 0 {
          ReadCStrFails(buf, pos + 1, cap - 1);
        }
      } else {
        assert buf[pos..pos + cap + 1][0] == buf[pos];
        if cap > 0 {
          assert buf[pos + 1..pos + cap + 1] == buf[pos..pos + cap + 1][1..];
          ReadCStrFails(buf, pos + 1, cap - 1);
        }
      }
    }
  }

  // ---- element payloads ----

  /**
   * STRING and SYMBOL: int32 L counting the terminator, L - 1 content bytes
   * (computed in 32-bit arithmetic), then one skipped terminator byte.
   */
  function ReadString(buf: seq<byte>, pos: nat, cap: nat): (r: Result<Read<Value>>)
    ensures r.Ok? ==> pos + 5 <= r.value.next <= |buf|
  {
    match ReadInt32(buf, pos)
    case Err(e) => Err(e)
    case Ok(Read(L, p)) =>
      var size := LE.Wrap32(L - 1);
      if size > |buf| - p then Err(InvalidBson(size, |buf| - p))
      else if size < 0 || size > cap then Err(IndexOutOfBounds)
      else
        match ReadBytes(buf, p, size)
        case Err(e) => Err(e)
        case Ok(Read(s, q)) =>
          match ReadByte(buf, q)
          case Err(e) => Err(e)
          case Ok(Read(_, q')) => Ok(Read(Str(s), q'))
  }

  /**
   * A string element advances 4 + L bytes and holds the L - 1 bytes after the
   * length; a size beyond the remaining bytes is rejected first, then a
   * negative size or one larger than the name buffer; a size that uses up
   * every remaining byte leaves no terminator to skip.
   */
  lemma ReadStringLayout(buf: seq<byte>, pos: nat, cap: nat)
    requires pos + 4 <= |buf| < LE.TWO_31
    ensures var L := LE.Int32Of(buf[pos..pos + 4]);
      var size := LE.Wrap32(L - 1);
      var rem := |buf| - (pos + 4);
      var r := ReadString(buf, pos, cap);
      && (size > rem ==> r == Err(InvalidBson(size, rem)))
      && (size <= rem && (size < 0 || size > cap) ==> r == Err(IndexOutOfBounds))
      && (size == rem && size <= cap ==> r == Err(BufferUnderflow))
      && (0 <= size <= cap && pos + 5 + size <= |buf| ==>
            r == Ok(Read(Str(buf[pos + 4..pos + 4 + size]), pos + 5 + size)))
      && (r.Ok? ==> size == L - 1 && 1 <= L <= cap + 1 && r.value.next == pos + 4 + L)
  {
  }

  /**
   * `parseBinary`: int32 total length, a subtype byte, then for subtype 2 an
   * inner int32 length that must equal total - 4 (32-bit sum) followed by
   * that many bytes; any other subtype is followed by total-length bytes.
   */
  function ParseBinary(buf: seq<byte>, pos: nat): (r: Result<Read<Value>>)
    ensures r.Ok? ==> pos + 5 <= r.value.next <= |buf|
  {
    match ReadInt32(buf, pos)
    case Err(e) => Err(e)
    case Ok(Read(totalLen, p)) =>
      match ReadByte(buf, p)
      case Err(e) => Err(e)
      case Ok(Read(bType, q)) =>
        if bType == B_BINARY then
          match ReadInt32(buf, q)
          case Err(e) => Err(e)
          case Ok(Read(len, q')) =>
            if LE.Wrap32(len + 4) != totalLen then Err(BadBinarySize(len, totalLen))
            else if len < 0 then Err(NegativeArraySize(len))
            else
              match ReadBytes(buf, q', len)
              case Err(e) => Err(e)
              case Ok(Read(data, q'')) => Ok(Read(ByteArray(data), q''))
        else if totalLen < 0 then Err(NegativeArraySize(totalLen))
        else
          match ReadBytes(buf, q, totalLen)
          case Err(e) => Err(e)
          case Ok(Read(data, q')) => Ok(Read(Binary(bType, data), q'))
  }

  /**
   * Subtype 2 must carry an inner length equal to the total length minus 4
   * and yields exactly that many bytes; any other subtype keeps its tag and
   * the total-length bytes that follow.
   */
  lemma ParseBinaryLayout(buf: seq<byte>, pos: nat)
    requires pos + 5 <= |buf| < LE.TWO_31
    ensures var total := LE.Int32Of(buf[pos..pos + 4]);
      var r := ParseBinary(buf, pos);
      if buf[pos + 4] == B_BINARY then
        pos + 9 <= |buf| ==>
        var len := LE.Int32Of(buf[pos + 5..pos + 9]);
        && (LE.Wrap32(len + 4) != total ==> r == Err(BadBinarySize(len, total)))
        && (len + 4 == total && 0 <= len && pos + 9 + len <= |buf| ==>
              r == Ok(Read(ByteArray(buf[pos + 9..pos + 9 + len]), pos + 9 + len)))
        && (r.Ok? ==> len + 4 == total && 0 <= len)
      else
        && (total < 0 ==> r == Err(NegativeArraySize(total)))
        && (0 <= total && pos + 5 + total <= |buf| ==>
              r == Ok(Read(Binary(buf[pos + 4], buf[pos + 5..pos + 5 + total]), pos + 5 + total)))
        && (r.Ok? ==> 0 <= total)
  {
  }

  /** An ObjectId: three int32s, read in order. */
  function ReadOid(buf: seq<byte>, pos: nat): (r: Result<Read<Value>>)
    ensures r.Ok? <==> pos + 12 <= |buf|
    ensures r.Ok? ==> r.value.next == pos + 12
  {
    match ReadInt32(buf, pos)
    case Err(e) => Err(e)
    case Ok(Read(a, p)) =>
      match ReadInt32(buf, p)
      case Err(e) => Err(e)
      case Ok(Read(b, q)) =>
        match ReadInt32(buf, q)
        case Err(e) => Err(e)
        case Ok(Read(c, q')) => Ok(Read(Oid(a, b, c), q'))
  }

  /** Tags whose payload has a fixed width, and that width. */
  function FixedWidth(tag: byte): Option<nat>
  {
    if tag == NULL || tag == UNDEFINED || tag == MINKEY || tag == MAXKEY then Some(0)
    else if tag == BOOLEAN then Some(1)
    else if tag == NUMBER_INT then Some(4)
    else if tag == NUMBER || tag == NUMBER_LONG || tag == DATE || tag == TIMESTAMP then Some(8)
    else if tag == OID then Some(12)
    else None
  }

  /** The tags the decoder's switch handles. */
  predicate KnownTag(tag: byte)
  {
    FixedWidth(tag).Some? || tag in {STRING, SYMBOL, OBJECT, ARRAY, BINARY, REF, REGEX, CODE}
  }

  /** Where an embedded object is decoded into: an existing object already under `name`, else a new one. */
  function EmbeddedTarget(t: Target, name: seq<byte>): (r: Target)
    ensures r.Doc?
  {
    if t.Doc? then
      match Lookup(t.fields, name)
      case Some(Object(g)) => Doc(g)
      case _ => Doc([])
    else Doc([])
  }

  /**
   * A decoded embedded object with both "$ref" and "$id" becomes a DBRef;
   * building it calls `toString()` on the "$ref" value, which throws when
   * that value is null.
   */
  function Embedded(g: Document): (r: Result<Value>)
    ensures r.Err? <==> HasKey(g, REF_KEY) && HasKey(g, ID_KEY) && Lookup(g, REF_KEY) == Some(Null)
    ensures r.Err? ==> r.error == NullPointer
    ensures r.Ok? ==> (r.value.Ref? <==> HasKey(g, REF_KEY) && HasKey(g, ID_KEY))
    ensures r.Ok? && r.value.Ref? ==> Lookup(g, REF_KEY) == Some(r.value.ref) && Lookup(g, ID_KEY) == Some(r.value.id)
    ensures r.Ok? && !r.value.Ref? ==> r.value == Object(g)
  {
    if HasKey(g, REF_KEY) && HasKey(g, ID_KEY) then
      var ref := Lookup(g, REF_KEY).value;
      if ref.Null? then Err(NullPointer) else Ok(Ref(ref, Lookup(g, ID_KEY).value))
    else Ok(Object(g))
  }

  // ---- decodeNext and the element loops (mutually recursive) ----

  /** The result of one `decodeNext` call: the filled target and the bytes consumed. */
  datatype Step = Step(target: Target, consumed: nat)

  /**
   * The payload of an element whose tag is not a container, read at `p`
   * (just after the name): every case of the switch but ARRAY and OBJECT.
   */
  function ReadScalar(buf: seq<byte>, cap: nat, tag: byte, p: nat): (r: Result<Read<Value>>)
    requires p <= |buf| && tag != ARRAY && tag != OBJECT
    ensures r.Ok? ==> p <= r.value.next <= |buf|
  {
    if tag == NULL || tag == UNDEFINED then Ok(Read(Null, p))
    else if tag == BOOLEAN then
      match ReadByte(buf, p)
      case Err(e) => Err(e)
      case Ok(Read(b, q)) => Ok(Read(Bool(SignedByte(b) > 0), q))
    else if tag == NUMBER then
      match ReadBytes(buf, p, 8)
      case Err(e) => Err(e)
      case Ok(Read(raw, q)) => Ok(Read(Double(raw), q))
    else if tag == NUMBER_INT then
      match ReadInt32(buf, p)
      case Err(e) => Err(e)
      case Ok(Read(i, q)) => Ok(Read(Int32(i), q))
    else if tag == NUMBER_LONG then
      match ReadInt64(buf, p)
      case Err(e) => Err(e)
      case Ok(Read(l, q)) => Ok(Read(Int64(l), q))
    else if tag == SYMBOL || tag == STRING then ReadString(buf, p, cap)
    else if tag == OID then ReadOid(buf, p)
    else if tag == REF then
      match ReadInt32(buf, p)
      case Err(e) => Err(e)
      case Ok(Read(_, q)) =>
        match ReadCStr(buf, q, cap)
        case Err(e) => Err(e)
        case Ok(Read(ns, q')) =>
          match ReadOid(buf, q')
          case Err(e) => Err(e)
          case Ok(Read(id, q'')) => Ok(Read(Pointer(ns, id), q''))
    else if tag == DATE then
      match ReadInt64(buf, p)
      case Err(e) => Err(e)
      case Ok(Read(ms, q)) => Ok(Read(Date(ms), q))
    else if tag == REGEX then
      match ReadCStr(buf, p, cap)
      case Err(e) => Err(e)
      case Ok(Read(pattern, q)) =>
        match ReadCStr(buf, q, cap)
        case Err(e) => Err(e)
        case Ok(Read(flags, q')) => Ok(Read(Regex(pattern, flags), q'))
    else if tag == BINARY then ParseBinary(buf, p)
    else if tag == CODE then Err(UnsupportedCode)
    else if tag == TIMESTAMP then
      match ReadInt32(buf, p)
      case Err(e) => Err(e)
      case Ok(Read(i, q)) =>
        match ReadInt32(buf, q)
        case Err(e) => Err(e)
        case Ok(Read(time, q')) => Ok(Read(Timestamp(time, i), q'))
    else if tag == MINKEY then Ok(Read(Str(MIN_KEY_TEXT), p))
    else if tag == MAXKEY then Ok(Read(Str(MAX_KEY_TEXT), p))
    else Err(UnsupportedType(tag))
  }

  /** The three int32s of an ObjectId are read in order. */
  lemma ReadOidOrder(buf: seq<byte>, pos: nat)
    requires pos + 12 <= |buf|
    ensures ReadOid(buf, pos) == Ok(Read(Oid(LE.Int32Of(buf[pos..pos + 4]), LE.Int32Of(buf[pos + 4..pos + 8]),
                                             LE.Int32Of(buf[pos + 8..pos + 12])), pos + 12))
  {
  }

  /** A fixed-width payload succeeds exactly when its width is available, and consumes that width. */
  lemma ScalarWidths(buf: seq<byte>, cap: nat, tag: byte, p: nat)
    requires p <= |buf| && FixedWidth(tag).Some?
    ensures var r := ReadScalar(buf, cap, tag, p);
      (r.Ok? <==> p + FixedWidth(tag).value <= |buf|) &&
      (r.Ok? ==> r.value.next == p + FixedWidth(tag).value)
  {
  }

  /** What each fixed-width payload decodes to, in the order its parts are read. */
  lemma ScalarValues(buf: seq<byte>, cap: nat, tag: byte, p: nat)
    requires p <= |buf| && FixedWidth(tag).Some? && p + FixedWidth(tag).value <= |buf|
    ensures var v := ReadScalar(buf, cap, tag, p).value.value;
      && (tag == NULL || tag == UNDEFINED ==> v == Null)
      && (tag == BOOLEAN ==> v == Bool(1 <= buf[p] < 0x80))
      && (tag == NUMBER ==> v == Double(buf[p..p + 8]))
      && (tag == NUMBER_INT ==> v == Int32(LE.Int32Of(buf[p..p + 4])))
      && (tag == NUMBER_LONG ==> v == Int64(LE.Int64Of(buf[p..p + 8])))
      && (tag == DATE ==> v == Date(LE.Int64Of(buf[p..p + 8])))
      && (tag == TIMESTAMP ==> v == Timestamp(LE.Int32Of(buf[p + 4..p + 8]), LE.Int32Of(buf[p..p + 4])))
      && (tag == OID ==> v == Oid(LE.Int32Of(buf[p..p + 4]), LE.Int32Of(buf[p + 4..p + 8]), LE.Int32Of(buf[p + 8..p + 12])))
      && (tag == MINKEY ==> v == Str(MIN_KEY_TEXT))
      && (tag == MAXKEY ==> v == Str(MAX_KEY_TEXT))
  {
    if tag == OID {
      ReadOidOrder(buf, p);
    }
  }

  /** CODE is refused, and so is every tag the switch does not list (CODE_W_SCOPE among them). */
  lemma TagErrors(buf: seq<byte>, cap: nat, tag: byte, p: nat)
    requires p <= |buf| && tag != ARRAY && tag != OBJECT
    ensures tag == CODE ==> ReadScalar(buf, cap, tag, p) == Err(UnsupportedCode)
    ensures !KnownTag(tag) ==> ReadScalar(buf, cap, tag, p) == Err(UnsupportedType(tag))
    ensures !KnownTag(CODE_W_SCOPE)
  {
  }

  /**
   * The payload of an element with the given tag, read at `p` (just after
   * the name): ARRAY and OBJECT skip an int32 size and decode the elements
   * that follow; every other tag is a scalar.
   */
  function DecodeValue(buf: seq<byte>, cap: nat, tag: byte, name: seq<byte>, p: nat, t: Target): (r: Result<Read<Value>>)
    requires p <= |buf|
    decreases |buf| - p, 3
    ensures r.Ok? ==> p <= r.value.next <= |buf|
    ensures tag == ARRAY && r.Ok? ==> r.value.value.List?
    ensures tag == OBJECT && r.Ok? ==> r.value.value.Object? || r.value.value.Ref?
  {
    if tag == ARRAY then
      match ReadInt32(buf, p)     // total size, not checked
      case Err(e) => Err(e)
      case Ok(Read(_, q)) =>
        match DecodeFields(buf, cap, q, Arr([]))
        case Err(e) => Err(e)
        case Ok(Read(u, q')) => Ok(Read(List(u.items), q'))
    else if tag == OBJECT then
      match ReadInt32(buf, p)     // total size, not checked
      case Err(e) => Err(e)
      case Ok(Read(_, q)) =>
        match DecodeFields(buf, cap, q, EmbeddedTarget(t, name))
        case Err(e) => Err(e)
        case Ok(Read(u, q')) =>
          match Embedded(u.fields)
          case Err(e) => Err(e)
          case Ok(v) => Ok(Read(v, q'))
    else ReadScalar(buf, cap, tag, p)
  }

  /**
   * `decodeNext`: a tag byte; EOO ends the object after one byte, any other
   * tag is followed by a name and a payload, stored under that name.
   */
  function DecodeNext(buf: seq<byte>, cap: nat, pos: nat, t: Target): (r: Result<Step>)
    requires pos <= |buf|
    decreases |buf| - pos, 0
    ensures r.Ok? ==> 1 <= r.value.consumed && pos + r.value.consumed <= |buf|
    ensures r.Ok? ==> (r.value.consumed == 1 <==> buf[pos] == EOO)
    ensures r.Ok? ==> r.value.target.Doc? == t.Doc?
    ensures pos < |buf| && buf[pos] == EOO ==> r == Ok(Step(t, 1))
  {
    match ReadByte(buf, pos)
    case Err(e) => Err(e)
    case Ok(Read(tag, p)) =>
      if tag == EOO then Ok(Step(t, 1))
      else
        match ReadCStr(buf, p, cap)
        case Err(e) => Err(e)
        case Ok(Read(name, q)) =>
          match DecodeValue(buf, cap, tag, name, q, t)
          case Err(e) => Err(e)
          case Ok(Read(v, q')) => Ok(Step(Store(t, name, v), q' - pos))
  }

  /** A step that `DecodeNext` at `p` may have produced. */
  predicate StepFits(buf: seq<byte>, p: nat, r: Result<Step>)
  {
    r.Ok? ==> 1 <= r.value.consumed && p + r.value.consumed <= |buf| &&
              (r.value.consumed == 1 ==> buf[p] == EOO)
  }

  /** The loop `while (decodeNext(o) > 1) {}`, continued from the step just taken at `p`. */
  function ContinueFields(buf: seq<byte>, cap: nat, p: nat, r: Result<Step>): (res: Result<Read<Target>>)
    requires p <= |buf| && StepFits(buf, p, r)
    decreases |buf| - p, 1
    ensures res.Ok? ==> p < res.value.next <= |buf| && buf[res.value.next - 1] == EOO
    ensures res.Ok? ==> r.Ok? && res.value.value.Doc? == r.value.target.Doc?
  {
    match r
    case Err(e) => Err(e)
    case Ok(Step(u, c)) =>
      if c > 1 then DecodeFields(buf, cap, p + c, u) else Ok(Read(u, p + c))
  }

  /** The loop `while (decodeNext(o) > 1) {}` started at `p`. */
  function DecodeFields(buf: seq<byte>, cap: nat, p: nat, t: Target): (res: Result<Read<Target>>)
    requires p <= |buf|
    decreases |buf| - p, 2
    ensures res.Ok? ==> p < res.value.next <= |buf| && buf[res.value.next - 1] == EOO
    ensures res.Ok? ==> res.value.value.Doc? == t.Doc?
  {
    ContinueFields(buf, cap, p, DecodeNext(buf, cap, p, t))
  }

  /**
   * `readObject`: nothing at or past the limit gives null; otherwise an
   * int32 length, the elements up to EOO, and the consumed span must equal
   * the declared length.
   */
  function ReadObject(buf: seq<byte>, cap: nat, pos: nat): (r: Result<Read<Option<Document>>>)
    ensures pos >= |buf| ==> r == Ok(Read(None, pos))
    ensures pos < |buf| && r.Ok? ==> r.value.value.Some? && pos + 5 <= r.value.next <= |buf|
  {
    if pos >= |buf| then Ok(Read(None, pos))
    else
      match ReadInt32(buf, pos)
      case Err(e) => Err(e)
      case Ok(Read(len, p)) =>
        match DecodeFields(buf, cap, p, Doc([]))
        case Err(e) => Err(e)
        case Ok(Read(u, q)) =>
          if q - pos != len then Err(LengthMismatch(q - pos, len))
          else Ok(Read(Some(u.fields), q))
  }

  /**
   * A document read below the limit spans exactly its declared length and
   * ends with EOO; when the elements decode but span a different number of
   * bytes, the read fails with both numbers.
   */
  lemma ReadObjectLength(buf: seq<byte>, cap: nat, pos: nat)
    requires pos + 4 <= |buf|
    ensures var len := LE.Int32Of(buf[pos..pos + 4]);
      var r := ReadObject(buf, cap, pos);
      var fields := DecodeFields(buf, cap, pos + 4, Doc([]));
      && (r.Ok? ==> r.value.next - pos == len && buf[r.value.next - 1] == EOO)
      && (fields.Ok? && fields.value.next - pos != len ==> r == Err(LengthMismatch(fields.value.next - pos, len)))
      && (fields.Ok? && fields.value.next - pos == len ==>
            r == Ok(Read(Some(fields.value.value.fields), fields.value.next)))
  {
  }

  /**
   * `decodeNext` on anything but EOO reads a name and a payload, consumes at
   * least two bytes, and leaves the payload under that name: replacing the
   * value of an existing key in place or appending a new one, and appending
   * to a list.
   */
  lemma DecodeNextStores(buf: seq<byte>, cap: nat, pos: nat, t: Target)
    requires pos < |buf| && buf[pos] != EOO && DecodeNext(buf, cap, pos, t).Ok?
    ensures ReadCStr(buf, pos + 1, cap).Ok?
    ensures var Read(name, q) := ReadCStr(buf, pos + 1, cap).value;
      var d := DecodeValue(buf, cap, buf[pos], name, q, t);
      var Step(u, c) := DecodeNext(buf, cap, pos, t).value;
      && d.Ok? && c == d.value.next - pos && c >= 2
      && (t.Doc? ==> Lookup(u.fields, name) == Some(d.value.value) &&
                     Keys(u.fields) == if name in Keys(t.fields) then Keys(t.fields) else Keys(t.fields) + [name])
      && (t.Arr? ==> u.items == t.items + [d.value.value])
  {
    var Read(name, q) := ReadCStr(buf, pos + 1, cap).value;
    if t.Doc? {
      var v := DecodeValue(buf, cap, buf[pos], name, q, t).value.value;
      PutSemantics(t.fields, name, v, name);
    }
  }

  /**
   * The int32 size in front of an embedded array or object is skipped
   * without being compared with anything: the payload is the elements that
   * follow it, decoded into a new list, or into the object already stored
   * under the same name, which becomes a DBRef when it has "$ref" and "$id"
   * (or throws, when that "$ref" is null).
   */
  lemma ContainerSizeUnchecked(buf: seq<byte>, cap: nat, tag: byte, name: seq<byte>, p: nat, t: Target)
    requires p + 4 <= |buf| && (tag == ARRAY || tag == OBJECT)
    ensures var r := DecodeValue(buf, cap, tag, name, p, t);
      var fields := DecodeFields(buf, cap, p + 4, if tag == ARRAY then Arr([]) else EmbeddedTarget(t, name));
      && (tag == ARRAY ==> (r.Ok? <==> fields.Ok?))
      && (tag == OBJECT ==> (r.Ok? <==> fields.Ok? && Embedded(fields.value.value.fields).Ok?))
      && (r.Ok? ==> r.value.next == fields.value.next)
      && (r.Ok? && tag == ARRAY ==> r.value.value == List(fields.value.value.items))
      && (r.Ok? && tag == OBJECT ==> Ok(r.value.value) == Embedded(fields.value.value.fields))
      && (r.Err? && fields.Ok? ==> tag == OBJECT && r.error == NullPointer)
  {
  }
}
