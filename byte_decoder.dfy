/**
 * `ByteDecoder`: a read position over a little-endian byte buffer and a
 * name buffer of fixed size.  Every read advances the shared position; the
 * methods below are proved to compute what `DecodeSpec` says.
 */
module ByteDecoder {
  import opened Bson
  import LE = LittleEndian
  import S = DecodeSpec

  /** Position after a read: where the read ended, or unchanged when it failed. */
  function After<T>(r: Result<Read<T>>, pos: nat): nat
  {
    if r.Ok? then r.value.next else pos
  }

  class Decoder {
    /** The buffer's contents from index 0 up to its limit. */
    const buf: seq<byte>
    /** `_namebuf`, whose length is the library's MAX_STRING. */
    const namebuf: array<byte>
    /** The buffer's position. */
    var pos: nat

    ghost predicate Valid()
      reads this
    {
      pos <= |buf|
    }

    /**
     * A pooled decoder as `ByteDecoder.get` hands it out: `reset()` puts the
     * position at 0 and the limit at the end of the reply bytes.
     */
    constructor (contents: seq<byte>, nameCapacity: nat)
      ensures Valid() && fresh(namebuf)
      ensures buf == contents && pos == 0 && namebuf.Length == nameCapacity
    {
      buf := contents;
      namebuf := new byte[nameCapacity];
      pos := 0;
    }

    /** `more()`: whether any byte is left before the limit. */
    predicate More()
      reads this
      requires Valid()
      ensures More() <==> Remaining() > 0
    {
      pos < |buf|
    }

    /** `remaining()`: the number of bytes left before the limit. */
    function Remaining(): (n: nat)
      reads this
      requires Valid()
      ensures pos + n == |buf|
    {
      |buf| - pos
    }

    method GetByte() returns (r: Result<byte>)
      requires Valid()
      modifies this`pos
      ensures Valid()
      ensures r == Drop(S.ReadByte(buf, old(pos))) && pos == After(S.ReadByte(buf, old(pos)), old(pos))
    {
      if pos >= |buf| {
        return Err(BufferUnderflow);
      }
      r := Ok(buf[pos]);
      pos := pos + 1;
    }

    method GetBytes(n: nat) returns (r: Result<seq<byte>>)
      requires Valid()
      modifies this`pos
      ensures Valid()
      ensures r == Drop(S.ReadBytes(buf, old(pos), n)) && pos == After(S.ReadBytes(buf, old(pos), n), old(pos))
    {
      if pos + n > |buf| {
        return Err(BufferUnderflow);
      }
      r := Ok(buf[pos..pos + n]);
      pos := pos + n;
    }

    /** `getInt()`. */
    method GetInt() returns (r: Result<int>)
      requires Valid()
      modifies this`pos
      ensures Valid()
      ensures r == Drop(S.ReadInt32(buf, old(pos))) && pos == After(S.ReadInt32(buf, old(pos)), old(pos))
    {
      if pos + 4 > |buf| {
        return Err(BufferUnderflow);
      }
      r := Ok(LE.Int32Of(buf[pos..pos + 4]));
      pos := pos + 4;
    }

    /** `getLong()`. */
    method GetLong() returns (r: Result<int>)
      requires Valid()
      modifies this`pos
      ensures Valid()
      ensures r == Drop(S.ReadInt64(buf, old(pos))) && pos == After(S.ReadInt64(buf, old(pos)), old(pos))
    {
      if pos + 8 > |buf| {
        return Err(BufferUnderflow);
      }
      r := Ok(LE.Int64Of(buf[pos..pos + 8]));
      pos := pos + 8;
    }

    /** `readCStr()`: copies bytes into the name buffer until a 0x00. */
    method ReadCStr() returns (r: Result<seq<byte>>)
      requires Valid()
      modifies this`pos, namebuf
      ensures Valid() && old(pos) <= pos
      ensures r == Drop(S.ReadCStr(buf, old(pos), namebuf.Length))
      ensures r.Ok? ==> pos == S.ReadCStr(buf, old(pos), namebuf.Length).value.next
    {
      var n := 0;
      PrependNothing(S.ReadCStr(buf, pos, namebuf.Length));
      while true
        invariant old(pos) <= pos <= |buf| && pos == old(pos) + n && n <= namebuf.Length
        invariant S.ReadCStr(buf, old(pos), namebuf.Length) ==
                  Prepend(namebuf[..n], S.ReadCStr(buf, pos, namebuf.Length - n))
        decreases |buf| - pos
      {
        var b := GetByte();
        if b.Err? {
          return Err(b.error);
        }
        if b.value == 0 {
          CStrEnd(buf, pos - 1, namebuf.Length - n, namebuf[..n]);
          break;
        }
        if n >= namebuf.Length {
          return Err(IndexOutOfBounds);
        }
        CStrStep(buf, pos - 1, namebuf.Length - n, namebuf[..n]);
        namebuf[n] := b.value;
        n := n + 1;
        assert namebuf[..n] == namebuf[..n - 1] + [b.value];
      }
      return Ok(namebuf[..n]);
    }

    /** `parseBinary()`. */
    method ParseBinary() returns (r: Result<Value>)
      requires Valid()
      modifies this`pos
      ensures Valid() && old(pos) <= pos
      ensures r == Drop(S.ParseBinary(buf, old(pos)))
      ensures r.Ok? ==> pos == S.ParseBinary(buf, old(pos)).value.next
    {
      var totalLen := GetInt();
      if totalLen.Err? {
        return Err(totalLen.error);
      }
      var bType := GetByte();
      if bType.Err? {
        return Err(bType.error);
      }
      if bType.value == B_BINARY {
        var len := GetInt();
        if len.Err? {
          return Err(len.error);
        }
        if LE.Wrap32(len.value + 4) != totalLen.value {
          return Err(BadBinarySize(len.value, totalLen.value));
        }
        if len.value < 0 {
          return Err(NegativeArraySize(len.value));
        }
        var data := GetBytes(len.value);
        if data.Err? {
          return Err(data.error);
        }
        return Ok(ByteArray(data.value));
      }
      if totalLen.value < 0 {
        return Err(NegativeArraySize(totalLen.value));
      }
      var data := GetBytes(totalLen.value);
      if data.Err? {
        return Err(data.error);
      }
      return Ok(Binary(bType.value, data.value));
    }

    /**
     * `decodeNext(o)`: reads one element and stores its value in `t` under
     * its name; returns the filled target and the number of bytes consumed,
     * which is 1 exactly for the EOO terminator.
     */
    method DecodeNext(t: Target) returns (r: Result<S.Step>)
      requires Valid()
      modifies this`pos, namebuf
      ensures Valid() && old(pos) <= pos
      ensures r == S.DecodeNext(buf, namebuf.Length, old(pos), t)
      ensures r.Ok? ==> pos == old(pos) + r.value.consumed
      decreases |buf| - pos, 0
    {
      var start := pos;
      var tag := GetByte();
      if tag.Err? {
        return Err(tag.error);
      }
      if tag.value == EOO {
        return Ok(S.Step(t, 1));
      }
      var name := ReadCStr();
      if name.Err? {
        return Err(name.error);
      }
      ghost var q := pos;
      var created := DecodePayload(tag.value, name.value, t);
      if created.Err? {
        return Err(created.error);
      }
      return Ok(S.Step(Store(t, name.value, created.value), pos - start));
    }

    /**
     * The `switch (type)` of `decodeNext`: reads the payload of an element;
     * the ARRAY and OBJECT cases decode the elements that follow.
     */
    method DecodePayload(tag: byte, name: seq<byte>, t: Target) returns (r: Result<Value>)
      requires Valid()
      modifies this`pos, namebuf
      ensures Valid() && old(pos) <= pos
      ensures r == Drop(S.DecodeValue(buf, namebuf.Length, tag, name, old(pos), t))
      ensures r.Ok? ==> pos == S.DecodeValue(buf, namebuf.Length, tag, name, old(pos), t).value.next
      decreases |buf| - pos, 3
    {
      if tag == ARRAY {
        var size := GetInt();   // total size, not checked
        if size.Err? {
          return Err(size.error);
        }
        var list := DecodeFields(Arr([]));
        if list.Err? {
          return Err(list.error);
        }
        return Ok(List(list.value.items));
      } else if tag == OBJECT {
        var size := GetInt();   // total size, not checked
        if size.Err? {
          return Err(size.error);
        }
        var created := Doc([]);
        if t.Doc? {
          var foo := Lookup(t.fields, name);
          if foo.Some? && foo.value.Object? {
            created := Doc(foo.value.fields);
          }
        }
        assert created == S.EmbeddedTarget(t, name);
        var filled := DecodeFields(created);
        if filled.Err? {
          return Err(filled.error);
        }
        var theObject := filled.value.fields;
        if HasKey(theObject, REF_KEY) && HasKey(theObject, ID_KEY) {
          var ref := Lookup(theObject, REF_KEY).value;
          if ref.Null? {
            return Err(NullPointer);   // toString() on a null "$ref"
          }
          return Ok(Ref(ref, Lookup(theObject, ID_KEY).value));
        }
        return Ok(Object(theObject));
      } else {
        r := ReadScalar(tag);
      }
    }

    /** The cases of the `switch (type)` of `decodeNext` other than ARRAY and OBJECT. */
    method ReadScalar(tag: byte) returns (r: Result<Value>)
      requires Valid() && tag != ARRAY && tag != OBJECT
      modifies this`pos, namebuf
      ensures Valid() && old(pos) <= pos
      ensures r == Drop(S.ReadScalar(buf, namebuf.Length, tag, old(pos)))
      ensures r.Ok? ==> pos == S.ReadScalar(buf, namebuf.Length, tag, old(pos)).value.next
    {
      if tag == NULL || tag == UNDEFINED {
        return Ok(Null);
      } else if tag == BOOLEAN {
        var b := GetByte();
        if b.Err? {
          return Err(b.error);
        }
        return Ok(Bool(S.SignedByte(b.value) > 0));
      } else if tag == NUMBER {
        var raw := GetBytes(8);
        if raw.Err? {
          return Err(raw.error);
        }
        return Ok(Double(raw.value));
      } else if tag == NUMBER_INT {
        var i := GetInt();
        if i.Err? {
          return Err(i.error);
        }
        return Ok(Int32(i.value));
      } else if tag == NUMBER_LONG {
        var l := GetLong();
        if l.Err? {
          return Err(l.error);
        }
        return Ok(Int64(l.value));
      } else if tag == SYMBOL || tag == STRING {
        r := ReadString();
      } else if tag == OID {
        r := ReadOid();
      } else if tag == REF {
        var skipped := GetInt();   // length of the cstring that follows
        if skipped.Err? {
          return Err(skipped.error);
        }
        var ns := ReadCStr();
        if ns.Err? {
          return Err(ns.error);
        }
        var id := ReadOid();
        if id.Err? {
          return Err(id.error);
        }
        return Ok(Pointer(ns.value, id.value));
      } else if tag == DATE {
        var ms := GetLong();
        if ms.Err? {
          return Err(ms.error);
        }
        return Ok(Date(ms.value));
      } else if tag == REGEX {
        var pattern := ReadCStr();
        if pattern.Err? {
          return Err(pattern.error);
        }
        var flags := ReadCStr();
        if flags.Err? {
          return Err(flags.error);
        }
        return Ok(Regex(pattern.value, flags.value));
      } else if tag == BINARY {
        r := ParseBinary();
      } else if tag == CODE {
        return Err(UnsupportedCode);
      } else if tag == TIMESTAMP {
        var i := GetInt();
        if i.Err? {
          return Err(i.error);
        }
        var time := GetInt();
        if time.Err? {
          return Err(time.error);
        }
        return Ok(Timestamp(time.value, i.value));
      } else if tag == MINKEY {
        return Ok(Str(MIN_KEY_TEXT));
      } else if tag == MAXKEY {
        return Ok(Str(MAX_KEY_TEXT));
      } else {
        return Err(UnsupportedType(tag));
      }
    }

    /** STRING and SYMBOL payloads. */
    method ReadString() returns (r: Result<Value>)
      requires Valid()
      modifies this`pos
      ensures Valid() && old(pos) <= pos
      ensures r == Drop(S.ReadString(buf, old(pos), namebuf.Length))
      ensures r.Ok? ==> pos == S.ReadString(buf, old(pos), namebuf.Length).value.next
    {
      var length := GetInt();
      if length.Err? {
        return Err(length.error);
      }
      var size := LE.Wrap32(length.value - 1);
      if size > Remaining() {
        return Err(InvalidBson(size, Remaining()));
      }
      if size < 0 || size > namebuf.Length {
        return Err(IndexOutOfBounds);
      }
      var s := GetBytes(size);   // cannot underflow: size <= Remaining()
      var skipped := GetByte();   // the terminator
      if skipped.Err? {
        return Err(skipped.error);
      }
      return Ok(Str(s.value));
    }

    /** `new ObjectId(getInt(), getInt(), getInt())`. */
    method ReadOid() returns (r: Result<Value>)
      requires Valid()
      modifies this`pos
      ensures Valid() && old(pos) <= pos
      ensures r == Drop(S.ReadOid(buf, old(pos)))
      ensures r.Ok? ==> pos == old(pos) + 12
    {
      var a := GetInt();
      if a.Err? {
        return Err(a.error);
      }
      var b := GetInt();
      if b.Err? {
        return Err(b.error);
      }
      var c := GetInt();
      if c.Err? {
        return Err(c.error);
      }
      return Ok(Oid(a.value, b.value, c.value));
    }

    /** The loop `while (decodeNext(o) > 1) {}`: elements up to and including EOO. */
    method DecodeFields(t: Target) returns (r: Result<Target>)
      requires Valid()
      modifies this`pos, namebuf
      ensures Valid() && old(pos) <= pos
      ensures r == Drop(S.DecodeFields(buf, namebuf.Length, old(pos), t))
      ensures r.Ok? ==> pos == S.DecodeFields(buf, namebuf.Length, old(pos), t).value.next
      decreases |buf| - pos, 2
    {
      ghost var last := pos;
      var step := DecodeNext(t);
      while step.Ok? && step.value.consumed > 1
        invariant Valid() && old(pos) <= last <= pos
        invariant S.StepFits(buf, last, step)
        invariant step.Ok? ==> pos == last + step.value.consumed
        invariant S.DecodeFields(buf, namebuf.Length, old(pos), t) == S.ContinueFields(buf, namebuf.Length, last, step)
        decreases |buf| - pos + (if step.Ok? then 1 else 0)
      {
        last := pos;
        step := DecodeNext(step.value.target);
      }
      if step.Err? {
        return Err(step.error);
      }
      return Ok(step.value.target);
    }

    /**
     * `readObject()`: null at the limit; otherwise the declared length, the
     * elements, and a check that exactly that many bytes were consumed.
     */
    method ReadObject() returns (r: Result<Option<Document>>)
      requires Valid()
      modifies this`pos, namebuf
      ensures Valid() && old(pos) <= pos
      ensures r == Drop(S.ReadObject(buf, namebuf.Length, old(pos)))
      ensures r.Ok? ==> pos == S.ReadObject(buf, namebuf.Length, old(pos)).value.next
    {
      if pos >= |buf| {
        return Ok(None);
      }
      var start := pos;
      var len := GetInt();
      if len.Err? {
        return Err(len.error);
      }
      var created := DecodeFields(Doc([]));
      if created.Err? {
        return Err(created.error);
      }
      if pos - start != len.value {
        return Err(LengthMismatch(pos - start, len.value));
      }
      return Ok(Some(created.value.fields));
    }
  }

  lemma CStrStep(buf: seq<byte>, p: nat, c: nat, prefix: seq<byte>)
    requires p < |buf| && buf[p] != 0 && c > 0
    ensures Prepend(prefix, S.ReadCStr(buf, p, c)) == Prepend(prefix + [buf[p]], S.ReadCStr(buf, p + 1, c - 1))
  {
    PrependTwice(prefix, buf[p], S.ReadCStr(buf, p + 1, c - 1));
  }

  lemma CStrEnd(buf: seq<byte>, p: nat, c: nat, prefix: seq<byte>)
    requires p < |buf| && buf[p] == 0
    ensures Prepend(prefix, S.ReadCStr(buf, p, c)) == Ok(Read(prefix, p + 1))
  {
    assert prefix + [] == prefix;
  }

  lemma PrependNothing(r: Result<Read<seq<byte>>>)
    ensures Prepend([], r) == r
  {
    if r.Ok? {
      assert [] + r.value.value == r.value.value;
    }
  }

  lemma PrependTwice(a: seq<byte>, b: byte, r: Result<Read<seq<byte>>>)
    ensures Prepend(a, Prepend([b], r)) == Prepend(a + [b], r)
  {
    if r.Ok? {
      assert a + ([b] + r.value.value) == (a + [b]) + r.value.value;
    }
  }

  /** Puts `prefix` in front of the string a successful `ReadCStr` returns. */
  function Prepend(prefix: seq<byte>, r: Result<Read<seq<byte>>>): Result<Read<seq<byte>>>
  {
    match r
    case Ok(Read(s, n)) => Ok(Read(prefix + s, n))
    case Err(e) => Err(e)
  }
}
