/**
 * Type-length-value streams as the wallet's tlv library reads and writes them: types
 * strictly ascend, a value of a known type is read by that type's own decoder, a value of
 * an unknown type is read as raw bytes.
 */
module Tlv {
  import opened Wrappers
  import opened Bytes
  import opened BigSize
  import opened Keys
  import opened ReplyPath

  type uint64 = x: nat | x <= MAX_UINT64

  /** Something that goes by a record type. */
  datatype Typed<+T> = Record(typ: uint64, value: T)

  type Record = Typed<seq<byte>>

  // ---------- lists of records ----------

  predicate Ascending<T>(rs: seq<Typed<T>>) {
    forall i, j :: 0 <= i < j < |rs| ==> rs[i].typ < rs[j].typ
  }

  predicate Distinct<T>(rs: seq<Typed<T>>) {
    forall i, j :: 0 <= i < j < |rs| ==> rs[i].typ != rs[j].typ
  }

  predicate From<T(==)>(rs: seq<Typed<T>>, min: nat) {
    forall r :: r in rs ==> min <= r.typ
  }

  /** Lengths fit the eight bytes that can carry them, as every slice length does. */
  predicate Sized(rs: seq<Record>) {
    forall r :: r in rs ==> |r.value| <= MAX_UINT64
  }

  ghost predicate SameRecords<T(!new)>(a: seq<Typed<T>>, b: seq<Typed<T>>) {
    forall r :: r in a <==> r in b
  }

  function Insert<T>(r: Typed<T>, rs: seq<Typed<T>>): seq<Typed<T>> {
    if rs == [] || r.typ <= rs[0].typ then [r] + rs else [rs[0]] + Insert(r, rs[1..])
  }

  /** The records in order of type; records of one type keep their order. */
  function SortRecords<T>(rs: seq<Typed<T>>): seq<Typed<T>> {
    if rs == [] then [] else Insert(rs[0], SortRecords(rs[1..]))
  }

  lemma ConsAscends<T(!new)>(r: Typed<T>, rs: seq<Typed<T>>)
    requires Ascending(rs) && From(rs, r.typ + 1)
    ensures Ascending([r] + rs)
  {
    forall i, j | 0 <= i < j < |[r] + rs| ensures ([r] + rs)[i].typ < ([r] + rs)[j].typ {
      assert ([r] + rs)[j] == rs[j - 1] && rs[j - 1] in rs;
    }
  }

  lemma TailAscends<T(!new)>(rs: seq<Typed<T>>)
    requires rs != [] && Ascending(rs)
    ensures Ascending(rs[1..]) && From(rs[1..], rs[0].typ + 1)
    ensures forall r :: r in rs[1..] ==> r in rs
  {
  }

  lemma {:induction false} InsertElements<T(!new)>(r: Typed<T>, rs: seq<Typed<T>>)
    ensures forall q :: q in Insert(r, rs) <==> q == r || q in rs
  {
    if rs == [] || r.typ <= rs[0].typ {
    } else {
      InsertElements(r, rs[1..]);
      assert rs == [rs[0]] + rs[1..];
    }
  }

  lemma {:induction false} InsertAscends<T(!new)>(r: Typed<T>, rs: seq<Typed<T>>)
    requires Ascending(rs) && forall q :: q in rs ==> q.typ != r.typ
    ensures Ascending(Insert(r, rs))
  {
    if rs == [] {
    } else if r.typ <= rs[0].typ {
      assert rs[0] in rs;
      ConsAscends(r, rs);
    } else {
      InsertAscends(r, rs[1..]);
      InsertElements(r, rs[1..]);
      ConsAscends(rs[0], Insert(r, rs[1..]));
    }
  }

  lemma {:induction false} SortKeeps<T(!new)>(rs: seq<Typed<T>>)
    ensures SameRecords(SortRecords(rs), rs)
    ensures Distinct(rs) ==> Ascending(SortRecords(rs))
  {
    if rs == [] {
    } else {
      SortKeeps(rs[1..]);
      InsertElements(rs[0], SortRecords(rs[1..]));
      assert rs == [rs[0]] + rs[1..];
      if Distinct(rs) {
        assert forall q :: q in rs[1..] ==> q.typ != rs[0].typ;
        InsertAscends(rs[0], SortRecords(rs[1..]));
      }
    }
  }

  lemma ConcatAscends<T(!new)>(a: seq<Typed<T>>, b: seq<Typed<T>>)
    requires Ascending(a) && Ascending(b) && forall p, q :: p in a && q in b ==> p.typ < q.typ
    ensures Ascending(a + b)
  {
    forall i, j | 0 <= i < j < |a + b| ensures (a + b)[i].typ < (a + b)[j].typ {
      if i < |a| && j >= |a| {
        assert (a + b)[i] in a && (a + b)[j] in b;
      }
    }
  }

  /** A concatenation repeats no type exactly when neither part does and no type is in both. */
  lemma DistinctConcat<T(!new)>(a: seq<Typed<T>>, b: seq<Typed<T>>)
    ensures Distinct(a + b) <==>
            Distinct(a) && Distinct(b) && forall i, j :: 0 <= i < |a| && 0 <= j < |b| ==> a[i].typ != b[j].typ
  {
    var ab := a + b;
    if Distinct(ab) {
      forall i, j | 0 <= i < j < |b| ensures b[i].typ != b[j].typ {
        assert b[i] == ab[|a| + i] && b[j] == ab[|a| + j];
      }
      forall i, j | 0 <= i < j < |a| ensures a[i].typ != a[j].typ {
        assert a[i] == ab[i] && a[j] == ab[j];
      }
      forall i, j | 0 <= i < |a| && 0 <= j < |b| ensures a[i].typ != b[j].typ {
        assert a[i] == ab[i] && b[j] == ab[|a| + j];
      }
    }
  }

  /** If sorting makes a list strictly ascend, no type was repeated. */
  lemma {:induction false} AscendingSortDistinct<T(!new)>(rs: seq<Typed<T>>)
    requires Ascending(SortRecords(rs))
    ensures Distinct(rs)
  {
    if rs != [] {
      var tail := SortRecords(rs[1..]);
      AscendingInsert(rs[0], tail);
      AscendingSortDistinct(rs[1..]);
      SortKeeps(rs[1..]);
      assert rs == [rs[0]] + rs[1..];
      forall i, j | 0 <= i < j < |rs| ensures rs[i].typ != rs[j].typ {
        assert rs[j] == rs[1..][j - 1] && rs[j] in tail;
        if i > 0 {
          assert rs[i] == rs[1..][i - 1];
        }
      }
    }
  }

  lemma {:induction false} AscendingInsert<T(!new)>(r: Typed<T>, rs: seq<Typed<T>>)
    requires Ascending(Insert(r, rs))
    ensures Ascending(rs) && forall q :: q in rs ==> q.typ != r.typ
  {
    var all := Insert(r, rs);
    TailAscends(all);
    if rs == [] {
    } else if r.typ <= rs[0].typ {
      assert all[1..] == rs;
    } else {
      assert all[1..] == Insert(r, rs[1..]);
      AscendingInsert(r, rs[1..]);
      InsertElements(r, rs[1..]);
      ConsAscends(rs[0], rs[1..]);
      assert rs == [rs[0]] + rs[1..];
    }
  }

  /** A strictly ascending list is determined by its records. */
  lemma {:induction false} AscendingUnique<T(!new)>(a: seq<Typed<T>>, b: seq<Typed<T>>)
    requires Ascending(a) && Ascending(b) && SameRecords(a, b)
    ensures a == b
  {
    assert a != [] ==> a[0] in b;
    assert b != [] ==> b[0] in a;
    if a != [] && b != [] {
      assert a[0] == b[0];
      forall r ensures r in a[1..] <==> r in b[1..] {
        assert r in a[1..] <==> r in a && r != a[0];
        assert r in b[1..] <==> r in b && r != b[0];
      }
      AscendingUnique(a[1..], b[1..]);
    }
  }

  /** In a strictly ascending list a type has one value. */
  lemma OneValue<T(!new)>(rs: seq<Typed<T>>, p: Typed<T>, q: Typed<T>)
    requires Distinct(rs) && p in rs && q in rs && p.typ == q.typ
    ensures p == q
  {
    var i :| 0 <= i < |rs| && rs[i] == p;
    var j :| 0 <= j < |rs| && rs[j] == q;
  }

  /** The value a list gives a type, if it has the type. */
  function Lookup(rs: seq<Record>, typ: nat): Option<seq<byte>> {
    if rs == [] then None
    else if rs[0].typ == typ then Some(rs[0].value)
    else Lookup(rs[1..], typ)
  }

  lemma {:induction false} LookupIn(rs: seq<Record>, typ: uint64)
    ensures Lookup(rs, typ).Some? ==> Record(typ, Lookup(rs, typ).value) in rs
    ensures Lookup(rs, typ).None? ==> forall r :: r in rs ==> r.typ != typ
  {
    if rs != [] {
      LookupIn(rs[1..], typ);
      assert rs == [rs[0]] + rs[1..];
    }
  }

  lemma LookupOf(rs: seq<Record>, r: Record)
    requires Distinct(rs) && r in rs
    ensures Lookup(rs, r.typ) == Some(r.value)
  {
    LookupIn(rs, r.typ);
    OneValue(rs, r, Record(r.typ, Lookup(rs, r.typ).value));
  }

  // ---------- writing ----------

  function RecordBytes(r: Record): seq<byte>
    requires |r.value| <= MAX_UINT64
  {
    WriteVarInt(r.typ) + WriteVarInt(|r.value|) + r.value
  }

  function StreamBytes(rs: seq<Record>): seq<byte>
    requires Sized(rs)
  {
    if rs == [] then [] else RecordBytes(rs[0]) + StreamBytes(rs[1..])
  }

  /** A stream over the records, written out; it must be given in strictly ascending order. */
  function EncodeStream(rs: seq<Record>): Result<seq<byte>, TlvError>
    requires Sized(rs)
  {
    if Ascending(rs) then Ok(StreamBytes(rs)) else Err(StreamNotCanonical)
  }

  // ---------- reading ----------

  datatype Kind =
    | Exact(size: nat)   // a fixed number of bytes
    | Trunc64            // an integer without leading zero bytes, one to eight bytes long
    | Blob               // any bytes
    | Point              // a compressed public key
    | Route              // a reply path

  /** The bytes a known type's decoder consumes, and the rest. */
  function ReadValue(curve: Curve, kind: Kind, bs: seq<byte>, length: nat): Result<(seq<byte>, seq<byte>), TlvError> {
    match kind
    case Exact(size) => if length != size then Err(BadLength) else Take(bs, size)
    case Trunc64 =>
      if !(1 <= length <= 8) then Err(BadLength) else
      var (raw, rest) :- Take(bs, length);
      if raw[0] == 0 then Err(NotMinimal) else Ok((raw, rest))
    case Blob => Take(bs, length)
    case Point =>
      if length != 33 then Err(BadLength) else
      var (raw, rest) :- Take(bs, 33);
      var _ :- ParseCompressed(curve, raw);
      Ok((raw, rest))
    case Route =>
      var (path, rest) :- ReadPath(curve, bs, length);
      BytesOfReadPath(curve, bs, length);
      Ok((PathBytes(path).value, rest))
  }

  /** The values a known type can have on the wire. */
  predicate ValidValue(curve: Curve, kind: Kind, v: seq<byte>) {
    match kind
    case Exact(size) => |v| == size
    case Trunc64 => 1 <= |v| <= 8 && v[0] != 0
    case Blob => true
    case Point => ParseCompressed(curve, v).Ok?
    case Route => ReadPath(curve, v, |v|).Ok? && ReadPath(curve, v, |v|).value.1 == []
  }

  type Schema = map<nat, Kind>

  predicate ValidRecords(curve: Curve, schema: Schema, rs: seq<Record>) {
    forall r :: r in rs && r.typ in schema ==> ValidValue(curve, schema[r.typ], r.value)
  }

  function ReadLength(bs: seq<byte>): Result<(nat, seq<byte>), TlvError> {
    if bs == [] then Err(Truncated) else ReadVarInt(bs)
  }

  function ReadAny(curve: Curve, schema: Schema, typ: nat, bs: seq<byte>, length: nat)
    : Result<(seq<byte>, seq<byte>), TlvError> {
    if typ in schema then ReadValue(curve, schema[typ], bs, length) else Take(bs, length)
  }

  lemma ReadAnyConsumes(curve: Curve, schema: Schema, typ: nat, bs: seq<byte>, length: nat)
    requires ReadAny(curve, schema, typ, bs, length).Ok?
    ensures var (raw, rest) := ReadAny(curve, schema, typ, bs, length).value; bs == raw + rest
  {
    if typ in schema && schema[typ].Route? {
      BytesOfReadPath(curve, bs, length);
    }
  }

  /** One record, whose type must be at least `min`, and the rest of the input. */
  function ReadRecord(curve: Curve, schema: Schema, bs: seq<byte>, min: nat): (r: Result<(Record, seq<byte>), TlvError>)
    ensures r.Ok? ==> |r.value.1| < |bs| && min <= r.value.0.typ
  {
    var (typ, afterType) :- ReadVarInt(bs);
    VarIntUnique(bs);
    if typ < min then Err(StreamNotCanonical) else
    var (length, afterLength) :- ReadLength(afterType);
    VarIntUnique(afterType);
    var (raw, rest) :- ReadAny(curve, schema, typ, afterLength, length);
    ReadAnyConsumes(curve, schema, typ, afterLength, length);
    Ok((Record(typ, raw), rest))
  }

  /** Every record of a stream whose types start at `min`, with the bytes of each value. */
  function ReadStream(curve: Curve, schema: Schema, bs: seq<byte>, min: nat): Result<seq<Record>, TlvError>
    decreases |bs|
  {
    if bs == [] then Ok([]) else
    var (r, rest) :- ReadRecord(curve, schema, bs, min);
    var rs :- ReadStream(curve, schema, rest, r.typ + 1);
    Ok([r] + rs)
  }

  /** The map a decode returns beside the values: known types map to no bytes. */
  function TlvMap(schema: Schema, rs: seq<Record>): map<uint64, seq<byte>>
    requires Distinct(rs)
  {
    map r | r in rs :: r.typ := if r.typ in schema then [] else r.value
  }

  // ---------- laws ----------

  lemma ReadRouteOfValid(curve: Curve, v: seq<byte>, tail: seq<byte>)
    requires ValidValue(curve, Route, v)
    ensures ReadValue(curve, Route, v + tail, |v|) == Ok((v, tail))
  {
    var path := ReadPath(curve, v, |v|).value.0;
    BytesOfReadPath(curve, v, |v|);
    ReadPathFits(curve, v, |v|);
    assert PathBytes(path).value == v;
    ReadPathOfBytes(curve, path, tail);
    SizeIsBytesWritten(curve, path);
  }

  lemma ReadValueOfValid(curve: Curve, kind: Kind, v: seq<byte>, tail: seq<byte>)
    requires ValidValue(curve, kind, v)
    ensures ReadValue(curve, kind, v + tail, |v|) == Ok((v, tail))
  {
    if kind.Route? {
      ReadRouteOfValid(curve, v, tail);
    } else {
      assert (v + tail)[..|v|] == v && (v + tail)[|v|..] == tail;
    }
  }

  lemma ReadAnyOfValid(curve: Curve, schema: Schema, typ: nat, v: seq<byte>, tail: seq<byte>)
    requires typ in schema ==> ValidValue(curve, schema[typ], v)
    ensures ReadAny(curve, schema, typ, v + tail, |v|) == Ok((v, tail))
  {
    assert (v + tail)[..|v|] == v && (v + tail)[|v|..] == tail;
    if typ in schema {
      ReadValueOfValid(curve, schema[typ], v, tail);
    }
  }

  lemma ReadRecordOfBytes(curve: Curve, schema: Schema, r: Record, tail: seq<byte>, min: nat)
    requires |r.value| <= MAX_UINT64 && min <= r.typ
    requires r.typ in schema ==> ValidValue(curve, schema[r.typ], r.value)
    ensures ReadRecord(curve, schema, RecordBytes(r) + tail, min) == Ok((r, tail))
  {
    var afterLength := r.value + tail;
    var afterType := WriteVarInt(|r.value|) + afterLength;
    assert RecordBytes(r) + tail == WriteVarInt(r.typ) + afterType;
    VarIntRoundTrip(r.typ, afterType);
    VarIntRoundTrip(|r.value|, afterLength);
    ReadAnyOfValid(curve, schema, r.typ, r.value, tail);
  }

  lemma ReadStreamOfCons(curve: Curve, schema: Schema, r: Record, tail: seq<byte>, rs: seq<Record>, min: nat)
    requires |r.value| <= MAX_UINT64 && min <= r.typ
    requires r.typ in schema ==> ValidValue(curve, schema[r.typ], r.value)
    requires ReadStream(curve, schema, tail, r.typ + 1) == Ok(rs)
    ensures ReadStream(curve, schema, RecordBytes(r) + tail, min) == Ok([r] + rs)
  {
    hide ReadRecord, ValidValue;
    ReadRecordOfBytes(curve, schema, r, tail, min);
  }

  /** The record lists that a stream with types from `min` on can carry. */
  predicate Wire(curve: Curve, schema: Schema, rs: seq<Record>, min: nat) {
    Ascending(rs) && From(rs, min) && Sized(rs) && ValidRecords(curve, schema, rs)
  }

  lemma WireOfNone(curve: Curve, schema: Schema, min: nat)
    ensures Wire(curve, schema, [], min) && StreamBytes([]) == []
  {
  }

  lemma StreamOfCons(r: Record, rs: seq<Record>)
    requires |r.value| <= MAX_UINT64 && Sized(rs)
    ensures Sized([r] + rs) && StreamBytes([r] + rs) == RecordBytes(r) + StreamBytes(rs)
  {
    assert ([r] + rs)[1..] == rs;
  }

  lemma WireOfCons(curve: Curve, schema: Schema, r: Record, rs: seq<Record>, min: nat)
    requires Wire(curve, schema, rs, r.typ + 1)
    requires min <= r.typ && |r.value| <= MAX_UINT64
    requires r.typ in schema ==> ValidValue(curve, schema[r.typ], r.value)
    ensures Wire(curve, schema, [r] + rs, min)
  {
    hide ValidValue;
    ConsAscends(r, rs);
  }

  /** Reading a written stream gives its records back. */
  lemma {:induction false} StreamRoundTrip(curve: Curve, schema: Schema, rs: seq<Record>, min: nat)
    requires Wire(curve, schema, rs, min)
    ensures ReadStream(curve, schema, StreamBytes(rs), min) == Ok(rs)
  {
    hide ReadRecord, RecordBytes, ValidValue;
    if rs == [] {
    } else {
      TailAscends(rs);
      assert rs[0] in rs && rs == [rs[0]] + rs[1..];
      StreamRoundTrip(curve, schema, rs[1..], rs[0].typ + 1);
      ReadStreamOfCons(curve, schema, rs[0], StreamBytes(rs[1..]), rs[1..], min);
    }
  }

  /** Every decoder but the reply path's consumes exactly the announced length. */
  predicate Bounded(schema: Schema) {
    forall t :: t in schema ==> !schema[t].Route?
  }

  type FlatSchema = schema: Schema | Bounded(schema) witness map[]

  lemma ReadAnyValid(curve: Curve, schema: Schema, typ: nat, bs: seq<byte>, length: nat)
    requires Bounded(schema) && ReadAny(curve, schema, typ, bs, length).Ok?
    ensures var (raw, rest) := ReadAny(curve, schema, typ, bs, length).value;
            |raw| == length && (typ in schema ==> ValidValue(curve, schema[typ], raw))
  {
  }

  lemma BytesOfReadRecord(curve: Curve, schema: Schema, bs: seq<byte>, min: nat)
    requires Bounded(schema) && ReadRecord(curve, schema, bs, min).Ok?
    ensures var (r, rest) := ReadRecord(curve, schema, bs, min).value;
            && min <= r.typ && |r.value| <= MAX_UINT64
            && (r.typ in schema ==> ValidValue(curve, schema[r.typ], r.value))
            && bs == RecordBytes(r) + rest
  {
    hide ReadAny, ReadVarInt, WriteVarInt, ValidValue;
    var (typ, afterType) := ReadVarInt(bs).value;
    var (length, afterLength) := ReadLength(afterType).value;
    var (raw, rest) := ReadAny(curve, schema, typ, afterLength, length).value;
    assert ReadRecord(curve, schema, bs, min).value == (Record(typ, raw), rest);
    ReadAnyValid(curve, schema, typ, afterLength, length);
    assert bs == WriteVarInt(typ) + (WriteVarInt(length) + (raw + rest)) && length <= MAX_UINT64 by {
      VarIntUnique(bs);
      VarIntUnique(afterType);
      ReadAnyConsumes(curve, schema, typ, afterLength, length);
    }
    assert bs == WriteVarInt(typ) + WriteVarInt(length) + raw + rest;
  }

  /** A stream that reads is the only encoding of the records read. */
  lemma {:induction false} StreamUnique(curve: Curve, schema: Schema, bs: seq<byte>, min: nat)
    requires Bounded(schema) && ReadStream(curve, schema, bs, min).Ok?
    ensures var rs := ReadStream(curve, schema, bs, min).value;
            Wire(curve, schema, rs, min) && Sized(rs) && bs == StreamBytes(rs)
    decreases |bs|
  {
    hide ReadRecord, RecordBytes, StreamBytes, ValidValue, Bounded, Wire;
    if bs == [] {
      WireOfNone(curve, schema, min);
    } else {
      var (r, rest) := ReadRecord(curve, schema, bs, min).value;
      var tail := ReadStream(curve, schema, rest, r.typ + 1).value;
      StreamUnique(curve, schema, rest, r.typ + 1);
      BytesOfReadRecord(curve, schema, bs, min);
      WireOfCons(curve, schema, r, tail, min);
      StreamOfCons(r, tail);
    }
  }

  /** The types of any stream that reads strictly ascend, whatever its decoders do. */
  lemma {:induction false} StreamAscends(curve: Curve, schema: Schema, bs: seq<byte>, min: nat)
    requires ReadStream(curve, schema, bs, min).Ok?
    ensures var rs := ReadStream(curve, schema, bs, min).value; Ascending(rs) && From(rs, min)
    decreases |bs|
  {
    hide ReadRecord;
    if bs == [] {
    } else {
      var (r, rest) := ReadRecord(curve, schema, bs, min).value;
      StreamAscends(curve, schema, rest, r.typ + 1);
      ConsAscends(r, ReadStream(curve, schema, rest, r.typ + 1).value);
    }
  }

  /** Record encodings delimit themselves: equal concatenations come from equal lists. */
  lemma {:induction false} StreamInjective(a: seq<Record>, b: seq<Record>)
    requires Sized(a) && Sized(b) && StreamBytes(a) == StreamBytes(b)
    ensures a == b
  {
    if a != [] {
      ReadRecordOfBytes(_ => true, map[], a[0], StreamBytes(a[1..]), 0);
    }
    if b != [] {
      ReadRecordOfBytes(_ => true, map[], b[0], StreamBytes(b[1..]), 0);
    }
    if a != [] && b != [] {
      assert a[0] == b[0];
      StreamInjective(a[1..], b[1..]);
      assert a == [a[0]] + a[1..] && b == [b[0]] + b[1..];
    }
  }
}
