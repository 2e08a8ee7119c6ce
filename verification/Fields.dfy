/**
 * What the bolt 12 messages share: optional fields written as records in a fixed order, and the
 * root that decoding recomputes over the fields and the records it does not know.
 */
module Fields {
  import opened Wrappers
  import opened Bytes
  import opened BigSize
  import opened Keys
  import opened Tlv
  import opened TU64
  import opened MerkleTree
  import opened Merkle

  /** A byte string whose length fits eight bytes. */
  type Text = bs: seq<byte> | |bs| <= MAX_UINT64

  type Feature = b: nat | b < 0x1_0000

  datatype MessageError = BadStream(error: TlvError) | BadRoot(cause: MerkleError)

  /** The foreign code the messages use: the curve, the hash, the features codec, a duration's seconds. */
  datatype Lib = Lib(
    curve: Curve,
    hash: Hasher,
    encodeFeatures: set<Feature> -> Text,
    decodeFeatures: seq<byte> -> Option<set<Feature>>,
    seconds: int -> uint64) {

    /** Features come back, unless there are none. */
    ghost predicate Sound() {
      forall s :: s != {} ==> decodeFeatures(encodeFeatures(s)) == Some(s)
    }

    /** Durations from zero on are rounded to seconds, down or up; whole seconds are exact. */
    ghost predicate SoundSeconds() {
      forall nanos :: 0 <= nanos < 0x8000_0000_0000_0000 ==>
        && nanos / 1_000_000_000 <= seconds(nanos) <= nanos / 1_000_000_000 + 1
        && (nanos % 1_000_000_000 == 0 ==> seconds(nanos) == nanos / 1_000_000_000)
    }
  }

  // ---------- fields as records ----------

  datatype Field = Field(typ: uint64, value: Option<Text>)

  /** Fields of the given types, in order, with the given values. */
  function Zip(types: seq<uint64>, values: seq<Option<Text>>): (fs: seq<Field>)
    requires |types| == |values|
    ensures |fs| == |types| && forall i :: 0 <= i < |fs| ==> fs[i] == Field(types[i], values[i])
  {
    seq(|types|, i requires 0 <= i < |types| => Field(types[i], values[i]))
  }

  /** The records of those of the first k fields that are set. */
  function PresentTo(fs: seq<Field>, k: nat): (rs: seq<Record>)
    requires k <= |fs|
    ensures Sized(rs)
  {
    if k == 0 then [] else
    PresentTo(fs, k - 1) + if fs[k - 1].value.Some? then [Record(fs[k - 1].typ, fs[k - 1].value.value)] else []
  }

  /** The records of the fields that are set. */
  function Present(fs: seq<Field>): (rs: seq<Record>)
    ensures Sized(rs)
  {
    PresentTo(fs, |fs|)
  }

  /** Grows the records by the next field's, if that field is set. */
  method Append(records: seq<Record>, typ: uint64, value: Option<Text>, ghost fs: seq<Field>, ghost k: nat)
    returns (records': seq<Record>)
    requires k < |fs| && records == PresentTo(fs, k) && fs[k] == Field(typ, value)
    ensures records' == PresentTo(fs, k + 1)
  {
    records' := records;
    if value.Some? {
      records' := records' + [Record(typ, value.value)];
    }
  }

  predicate InOrder(fs: seq<Field>) {
    forall i, j :: 0 <= i < j < |fs| ==> fs[i].typ < fs[j].typ
  }

  lemma {:induction false} PresentToElements(fs: seq<Field>, k: nat, r: Record)
    requires k <= |fs|
    ensures r in PresentTo(fs, k) <==> |r.value| <= MAX_UINT64 && Field(r.typ, Some(r.value)) in fs[..k]
  {
    if k > 0 {
      PresentToElements(fs, k - 1, r);
      assert fs[..k] == fs[..k - 1] + [fs[k - 1]];
    }
  }

  lemma PresentElements(fs: seq<Field>, r: Record)
    ensures r in Present(fs) <==> |r.value| <= MAX_UINT64 && Field(r.typ, Some(r.value)) in fs
  {
    PresentToElements(fs, |fs|, r);
    assert fs[..|fs|] == fs;
  }

  lemma {:induction false} PresentToAscends(fs: seq<Field>, k: nat)
    requires InOrder(fs) && k <= |fs|
    ensures Ascending(PresentTo(fs, k))
  {
    if k > 0 {
      PresentToAscends(fs, k - 1);
      if fs[k - 1].value.Some? {
        var last := [Record(fs[k - 1].typ, fs[k - 1].value.value)];
        forall p, q | p in PresentTo(fs, k - 1) && q in last ensures p.typ < q.typ {
          PresentToElements(fs, k - 1, p);
        }
        ConcatAscends(PresentTo(fs, k - 1), last);
      }
    }
  }

  lemma PresentAscends(fs: seq<Field>)
    requires InOrder(fs)
    ensures Ascending(Present(fs))
  {
    PresentToAscends(fs, |fs|);
  }

  /** A field's value is what its type maps to among the records. */
  lemma LookupField(fs: seq<Field>, i: nat)
    requires InOrder(fs) && i < |fs|
    ensures Lookup(Present(fs), fs[i].typ) == fs[i].value
  {
    hide Present, Lookup;
    var rs := Present(fs);
    PresentAscends(fs);
    LookupIn(rs, fs[i].typ);
    if fs[i].value.Some? {
      var r := Record(fs[i].typ, fs[i].value.value);
      PresentElements(fs, r);
      LookupOf(rs, r);
    } else if Lookup(rs, fs[i].typ).Some? {
      PresentElements(fs, Record(fs[i].typ, Lookup(rs, fs[i].typ).value));
    }
  }

  /** The fields are the known types of the schema, and each set one has a value its type can have. */
  predicate Sendable(curve: Curve, schema: Schema, fs: seq<Field>) {
    forall i :: 0 <= i < |fs| ==> FieldOk(curve, schema, fs[i])
  }

  predicate FieldOk(curve: Curve, schema: Schema, f: Field) {
    f.typ in schema && (f.value.Some? ==> ValidValue(curve, schema[f.typ], f.value.value))
  }

  /** The records of a stream that reads, which encodes just them. */
  function Parse(lib: Lib, schema: FlatSchema, bs: seq<byte>): (r: Result<seq<Record>, TlvError>)
    ensures r.Ok? ==> Ascending(r.value) && Sized(r.value) && bs == StreamBytes(r.value)
    ensures r.Ok? ==> ValidRecords(lib.curve, schema, r.value)
  {
    var rs :- ReadStream(lib.curve, schema, bs, 0);
    StreamUnique(lib.curve, schema, bs, 0);
    Ok(rs)
  }

  /** The order visits what the stream parses to, if it reads. */
  predicate Visited(lib: Lib, schema: FlatSchema, bs: seq<byte>, order: seq<uint64>) {
    Parse(lib, schema, bs).Ok? ==> Visits(order, TlvMap(schema, Parse(lib, schema, bs).value))
  }

  /** A stream of set fields reads back exactly when every set field has a value its type can have. */
  lemma FieldsRoundTrip(lib: Lib, schema: FlatSchema, fs: seq<Field>)
    requires InOrder(fs) && forall f :: f in fs ==> f.typ in schema
    ensures Ascending(Present(fs))
    ensures Parse(lib, schema, StreamBytes(Present(fs))).Ok? <==> Sendable(lib.curve, schema, fs)
    ensures Sendable(lib.curve, schema, fs) ==> Parse(lib, schema, StreamBytes(Present(fs))) == Ok(Present(fs))
  {
    hide Present, ReadStream, StreamBytes, ValidValue;
    var rs := Present(fs);
    PresentAscends(fs);
    if Sendable(lib.curve, schema, fs) {
      forall r | r in rs ensures r.typ in schema && ValidValue(lib.curve, schema[r.typ], r.value) {
        PresentElements(fs, r);
      }
      StreamRoundTrip(lib.curve, schema, rs, 0);
    } else if Parse(lib, schema, StreamBytes(rs)).Ok? {
      var i :| 0 <= i < |fs| && !FieldOk(lib.curve, schema, fs[i]);
      var f := fs[i];
      StreamInjective(rs, Parse(lib, schema, StreamBytes(rs)).value);
      PresentElements(fs, Record(f.typ, f.value.value));
    }
  }

  // ---------- unknown records and the recomputed root ----------

  /** The records a decode does not know, empty ones aside: those look recognised. */
  function Unknown(schema: Schema, rs: seq<Record>): seq<Record> {
    if rs == [] then [] else
    (if rs[0].typ !in schema && rs[0].value != [] then [rs[0]] else []) + Unknown(schema, rs[1..])
  }

  lemma {:induction false} InUnknown(schema: Schema, rs: seq<Record>, r: Record)
    ensures r in Unknown(schema, rs) <==> r in rs && r.typ !in schema && r.value != []
  {
    if rs != [] {
      InUnknown(schema, rs[1..], r);
      assert rs == [rs[0]] + rs[1..];
    }
  }

  lemma UnknownElements(schema: Schema, rs: seq<Record>)
    ensures forall r :: r in Unknown(schema, rs) <==> r in rs && r.typ !in schema && r.value != []
  {
    forall r ensures r in Unknown(schema, rs) <==> r in rs && r.typ !in schema && r.value != [] {
      InUnknown(schema, rs, r);
    }
  }

  lemma {:induction false} UnknownAscends(schema: Schema, rs: seq<Record>)
    requires Ascending(rs)
    ensures Ascending(Unknown(schema, rs))
  {
    if rs != [] {
      TailAscends(rs);
      UnknownAscends(schema, rs[1..]);
      UnknownElements(schema, rs[1..]);
      if rs[0].typ !in schema && rs[0].value != [] {
        ConsAscends(rs[0], Unknown(schema, rs[1..]));
      }
    }
  }

  /** Nothing is unknown in a stream of a schema's own fields. */
  lemma NothingUnknown(schema: Schema, fs: seq<Field>)
    requires forall f :: f in fs ==> f.typ in schema
    ensures Unknown(schema, Present(fs)) == []
  {
    hide Present;
    var unknown := Unknown(schema, Present(fs));
    UnknownElements(schema, Present(fs));
    if unknown != [] {
      assert unknown[0] in unknown;
      PresentElements(fs, unknown[0]);
    }
  }

  /** The order in which a map's entries are visited, each once. */
  predicate Visits(order: seq<uint64>, tlvMap: map<uint64, seq<byte>>) {
    && (forall i, j :: 0 <= i < j < |order| ==> order[i] != order[j])
    && (forall i :: 0 <= i < |order| ==> order[i] in tlvMap)
    && (forall t :: t in tlvMap ==> t in order)
  }

  /** The bytes of the entry that is visited last. */
  function LastBytes(order: seq<uint64>, tlvMap: map<uint64, seq<byte>>): seq<byte>
    requires Visits(order, tlvMap)
  {
    if order == [] then [] else tlvMap[order[|order| - 1]]
  }

  /**
   * The unknown records as they are written. Their encoders share the loop's variable, so each
   * announces its own type and size but writes the bytes of the entry visited last.
   */
  function UnknownWritten(schema: Schema, rs: seq<Record>, last: seq<byte>): (ws: seq<Written>)
    requires Sized(rs)
    ensures |ws| == |Unknown(schema, rs)|
  {
    var unknown := Unknown(schema, rs);
    UnknownElements(schema, rs);
    seq(|unknown|, i requires 0 <= i < |unknown| => Record(unknown[i].typ, Content(|unknown[i].value|, last)))
  }

  lemma UnknownWrittenElements(schema: Schema, rs: seq<Record>, last: seq<byte>, w: Written)
    requires Sized(rs) && Ascending(rs)
    ensures w in UnknownWritten(schema, rs, last) <==>
            && w.typ !in schema && Lookup(rs, w.typ).GetOr([]) != []
            && w.value.size == |Lookup(rs, w.typ).value| && w.value.bytes == last
  {
    hide Unknown, Lookup;
    UnknownElements(schema, rs);
    var unknown, ws := Unknown(schema, rs), UnknownWritten(schema, rs, last);
    LookupIn(rs, w.typ);
    if w in ws {
      var i :| 0 <= i < |ws| && ws[i] == w;
      LookupOf(rs, unknown[i]);
    }
    if w.typ !in schema && Lookup(rs, w.typ).GetOr([]) != [] {
      var i :| 0 <= i < |unknown| && unknown[i] == Record(w.typ, Lookup(rs, w.typ).value);
      assert ws[i] in ws;
    }
  }

  /** What decoding commits to: the fields as they would be written, and the unknown records. */
  function Committed(schema: Schema, fs: seq<Field>, rs: seq<Record>, last: seq<byte>): seq<Written>
    requires Sized(rs)
  {
    Own(Present(fs)) + UnknownWritten(schema, rs, last)
  }

  /** From a message's own fields decoding commits to those fields, whichever was visited last. */
  lemma CommittedFields(schema: Schema, fs: seq<Field>, last: seq<byte>)
    requires forall f :: f in fs ==> f.typ in schema
    ensures Committed(schema, fs, Present(fs), last) == Own(Present(fs))
  {
    hide Present, Own;
    NothingUnknown(schema, fs);
    assert UnknownWritten(schema, Present(fs), last) == [];
  }

  /** The root that decoding recomputes, given the bytes of the entry visited last. */
  function RootOfDecoded(hash: Hasher, schema: Schema, fs: seq<Field>, rs: seq<Record>, last: seq<byte>)
    : Result<Hash, MerkleError>
    requires Sized(rs)
  {
    RootOf(hash, Committed(schema, fs, rs, last))
  }

  /** Records for the non-empty entries. Their encoders run after the loop, on its variable's last value. */
  method UnknownRecordsFromParsed(tlvMap: map<uint64, seq<byte>>, order: seq<uint64>) returns (records: seq<Written>)
    requires Visits(order, tlvMap) && forall t :: t in tlvMap ==> |tlvMap[t]| <= MAX_UINT64
    ensures Distinct(records)
    ensures forall w :: w in records <==>
              && w.typ in tlvMap && tlvMap[w.typ] != []
              && w.value.size == |tlvMap[w.typ]| && w.value.bytes == LastBytes(order, tlvMap)
  {
    var tlvBytes: seq<byte> := [];
    var gathered: seq<Typed<uint64>> := [];
    for i := 0 to |order|
      invariant tlvBytes == if i == 0 then [] else tlvMap[order[i - 1]]
      invariant Distinct(gathered)
      invariant forall g :: g in gathered <==> g.typ in order[..i] && tlvMap[g.typ] != [] && g.value == |tlvMap[g.typ]|
    {
      assert order[..i + 1] == order[..i] + [order[i]];
      tlvBytes := tlvMap[order[i]];
      if |tlvBytes| == 0 {
        continue;
      }
      gathered := gathered + [Record(order[i], |tlvBytes|)];
    }
    assert order[..|order|] == order && LastBytes(order, tlvMap) == tlvBytes;
    records := seq(|gathered|,
                   i requires 0 <= i < |gathered| => Record(gathered[i].typ, Content(gathered[i].value, tlvBytes)));
    forall w ensures w in records <==> Record(w.typ, w.value.size) in gathered && w.value.bytes == tlvBytes {
      if Record(w.typ, w.value.size) in gathered && w.value.bytes == tlvBytes {
        var i :| 0 <= i < |gathered| && gathered[i] == Record(w.typ, w.value.size);
        assert records[i] == w;
      }
    }
  }

  /** An unknown type has an entry with its value; a known type's entry is empty. */
  lemma MapEntry(schema: Schema, rs: seq<Record>, t: uint64)
    requires Distinct(rs)
    ensures t in TlvMap(schema, rs) <==> Lookup(rs, t).Some?
    ensures t in TlvMap(schema, rs) ==> TlvMap(schema, rs)[t] == if t in schema then [] else Lookup(rs, t).value
  {
    LookupIn(rs, t);
    if t in TlvMap(schema, rs) {
      OneValue(rs, Record(t, Lookup(rs, t).value), Record(t, Lookup(rs, t).value));
    }
  }

  /** Whether the map has an entry for the type, that is whether the type was on the wire. */
  method IsParsed(tlvMap: map<uint64, seq<byte>>, t: uint64, ghost schema: Schema, ghost rs: seq<Record>)
    returns (ok: bool)
    requires Distinct(rs) && tlvMap == TlvMap(schema, rs)
    ensures ok <==> Lookup(rs, t).Some?
  {
    MapEntry(schema, rs, t);
    ok := t in tlvMap;
  }

  lemma MapSized(schema: Schema, rs: seq<Record>)
    requires Distinct(rs) && Sized(rs)
    ensures forall t :: t in TlvMap(schema, rs) ==> |TlvMap(schema, rs)[t]| <= MAX_UINT64
  {
  }

  lemma {:induction false} SignedKeepsDistinct(ws: seq<Written>)
    requires Distinct(ws)
    ensures Distinct(Signed(ws))
  {
    if ws != [] {
      SignedKeepsDistinct(ws[1..]);
      SignedElements(ws[1..]);
      assert forall w :: w in ws[1..] ==> w.typ != ws[0].typ;
    }
  }

  lemma OwnDistinct(rs: seq<Record>)
    requires Distinct(rs) && Sized(rs)
    ensures Distinct(Own(rs)) && Distinct(Signed(Own(rs)))
  {
    SignedKeepsDistinct(Own(rs));
  }

  lemma UnknownWrittenDistinct(schema: Schema, rs: seq<Record>, last: seq<byte>)
    requires Ascending(rs) && Sized(rs)
    ensures Distinct(UnknownWritten(schema, rs, last))
  {
    hide Unknown;
    UnknownAscends(schema, rs);
  }

  /** The unknown records repeat no type and none of the fields'. */
  lemma FieldsAndUnknown(schema: Schema, fs: seq<Field>, unknown: seq<Written>)
    requires InOrder(fs) && forall f :: f in fs ==> f.typ in schema
    requires Distinct(unknown) && forall w :: w in unknown ==> w.typ !in schema
    ensures Distinct(Own(Present(fs)) + unknown) && Distinct(Signed(Own(Present(fs)) + unknown))
  {
    hide Present, Signed, Own;
    PresentAscends(fs);
    OwnDistinct(Present(fs));
    var own := Own(Present(fs));
    DistinctConcat(own, unknown);
    forall i, j | 0 <= i < |own| && 0 <= j < |unknown| ensures own[i].typ != unknown[j].typ {
      OwnElements(Present(fs), own[i]);
      PresentElements(fs, Record(own[i].typ, own[i].value.bytes));
      assert unknown[j] in unknown;
    }
    SignedKeepsDistinct(own + unknown);
  }

  lemma CommittedDistinct(schema: Schema, fs: seq<Field>, rs: seq<Record>, last: seq<byte>)
    requires InOrder(fs) && (forall f :: f in fs ==> f.typ in schema) && Ascending(rs) && Sized(rs)
    ensures Distinct(Committed(schema, fs, rs, last)) && Distinct(Signed(Committed(schema, fs, rs, last)))
  {
    hide Present, Signed, Own, UnknownWritten;
    UnknownWrittenDistinct(schema, rs, last);
    forall w | w in UnknownWritten(schema, rs, last) ensures w.typ !in schema {
      UnknownWrittenElements(schema, rs, last, w);
    }
    FieldsAndUnknown(schema, fs, UnknownWritten(schema, rs, last));
  }

  /** Gathered in any order, the unknown records give the one root that the last bytes make. */
  lemma GatheredRoot(hash: Hasher, schema: Schema, fs: seq<Field>, rs: seq<Record>, last: seq<byte>,
                     unknown: seq<Written>)
    requires InOrder(fs) && (forall f :: f in fs ==> f.typ in schema) && Ascending(rs) && Sized(rs)
    requires Distinct(unknown) && SameRecords(unknown, UnknownWritten(schema, rs, last))
    ensures RootOf(hash, Own(Present(fs)) + unknown) == RootOfDecoded(hash, schema, fs, rs, last)
  {
    hide Present, RootOf, UnknownWritten, Signed, Own;
    forall w | w in unknown ensures w.typ !in schema {
      UnknownWrittenElements(schema, rs, last, w);
    }
    FieldsAndUnknown(schema, fs, unknown);
    CommittedDistinct(schema, fs, rs, last);
    var a, b := Own(Present(fs)) + unknown, Committed(schema, fs, rs, last);
    SignedElements(a);
    SignedElements(b);
    RootIndependence(hash, a, b);
  }

  /** Recomputes the root from the populated fields and the parsed types. */
  method DecodeMerkleRoot(hash: Hasher, schema: Schema, populated: seq<Record>, tlvMap: map<uint64, seq<byte>>,
                          order: seq<uint64>, ghost fs: seq<Field>, ghost rs: seq<Record>)
    returns (root: Result<Hash, MerkleError>)
    requires InOrder(fs) && (forall f :: f in fs ==> f.typ in schema) && Ascending(rs) && Sized(rs)
    requires populated == Present(fs) && tlvMap == TlvMap(schema, rs) && Visits(order, tlvMap)
    ensures root == RootOfDecoded(hash, schema, fs, rs, LastBytes(order, tlvMap))
  {
    hide Present, RootOf, TlvMap, RootOfDecoded, UnknownWritten, Lookup, Own;
    MapSized(schema, rs);
    var unknown := UnknownRecordsFromParsed(tlvMap, order);
    ghost var last := LastBytes(order, tlvMap);
    forall w ensures w in unknown <==> w in UnknownWritten(schema, rs, last) {
      MapEntry(schema, rs, w.typ);
      UnknownWrittenElements(schema, rs, last, w);
    }
    GatheredRoot(hash, schema, fs, rs, last, unknown);
    root := MerkleRoot(hash, Own(populated) + unknown);
  }

  // ---------- agreement with the wire ----------

  /** The fields outside the signature range hold what the wire gives their types. */
  predicate FieldsMatch(fs: seq<Field>, rs: seq<Record>) {
    forall i :: 0 <= i < |fs| && !InSignatureRange(fs[i].typ) ==> fs[i].value == Lookup(rs, fs[i].typ)
  }

  /** Every unknown record outside the signature range is not empty and holds the bytes that are written for it. */
  predicate UnknownWrites(schema: Schema, rs: seq<Record>, last: seq<byte>) {
    forall r :: r in rs && r.typ !in schema && !IsSignature(r) ==> r.value != [] && r.value == last
  }

  /** What a list of valid records gives a known type is a value of that type. */
  lemma ValidLookup(curve: Curve, schema: Schema, rs: seq<Record>, t: uint64)
    requires ValidRecords(curve, schema, rs) && Sized(rs) && t in schema
    ensures Lookup(rs, t).Some? ==>
            |Lookup(rs, t).value| <= MAX_UINT64 && ValidValue(curve, schema[t], Lookup(rs, t).value)
  {
    hide ValidValue;
    LookupIn(rs, t);
  }

  predicate SchemaFields(schema: Schema, fs: seq<Field>) {
    && InOrder(fs)
    && (forall f :: f in fs ==> f.typ in schema)
    && (forall t: uint64 :: t in schema ==> exists f :: f in fs && f.typ == t)
  }

  /** Fields of a schema's types, in order, are the schema's fields. */
  lemma ZipIsSchema(schema: Schema, types: seq<uint64>, values: seq<Option<Text>>)
    requires |types| == |values|
    requires forall i, j :: 0 <= i < j < |types| ==> types[i] < types[j]
    requires forall t: uint64 :: t in schema <==> t in types
    ensures SchemaFields(schema, Zip(types, values))
  {
    var fs := Zip(types, values);
    forall t: uint64 | t in schema ensures exists f :: f in fs && f.typ == t {
      var i :| 0 <= i < |types| && types[i] == t;
      assert fs[i] in fs;
    }
  }

  /** Which records outside the signature range decoding commits to. */
  lemma CommittedRecords(schema: Schema, fs: seq<Field>, rs: seq<Record>, last: seq<byte>, w: Written)
    requires SchemaFields(schema, fs) && Ascending(rs) && Sized(rs)
    ensures w in Signed(Committed(schema, fs, rs, last)) <==>
            && !IsSignature(w)
            && if w.typ in schema then w.value.size == |w.value.bytes| && Field(w.typ, Some(w.value.bytes)) in fs
               else && Lookup(rs, w.typ).GetOr([]) != []
                    && w.value.size == |Lookup(rs, w.typ).value| && w.value.bytes == last
  {
    hide Present, Signed, UnknownWritten, Lookup, Own;
    OwnElements(Present(fs), w);
    PresentElements(fs, Record(w.typ, w.value.bytes));
    UnknownWrittenElements(schema, rs, last, w);
    SignedElements(Committed(schema, fs, rs, last));
  }

  /** Which records the wire's own root commits to. */
  lemma WireRecords(rs: seq<Record>, w: Written)
    requires Ascending(rs) && Sized(rs)
    ensures w in Signed(Own(rs)) <==>
            !IsSignature(w) && Lookup(rs, w.typ) == Some(w.value.bytes) && w.value.size == |w.value.bytes|
  {
    hide Signed, Own, Lookup;
    SignedElements(Own(rs));
    OwnElements(rs, w);
    LookupIn(rs, w.typ);
    if Record(w.typ, w.value.bytes) in rs {
      LookupOf(rs, Record(w.typ, w.value.bytes));
    }
  }

  lemma FieldOfType(schema: Schema, fs: seq<Field>, t: uint64, value: Text)
    requires SchemaFields(schema, fs) && t in schema
    ensures exists i :: 0 <= i < |fs| && fs[i].typ == t && (Field(t, Some(value)) in fs <==> fs[i].value == Some(value))
  {
    var f :| f in fs && f.typ == t;
    var i :| 0 <= i < |fs| && fs[i] == f;
    if Field(t, Some(value)) in fs {
      var k :| 0 <= k < |fs| && fs[k] == Field(t, Some(value));
    }
  }

  lemma MatchIsEnough(schema: Schema, fs: seq<Field>, rs: seq<Record>, last: seq<byte>)
    requires SchemaFields(schema, fs) && Ascending(rs) && Sized(rs) && FieldsMatch(fs, rs)
            && UnknownWrites(schema, rs, last)
    ensures SameRecords(Signed(Committed(schema, fs, rs, last)), Signed(Own(rs)))
  {
    hide Committed, Signed, Lookup, Own, SchemaFields;
    forall w ensures w in Signed(Committed(schema, fs, rs, last)) <==> w in Signed(Own(rs)) {
      CommittedRecords(schema, fs, rs, last, w);
      WireRecords(rs, w);
      LookupIn(rs, w.typ);
      if w.typ in schema && !IsSignature(w) && w.value.size == |w.value.bytes| {
        FieldOfType(schema, fs, w.typ, w.value.bytes);
      }
    }
  }

  lemma MatchIsNeeded(schema: Schema, fs: seq<Field>, rs: seq<Record>, last: seq<byte>)
    requires SchemaFields(schema, fs) && Ascending(rs) && Sized(rs)
    requires SameRecords(Signed(Committed(schema, fs, rs, last)), Signed(Own(rs)))
    ensures FieldsMatch(fs, rs) && UnknownWrites(schema, rs, last)
  {
    hide Committed, Signed, Lookup, Own;
    forall i | 0 <= i < |fs| && !InSignatureRange(fs[i].typ) ensures fs[i].value == Lookup(rs, fs[i].typ) {
      FieldNeeded(schema, fs, rs, last, i);
    }
    forall r | r in rs && r.typ !in schema && !IsSignature(r) ensures r.value != [] && r.value == last {
      LookupOf(rs, r);
      var w := Record(r.typ, Content(|r.value|, r.value));
      CommittedRecords(schema, fs, rs, last, w);
      WireRecords(rs, w);
    }
  }

  lemma FieldNeeded(schema: Schema, fs: seq<Field>, rs: seq<Record>, last: seq<byte>, i: nat)
    requires SchemaFields(schema, fs) && Ascending(rs) && Sized(rs) && i < |fs| && !InSignatureRange(fs[i].typ)
    requires SameRecords(Signed(Committed(schema, fs, rs, last)), Signed(Own(rs)))
    ensures fs[i].value == Lookup(rs, fs[i].typ)
  {
    hide Committed, Signed, Lookup, Own;
    var t := fs[i].typ;
    LookupIn(rs, t);
    if fs[i].value.Some? {
      var w := Record(t, Content(|fs[i].value.value|, fs[i].value.value));
      assert fs[i] in fs;
      CommittedRecords(schema, fs, rs, last, w);
      WireRecords(rs, w);
    } else if Lookup(rs, t).Some? {
      var w := Record(t, Content(|Lookup(rs, t).value|, Lookup(rs, t).value));
      CommittedRecords(schema, fs, rs, last, w);
      WireRecords(rs, w);
    }
  }

  /**
   * Given the bytes of the entry visited last, the recomputed root is the root over the wire's own
   * records if every field came off the wire as it would be written and every unknown record is
   * written with its own bytes; and only if, unless two queries collide.
   */
  lemma RootAgreement(hash: Hasher, schema: Schema, fs: seq<Field>, rs: seq<Record>, last: seq<byte>)
    requires SchemaFields(schema, fs) && Ascending(rs) && Sized(rs)
    ensures FieldsMatch(fs, rs) && UnknownWrites(schema, rs, last) ==>
              RootOfDecoded(hash, schema, fs, rs, last) == RootOf(hash, Own(rs))
    ensures RootOfDecoded(hash, schema, fs, rs, last) == RootOf(hash, Own(rs)) ==>
              || (FieldsMatch(fs, rs) && UnknownWrites(schema, rs, last))
              || Collision(hash, RootQueries(hash, Committed(schema, fs, rs, last)) + RootQueries(hash, Own(rs)))
  {
    hide Committed, Signed, FieldsMatch, UnknownWrites, RootOf, Own, RootQueries;
    CommittedDistinct(schema, fs, rs, last);
    OwnDistinct(rs);
    var a := Committed(schema, fs, rs, last);
    if FieldsMatch(fs, rs) && UnknownWrites(schema, rs, last) {
      MatchIsEnough(schema, fs, rs, last);
      RootIndependence(hash, a, Own(rs));
    } else if RootOf(hash, a) == RootOf(hash, Own(rs))
              && !Collision(hash, RootQueries(hash, a) + RootQueries(hash, Own(rs))) {
      WrittenBinding(hash, a, Own(rs));
      MatchIsNeeded(schema, fs, rs, last);
    }
  }

  // ---------- agreement whatever the order ----------

  /**
   * Unknown records outside the signature range are not empty, and if there is one, every parsed entry
   * holds its bytes.
   */
  predicate OrderFree(schema: Schema, rs: seq<Record>)
    requires Distinct(rs)
  {
    forall r :: r in rs && r.typ !in schema && !IsSignature(r) ==>
      r.value != [] && forall t :: t in TlvMap(schema, rs) ==> TlvMap(schema, rs)[t] == r.value
  }

  function Types(rs: seq<Record>): (ts: seq<uint64>)
    ensures |ts| == |rs|
  {
    seq(|rs|, i requires 0 <= i < |rs| => rs[i].typ)
  }

  /** The types with the k-th exchanged for the last. */
  function LastFrom(ts: seq<uint64>, k: nat): (order: seq<uint64>)
    requires k < |ts|
    ensures |order| == |ts|
  {
    ts[k := ts[|ts| - 1]][|ts| - 1 := ts[k]]
  }

  lemma LastFromVisits(m: map<uint64, seq<byte>>, ts: seq<uint64>, k: nat)
    requires Visits(ts, m) && k < |ts|
    ensures Visits(LastFrom(ts, k), m) && LastBytes(LastFrom(ts, k), m) == m[ts[k]]
  {
    var order, n := LastFrom(ts, k), |ts| - 1;
    forall t | t in m ensures t in order {
      var i :| 0 <= i < |ts| && ts[i] == t;
      assert order[if i == k then n else if i == n then k else i] == t;
    }
  }

  lemma TypesVisit(schema: Schema, rs: seq<Record>)
    requires Distinct(rs)
    ensures Visits(Types(rs), TlvMap(schema, rs))
  {
    var m := TlvMap(schema, rs);
    forall t | t in m ensures t in Types(rs) {
      var r :| r in rs && r.typ == t;
      var i :| 0 <= i < |rs| && rs[i] == r;
      assert Types(rs)[i] == t;
    }
    forall i | 0 <= i < |rs| ensures Types(rs)[i] in m {
      assert rs[i] in rs;
    }
  }

  /** Any entry of the map can be the one visited last. */
  lemma CanBeLast(schema: Schema, rs: seq<Record>, t: uint64) returns (order: seq<uint64>)
    requires Distinct(rs) && t in TlvMap(schema, rs)
    ensures Visits(order, TlvMap(schema, rs)) && LastBytes(order, TlvMap(schema, rs)) == TlvMap(schema, rs)[t]
  {
    hide Visits, TlvMap, LastBytes;
    TypesVisit(schema, rs);
    assert t in Types(rs) by { VisitsAll(Types(rs), TlvMap(schema, rs), t); }
    var k :| 0 <= k < |rs| && Types(rs)[k] == t;
    LastFromVisits(TlvMap(schema, rs), Types(rs), k);
    order := LastFrom(Types(rs), k);
  }

  lemma VisitsAll(order: seq<uint64>, m: map<uint64, seq<byte>>, t: uint64)
    requires Visits(order, m) && t in m
    ensures t in order
  {
  }

  /** Unknown records are written with their own bytes in every order exactly when the order cannot matter. */
  lemma WrittenInEveryOrder(schema: Schema, rs: seq<Record>)
    requires Distinct(rs)
    ensures (forall order :: Visits(order, TlvMap(schema, rs)) ==>
             UnknownWrites(schema, rs, LastBytes(order, TlvMap(schema, rs))))
            <==> OrderFree(schema, rs)
  {
    hide Visits;
    var m := TlvMap(schema, rs);
    if OrderFree(schema, rs) {
      forall order, r | Visits(order, m) && r in rs && r.typ !in schema && !IsSignature(r)
        ensures r.value != [] && r.value == LastBytes(order, m)
      {
        LastIsEntry(schema, rs, order);
      }
    }
    if forall order :: Visits(order, m) ==> UnknownWrites(schema, rs, LastBytes(order, m)) {
      forall r, t | r in rs && r.typ !in schema && !IsSignature(r) && t in m ensures r.value != [] && m[t] == r.value {
        var order := CanBeLast(schema, rs, t);
        assert UnknownWrites(schema, rs, LastBytes(order, m));
      }
      forall r | r in rs && r.typ !in schema && !IsSignature(r) ensures r.value != [] {
        assert r.typ in m;
      }
    }
  }

  lemma LastIsEntry(schema: Schema, rs: seq<Record>, order: seq<uint64>)
    requires Distinct(rs) && rs != [] && Visits(order, TlvMap(schema, rs))
    ensures exists t :: t in TlvMap(schema, rs) && LastBytes(order, TlvMap(schema, rs)) == TlvMap(schema, rs)[t]
  {
    assert rs[0].typ in TlvMap(schema, rs);
    assert order[|order| - 1] in TlvMap(schema, rs);
  }

  /**
   * The recomputed root is the wire's own in every order of visiting if every field came off the
   * wire as it would be written and the order is free to be any; and only then, unless two of the
   * queries made in some order collide.
   */
  lemma EveryOrderAgreement(hash: Hasher, schema: Schema, fs: seq<Field>, rs: seq<Record>)
    requires SchemaFields(schema, fs) && Ascending(rs) && Sized(rs)
    ensures FieldsMatch(fs, rs) && OrderFree(schema, rs) ==>
              forall order :: Visits(order, TlvMap(schema, rs)) ==> Agrees(hash, schema, fs, rs, order)
    ensures (forall order :: Visits(order, TlvMap(schema, rs)) ==> Agrees(hash, schema, fs, rs, order)) ==>
              || (FieldsMatch(fs, rs) && OrderFree(schema, rs))
              || exists order :: Visits(order, TlvMap(schema, rs)) && Collides(hash, schema, fs, rs, order)
  {
    hide RootOfDecoded, RootOf, FieldsMatch, OrderFree, UnknownWrites, Visits, TlvMap, Collision, Own;
    var m := TlvMap(schema, rs);
    WrittenInEveryOrder(schema, rs);
    forall order | Visits(order, m)
      ensures FieldsMatch(fs, rs) && UnknownWrites(schema, rs, LastBytes(order, m)) ==>
              Agrees(hash, schema, fs, rs, order)
      ensures Agrees(hash, schema, fs, rs, order) ==>
                (FieldsMatch(fs, rs) && UnknownWrites(schema, rs, LastBytes(order, m)))
                    || Collides(hash, schema, fs, rs, order)
    {
      RootAgreement(hash, schema, fs, rs, LastBytes(order, m));
    }
    TypesVisit(schema, rs);
  }

  /** Visited in this order, decoding recomputes the root over the wire's own records. */
  predicate Agrees(hash: Hasher, schema: Schema, fs: seq<Field>, rs: seq<Record>, order: seq<uint64>)
    requires Distinct(rs) && Sized(rs) && Visits(order, TlvMap(schema, rs))
  {
    RootOfDecoded(hash, schema, fs, rs, LastBytes(order, TlvMap(schema, rs))) == RootOf(hash, Own(rs))
  }

  /** Two of the queries made for that root and for the wire's collide. */
  ghost predicate Collides(hash: Hasher, schema: Schema, fs: seq<Field>, rs: seq<Record>, order: seq<uint64>)
    requires Distinct(rs) && Sized(rs) && Visits(order, TlvMap(schema, rs))
  {
    var committed := Committed(schema, fs, rs, LastBytes(order, TlvMap(schema, rs)));
    Collision(hash, RootQueries(hash, committed) + RootQueries(hash, Own(rs)))
  }

  // ---------- which wire values are written as they were read ----------

  /** The field holds what the wire gives its type exactly where that value is kept. */
  predicate FieldKept(f: Field, rs: seq<Record>, kept: Record -> bool) {
    f.value == Lookup(rs, f.typ) <==> (Lookup(rs, f.typ).Some? ==> kept(Record(f.typ, Lookup(rs, f.typ).value)))
  }

  predicate KnownKept(schema: Schema, rs: seq<Record>, kept: Record -> bool) {
    forall r :: r in rs && r.typ in schema && !IsSignature(r) ==> kept(r)
  }

  lemma KeptIsMatch(schema: Schema, fs: seq<Field>, rs: seq<Record>, kept: Record -> bool)
    requires SchemaFields(schema, fs) && Ascending(rs)
    requires forall i :: 0 <= i < |fs| && !InSignatureRange(fs[i].typ) ==> FieldKept(fs[i], rs, kept)
    ensures FieldsMatch(fs, rs) <==> KnownKept(schema, rs, kept)
  {
    hide Lookup;
    if KnownKept(schema, rs, kept) {
      forall i | 0 <= i < |fs| && !InSignatureRange(fs[i].typ) ensures fs[i].value == Lookup(rs, fs[i].typ) {
        LookupIn(rs, fs[i].typ);
        assert fs[i] in fs;
      }
    }
    if FieldsMatch(fs, rs) {
      forall r | r in rs && r.typ in schema && !IsSignature(r) ensures kept(r) {
        LookupOf(rs, r);
        var f :| f in fs && f.typ == r.typ;
        var i :| 0 <= i < |fs| && fs[i] == f;
      }
    }
  }

  /** A stream of fields has a root exactly when a field outside the signature range is set. */
  lemma FieldsHaveRoot(hash: Hasher, fs: seq<Field>)
    ensures RootOf(hash, Own(Present(fs))).Ok? <==> exists f :: f in fs && f.value.Some? && !InSignatureRange(f.typ)
  {
    hide Present, RootOf, Own;
    var own := Own(Present(fs));
    RootFails(hash, own);
    if RootOf(hash, own).Ok? {
      var w :| w in own && !IsSignature(w);
      OwnElements(Present(fs), w);
      PresentElements(fs, Record(w.typ, w.value.bytes));
      assert Field(w.typ, Some(w.value.bytes)) in fs;
    }
    forall f | f in fs && f.value.Some? && !InSignatureRange(f.typ) ensures RootOf(hash, own).Ok? {
      PresentElements(fs, Record(f.typ, f.value.value));
      OwnElements(Present(fs), Record(f.typ, Content(|f.value.value|, f.value.value)));
    }
  }

  /** Fields typed 240 to 1000 do not move the root. */
  lemma SignatureFieldsDoNotCount(hash: Hasher, fs: seq<Field>, gs: seq<Field>)
    requires InOrder(fs) && InOrder(gs)
    requires forall f: Field :: !InSignatureRange(f.typ) ==> (f in fs <==> f in gs)
    ensures RootOf(hash, Own(Present(fs))) == RootOf(hash, Own(Present(gs)))
  {
    hide Present, RootOf, Signed, Own;
    var a, b := Own(Present(fs)), Own(Present(gs));
    PresentAscends(fs);
    PresentAscends(gs);
    OwnDistinct(Present(fs));
    OwnDistinct(Present(gs));
    SignedElements(a);
    SignedElements(b);
    forall w ensures w in Signed(a) <==> w in Signed(b) {
      OwnElements(Present(fs), w);
      OwnElements(Present(gs), w);
      PresentElements(fs, Record(w.typ, w.value.bytes));
      PresentElements(gs, Record(w.typ, w.value.bytes));
    }
    RootIndependence(hash, a, b);
  }
}
