/**
  Byte buffers with named fields (raiden/encoding/format.py, raiden/encoding/encoders.py): where each
  field lies, how a value is written into its slice in place and how it is read back.
 */
module NamedBuffer {
  import opened Wrappers
  import opened BigEndian

  /** The inclusive range an integer field accepts. */
  datatype Range = Range(minimum: int, maximum: int)

  datatype FieldSpec<N> = Field(name: N, size: nat, encoder: Option<Range>) | Pad(size: nat)

  datatype Value = Num(n: int) | Bytes(bytes: seq<Byte>) | Absent

  datatype CodecError = NoSuchField | NotAnInteger | NotBytes | OutOfRange | DoesNotFit | TooLong | BufferTooShort

  datatype Slice = Slice(start: nat, end: nat)

  function Front<T>(s: seq<T>): seq<T>
    requires s != []
  {
    s[..|s| - 1]
  }

  function Last<T>(s: seq<T>): T
    requires s != []
  {
    s[|s| - 1]
  }

  function Size<N>(spec: seq<FieldSpec<N>>): nat {
    if spec == [] then 0 else Size(Front(spec)) + Last(spec).size
  }

  function Names<N(==)>(spec: seq<FieldSpec<N>>): set<N> {
    if spec == [] then {} else Names(Front(spec)) + if Last(spec).Field? then {Last(spec).name} else {}
  }

  /** No two fields share a name; a specification with repeated names is refused. */
  predicate DistinctNames<N(==)>(spec: seq<FieldSpec<N>>) {
    spec == [] ||
    (DistinctNames(Front(spec)) && (Last(spec).Field? ==> Last(spec).name !in Names(Front(spec))))
  }

  /** A field and where it starts. */
  datatype Place<N> = Place(field: FieldSpec<N>, start: nat)

  function Locate<N(==)>(spec: seq<FieldSpec<N>>, name: N): Option<Place<N>> {
    if spec == [] then None
    else if Last(spec).Field? && Last(spec).name == name then Some(Place(Last(spec), Size(Front(spec))))
    else Locate(Front(spec), name)
  }

  /** Adds up the sizes; paddings take room but get no slice. */
  method ComputeSlices<N(==)>(spec: seq<FieldSpec<N>>) returns (slices: map<N, Slice>)
    ensures slices.Keys == Names(spec)
    ensures forall name :: name in slices ==>
      Locate(spec, name).Some? &&
      slices[name] == Slice(Locate(spec, name).value.start,
                            Locate(spec, name).value.start + Locate(spec, name).value.field.size)
  {
    slices := map[];
    var start := 0;
    for i := 0 to |spec|
      invariant start == Size(spec[..i])
      invariant slices.Keys == Names(spec[..i])
      invariant forall name :: name in slices ==>
        Locate(spec[..i], name).Some? &&
        slices[name] == Slice(Locate(spec[..i], name).value.start,
                              Locate(spec[..i], name).value.start + Locate(spec[..i], name).value.field.size)
    {
      assert Front(spec[..i + 1]) == spec[..i] && Last(spec[..i + 1]) == spec[i];
      var end := start + spec[i].size;
      if spec[i].Field? {
        slices := slices[spec[i].name := Slice(start, end)];
      }
      start := end;
    }
    assert spec[..|spec|] == spec;
  }

  // ---------------------------------------------------------------- one field

  /** The bytes written for a value: exactly as many as the field is wide. */
  function EncodeValue<N>(field: FieldSpec<N>, value: Value): (r: Result<seq<Byte>, CodecError>)
    requires field.Field?
    ensures r.Success? ==> |r.value| == field.size
  {
    match field.encoder
    case Some(range) =>
      if !value.Num? then Failure(NotAnInteger)
      else if value.n < range.minimum || range.maximum < value.n then Failure(OutOfRange)
      else if value.n < 0 || value.n >= Pow256(field.size) then Failure(DoesNotFit)
      else Success(ToBytes(value.n, field.size))
    case None =>
      if !value.Bytes? then Failure(NotBytes)
      else if |value.bytes| > field.size then Failure(TooLong)
      else Success(Zeros(field.size - |value.bytes|) + value.bytes)
  }

  function DecodeValue<N>(field: FieldSpec<N>, bytes: seq<Byte>): Value
    requires field.Field?
  {
    if field.encoder.Some? then Num(FromBytes(bytes)) else Bytes(bytes)
  }

  /** What reading back gives: a number itself, a byte string padded with zeros on the left. */
  function Padded<N>(field: FieldSpec<N>, value: Value): Value {
    match value
    case Num(_) => value
    case Absent => value
    case Bytes(b) => if |b| <= field.size then Bytes(Zeros(field.size - |b|) + b) else value
  }

  lemma DecodeEncodeValue<N>(field: FieldSpec<N>, value: Value)
    requires field.Field? && EncodeValue(field, value).Success?
    ensures DecodeValue(field, EncodeValue(field, value).value) == Padded(field, value)
  {
    if value.Num? {
      DecodeEncode(value.n, field.size);
    }
  }

  lemma PaddedIsValueIffFullWidth<N>(field: FieldSpec<N>, value: Value)
    requires field.Field? && EncodeValue(field, value).Success?
    ensures Padded(field, value) == value <==> (value.Bytes? ==> |value.bytes| == field.size)
  {
    if value.Bytes? && |value.bytes| == field.size {
      assert Zeros(0) + value.bytes == value.bytes;
    }
  }

  // ---------------------------------------------------------------- a buffer of fields

  function GetField<N(==)>(spec: seq<FieldSpec<N>>, data: seq<Byte>, name: N): Result<Value, CodecError>
    requires Size(spec) <= |data|
  {
    match Locate(spec, name)
    case None => Failure(NoSuchField)
    case Some(place) =>
      LocatedInside(spec, name);
      Success(DecodeValue(place.field, data[place.start..place.start + place.field.size]))
  }

  function SetField<N(==)>(spec: seq<FieldSpec<N>>, data: seq<Byte>, name: N, value: Value)
    : (r: Result<seq<Byte>, CodecError>)
    requires Size(spec) <= |data|
    ensures r.Success? ==> |r.value| == |data|
  {
    match Locate(spec, name)
    case None => Failure(NoSuchField)
    case Some(place) =>
      LocatedInside(spec, name);
      match EncodeValue(place.field, value)
      case Failure(e) => Failure(e)
      case Success(bytes) => Success(data[..place.start] + bytes + data[place.start + place.field.size..])
  }

  lemma {:induction false} LocatedInside<N>(spec: seq<FieldSpec<N>>, name: N)
    ensures Locate(spec, name).Some? <==> name in Names(spec)
    ensures Locate(spec, name).Some? ==>
      var place := Locate(spec, name).value;
      place.field.Field? && place.field.name == name && place.start + place.field.size <= Size(spec)
  {
    if spec != [] {
      LocatedInside(Front(spec), name);
    }
  }

  /** The slices of different fields do not overlap. */
  lemma {:induction false} SlicesAreDisjoint<N>(spec: seq<FieldSpec<N>>, name: N, other: N)
    requires name != other && Locate(spec, name).Some? && Locate(spec, other).Some?
    ensures var p, q := Locate(spec, name).value, Locate(spec, other).value;
      p.start + p.field.size <= q.start || q.start + q.field.size <= p.start
  {
    var last := Last(spec);
    if last.Field? && last.name == name {
      LocatedInside(Front(spec), other);
    } else if last.Field? && last.name == other {
      LocatedInside(Front(spec), name);
    } else {
      SlicesAreDisjoint(Front(spec), name, other);
    }
  }

  /** With distinct names every field is found where the fields and paddings before it end. */
  lemma {:induction false} FieldsAreWhereTheyStand<N>(spec: seq<FieldSpec<N>>, k: nat)
    requires DistinctNames(spec) && k < |spec| && spec[k].Field?
    ensures spec[k].name in Names(spec)
    ensures Locate(spec, spec[k].name) == Some(Place(spec[k], Size(spec[..k])))
  {
    if k < |spec| - 1 {
      FieldsAreWhereTheyStand(Front(spec), k);
      assert Front(spec)[..k] == spec[..k];
    }
  }

  /** Whether byte `i` lies in the `k`-th field or padding. */
  predicate Covers<N>(spec: seq<FieldSpec<N>>, k: nat, i: nat) {
    k < |spec| && Size(spec[..k]) <= i < Size(spec[..k + 1])
  }

  /** Every byte of the buffer belongs to exactly one field or padding. */
  lemma {:induction false} SlicesCoverBuffer<N>(spec: seq<FieldSpec<N>>, i: nat) returns (k: nat)
    requires i < Size(spec)
    ensures forall j: nat :: Covers(spec, j, i) <==> j == k
  {
    k := CoveredSomewhere(spec, i);
    forall j: nat | Covers(spec, j, i) ensures j == k {
      if j < k {
        SizeIsMonotone(spec, j + 1, k);
      } else if k < j {
        SizeIsMonotone(spec, k + 1, j);
      }
    }
  }

  lemma {:induction false} CoveredSomewhere<N>(spec: seq<FieldSpec<N>>, i: nat) returns (k: nat)
    requires i < Size(spec)
    ensures Covers(spec, k, i)
  {
    var n := |spec| - 1;
    assert spec[..n] == Front(spec) && spec[..n + 1] == spec;
    if i < Size(Front(spec)) {
      k := CoveredSomewhere(Front(spec), i);
      assert Front(spec)[..k] == spec[..k] && Front(spec)[..k + 1] == spec[..k + 1];
    } else {
      k := n;
    }
  }

  lemma {:induction false} SizeIsMonotone<N>(spec: seq<FieldSpec<N>>, j: nat, k: nat)
    requires j <= k <= |spec|
    ensures Size(spec[..j]) <= Size(spec[..k])
    decreases k
  {
    if j < k {
      assert Front(spec[..k]) == spec[..k - 1];
      SizeIsMonotone(spec, j, k - 1);
    }
  }

  /** Replacing one stretch of bytes shows in that stretch and nowhere else. */
  lemma SpliceReads(data: seq<Byte>, start: nat, bytes: seq<Byte>, from: nat, to: nat)
    requires start + |bytes| <= |data| && from <= to <= |data|
    requires to <= start || start + |bytes| <= from
    ensures var data' := data[..start] + bytes + data[start + |bytes|..];
      && |data'| == |data|
      && data'[start..start + |bytes|] == bytes
      && data'[from..to] == data[from..to]
      && (forall i :: 0 <= i < |data| && !(start <= i < start + |bytes|) ==> data'[i] == data[i])
  {
    var data' := data[..start] + bytes + data[start + |bytes|..];
    forall i | 0 <= i < |data| && !(start <= i < start + |bytes|) ensures data'[i] == data[i] {
      if start + |bytes| <= i {
        assert data[start + |bytes|..][i - start - |bytes|] == data[i];
      }
    }
    forall k | 0 <= k < |bytes| ensures data'[start + k] == bytes[k] {
    }
    forall k | 0 <= k < to - from ensures data'[from..to][k] == data[from..to][k] {
      assert data'[from + k] == data[from + k];
    }
  }

  /** Setting a field puts the bytes of its value, as many as the field is wide, in the field's place. */
  lemma SetSplices<N>(spec: seq<FieldSpec<N>>, data: seq<Byte>, name: N, value: Value) returns (bytes: seq<Byte>)
    requires Size(spec) <= |data| && SetField(spec, data, name, value).Success?
    ensures Locate(spec, name).Some? && Locate(spec, name).value.field.Field?
    ensures var place := Locate(spec, name).value;
      && |bytes| == place.field.size && place.start + |bytes| <= |data|
      && EncodeValue(place.field, value) == Success(bytes)
      && SetField(spec, data, name, value) == Success(data[..place.start] + bytes + data[place.start + |bytes|..])
  {
    LocatedInside(spec, name);
    bytes := EncodeValue(Locate(spec, name).value.field, value).value;
  }

  lemma SetThenGetOther<N>(spec: seq<FieldSpec<N>>, data: seq<Byte>, name: N, value: Value, other: N)
    requires Size(spec) <= |data| && SetField(spec, data, name, value).Success? && other != name
    ensures GetField(spec, SetField(spec, data, name, value).value, other) == GetField(spec, data, other)
  {
    if Locate(spec, other).Some? {
      var bytes := SetSplices(spec, data, name, value);
      LocatedInside(spec, other);
      SlicesAreDisjoint(spec, name, other);
      var q := Locate(spec, other).value;
      SpliceReads(data, Locate(spec, name).value.start, bytes, q.start, q.start + q.field.size);
    }
  }

  /** A field that was set reads back as set; every other field and every other byte is untouched. */
  lemma SetThenGet<N>(spec: seq<FieldSpec<N>>, data: seq<Byte>, name: N, value: Value, other: N)
    requires Size(spec) <= |data| && SetField(spec, data, name, value).Success?
    ensures var data' := SetField(spec, data, name, value).value;
      var place := Locate(spec, name).value;
      && GetField(spec, data', name) == Success(Padded(place.field, value))
      && (other != name ==> GetField(spec, data', other) == GetField(spec, data, other))
      && (forall i :: 0 <= i < |data| && !(place.start <= i < place.start + place.field.size) ==> data'[i] == data[i])
  {
    var bytes := SetSplices(spec, data, name, value);
    var place := Locate(spec, name).value;
    SpliceReads(data, place.start, bytes, 0, 0);
    DecodeEncodeValue(place.field, value);
    if other != name {
      SetThenGetOther(spec, data, name, value, other);
    }
  }

  /** A buffer that is written in place, field by field. */
  class Buffer<N(==)> {
    const spec: seq<FieldSpec<N>>
    const data: array<Byte>

    ghost predicate Valid()
      reads this
    {
      Size(spec) <= data.Length
    }

    constructor (spec: seq<FieldSpec<N>>, data: array<Byte>)
      requires Size(spec) <= data.Length
      ensures Valid() && this.spec == spec && this.data == data
    {
      this.spec, this.data := spec, data;
    }

    /**
      Reads the slice of a field; only a name without a field is an error. With distinct names the bytes
      decoded are those right after all that stands before the field.
     */
    method Get(name: N) returns (r: Result<Value, CodecError>)
      requires Valid()
      ensures r == GetField(spec, data[..], name)
      ensures r.Failure? <==> name !in Names(spec)
      ensures DistinctNames(spec) ==> forall k :: 0 <= k < |spec| && spec[k].Field? && spec[k].name == name ==>
        && Size(spec[..k]) + spec[k].size <= data.Length
        && r == Success(DecodeValue(spec[k], data[Size(spec[..k])..Size(spec[..k]) + spec[k].size]))
    {
      LocatedInside(spec, name);
      if DistinctNames(spec) {
        forall k | 0 <= k < |spec| && spec[k].Field? && spec[k].name == name
          ensures Locate(spec, name) == Some(Place(spec[k], Size(spec[..k])))
        {
          FieldsAreWhereTheyStand(spec, k);
        }
      }
      match Locate(spec, name) {
        case None => r := Failure(NoSuchField);
        case Some(Place(field, start)) =>
          var slice := data[start..start + field.size];
          assert slice == data[..][start..start + field.size];
          r := Success(DecodeValue(field, slice));
      }
    }

    method Set(name: N, value: Value) returns (error: Option<CodecError>)
      requires Valid()
      modifies data
      ensures match SetField(spec, old(data[..]), name, value)
              case Failure(e) => error == Some(e) && data[..] == old(data[..])
              case Success(after) => error == None && data[..] == after
    {
      var place := Locate(spec, name);
      LocatedInside(spec, name);
      if place == None {
        return Some(NoSuchField);
      }
      var field, start := place.value.field, place.value.start;
      match EncodeValue(field, value) {
        case Failure(e) => return Some(e);
        case Success(bytes) =>
          for i := 0 to field.size
            modifies data
            invariant forall j :: 0 <= j < data.Length ==>
              data[j] == if start <= j < start + i then bytes[j - start] else old(data[j])
          {
            data[start + i] := bytes[i];
          }
          assert data[..] == old(data[..start]) + bytes + old(data[start + field.size..]);
          return None;
      }
    }
  }

  // ---------------------------------------------------------------- many fields

  /** Sets the fields one after the other, as `pack` does. */
  function PackAll<N(==)>(spec: seq<FieldSpec<N>>, data: seq<Byte>, items: seq<(N, Value)>)
    : (r: Result<seq<Byte>, CodecError>)
    requires Size(spec) <= |data|
    ensures r.Success? ==> |r.value| == |data|
    decreases |items|
  {
    if items == [] then Success(data)
    else
      match SetField(spec, data, items[0].0, items[0].1)
      case Failure(e) => Failure(e)
      case Success(next) => PackAll(spec, next, items[1..])
  }

  /** Packing succeeds exactly if every item names a field and is a value that this field can hold. */
  lemma {:induction false} PackAllSucceedsIff<N>(spec: seq<FieldSpec<N>>, data: seq<Byte>, items: seq<(N, Value)>)
    requires Size(spec) <= |data|
    ensures PackAll(spec, data, items).Success? <==> forall i :: 0 <= i < |items| ==> CanHold(spec, items[i].0, items[i].1)
    decreases |items|
  {
    if items != [] {
      LocatedInside(spec, items[0].0);
      var set' := SetField(spec, data, items[0].0, items[0].1);
      assert set'.Success? <==> CanHold(spec, items[0].0, items[0].1);
      if set'.Success? {
        PackAllSucceedsIff(spec, set'.value, items[1..]);
        forall i | 0 < i < |items| ensures items[i] == items[1..][i - 1] {
        }
        assert forall i :: 0 <= i < |items[1..]| ==> items[1..][i] == items[i + 1];
      }
    }
  }

  predicate CanHold<N(==)>(spec: seq<FieldSpec<N>>, name: N, value: Value) {
    && Locate(spec, name).Some? && Locate(spec, name).value.field.Field?
    && EncodeValue(Locate(spec, name).value.field, value).Success?
  }

  predicate DistinctItems<N(==)>(items: seq<(N, Value)>) {
    items == [] || ((forall i :: 0 < i < |items| ==> items[i].0 != items[0].0) && DistinctItems(items[1..]))
  }

  /** After packing, each item reads back as its padded value and all other fields are as before. */
  lemma {:induction false} PackedFieldsReadBack<N>(spec: seq<FieldSpec<N>>, data: seq<Byte>, items: seq<(N, Value)>, name: N)
    requires Size(spec) <= |data| && PackAll(spec, data, items).Success? && DistinctItems(items)
    ensures var packed := PackAll(spec, data, items).value;
      && ((forall i :: 0 <= i < |items| ==> items[i].0 != name) ==>
           GetField(spec, packed, name) == GetField(spec, data, name))
      && (forall i :: 0 <= i < |items| && items[i].0 == name ==>
           && Locate(spec, name).Some? && Locate(spec, name).value.field.Field?
           && EncodeValue(Locate(spec, name).value.field, items[i].1).Success?
           && GetField(spec, packed, name) == Success(Padded(Locate(spec, name).value.field, items[i].1)))
    decreases |items|
  {
    if items != [] {
      var next := SetField(spec, data, items[0].0, items[0].1).value;
      LocatedInside(spec, items[0].0);
      SetThenGet(spec, data, items[0].0, items[0].1, name);
      PackedFieldsReadBack(spec, next, items[1..], name);
      forall i | 0 < i < |items| ensures items[i] == items[1..][i - 1] {
      }
    }
  }
}
