/** The IPC codec: attributes, structures and vectors, nested to any depth, written to and read from a parcel. */
module IpcCodec {
  import opened Parcels

  datatype Type = ScalarType(kind: Kind) | StringType | VectorType(element: Type) | StructType(fields: seq<Type>)

  datatype Value = Scalar(kind: Kind, n: int) | Str(text: string) | Vec(items: seq<Value>) | Struct(fields: seq<Value>)

  /** What reading leaves: the value, unless it failed, and the rest of the parcel. */
  datatype Decoded<T> = Decoded(value: T, rest: seq<Cell>) | Failed(rest: seq<Cell>)

  ghost predicate HasType(v: Value, t: Type)
    decreases v
  {
    match v
    case Scalar(kind, n) => t == ScalarType(kind) && InRange(kind, n)
    case Str(_) => t == StringType
    case Vec(items) => t.VectorType? && forall i | 0 <= i < |items| :: HasType(items[i], t.element)
    case Struct(fields) =>
      && t.StructType? && |fields| == |t.fields|
      && forall i | 0 <= i < |fields| :: HasType(fields[i], t.fields[i])
  }

  /** Every vector of the value, at every depth, has fewer than 2^31 elements. */
  ghost predicate Short(v: Value)
    decreases v
  {
    match v
    case Vec(items) => |items| < 0x8000_0000 && forall i | 0 <= i < |items| :: Short(items[i])
    case Struct(fields) => forall i | 0 <= i < |fields| :: Short(fields[i])
    case _ => true
  }

  // ---------------------------------------------------------------- encoding

  function Encode(v: Value): seq<Cell>
    decreases v
  {
    match v
    case Scalar(kind, n) => [WordOf(kind, n)]
    case Str(text) => [Text(text)]
    case Vec(items) => [WordOf(Int32, Convert(Int32, |items|))] + EncodeAll(items)
    case Struct(fields) => EncodeAll(fields)
  }

  function EncodeAll(vs: seq<Value>): seq<Cell>
    decreases vs
  {
    if vs == [] then [] else Encode(vs[0]) + EncodeAll(vs[1..])
  }

  /** The cells of a structure of a negative 16-bit number, a string and a vector of two octets. */
  lemma KnownCells()
    ensures Encode(Struct([Scalar(Int16, -2), Str("a"), Vec([Scalar(Uint8, 7), Scalar(Uint8, 8)])])) ==
            [Word(W16, 0xFFFE), Text("a"), Word(W32, 2), Word(W8, 7), Word(W8, 8)]
  {
    var items := [Scalar(Uint8, 7), Scalar(Uint8, 8)];
    assert items[1..] == [Scalar(Uint8, 8)] && items[1..][1..] == [];
    assert EncodeAll(items[1..]) == [Word(W8, 8)] + EncodeAll([]) == [Word(W8, 8)];
    assert EncodeAll(items) == [Word(W8, 7), Word(W8, 8)];
    var fields := [Scalar(Int16, -2), Str("a"), Vec(items)];
    assert fields[1..] == [Str("a"), Vec(items)] && fields[2..] == [Vec(items)] && fields[3..] == [];
    assert fields[1..][1..] == fields[2..] && fields[2..][1..] == fields[3..];
    assert Encode(Vec(items)) == [Word(W32, 2)] + EncodeAll(items);
    assert EncodeAll(fields[2..]) == Encode(Vec(items)) + EncodeAll(fields[3..]);
    assert EncodeAll(fields[1..]) == [Text("a")] + EncodeAll(fields[2..]);
    assert EncodeAll(fields) == [Word(W16, 0xFFFE)] + EncodeAll(fields[1..]);
  }

  // ---------------------------------------------------------------- decoding

  function Decode(t: Type, p: seq<Cell>): Decoded<Value>
    decreases t, 0
  {
    match t
    case ScalarType(kind) =>
      if Readable(kind, p) then Decoded(Scalar(kind, Convert(kind, p[0].bits)), p[1..]) else Failed(p)
    case StringType =>
      if p != [] && p[0].Text? then Decoded(Str(p[0].text), p[1..]) else Failed(p)
    case VectorType(element) =>
      if !Readable(Int32, p) then Failed(p)
      else
        var size := Convert(Int32, p[0].bits);
        if size < 0 then Failed(p[1..])
        else
          var r := DecodeMany(element, size, p[1..]);
          if r.Failed? then Failed(r.rest) else Decoded(Vec(r.value), r.rest)
    case StructType(fields) =>
      var r := DecodeFields(fields, p);
      if r.Failed? then Failed(r.rest) else Decoded(Struct(r.value), r.rest)
  }

  /** `n` elements of one type. */
  function DecodeMany(t: Type, n: nat, p: seq<Cell>): (r: Decoded<seq<Value>>)
    ensures r.Decoded? ==> |r.value| == n
    decreases t, 1, n
  {
    if n == 0 then Decoded([], p)
    else
      var first := Decode(t, p);
      if first.Failed? then Failed(first.rest) else Before(first.value, DecodeMany(t, n - 1, first.rest))
  }

  /** The attributes of a structure, one after the other. */
  function DecodeFields(ts: seq<Type>, p: seq<Cell>): (r: Decoded<seq<Value>>)
    ensures r.Decoded? ==> |r.value| == |ts|
    decreases ts
  {
    if ts == [] then Decoded([], p)
    else
      var first := Decode(ts[0], p);
      if first.Failed? then Failed(first.rest) else Before(first.value, DecodeFields(ts[1..], first.rest))
  }

  function Before(v: Value, others: Decoded<seq<Value>>): (r: Decoded<seq<Value>>)
    ensures r.rest == others.rest && (r.Decoded? <==> others.Decoded?)
    ensures r.Decoded? ==> r.value == [v] + others.value
  {
    if others.Failed? then others else Decoded([v] + others.value, others.rest)
  }

  /**
   * Decoding fails at the first cell that is missing or of another type, and at a negative size; what is left is what
   * follows the cells that could be read. A structure and a vector fail where their first bad element fails.
   */
  lemma MalformedFails(p: seq<Cell>, kind: Kind, t: Type, rest: seq<Type>, n: nat)
    ensures Decode(ScalarType(kind), p) == Failed(p) <==> p == [] || !p[0].Word? || p[0].width != WidthOf(kind)
    ensures Decode(StringType, p) == Failed(p) <==> p == [] || !p[0].Text?
    ensures p == [] || !p[0].Word? || p[0].width != W32 ==> Decode(VectorType(t), p) == Failed(p)
    ensures p != [] && p[0].Word? && p[0].width == W32 && p[0].bits < 0x1_0000_0000 ==>
              if p[0].bits >= 0x8000_0000 then Decode(VectorType(t), p) == Failed(p[1..])
              else Decode(VectorType(t), p).Failed? <==> DecodeMany(t, p[0].bits, p[1..]).Failed?
    ensures var first := Decode(t, p);
            && (first.Failed? ==> DecodeFields([t] + rest, p) == Failed(first.rest))
            && (first.Failed? ==> DecodeMany(t, n + 1, p) == Failed(first.rest))
  {
    assert ([t] + rest)[0] == t;
    if p != [] && p[0].Word? && p[0].width == W32 && p[0].bits < 0x1_0000_0000 {
      SizeCell(p[0].bits);
    }
    hide Convert;
  }

  lemma SizeCell(bits: nat)
    requires bits < 0x1_0000_0000
    ensures Convert(Int32, bits) == if bits >= 0x8000_0000 then bits - 0x1_0000_0000 else bits
  {
  }

  // ---------------------------------------------------------------- the round trip

  /**
   * Decoding what was encoded, in front of any other cells, yields the value and leaves exactly those cells if and
   * only if no vector in the value has 2^31 elements or more.
   */
  lemma {:induction false} RoundTrip(v: Value, t: Type, rest: seq<Cell>)
    requires HasType(v, t)
    ensures Decode(t, Encode(v) + rest) == Decoded(v, rest) <==> Short(v)
    decreases v, 2
  {
    if Short(v) {
      ReadsBack(v, t, rest);
    } else if Decode(t, Encode(v) + rest) == Decoded(v, rest) {
      OnlyShortReadsBack(v, t, rest);
    }
  }

  lemma {:induction false} ReadsBack(v: Value, t: Type, rest: seq<Cell>)
    requires HasType(v, t) && Short(v)
    ensures Decode(t, Encode(v) + rest) == Decoded(v, rest)
    decreases v
  {
    match v
    case Scalar(kind, n) => WordReadsBack(kind, n);
    case Str(text) =>
    case Vec(items) =>
      WordReadsBack(Int32, |items|);
      ManyReadBack(items, t.element, rest);
      SizeFirst(items, rest);
    case Struct(fields) => FieldsReadBack(fields, t.fields, rest);
  }

  lemma SizeFirst(items: seq<Value>, rest: seq<Cell>)
    ensures var p := Encode(Vec(items)) + rest;
            && Readable(Int32, p) && p[0] == WordOf(Int32, Convert(Int32, |items|))
            && p[1..] == EncodeAll(items) + rest
  {
    hide EncodeAll, Convert, WordOf;
    var size := WordOf(Int32, Convert(Int32, |items|));
    assert Encode(Vec(items)) + rest == [size] + (EncodeAll(items) + rest);
    SizeIsReadable(|items|);
  }

  lemma SizeIsReadable(n: nat)
    ensures var c := WordOf(Int32, Convert(Int32, n)); c.Word? && c.width == WidthOf(Int32)
  {
  }

  lemma {:induction false} ManyReadBack(vs: seq<Value>, t: Type, rest: seq<Cell>)
    requires forall i | 0 <= i < |vs| :: HasType(vs[i], t) && Short(vs[i])
    ensures DecodeMany(t, |vs|, EncodeAll(vs) + rest) == Decoded(vs, rest)
    decreases vs
  {
    hide Short, HasType, Encode, Decode;
    if vs != [] {
      var others := EncodeAll(vs[1..]) + rest;
      assert EncodeAll(vs) + rest == Encode(vs[0]) + others;
      ReadsBack(vs[0], t, others);
      ManyReadBack(vs[1..], t, rest);
      assert [vs[0]] + vs[1..] == vs;
    }
  }

  lemma {:induction false} FieldsReadBack(vs: seq<Value>, ts: seq<Type>, rest: seq<Cell>)
    requires |vs| == |ts| && forall i | 0 <= i < |vs| :: HasType(vs[i], ts[i]) && Short(vs[i])
    ensures DecodeFields(ts, EncodeAll(vs) + rest) == Decoded(vs, rest)
    decreases vs
  {
    hide Short, HasType, Encode, Decode;
    if vs != [] {
      var others := EncodeAll(vs[1..]) + rest;
      assert EncodeAll(vs) + rest == Encode(vs[0]) + others;
      ReadsBack(vs[0], ts[0], others);
      FieldsReadBack(vs[1..], ts[1..], rest);
      assert [vs[0]] + vs[1..] == vs;
    }
  }

  /** A value that comes back is short: the size of a longer vector wraps around on its way. */
  lemma {:induction false} OnlyShortReadsBack(v: Value, t: Type, rest: seq<Cell>)
    requires HasType(v, t)
    requires var r := Decode(t, Encode(v) + rest); r.Decoded? && r.value == v
    ensures Short(v)
    decreases v
  {
    match v
    case Vec(items) =>
      SizeFirst(items, rest);
      WordReadsBack(Int32, Convert(Int32, |items|));
      assert Convert(Int32, |items|) == |items|;
      OnlyShortMany(items, t.element, rest);
    case Struct(fields) => OnlyShortFields(fields, t.fields, rest);
    case _ =>
  }

  lemma {:induction false} OnlyShortMany(vs: seq<Value>, t: Type, rest: seq<Cell>)
    requires forall i | 0 <= i < |vs| :: HasType(vs[i], t)
    requires var r := DecodeMany(t, |vs|, EncodeAll(vs) + rest); r.Decoded? && r.value == vs
    ensures forall i | 0 <= i < |vs| :: Short(vs[i])
    decreases vs
  {
    hide Short, HasType, Encode, Decode;
    if vs != [] {
      var others := EncodeAll(vs[1..]) + rest;
      assert EncodeAll(vs) + rest == Encode(vs[0]) + others;
      OnlyShortReadsBack(vs[0], t, others);
      ReadsBack(vs[0], t, others);
      OnlyShortMany(vs[1..], t, rest);
    }
  }

  lemma {:induction false} OnlyShortFields(vs: seq<Value>, ts: seq<Type>, rest: seq<Cell>)
    requires |vs| == |ts| && forall i | 0 <= i < |vs| :: HasType(vs[i], ts[i])
    requires var r := DecodeFields(ts, EncodeAll(vs) + rest); r.Decoded? && r.value == vs
    ensures forall i | 0 <= i < |vs| :: Short(vs[i])
    decreases vs
  {
    hide Short, HasType, Encode, Decode;
    if vs != [] {
      var others := EncodeAll(vs[1..]) + rest;
      assert EncodeAll(vs) + rest == Encode(vs[0]) + others;
      OnlyShortReadsBack(vs[0], ts[0], others);
      ReadsBack(vs[0], ts[0], others);
      OnlyShortFields(vs[1..], ts[1..], rest);
    }
  }

  // ---------------------------------------------------------------- the codec at work

  /** IpcEncodeBindAttr */
  method EncodeAttr(p: Parcel, v: Value)
    requires p.Valid()
    modifies p`cells
    ensures p.Valid() && p.cells == old(p.cells) + Encode(v)
    decreases v
  {
    match v {
      case Scalar(kind, n) => p.Write(kind, n);
      case Str(text) => p.WriteCell(Text(text));
      case Vec(items) =>
        p.Write(Int32, Convert(Int32, |items|));
        ghost var before := p.cells;
        var i := 0;
        while i < |items|
          invariant 0 <= i <= |items| && p.Valid()
          invariant p.cells + EncodeAll(items[i..]) == before + EncodeAll(items)
        {
          ghost var soFar := p.cells;
          EncodeAttr(p, items[i]);
          assert items[i..][1..] == items[i + 1..];
          EncodedNext(soFar, items[i..]);
          i := i + 1;
        }
        assert items[i..] == [];
        EncodedVector(old(p.cells), items);
      case Struct(fields) => Serialize(p, fields);
    }
  }

  lemma EncodedNext(before: seq<Cell>, vs: seq<Value>)
    requires vs != []
    ensures before + EncodeAll(vs) == (before + Encode(vs[0])) + EncodeAll(vs[1..])
  {
  }

  lemma EncodedVector(before: seq<Cell>, items: seq<Value>)
    ensures before + Encode(Vec(items)) ==
            (before + [WordOf(Int32, Convert(Int32, |items|))]) + EncodeAll(items)
  {
  }

  /** IpcSerialize over the list of attributes. */
  method Serialize(p: Parcel, attributes: seq<Value>)
    requires p.Valid()
    modifies p`cells
    ensures p.Valid() && p.cells == old(p.cells) + EncodeAll(attributes)
    decreases attributes
  {
    if attributes != [] {
      ghost var before := p.cells;
      EncodeAttr(p, attributes[0]);
      Serialize(p, attributes[1..]);
      EncodedNext(before, attributes);
    }
  }

  /** IpcDecodeBindAttr: an attribute of the given type, if it could be read. */
  method DecodeAttr(p: Parcel, t: Type) returns (ok: bool, v: Value)
    requires p.Valid()
    modifies p`readPos
    ensures p.Valid() && Decode(t, old(p.Rest())) == if ok then Decoded(v, p.Rest()) else Failed(p.Rest())
    decreases t
  {
    ok, v := false, Struct([]);
    match t {
      case ScalarType(kind) =>
        var n;
        ok, n := p.Read(kind);
        v := Scalar(kind, n);
      case StringType =>
        var s;
        ok, s := p.ReadText();
        v := Str(s);
      case VectorType(element) =>
        var size;
        ok, size := p.Read(Int32);
        if !ok || size < 0 {
          return false, v;
        }
        ghost var start := p.Rest();
        var items: seq<Value> := [];
        AheadNone(DecodeMany(element, size, start));
        while |items| < size
          invariant p.Valid() && |items| <= size
          invariant DecodeMany(element, size, start) == Ahead(items, DecodeMany(element, size - |items|, p.Rest()))
        {
          ghost var before := p.Rest();
          ghost var left := size - |items|;
          var item;
          ok, item := DecodeAttr(p, element);
          if !ok {
            return;
          }
          AheadOne(items, item, DecodeMany(element, left - 1, p.Rest()));
          items := items + [item];
        }
        assert items + [] == items;
        return true, Vec(items);
      case StructType(fields) =>
        var values;
        ok, values := Deserialize(p, fields);
        v := Struct(values);
    }
  }

  function Ahead(vs: seq<Value>, others: Decoded<seq<Value>>): Decoded<seq<Value>> {
    if others.Failed? then others else Decoded(vs + others.value, others.rest)
  }

  lemma AheadNone(others: Decoded<seq<Value>>)
    ensures Ahead([], others) == others
  {
    if others.Decoded? {
      assert [] + others.value == others.value;
    }
  }

  lemma AheadOne(vs: seq<Value>, v: Value, others: Decoded<seq<Value>>)
    ensures Ahead(vs, Before(v, others)) == Ahead(vs + [v], others)
  {
    if others.Decoded? {
      assert vs + ([v] + others.value) == (vs + [v]) + others.value;
    }
  }

  /** IpcDeserialize over the list of attributes. */
  method Deserialize(p: Parcel, types: seq<Type>) returns (ok: bool, values: seq<Value>)
    requires p.Valid()
    modifies p`readPos
    ensures p.Valid()
    ensures DecodeFields(types, old(p.Rest())) == if ok then Decoded(values, p.Rest()) else Failed(p.Rest())
    decreases types
  {
    if types == [] {
      return true, [];
    }
    var first, others;
    ok, first := DecodeAttr(p, types[0]);
    if !ok {
      return false, [];
    }
    ok, others := Deserialize(p, types[1..]);
    values := [first] + others;
  }
}
