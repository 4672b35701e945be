/** A scene format: a map from keys to typed values, and its journey through a parcel. */
module SceneFormats {
  import opened Bytes
  import opened Parcels

  datatype FormatData =
    | NoData
    | AddrData
    | Number(kind: Kind, n: int)
    | StringData(text: string)
    | ObjectData(object_: nat)

  type FormatMap = map<string, FormatData>

  const SIZE_LIMIT := 100

  const FORMAT_TYPE_NONE := 0
  const FORMAT_TYPE_ADDR := 10

  /** The number that stands for the type in a parcel; there is none for the kinds that a format cannot hold. */
  function TypeCode(d: FormatData): nat {
    match d
    case NoData => FORMAT_TYPE_NONE
    case AddrData => FORMAT_TYPE_ADDR
    case StringData(_) => 9
    case ObjectData(_) => 11
    case Number(kind, _) =>
      match kind
      case Bool => 1
      case Uint16 => 2
      case Int32 => 3
      case Uint32 => 4
      case Int64 => 5
      case Uint64 => 6
      case Float => 7
      case Double => 8
      case _ => FORMAT_TYPE_NONE
  }

  function KindOf(code: nat): (k: Kind)
    requires 1 <= code <= 8
    ensures TypeCode(Number(k, 0)) == code
  {
    match code
    case 1 => Bool
    case 2 => Uint16
    case 3 => Int32
    case 4 => Uint32
    case 5 => Int64
    case 6 => Uint64
    case 7 => Float
    case _ => Double
  }

  predicate Encodable(d: FormatData) {
    TypeCode(d) != FORMAT_TYPE_NONE && TypeCode(d) != FORMAT_TYPE_ADDR
  }

  /** A value that the put operations can have stored, or that has no type at all. */
  predicate ValidData(d: FormatData) {
    d.Number? ==> Encodable(d) && InRange(d.kind, d.n)
  }

  ghost predicate ValidMap(m: FormatMap) {
    forall k | k in m :: ValidData(m[k])
  }

  /** insert: an entry that is there already stays. */
  function Put(m: FormatMap, key: string, d: FormatData): FormatMap {
    if key in m then m else m[key := d]
  }

  // ---------------------------------------------------------------- marshalling

  /** The type in which a number travels: an unsigned 64-bit number is written as a signed one. */
  function WrittenAs(kind: Kind): Kind {
    if kind == Uint64 then Int64 else kind
  }

  function ValueCell(d: FormatData): Cell
    requires Encodable(d)
  {
    match d
    case Number(kind, n) => WordOf(WrittenAs(kind), Convert(WrittenAs(kind), n))
    case StringData(text) => Text(text)
    case ObjectData(o) => Remote(o)
  }

  function EntryCells(key: string, d: FormatData): seq<Cell> {
    [Text(key), WordOf(Uint32, TypeCode(d))] + if Encodable(d) then [ValueCell(d)] else []
  }

  /** An entry is its key, the number of its type, and the value in a cell of that type; two types have no value. */
  lemma KnownEntries(k: string, text: string, o: nat)
    ensures EntryCells(k, NoData) == [Text(k), Word(W32, 0)] && EntryCells(k, AddrData) == [Text(k), Word(W32, 10)]
    ensures EntryCells(k, StringData(text)) == [Text(k), Word(W32, 9), Text(text)]
    ensures EntryCells(k, ObjectData(o)) == [Text(k), Word(W32, 11), Remote(o)]
  {
  }

  /** The numbers of the scalar types, and the width of the cells their values travel in. */
  predicate TravelsAs(kind: Kind, code: nat, width: Width) {
    || (kind == Bool && code == 1 && width == W1)
    || (kind == Uint16 && code == 2 && width == W16)
    || (kind == Int32 && code == 3 && width == W32)
    || (kind == Uint32 && code == 4 && width == W32)
    || (kind == Int64 && code == 5 && width == W64)
    || (kind == Uint64 && code == 6 && width == W64)
    || (kind == Float && code == 7 && width == F32)
    || (kind == Double && code == 8 && width == F64)
  }

  lemma KnownNumbers(k: string, kind: Kind, n: int, code: nat, width: Width)
    requires TravelsAs(kind, code, width) && InRange(kind, n)
    ensures EntryCells(k, Number(kind, n)) ==
            [Text(k), Word(W32, code), Word(width, if n >= 0 then n else n + Modulus(width))]
  {
    NumberReadsBack(kind, n);
    WordReadsBack(Uint32, code);
    SameWidth(kind, n, width);
    hide Convert, Modulus;
    assert code % Modulus(W32) == code by { SmallCode(code); }
  }

  lemma SmallCode(code: nat)
    requires code < 16
    ensures code % Modulus(W32) == code
  {
  }

  lemma SameWidth(kind: Kind, n: int, width: Width)
    requires InRange(kind, n) && WidthOf(kind) == width && WidthOf(WrittenAs(kind)) == width
    ensures Convert(WrittenAs(kind), n) % Modulus(width) == if n >= 0 then n else n + Modulus(width)
  {
    ModuloFacts(n, width);
  }

  /** The entries in the order of `keys`, up to the first one that cannot be written. */
  function EntriesCells(m: FormatMap, keys: seq<string>): seq<Cell>
    requires forall k | k in keys :: k in m
  {
    if keys == [] then []
    else EntryCells(keys[0], m[keys[0]]) + if Encodable(m[keys[0]]) then EntriesCells(m, keys[1..]) else []
  }

  function Marshal(m: FormatMap, keys: seq<string>): seq<Cell>
    requires forall k | k in keys :: k in m
  {
    [WordOf(Uint32, Convert(Uint32, |m|))] + EntriesCells(m, keys)
  }

  ghost predicate AllEncodable(m: FormatMap, keys: seq<string>) {
    forall k | k in keys :: k in m && Encodable(m[k])
  }

  /** `keys` lists the keys of the map, each one once. */
  ghost predicate Enumerates(keys: seq<string>, m: FormatMap) {
    && (forall k :: k in keys <==> k in m)
    && (forall i, j | 0 <= i < j < |keys| :: keys[i] != keys[j])
  }

  // ---------------------------------------------------------------- unmarshalling

  datatype Unmarshalled = Unmarshalled(format: FormatMap, rest: seq<Cell>, ok: bool)

  function ReadValue(code: nat, p: seq<Cell>): (r: (bool, FormatData, seq<Cell>))
    ensures r.0 ==> Encodable(r.1) && p != [] && r.2 == p[1..]
  {
    if 1 <= code <= 8 then
      if Readable(KindOf(code), p) then (true, Number(KindOf(code), Convert(KindOf(code), p[0].bits)), p[1..])
      else (false, NoData, p)
    else if code == 9 then
      if p != [] && p[0].Text? then (true, StringData(p[0].text), p[1..]) else (false, NoData, p)
    else if code == 11 then
      if p != [] && p[0].Remote? then (true, ObjectData(p[0].object_), p[1..]) else (false, NoData, p)
    else (false, NoData, p)
  }

  function ReadEntry(format: FormatMap, p: seq<Cell>): Unmarshalled {
    if p == [] || !p[0].Text? then Unmarshalled(format, p, false)
    else if !Readable(Uint32, p[1..]) then Unmarshalled(format, p[1..], false)
    else
      var v := ReadValue(Convert(Uint32, p[1].bits), p[2..]);
      Unmarshalled(if v.0 then Put(format, p[0].text, v.1) else format, v.2, v.0)
  }

  function ReadEntries(format: FormatMap, count: nat, p: seq<Cell>): Unmarshalled
    decreases count
  {
    if count == 0 then Unmarshalled(format, p, true)
    else
      var r := ReadEntry(format, p);
      if !r.ok then r else ReadEntries(r.format, count - 1, r.rest)
  }

  function Unmarshal(format: FormatMap, p: seq<Cell>): Unmarshalled {
    if !Readable(Uint32, p) then Unmarshalled(format, p, false)
    else
      var size := Convert(Uint32, p[0].bits);
      if size > SIZE_LIMIT then Unmarshalled(format, p[1..], false) else ReadEntries(format, size, p[1..])
  }

  /**
   * A number of entries above 100 is refused at once, and an entry of a type without a value, or of no known type,
   * ends the reading with failure; what was read before stays.
   */
  lemma BadInputEnds(format: FormatMap, n: nat, key: string, code: nat, p: seq<Cell>)
    requires n < 0x1_0000_0000 && code < 0x1_0000_0000
    ensures n > 100 ==> Unmarshal(format, [Word(W32, n)] + p) == Unmarshalled(format, p, false)
    ensures code == 0 || code == 10 || code > 11 ==>
              ReadEntry(format, [Text(key), Word(W32, code)] + p) == Unmarshalled(format, p, false)
    ensures code == 0 || code == 10 || code > 11 ==>
              ReadEntries(format, n + 1, [Text(key), Word(W32, code)] + p) == Unmarshalled(format, p, false)
  {
    WordReadsBack(Uint32, n);
    WordReadsBack(Uint32, code);
    var cells := [Text(key), Word(W32, code)] + p;
    assert cells[2..] == p && cells[1..][0] == cells[1] && ([Word(W32, n)] + p)[1..] == p;
  }

  // ---------------------------------------------------------------- the round trip

  /** The entries of `m` under `keys`, put one after the other. */
  function PutAll(format: FormatMap, m: FormatMap, keys: seq<string>): FormatMap
    requires forall k | k in keys :: k in m
    decreases |keys|
  {
    if keys == [] then format else PutAll(Put(format, keys[0], m[keys[0]]), m, keys[1..])
  }

  /** An unsigned number survives being written as a signed one. */
  lemma NumberReadsBack(kind: Kind, n: int)
    requires InRange(kind, n)
    ensures var c := WordOf(WrittenAs(kind), Convert(WrittenAs(kind), n));
            c.width == WidthOf(kind) && Convert(kind, c.bits) == n
  {
    WordReadsBack(kind, n);
    var bits := WordOf(kind, n).bits;
    assert WordOf(WrittenAs(kind), Convert(WrittenAs(kind), n)).bits == bits;
  }

  lemma CodeReadsBack(d: FormatData)
    ensures WordOf(Uint32, TypeCode(d)).width == WidthOf(Uint32)
    ensures Convert(Uint32, WordOf(Uint32, TypeCode(d)).bits) == TypeCode(d)
  {
    WordReadsBack(Uint32, TypeCode(d));
  }

  lemma ValueReadsBack(d: FormatData, rest: seq<Cell>)
    requires ValidData(d) && Encodable(d)
    ensures ReadValue(TypeCode(d), [ValueCell(d)] + rest) == (true, d, rest)
  {
    var p := [ValueCell(d)] + rest;
    assert p[1..] == rest;
    if d.Number? {
      assert KindOf(TypeCode(d)) == d.kind;
      NumberReadsBack(d.kind, d.n);
    }
  }

  /** Reading one entry that was written: either it is put into the format, or reading ends there. */
  lemma EntryReadsBack(format: FormatMap, key: string, d: FormatData, rest: seq<Cell>)
    requires ValidData(d)
    ensures var r := ReadEntry(format, EntryCells(key, d) + rest);
            if Encodable(d) then r == Unmarshalled(Put(format, key, d), rest, true) else !r.ok
  {
    var p := EntryCells(key, d) + rest;
    CodeReadsBack(d);
    assert p[0] == Text(key) && p[1] == WordOf(Uint32, TypeCode(d)) && p[1..][0] == p[1];
    if Encodable(d) {
      ValueReadsBack(d, rest);
      assert p[2..] == [ValueCell(d)] + rest;
    }
  }

  lemma {:induction false} EntriesReadBack(format: FormatMap, m: FormatMap, keys: seq<string>, rest: seq<Cell>)
    requires (forall k | k in keys :: k in m) && ValidMap(m)
    ensures var r := ReadEntries(format, |keys|, EntriesCells(m, keys) + rest);
            if AllEncodable(m, keys) then r == Unmarshalled(PutAll(format, m, keys), rest, true) else !r.ok
    decreases |keys|
  {
    hide EntryCells, Put, Encodable, ReadEntry;
    if keys == [] {
      assert EntriesCells(m, keys) + rest == rest;
    } else {
      var d := m[keys[0]];
      var others := (if Encodable(d) then EntriesCells(m, keys[1..]) else []) + rest;
      assert EntriesCells(m, keys) + rest == EntryCells(keys[0], d) + others;
      EntryReadsBack(format, keys[0], d, others);
      assert AllEncodable(m, keys) <==> Encodable(d) && AllEncodable(m, keys[1..]) by {
        assert keys == [keys[0]] + keys[1..];
      }
      if Encodable(d) {
        EntriesReadBack(Put(format, keys[0], d), m, keys[1..], rest);
      }
    }
  }

  /** What is read into a format that holds something already: an existing entry wins over one from the parcel. */
  function Merged(format: FormatMap, m: FormatMap): FormatMap {
    m + format
  }

  lemma {:induction false} PutAllMerges(format: FormatMap, m: FormatMap, keys: seq<string>)
    requires forall k | k in keys :: k in m
    ensures PutAll(format, m, keys).Keys == format.Keys + set k | k in keys
    ensures forall k | k in PutAll(format, m, keys) ::
              PutAll(format, m, keys)[k] == if k in format then format[k] else m[k]
    decreases |keys|
  {
    if keys != [] {
      PutAllMerges(Put(format, keys[0], m[keys[0]]), m, keys[1..]);
      assert keys == [keys[0]] + keys[1..];
    }
  }

  lemma {:induction false} ListedKeys(keys: seq<string>, m: FormatMap)
    requires Enumerates(keys, m)
    ensures |keys| == |m|
    decreases |keys|
  {
    hide Enumerates;
    if keys == [] {
      NothingListed(m);
    } else {
      WithoutFirst(keys, m);
      ListedKeys(keys[1..], m - {keys[0]});
    }
  }

  lemma NothingListed(m: FormatMap)
    requires Enumerates([], m)
    ensures |m| == 0
  {
    assert m.Keys == {};
  }

  lemma WithoutFirst(keys: seq<string>, m: FormatMap)
    requires Enumerates(keys, m) && keys != []
    ensures Enumerates(keys[1..], m - {keys[0]}) && |m - {keys[0]}| == |m| - 1
  {
    var k, others := keys[0], keys[1..];
    var rest := m - {k};
    assert keys == [k] + others;
    assert k !in others by {
      assert forall i | 0 <= i < |others| :: others[i] == keys[i + 1];
    }
    assert m.Keys == rest.Keys + {k};
  }

  lemma EntryAddsOne(format: FormatMap, p: seq<Cell>)
    ensures |ReadEntry(format, p).format| <= |format| + 1
  {
    var r := ReadEntry(format, p).format;
    if r != format {
      assert r.Keys == format.Keys + {p[0].text};
    }
  }

  /** Reading can add no more entries than it is told to read. */
  lemma {:induction false} ReadsAtMost(format: FormatMap, count: nat, p: seq<Cell>)
    ensures |ReadEntries(format, count, p).format| <= |format| + count
    decreases count
  {
    hide ReadEntry;
    if count > 0 {
      var r := ReadEntry(format, p);
      EntryAddsOne(format, p);
      if r.ok {
        ReadsAtMost(r.format, count - 1, r.rest);
      }
    }
  }

  /**
   * A map of at most 100 entries of encodable types is merged, in whatever order it was written, into the format
   * that reads it, and exactly its cells are consumed. Any other map of at most 100 entries is refused.
   */
  lemma UnmarshalMerges(format: FormatMap, m: FormatMap, keys: seq<string>, rest: seq<Cell>)
    requires Enumerates(keys, m) && ValidMap(m) && |m| <= SIZE_LIMIT
    ensures var r := Unmarshal(format, Marshal(m, keys) + rest);
            if AllEncodable(m, keys) then r == Unmarshalled(Merged(format, m), rest, true) else !r.ok
  {
    hide EntriesCells, ReadEntries, PutAll;
    var p := Marshal(m, keys) + rest;
    ListedKeys(keys, m);
    WordReadsBack(Uint32, |m|);
    assert p[0] == WordOf(Uint32, |m|) && p[1..] == EntriesCells(m, keys) + rest;
    EntriesReadBack(format, m, keys, rest);
    AllPutIsMerged(format, m, keys);
  }

  lemma AllPutIsMerged(format: FormatMap, m: FormatMap, keys: seq<string>)
    requires forall k :: k in keys <==> k in m
    ensures PutAll(format, m, keys) == Merged(format, m)
  {
    PutAllMerges(format, m, keys);
    assert PutAll(format, m, keys).Keys == Merged(format, m).Keys;
  }

  /** The round trip into an empty format succeeds if and only if there are at most 100 entries, all encodable. */
  lemma RoundTrip(m: FormatMap, keys: seq<string>, rest: seq<Cell>)
    requires Enumerates(keys, m) && ValidMap(m)
    ensures Unmarshal(map[], Marshal(m, keys) + rest) == Unmarshalled(m, rest, true) <==>
            |m| <= SIZE_LIMIT && AllEncodable(m, keys)
  {
    if |m| <= SIZE_LIMIT {
      UnmarshalMerges(map[], m, keys, rest);
      assert Merged(map[], m) == m;
    } else {
      var p := Marshal(m, keys) + rest;
      if Readable(Uint32, p) && Convert(Uint32, p[0].bits) <= SIZE_LIMIT {
        ReadsAtMost(map[], Convert(Uint32, p[0].bits), p[1..]);
      }
    }
  }

  // ---------------------------------------------------------------- the objects

  class SceneFormat {
    var formatMap: FormatMap

    constructor ()
      ensures formatMap == map[]
    {
      formatMap := map[];
    }

    /** The Put operations: says whether the value was inserted. */
    method PutValue(key: string, d: FormatData) returns (inserted: bool)
      modifies this
      ensures formatMap == Put(old(formatMap), key, d) && inserted == (key !in old(formatMap))
    {
      inserted := key !in formatMap;
      if inserted {
        formatMap := formatMap[key := d];
      }
    }
  }

  /** Writes the value of an entry behind its type; a value without an encodable type cannot be written. */
  method WriteValue(p: Parcel, d: FormatData) returns (ok: bool)
    requires p.Valid()
    modifies p`cells
    ensures p.Valid() && ok == Encodable(d)
    ensures p.cells == old(p.cells) + if ok then [ValueCell(d)] else []
  {
    if TypeCode(d) == FORMAT_TYPE_NONE || TypeCode(d) == FORMAT_TYPE_ADDR {
      return false;
    }
    match d {
      case Number(kind, n) =>
        if kind == Uint64 {
          p.Write(Int64, Convert(Int64, n));
        } else {
          p.Write(kind, Convert(kind, n));
        }
      case StringData(text) => p.WriteCell(Text(text));
      case ObjectData(o) => p.WriteCell(Remote(o));
      case _ =>
    }
    return true;
  }

  method WriteEntry(p: Parcel, key: string, d: FormatData) returns (ok: bool)
    requires p.Valid()
    modifies p`cells
    ensures p.Valid() && ok == Encodable(d) && p.cells == old(p.cells) + EntryCells(key, d)
  {
    p.WriteCell(Text(key));
    p.Write(Uint32, TypeCode(d));
    ok := WriteValue(p, d);
  }

  /** Writes the entries in some order, `keys`, and stops at the first one that cannot be written. */
  method Marshalling(p: Parcel, format: SceneFormat) returns (ok: bool, ghost keys: seq<string>)
    requires p.Valid()
    modifies p`cells
    ensures p.Valid() && Enumerates(keys, format.formatMap)
    ensures p.cells == old(p.cells) + Marshal(format.formatMap, keys)
    ensures ok <==> AllEncodable(format.formatMap, keys)
  {
    hide EntriesCells, EntryCells, Encodable, Enumerates, Convert, WordOf;
    var dataMap := format.formatMap;
    p.Write(Uint32, Convert(Uint32, |dataMap|));
    ghost var start := p.cells;
    var todo := dataMap.Keys;
    keys := [];
    NoKeys(dataMap);
    while todo != {}
      invariant p.Valid() && todo <= dataMap.Keys && Enumerates(keys, dataMap - todo)
      invariant AllEncodable(dataMap, keys) && p.cells == start + EntriesCells(dataMap, keys)
      decreases |todo|
    {
      var key :| key in todo;
      ok := WriteEntry(p, key, dataMap[key]);
      OneMoreKey(dataMap, keys, todo, key);
      OneMoreEntry(dataMap, keys, key);
      ConcatAssociates(start, EntriesCells(dataMap, keys), EntryCells(key, dataMap[key]));
      todo := todo - {key};
      if !ok {
        ghost var rest := ListKeys(todo);
        Completed(dataMap, keys + [key], todo, rest);
        EntriesStop(dataMap, keys, key, rest);
        keys := keys + [key] + rest;
        MarshalStarts(dataMap, keys, old(p.cells));
        return;
      }
      keys := keys + [key];
    }
    assert dataMap - {} == dataMap;
    MarshalStarts(dataMap, keys, old(p.cells));
    return true, keys;
  }

  lemma NoKeys(m: FormatMap)
    ensures Enumerates([], m - m.Keys) && EntriesCells(m, []) == []
  {
  }

  lemma MarshalStarts(m: FormatMap, keys: seq<string>, before: seq<Cell>)
    requires forall k | k in keys :: k in m
    ensures before + Marshal(m, keys) == (before + [WordOf(Uint32, Convert(Uint32, |m|))]) + EntriesCells(m, keys)
  {
  }

  /** Reads one entry and puts it into the format. */
  method UnmarshalEntry(p: Parcel, format: SceneFormat) returns (ok: bool)
    requires p.Valid()
    modifies p`readPos, format
    ensures p.Valid() && ReadEntry(old(format.formatMap), old(p.Rest())) == Unmarshalled(format.formatMap, p.Rest(), ok)
  {
    hide ReadValue, Put;
    var key, code, d;
    ok, key := p.ReadText();
    if !ok {
      return;
    }
    ok, code := p.Read(Uint32);
    if !ok {
      return;
    }
    assert p.Rest() == old(p.Rest())[2..];
    ok, d := UnmarshalValue(p, code);
    if ok {
      var _ := format.PutValue(key, d);
    }
  }

  /** Puts what the parcel holds into the format, entry by entry. */
  method Unmarshalling(p: Parcel, format: SceneFormat) returns (ok: bool)
    requires p.Valid()
    modifies p`readPos, format
    ensures p.Valid() && Unmarshal(old(format.formatMap), old(p.Rest())) == Unmarshalled(format.formatMap, p.Rest(), ok)
  {
    hide ReadEntry;
    var size;
    ok, size := p.Read(Uint32);
    if !ok || size > SIZE_LIMIT {
      return false;
    }
    ghost var first := p.Rest();
    var index := 0;
    while index < size
      invariant 0 <= index <= size && p.Valid()
      invariant ReadEntries(old(format.formatMap), size, first) ==
                ReadEntries(format.formatMap, size - index, p.Rest())
    {
      ok := UnmarshalEntry(p, format);
      if !ok {
        return;
      }
      index := index + 1;
    }
    return true;
  }

  /** Reads the value that the type in front of it announces. */
  method UnmarshalValue(p: Parcel, code: nat) returns (ok: bool, d: FormatData)
    requires p.Valid()
    modifies p`readPos
    ensures p.Valid() && ReadValue(code, old(p.Rest())) == (ok, d, p.Rest())
  {
    ok, d := false, NoData;
    if 1 <= code <= 8 {
      var n;
      ok, n := p.Read(KindOf(code));
      d := if ok then Number(KindOf(code), n) else NoData;
    } else if code == 9 {
      var s;
      ok, s := p.ReadText();
      d := if ok then StringData(s) else NoData;
    } else if code == 11 {
      var o;
      ok, o := p.ReadRemote();
      d := if ok then ObjectData(o) else NoData;
    }
  }

  // ---------------------------------------------------------------- lists of keys

  ghost function ListKeys(s: set<string>): (keys: seq<string>)
    ensures forall k :: k in keys <==> k in s
    ensures forall i, j | 0 <= i < j < |keys| :: keys[i] != keys[j]
    decreases |s|
  {
    if s == {} then []
    else
      var k :| k in s;
      var rest := ListKeys(s - {k});
      [k] + rest
  }

  lemma OneMoreKey(m: FormatMap, keys: seq<string>, todo: set<string>, key: string)
    requires todo <= m.Keys && Enumerates(keys, m - todo) && key in todo
    ensures Enumerates(keys + [key], m - (todo - {key}))
  {
    forall k
      ensures k in keys + [key] <==> k in m - (todo - {key})
    {
      assert k in keys + [key] <==> k in keys || k == key;
    }
    assert key !in keys;
  }

  lemma Completed(m: FormatMap, keys: seq<string>, todo: set<string>, rest: seq<string>)
    requires todo <= m.Keys && Enumerates(keys, m - todo)
    requires (forall k :: k in rest <==> k in todo) && forall i, j | 0 <= i < j < |rest| :: rest[i] != rest[j]
    ensures Enumerates(keys + rest, m)
  {
    var all := keys + rest;
    forall k
      ensures k in all <==> k in m
    {
      assert k in all <==> k in keys || k in rest;
    }
    forall i, j | 0 <= i < j < |all|
      ensures all[i] != all[j]
    {
      assert i < |keys| ==> keys[i] in keys;
      assert j >= |keys| ==> rest[j - |keys|] in rest;
    }
  }

  lemma {:induction false} EntriesAppend(m: FormatMap, a: seq<string>, b: seq<string>)
    requires AllEncodable(m, a) && forall k | k in b :: k in m
    ensures (forall k | k in a + b :: k in m) && EntriesCells(m, a + b) == EntriesCells(m, a) + EntriesCells(m, b)
    decreases |a|
  {
    hide EntryCells;
    if a == [] {
      assert a + b == b;
    } else {
      EntriesAppend(m, a[1..], b);
      assert (a + b)[1..] == a[1..] + b;
      assert EntriesCells(m, a + b) == EntryCells(a[0], m[a[0]]) + (EntriesCells(m, a[1..]) + EntriesCells(m, b));
    }
  }

  lemma OneMoreEntry(m: FormatMap, keys: seq<string>, key: string)
    requires AllEncodable(m, keys) && key in m
    ensures EntriesCells(m, keys + [key]) == EntriesCells(m, keys) + EntryCells(key, m[key])
  {
    EntriesAppend(m, keys, [key]);
    LastEntry(m, key, []);
  }

  lemma LastEntry(m: FormatMap, key: string, rest: seq<string>)
    requires key in m && (rest == [] || !Encodable(m[key])) && forall k | k in rest :: k in m
    ensures EntriesCells(m, [key] + rest) == EntryCells(key, m[key])
  {
    hide EntryCells, Encodable;
    var keys := [key] + rest;
    assert keys[0] == key && keys[1..] == rest;
    assert EntriesCells(m, []) == [];
  }

  /** Nothing is written behind the first entry that cannot be written. */
  lemma EntriesStop(m: FormatMap, keys: seq<string>, key: string, rest: seq<string>)
    requires AllEncodable(m, keys) && key in m && !Encodable(m[key]) && forall k | k in rest :: k in m
    ensures forall k | k in keys + [key] + rest :: k in m
    ensures EntriesCells(m, keys + [key] + rest) == EntriesCells(m, keys + [key])
    ensures !AllEncodable(m, keys + [key] + rest)
  {
    hide EntriesCells, EntryCells, Encodable;
    OneMoreEntry(m, keys, key);
    EntriesAppend(m, keys, [key] + rest);
    LastEntry(m, key, rest);
    assert keys + [key] + rest == keys + ([key] + rest);
    assert (keys + [key] + rest)[|keys|] == key;
  }
}
