/**
 * The message parcel: a queue of cells. A scalar is stored as its bits, so that the signed and the unsigned type of
 * one width read each other's cells.
 */
module Parcels {
  datatype Kind = Bool | Int8 | Int16 | Int32 | Int64 | Uint8 | Uint16 | Uint32 | Uint64 | Float | Double

  datatype Width = W1 | W8 | W16 | W32 | W64 | F32 | F64

  datatype Cell = Word(width: Width, bits: nat) | Text(text: string) | Remote(object_: nat)

  function WidthOf(kind: Kind): Width {
    match kind
    case Bool => W1
    case Int8 => W8
    case Uint8 => W8
    case Int16 => W16
    case Uint16 => W16
    case Int32 => W32
    case Uint32 => W32
    case Int64 => W64
    case Uint64 => W64
    case Float => F32
    case Double => F64
  }

  /** How many values the width has. */
  function Modulus(width: Width): (m: nat)
    ensures m >= 2 && m % 2 == 0
  {
    match width
    case W1 => 2
    case W8 => 0x100
    case W16 => 0x1_0000
    case W32 => 0x1_0000_0000
    case F32 => 0x1_0000_0000
    case W64 => 0x1_0000_0000_0000_0000
    case F64 => 0x1_0000_0000_0000_0000
  }

  predicate Signed(kind: Kind) {
    kind.Int8? || kind.Int16? || kind.Int32? || kind.Int64?
  }

  /** The values of the type; those of the floating types are named by their bit patterns. */
  predicate InRange(kind: Kind, n: int) {
    var m := Modulus(WidthOf(kind));
    if Signed(kind) then -(m / 2) <= n < m / 2 else 0 <= n < m
  }

  /** Conversion to the type, which wraps around. */
  function Convert(kind: Kind, n: int): (r: int)
    ensures InRange(kind, r)
    ensures r % Modulus(WidthOf(kind)) == n % Modulus(WidthOf(kind))
    ensures InRange(kind, n) ==> r == n
  {
    var m := Modulus(WidthOf(kind));
    var b := n % m;
    ModuloFacts(n, WidthOf(kind));
    if Signed(kind) && b >= m / 2 then b - m else b
  }

  lemma ModuloFacts(n: int, width: Width)
    ensures var m: int := Modulus(width);
            && 0 <= n % m < m && (0 <= n < m ==> n % m == n) && (-m <= n < 0 ==> n % m == n + m)
            && (n % m - m) % m == n % m && n % m % m == n % m
  {
    match width
    case W1 =>
    case W8 =>
    case W16 =>
    case W32 =>
    case W64 =>
    case F32 =>
    case F64 =>
  }

  function WordOf(kind: Kind, n: int): Cell {
    Word(WidthOf(kind), n % Modulus(WidthOf(kind)))
  }

  predicate Readable(kind: Kind, cells: seq<Cell>) {
    cells != [] && cells[0].Word? && cells[0].width == WidthOf(kind)
  }

  /** A written value reads back as the same value of a type of the same width. */
  lemma WordReadsBack(kind: Kind, n: int)
    requires InRange(kind, n)
    ensures Convert(kind, WordOf(kind, n).bits) == n
  {
    ModuloFacts(n, WidthOf(kind));
  }

  class Parcel {
    var cells: seq<Cell>
    var readPos: nat

    ghost predicate Valid()
      reads this
    {
      readPos <= |cells|
    }

    /** What is left to read. */
    function Rest(): seq<Cell>
      requires Valid()
      reads this
    {
      cells[readPos..]
    }

    constructor ()
      ensures Valid() && Rest() == [] && cells == []
    {
      cells, readPos := [], 0;
    }

    method WriteCell(c: Cell)
      requires Valid()
      modifies `cells
      ensures Valid() && cells == old(cells) + [c] && Rest() == old(Rest()) + [c]
    {
      cells := cells + [c];
    }

    method Write(kind: Kind, n: int)
      requires Valid()
      modifies `cells
      ensures Valid() && cells == old(cells) + [WordOf(kind, n)] && Rest() == old(Rest()) + [WordOf(kind, n)]
    {
      WriteCell(WordOf(kind, n));
    }

    /** Reads a value of the given type; a cell of another width is left alone. */
    method Read(kind: Kind) returns (ok: bool, n: int)
      requires Valid()
      modifies `readPos
      ensures Valid() && ok == Readable(kind, old(Rest()))
      ensures ok ==> Rest() == old(Rest())[1..] && n == Convert(kind, old(Rest())[0].bits)
      ensures !ok ==> Rest() == old(Rest())
    {
      if readPos < |cells| && cells[readPos].Word? && cells[readPos].width == WidthOf(kind) {
        ok, n := true, Convert(kind, cells[readPos].bits);
        readPos := readPos + 1;
      } else {
        ok, n := false, 0;
      }
    }

    method ReadText() returns (ok: bool, s: string)
      requires Valid()
      modifies `readPos
      ensures Valid() && ok == (old(Rest()) != [] && old(Rest())[0].Text?)
      ensures ok ==> Rest() == old(Rest())[1..] && s == old(Rest())[0].text
      ensures !ok ==> Rest() == old(Rest())
    {
      if readPos < |cells| && cells[readPos].Text? {
        ok, s := true, cells[readPos].text;
        readPos := readPos + 1;
      } else {
        ok, s := false, "";
      }
    }

    method ReadRemote() returns (ok: bool, o: nat)
      requires Valid()
      modifies `readPos
      ensures Valid() && ok == (old(Rest()) != [] && old(Rest())[0].Remote?)
      ensures ok ==> Rest() == old(Rest())[1..] && o == old(Rest())[0].object_
      ensures !ok ==> Rest() == old(Rest())
    {
      if readPos < |cells| && cells[readPos].Remote? {
        ok, o := true, cells[readPos].object_;
        readPos := readPos + 1;
      } else {
        ok, o := false, 0;
      }
    }
  }
}
