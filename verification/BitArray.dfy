/** bit_char.c: booleans packed eight to a byte. */
module BitArray {
  import opened Matrix

  predicate BitOf(b: bv8, r: nat)
    requires r < 8
  {
    b & ((1 as bv8) << r) != 0
  }

  /** bit_array_get on a byte sequence. */
  predicate GetBit(bytes: seq<bv8>, place: nat)
    requires place < 8 * |bytes|
  {
    BitOf(bytes[place / 8], place % 8)
  }

  /** bit_array_set on a byte sequence. */
  function SetBit(bytes: seq<bv8>, place: nat): seq<bv8>
    requires place < 8 * |bytes|
  {
    bytes[place / 8 := bytes[place / 8] | ((1 as bv8) << (place % 8))]
  }

  /** The booleans a byte sequence stands for. */
  function Contents(bytes: seq<bv8>): (bits: seq<bool>)
    ensures |bits| == 8 * |bytes|
  {
    seq(8 * |bytes|, place requires 0 <= place < 8 * |bytes| => GetBit(bytes, place))
  }

  /** The value of bit r of a byte. */
  function BitValue(r: nat): bv8
    requires r < 8
  {
    match r
    case 0 => 1
    case 1 => 2
    case 2 => 4
    case 3 => 8
    case 4 => 16
    case 5 => 32
    case 6 => 64
    case _ => 128
  }

  lemma MaskIsValue(r: nat)
    requires r < 8
    ensures (1 as bv8) << r == BitValue(r)
  {
  }

  lemma OrSetsOneBit(b: bv8, r: nat, q: nat)
    requires r < 8 && q < 8
    ensures BitOf(b | ((1 as bv8) << r), q) == (q == r || BitOf(b, q))
  {
    MaskIsValue(r);
    MaskIsValue(q);
  }

  /** Although a whole byte is rewritten, exactly one logical bit can change. */
  lemma SetChangesOneBit(bytes: seq<bv8>, place: nat)
    requires place < 8 * |bytes|
    ensures |SetBit(bytes, place)| == |bytes|
    ensures Contents(SetBit(bytes, place)) == Contents(bytes)[place := true]
  {
    forall q | 0 <= q < 8 * |bytes|
      ensures GetBit(SetBit(bytes, place), q) == (q == place || GetBit(bytes, q))
    {
      OrSetsOneBit(bytes[place / 8], place % 8, q % 8);
    }
  }

  /** A place is the bit of value 2 to its remainder in the byte of its quotient. */
  lemma BitValues(bytes: seq<bv8>, place: nat)
    requires place < 8 * |bytes|
    ensures SetBit(bytes, place) == bytes[place / 8 := bytes[place / 8] | BitValue(place % 8)]
    ensures GetBit(bytes, place) <==> bytes[place / 8] & BitValue(place % 8) != 0
  {
    MaskIsValue(place % 8);
  }

  lemma ZeroHasNoBits(count: nat)
    ensures Contents(seq(count, x => 0 as bv8)) == seq(8 * count, x => false)
  {
  }

  class Array {
    var bytes: array<bv8>

    /** bit_array_create: size bits, all clear. */
    constructor (size: nat)
      ensures bytes.Length == size / 8 + 1 && fresh(bytes)
      ensures forall place :: 0 <= place < 8 * bytes.Length ==> !Contents(bytes[..])[place]
    {
      bytes := new bv8[size / 8 + 1](x => 0);
      new;
      ZeroHasNoBits(size / 8 + 1);
      assert bytes[..] == seq(size / 8 + 1, x => 0 as bv8);
    }

    method Set(place: nat)
      requires place < 8 * bytes.Length
      modifies bytes
      ensures bytes[..] == SetBit(old(bytes[..]), place)
      ensures Contents(bytes[..]) == old(Contents(bytes[..]))[place := true]
    {
      SetChangesOneBit(bytes[..], place);
      bytes[place / 8] := bytes[place / 8] | ((1 as bv8) << (place % 8));
    }

    method Get(place: nat) returns (bit: nat)
      requires place < 8 * bytes.Length
      ensures bit == if Contents(bytes[..])[place] then 1 else 0
      ensures bit == if GetBit(bytes[..], place) then 1 else 0
    {
      if bytes[place / 8] & ((1 as bv8) << (place % 8)) != 0 {
        bit := 1;
      } else {
        bit := 0;
      }
    }
  }

  // --------------------------------------------------- the matrix in the bits

  predicate HoldsMatrix(n: nat, bytes: seq<bv8>) {
    |bytes| == n * n / 8 + 1
  }

  /** Every cell index lies inside the bytes bit_array_create(n*n) allocates. */
  lemma CellFits(n: nat, bytes: seq<bv8>, i: nat, j: nat)
    requires HoldsMatrix(n, bytes) && i < n && j < n
    ensures Index(n, i, j) < n * n < 8 * |bytes|
  {
  }

  /** Different cells use different bits. */
  lemma CellsDistinct(n: nat, i: nat, j: nat, a: nat, b: nat)
    requires i < n && j < n && a < n && b < n && Index(n, i, j) == Index(n, a, b)
    ensures i == a && j == b
  {
  }

  /** The packed bytes as an n*n matrix of 0 and 1. */
  function Unpack(n: nat, bytes: seq<bv8>): (m: seq<int>)
    requires HoldsMatrix(n, bytes)
    ensures |m| == n * n
  {
    seq(n * n, x requires 0 <= x < n * n => Truth(Contents(bytes)[x]))
  }

  lemma UnpackedCell(n: nat, bytes: seq<bv8>, i: nat, j: nat)
    requires HoldsMatrix(n, bytes) && i < n && j < n
    ensures Index(n, i, j) < 8 * |bytes|
    ensures Cell(n, Unpack(n, bytes), i, j) == GetBit(bytes, Index(n, i, j))
  {
  }

  /** Setting one packed bit writes one cell and no other, even of a neighbouring row. */
  lemma UnpackAfterSet(n: nat, bytes: seq<bv8>, i: nat, j: nat)
    requires HoldsMatrix(n, bytes) && i < n && j < n
    ensures Index(n, i, j) < 8 * |bytes|
    ensures HoldsMatrix(n, SetBit(bytes, Index(n, i, j)))
    ensures Unpack(n, SetBit(bytes, Index(n, i, j))) == Unpack(n, bytes)[Index(n, i, j) := 1]
  {
    SetChangesOneBit(bytes, Index(n, i, j));
  }
}
