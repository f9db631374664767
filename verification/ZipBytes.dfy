/**
 Little-endian fields, and the two stream objects of the archive code: an
 output file with a position that can seek back, and a reader that walks a
 byte buffer.
 */
module ZipBytes {
  import opened Prelude

  type U16 = n: nat | n <= U16_MAX
  type U32 = n: nat | n <= U32_MAX

  /** A 16-bit field, least significant byte first. */
  function LE16(n: U16): (r: Bytes)
    ensures |r| == 2
  {
    [n % 0x100, n / 0x100]
  }

  function LE32(n: U32): (r: Bytes)
    ensures |r| == 4
  {
    LE16(n % 0x1_0000) + LE16(n / 0x1_0000)
  }

  function At16(s: Bytes, i: nat): (n: U16)
    requires i + 2 <= |s|
  {
    var low: int, high: int := s[i], s[i + 1];
    low + high * 0x100
  }

  function At32(s: Bytes, i: nat): (n: U32)
    requires i + 4 <= |s|
  {
    At16(s, i) + At16(s, i + 2) * 0x1_0000
  }

  lemma ReadBack16(s: Bytes, i: nat, n: U16)
    requires i + 2 <= |s| && s[i..i + 2] == LE16(n)
    ensures At16(s, i) == n
  {
    assert s[i] == s[i..i + 2][0] && s[i + 1] == s[i..i + 2][1];
  }

  lemma ReadBack32(s: Bytes, i: nat, n: U32)
    requires i + 4 <= |s| && s[i..i + 4] == LE32(n)
    ensures At32(s, i) == n
  {
    assert s[i..i + 2] == s[i..i + 4][..2] == LE16(n % 0x1_0000);
    assert s[i + 2..i + 4] == s[i..i + 4][2..] == LE16(n / 0x1_0000);
    ReadBack16(s, i, n % 0x1_0000);
    ReadBack16(s, i + 2, n / 0x1_0000);
  }

  /** A field read inside a piece of a longer byte string. */
  lemma Within(s: Bytes, start: nat, piece: Bytes, i: nat)
    requires start + |piece| <= |s| && s[start..start + |piece|] == piece
    ensures i + 2 <= |piece| ==> At16(s, start + i) == At16(piece, i)
    ensures i + 4 <= |piece| ==> At32(s, start + i) == At32(piece, i)
  {
    forall j | i <= j < i + 4 && j < |piece|
      ensures s[start + j] == piece[j]
    {
      assert s[start + j] == s[start..start + |piece|][j];
    }
  }

  /** `data` with `bytes` written over it from `pos` on. */
  function Overwritten(data: Bytes, pos: nat, bytes: Bytes): (r: Bytes)
    requires pos <= |data|
  {
    data[..pos] + bytes + if pos + |bytes| <= |data| then data[pos + |bytes|..] else []
  }

  /** A file open for binary output. */
  class OutputFile {
    var data: Bytes
    var pos: nat

    ghost predicate Valid()
      reads this
    {
      pos <= |data|
    }

    /** Positioned at the end, as after every write that is not a patch. */
    ghost predicate AtEnd()
      reads this
    {
      pos == |data|
    }

    constructor ()
      ensures Valid() && AtEnd() && data == []
    {
      data, pos := [], 0;
    }

    method Seek(target: nat)
      requires target <= |data|
      modifies this`pos
      ensures pos == target
    {
      pos := target;
    }

    method Write(bytes: Bytes)
      requires Valid()
      modifies this
      ensures Valid() && pos == old(pos) + |bytes|
      ensures old(AtEnd()) ==> AtEnd() && data == old(data) + bytes
      ensures !old(AtEnd()) ==> data == Overwritten(old(data), old(pos), bytes)
    {
      data := data[..pos] + bytes + if pos + |bytes| <= |data| then data[pos + |bytes|..] else [];
      pos := pos + |bytes|;
      assert old(AtEnd()) ==> data == old(data) + bytes;
    }

    method WriteU16(value: U16)
      requires Valid()
      modifies this
      ensures Valid() && pos == old(pos) + 2
      ensures old(AtEnd()) ==> AtEnd() && data == old(data) + LE16(value)
      ensures !old(AtEnd()) ==> data == Overwritten(old(data), old(pos), LE16(value))
    {
      Write([value % 0x100, value / 0x100 % 0x100]);
    }

    method WriteU32(value: U32)
      requires Valid()
      modifies this
      ensures Valid() && pos == old(pos) + 4
      ensures old(AtEnd()) ==> AtEnd() && data == old(data) + LE32(value)
      ensures !old(AtEnd()) ==> data == Overwritten(old(data), old(pos), LE32(value))
    {
      Bytes32(value);
      Write([value % 0x100, value / 0x100 % 0x100, value / 0x1_0000 % 0x100, value / 0x100_0000 % 0x100]);
    }
  }

  /** Least significant byte first. */
  lemma Bytes32(n: U32)
    ensures LE32(n) == [n % 0x100, n / 0x100 % 0x100, n / 0x1_0000 % 0x100, n / 0x100_0000 % 0x100]
  {
    var low, high := n % 0x1_0000, n / 0x1_0000;
    var a, b, c, d := low % 0x100, low / 0x100, high % 0x100, high / 0x100;
    assert n == a + 0x100 * (b + 0x100 * (c + 0x100 * d));
    assert n / 0x100 == b + 0x100 * (c + 0x100 * d);
    assert n / 0x1_0000 == c + 0x100 * d;
    assert n / 0x100_0000 == d;
    assert n % 0x100 == a && n / 0x100 % 0x100 == b && n / 0x1_0000 % 0x100 == c && d % 0x100 == d;
  }

  /** Walks a buffer; every read that would leave it is refused. */
  class ByteReader {
    const data: Bytes
    var offset: nat

    ghost predicate Valid()
      reads this
    {
      offset <= |data|
    }

    constructor (bytes: Bytes)
      ensures data == bytes && offset == 0
    {
      data := bytes;
      offset := 0;
    }

    function Remaining(): (n: nat)
      requires Valid()
      reads this
    {
      |data| - offset
    }

    method ReadU16() returns (r: Option<U16>)
      requires Valid()
      modifies this`offset
      ensures Valid()
      ensures r == if old(offset) + 2 <= |data| then Some(At16(data, old(offset))) else None
      ensures offset == if r.Some? then old(offset) + 2 else old(offset)
    {
      if 2 > Remaining() {
        return None;
      }
      var low: int, high: int := data[offset], data[offset + 1];
      r := Some(low + high * 0x100);
      offset := offset + 2;
    }

    method ReadU32() returns (r: Option<U32>)
      requires Valid()
      modifies this`offset
      ensures Valid()
      ensures r == if old(offset) + 4 <= |data| then Some(At32(data, old(offset))) else None
      ensures offset == if r.Some? then old(offset) + 4 else old(offset)
    {
      if 4 > Remaining() {
        return None;
      }
      var b0: int, b1: int, b2: int, b3: int := data[offset], data[offset + 1], data[offset + 2], data[offset + 3];
      r := Some(b0 + b1 * 0x100 + b2 * 0x1_0000 + b3 * 0x100_0000);
      offset := offset + 4;
    }

    method ReadString(size: nat) returns (r: Option<Bytes>)
      requires Valid()
      modifies this`offset
      ensures Valid()
      ensures r == if old(offset) + size <= |data| then Some(data[old(offset)..old(offset) + size]) else None
      ensures offset == if r.Some? then old(offset) + size else old(offset)
    {
      if size > Remaining() {
        return None;
      }
      r := Some(data[offset..offset + size]);
      offset := offset + size;
    }

    method Skip(size: nat) returns (ok: bool)
      requires Valid()
      modifies this`offset
      ensures Valid()
      ensures ok <==> old(offset) + size <= |data|
      ensures offset == if ok then old(offset) + size else old(offset)
    {
      if size > Remaining() {
        return false;
      }
      offset := offset + size;
      return true;
    }
  }
}
