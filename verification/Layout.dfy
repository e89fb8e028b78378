/** How a torrent is cut into pieces and a piece into 16 KiB blocks. */
module Layout {
  import opened Arith
  import opened Bytes

  const BLOCK_SIZE: nat := 16384

  /** The fields of a torrent that the download depends on. `sha1` stands for the digest. */
  datatype Torrent = Torrent(length: nat, pieceLength: nat, hashes: Bytes, sha1: Bytes -> Bytes)
  {
    function Count(): nat
      requires pieceLength > 0
    {
      PieceCount(length, pieceLength)
    }

    /** Twenty digest bytes for every piece. */
    ghost predicate Valid() {
      pieceLength > 0 && 20 * Count() <= |hashes|
    }

    function Hash(i: nat): Bytes
      requires Valid() && i < Count()
    {
      hashes[20 * i..20 * (i + 1)]
    }
  }

  function PieceCount(total: nat, pieceLen: nat): (n: nat)
    requires pieceLen > 0
  {
    (total + pieceLen - 1) / pieceLen
  }

  /** Length of piece i: all but the last have the nominal length. */
  function PieceLength(total: nat, pieceLen: nat, i: nat): (len: nat)
    requires pieceLen > 0 && i < PieceCount(total, pieceLen)
    ensures 0 < len <= pieceLen
    ensures i * pieceLen + len <= total
    ensures i + 1 < PieceCount(total, pieceLen) ==> len == pieceLen
    ensures i + 1 == PieceCount(total, pieceLen) ==> i * pieceLen + len == total
  {
    PieceCountBounds(total, pieceLen, i);
    if i == PieceCount(total, pieceLen) - 1 then total - i * pieceLen else pieceLen
  }

  /** The bytes of piece i in the whole data. */
  function PieceBytes(data: Bytes, pieceLen: nat, i: nat): (p: Bytes)
    requires pieceLen > 0 && i < PieceCount(|data|, pieceLen)
    ensures |p| == PieceLength(|data|, pieceLen, i)
  {
    var len := PieceLength(|data|, pieceLen, i);
    data[i * pieceLen..i * pieceLen + len]
  }

  function BlockCount(len: nat): (n: nat)
    ensures len <= n * BLOCK_SIZE < len + BLOCK_SIZE
  {
    (len + BLOCK_SIZE - 1) / BLOCK_SIZE
  }

  function BlockLength(len: nat, b: nat): (n: nat)
    requires b < BlockCount(len)
    ensures 0 < n <= BLOCK_SIZE
    ensures b * BLOCK_SIZE + n <= len
    ensures b + 1 < BlockCount(len) ==> n == BLOCK_SIZE
    ensures b + 1 == BlockCount(len) ==> b * BLOCK_SIZE + n == len
  {
    if b * BLOCK_SIZE + BLOCK_SIZE > len then len - b * BLOCK_SIZE else BLOCK_SIZE
  }

  lemma PieceCountBounds(total: nat, pieceLen: nat, i: nat)
    requires pieceLen > 0 && i < PieceCount(total, pieceLen)
    ensures i * pieceLen < total
    ensures i + 1 < PieceCount(total, pieceLen) ==> (i + 1) * pieceLen < total
    ensures i + 1 == PieceCount(total, pieceLen) ==> total <= (i + 1) * pieceLen
    ensures (i + 1) * pieceLen == i * pieceLen + pieceLen
  {
    var n := PieceCount(total, pieceLen);
    assert total + pieceLen - 1 == n * pieceLen + (total + pieceLen - 1) % pieceLen;
    MulMonotone(i, n - 1, pieceLen);
    if i + 1 < n {
      MulMonotone(i + 1, n - 1, pieceLen);
    }
  }

  /** Offset x of the whole file lies in block b of piece i. */
  ghost predicate InBlock(total: nat, pieceLen: nat, i: nat, b: nat, x: nat)
    requires pieceLen > 0
  {
    i < PieceCount(total, pieceLen) &&
    var len := PieceLength(total, pieceLen, i);
    b < BlockCount(len) &&
    i * pieceLen + b * BLOCK_SIZE <= x < i * pieceLen + b * BLOCK_SIZE + BlockLength(len, b)
  }

  /** The piece, and the block in it, that offset x belongs to. */
  function PieceAt(x: nat, pieceLen: nat): nat
    requires pieceLen > 0
  {
    x / pieceLen
  }

  function BlockAt(x: nat, pieceLen: nat): nat
    requires pieceLen > 0
  {
    x % pieceLen / BLOCK_SIZE
  }

  /** The blocks of all pieces tile [0, total): every offset is in one block and only one. */
  lemma BlocksTile(total: nat, pieceLen: nat, x: nat)
    requires pieceLen > 0
    ensures x < total ==> InBlock(total, pieceLen, PieceAt(x, pieceLen), BlockAt(x, pieceLen), x)
    ensures forall i: nat, b: nat :: InBlock(total, pieceLen, i, b, x) ==>
              x < total && i == PieceAt(x, pieceLen) && b == BlockAt(x, pieceLen)
  {
    if x < total {
      PieceOf(total, pieceLen, x);
    }
    forall i: nat, b: nat | InBlock(total, pieceLen, i, b, x)
      ensures x < total && i == PieceAt(x, pieceLen) && b == BlockAt(x, pieceLen)
    {
      InBlockUnique(total, pieceLen, i, b, x);
    }
  }

  lemma InBlockUnique(total: nat, pieceLen: nat, i: nat, b: nat, x: nat)
    requires pieceLen > 0 && InBlock(total, pieceLen, i, b, x)
    ensures x < total && i == PieceAt(x, pieceLen) && b == BlockAt(x, pieceLen)
  {
    QuotientUnique(x, i, pieceLen);
  }

  /** The piece holding offset x is x / pieceLen, and it is a real piece. */
  lemma PieceOf(total: nat, pieceLen: nat, x: nat)
    requires pieceLen > 0 && x < total
    ensures x / pieceLen < PieceCount(total, pieceLen)
    ensures x / pieceLen * pieceLen + x % pieceLen == x
    ensures x % pieceLen < PieceLength(total, pieceLen, x / pieceLen)
  {
    var i, n := x / pieceLen, PieceCount(total, pieceLen);
    assert x == i * pieceLen + x % pieceLen;
    assert total + pieceLen - 1 == n * pieceLen + (total + pieceLen - 1) % pieceLen;
    if n <= i {
      MulMonotone(n, i, pieceLen);
    }
  }
}
