/** The block splitter (internal/client/encryption/File.go). */
module Blocks {
  import opened Basics

  const BLOCK_SIZE: nat := 512

  /** How many blocks of 512 bytes `n` bytes take. */
  function CeilDiv(n: nat): nat {
    (n + 511) / 512
  }

  function Min(a: int, b: int): int {
    if a < b then a else b
  }

  /** Cut after every 512 bytes, and at the end. */
  function Chunk(data: Bytes): (blocks: seq<Bytes>)
    decreases |data|
  {
    if data == [] then []
    else if |data| <= BLOCK_SIZE then [data]
    else [data[..BLOCK_SIZE]] + Chunk(data[BLOCK_SIZE..])
  }

  lemma {:induction false} ChunkFlatten(data: Bytes)
    ensures Flatten(Chunk(data)) == data
    decreases |data|
  {
    if data == [] {
    } else if |data| <= BLOCK_SIZE {
      FlattenOne(data);
    } else {
      ChunkFlatten(data[BLOCK_SIZE..]);
      assert Chunk(data)[1..] == Chunk(data[BLOCK_SIZE..]);
    }
  }

  /** Every block but the last is full, and none is empty. */
  lemma {:induction false} ChunkShape(data: Bytes)
    ensures |Chunk(data)| == CeilDiv(|data|)
    ensures forall j :: 0 <= j < |Chunk(data)| ==> 1 <= |Chunk(data)[j]| <= 512
    ensures forall j :: 0 <= j < |Chunk(data)| - 1 ==> |Chunk(data)[j]| == 512
    decreases |data|
  {
    if |data| > BLOCK_SIZE {
      ChunkShape(data[BLOCK_SIZE..]);
    }
  }

  /** Block `j` of the recursive cut is the slice that the index loop copies. */
  lemma {:induction false} ChunkAt(data: Bytes, j: nat)
    requires j < CeilDiv(|data|)
    ensures j < |Chunk(data)|
    ensures j * BLOCK_SIZE < |data|
    ensures Chunk(data)[j] == data[j * BLOCK_SIZE..Min((j + 1) * BLOCK_SIZE, |data|)]
    decreases |data|
  {
    ChunkShape(data);
    if j > 0 {
      var rest := data[BLOCK_SIZE..];
      ChunkAt(rest, j - 1);
      assert (j - 1) * BLOCK_SIZE == j * BLOCK_SIZE - BLOCK_SIZE;
      assert (j + 1) * BLOCK_SIZE == j * BLOCK_SIZE + BLOCK_SIZE;
      assert Min((j + 1) * BLOCK_SIZE, |data|) == BLOCK_SIZE + Min(j * BLOCK_SIZE, |rest|);
      assert rest[(j - 1) * BLOCK_SIZE..Min(j * BLOCK_SIZE, |rest|)] ==
             data[j * BLOCK_SIZE..Min((j + 1) * BLOCK_SIZE, |data|)];
    }
  }

  method ByteToBlock(data: Bytes) returns (blocks: seq<Bytes>)
    ensures blocks == Chunk(data)
  {
    var size := |data|;
    var blockNum := (size + BLOCK_SIZE - 1) / BLOCK_SIZE;
    blocks := [];
    ChunkShape(data);
    for i := 0 to blockNum
      invariant blocks == Chunk(data)[..i]
    {
      var start := i * BLOCK_SIZE;
      var end := start + BLOCK_SIZE;
      if end > size {
        end := size;
      }
      ChunkAt(data, i);
      blocks := blocks + [data[start..end]];
    }
  }

  method BlockYToByte(blocks: Option<seq<Bytes>>, totalSize: int) returns (data: Bytes)
    ensures blocks.None? ==> data == []
    ensures blocks.Some? ==>
              var all := Flatten(blocks.value);
              data == if totalSize <= 0 then [] else all[..Min(totalSize, |all|)]
  {
    if totalSize <= 0 || blocks.None? || |blocks.value| == 0 {
      return [];
    }
    var parts := blocks.value;
    data := [];
    for i := 0 to |parts|
      invariant data == Flatten(parts[..i])
    {
      assert parts[..i + 1] == parts[..i] + [parts[i]];
      FlattenSnoc(parts[..i], parts[i]);
      data := data + parts[i];
    }
    assert parts[..|parts|] == parts;
    if |data| > totalSize {
      data := data[..totalSize];
    }
  }

  /** Splitting and joining with any size `n` yields the first `n` bytes. */
  method RoundTrip(data: Bytes, n: int) returns (joined: Bytes)
    ensures joined == if n <= 0 then [] else data[..Min(n, |data|)]
  {
    var blocks := ByteToBlock(data);
    joined := BlockYToByte(Some(blocks), n);
    ChunkFlatten(data);
  }

  /** A short last block costs at most one block when more data follows. */
  lemma CeilDivSum(a: nat, b: nat)
    ensures CeilDiv(a + b) <= CeilDiv(a) + CeilDiv(b) <= CeilDiv(a + b) + 1
  {
  }
}
