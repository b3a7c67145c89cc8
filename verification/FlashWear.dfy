/** The flash wear workload: erase, program and verify one block after another, round and round the
    partition, on a NOR flash whose cells an erase sets and a write can only clear. */
module FlashWear {
  import Arithmetic

  const BLOCK := 4096
  const ERASED: bv8 := 0xFF
  // The flash address space; block offsets stay far from 32-bit overflow.
  const MAX_PARTITION := 0x4000_0000

  type Block = b: seq<bv8> | |b| == BLOCK witness seq(BLOCK, _ => 0)

  // What one round of the loop meets: the random data, whether each driver call succeeds, and what a
  // failed erase or write leaves in the block.
  datatype Round = Round(data: Block, eraseOk: bool, writeOk: bool, readOk: bool, debris: Block)
  {
    predicate Clean() {
      eraseOk && writeOk && readOk
    }

    function Left(): Block {
      if eraseOk && writeOk then data else debris
    }
  }

  class Partition {
    const cells: array<bv8>
    const wear: array<nat>

    ghost predicate Valid()
      reads this
    {
      && cells.Length <= MAX_PARTITION
      && wear.Length == cells.Length / BLOCK
    }

    constructor (size: nat)
      requires size <= MAX_PARTITION
      ensures Valid() && cells.Length == size && fresh(cells) && fresh(wear)
    {
      cells := new bv8[size];
      wear := new nat[size / BLOCK];
    }

    /** Sets every cell of a block, and counts the erase; refused beyond the partition's end. */
    method Erase(offset: nat, works: bool, debris: Block) returns (ok: bool)
      requires Valid() && offset % BLOCK == 0
      modifies cells, wear
      ensures offset + BLOCK > cells.Length ==> !ok && cells[..] == old(cells[..]) && wear[..] == old(wear[..])
      ensures offset + BLOCK <= cells.Length ==>
                && ok == works
                && cells[..] == Splice(old(cells[..]), offset, if works then seq(BLOCK, _ => ERASED) else debris)
                && wear[..] == old(wear[..])[offset / BLOCK := old(wear[offset / BLOCK]) + 1]
    {
      if offset + BLOCK > cells.Length {
        return false;
      }
      wear[offset / BLOCK] := wear[offset / BLOCK] + 1;
      Fill(offset, if works then seq(BLOCK, _ => ERASED) else debris);
      return works;
    }

    /** Programs a block: each cell keeps only the bits that both it and the data have set. */
    method Write(offset: nat, data: Block, works: bool, debris: Block) returns (ok: bool)
      requires Valid() && offset + BLOCK <= cells.Length
      modifies cells
      ensures ok == works
      ensures cells[..] == Splice(old(cells[..]), offset,
                                  if works then Programmed(old(cells[offset..offset + BLOCK]), data) else debris)
    {
      ghost var was := cells[..];
      if !works {
        Fill(offset, debris);
        return false;
      }
      var i := 0;
      while i < BLOCK
        invariant 0 <= i <= BLOCK
        invariant forall j :: 0 <= j < cells.Length && !(offset <= j < offset + i) ==> cells[j] == was[j]
        invariant forall j :: 0 <= j < i ==> cells[offset + j] == (was[offset + j] & data[j])
      {
        cells[offset + i] := cells[offset + i] & data[i];
        i := i + 1;
      }
      assert cells[..] == Splice(was, offset, Programmed(was[offset..offset + BLOCK], data));
      return true;
    }

    method Fill(offset: nat, content: Block)
      requires offset + BLOCK <= cells.Length
      modifies cells
      ensures cells[..] == Splice(old(cells[..]), offset, content)
    {
      ghost var was := cells[..];
      var i := 0;
      while i < BLOCK
        invariant 0 <= i <= BLOCK
        invariant forall j :: 0 <= j < cells.Length && !(offset <= j < offset + i) ==> cells[j] == was[j]
        invariant forall j :: 0 <= j < i ==> cells[offset + j] == content[j]
      {
        cells[offset + i] := content[i];
        i := i + 1;
      }
      assert cells[..] == Splice(was, offset, content);
    }
  }

  function Programmed(cells: Block, data: Block): Block {
    seq(BLOCK, i requires 0 <= i < BLOCK => cells[i] & data[i])
  }

  function Splice(cells: seq<bv8>, offset: nat, content: Block): seq<bv8>
    requires offset + BLOCK <= |cells|
  {
    cells[..offset] + content + cells[offset + BLOCK..]
  }

  /** An erased block takes any data exactly. */
  lemma ErasedTakesAll(data: Block)
    ensures Programmed(seq(BLOCK, _ => ERASED), data) == data
  {
  }

  lemma SpliceTwice(cells: seq<bv8>, offset: nat, a: Block, b: Block)
    requires offset + BLOCK <= |cells|
    ensures Splice(Splice(cells, offset, a), offset, b) == Splice(cells, offset, b)
    ensures Splice(cells, offset, a)[offset..offset + BLOCK] == a
  {
  }

  /** How many rounds succeed before the first that does not. */
  function CleanRounds(rounds: seq<Round>): (n: nat)
    ensures n <= |rounds|
    ensures forall k :: 0 <= k < n ==> rounds[k].Clean()
    ensures n < |rounds| ==> !rounds[n].Clean()
  {
    if rounds == [] || !rounds[0].Clean() then 0 else 1 + CleanRounds(rounds[1..])
  }

  /** The partition after n rounds: round k leaves its data in block k modulo the number of blocks. */
  function After(cells: seq<bv8>, rounds: seq<Round>, n: nat): (r: seq<bv8>)
    requires n <= |rounds| && |cells| >= BLOCK
    ensures |r| == |cells|
  {
    if n == 0 then cells
    else
      InBounds(|cells|, n - 1);
      Splice(After(cells, rounds, n - 1), BlockOf(|cells|, n - 1) * BLOCK, rounds[n - 1].Left())
  }

  /** The completed turns and the block after k rounds over so many blocks. */
  function Position(blocks: nat, k: nat): (p: (nat, nat))
    requires blocks > 0
    ensures p.1 < blocks
  {
    if k == 0 then (0, 0)
    else
      var (turns, b) := Position(blocks, k - 1);
      if b + 1 < blocks then (turns, b + 1) else (turns + 1, 0)
  }

  function BlockOf(size: nat, k: nat): nat
    requires size >= BLOCK
  {
    Position(size / BLOCK, k).1
  }

  /** Round k is at block k modulo the number of blocks. */
  lemma {:induction false} PositionIsQuotient(blocks: nat, k: nat)
    requires blocks > 0
    ensures k == Position(blocks, k).0 * blocks + Position(blocks, k).1
    ensures Position(blocks, k).1 == k % blocks
  {
    if k > 0 {
      PositionIsQuotient(blocks, k - 1);
      var turns := Position(blocks, k - 1).0;
      OneMoreTurn(turns, blocks);
    }
    Arithmetic.DivModUnique(k, blocks, Position(blocks, k).0, Position(blocks, k).1);
  }

  lemma OneMoreTurn(turns: nat, blocks: nat)
    ensures (turns + 1) * blocks == turns * blocks + blocks
  {
  }

  lemma InBounds(size: nat, k: nat)
    requires size >= BLOCK
    ensures BlockOf(size, k) < size / BLOCK && BlockOf(size, k) * BLOCK + BLOCK <= size
  {
  }

  /** The inside of one round. The data read back always match: only a driver failure, or a block past
      the end, makes the round fail. */
  method EraseWriteVerify(partition: Partition, offset: nat, r: Round) returns (ok: bool)
    requires partition.Valid() && offset % BLOCK == 0
    modifies partition.cells, partition.wear
    ensures offset + BLOCK > partition.cells.Length ==>
              !ok && partition.cells[..] == old(partition.cells[..]) && partition.wear[..] == old(partition.wear[..])
    ensures offset + BLOCK <= partition.cells.Length ==>
              && ok == r.Clean()
              && partition.cells[..] == Splice(old(partition.cells[..]), offset, r.Left())
              && partition.wear[..] == old(partition.wear[..])[offset / BLOCK := old(partition.wear[offset / BLOCK]) + 1]
  {
    ghost var was := partition.cells[..];
    var erased := partition.Erase(offset, r.eraseOk, r.debris);
    if !erased { return false; }
    SpliceTwice(was, offset, seq(BLOCK, _ => ERASED), r.Left());
    ErasedTakesAll(r.data);
    assert partition.cells[offset..offset + BLOCK] == partition.cells[..][offset..offset + BLOCK];
    var written := partition.Write(offset, r.data, r.writeOk, r.debris);
    if !written { return false; }
    SpliceTwice(was, offset, r.data, r.data);
    var back := partition.cells[offset..offset + BLOCK];
    assert back == partition.cells[..][offset..offset + BLOCK];
    return r.readOk && back == r.data;
  }

  /** Where the loop's offset stands before its test, k rounds on. */
  function NextOffset(size: nat, k: nat): nat
    requires size >= BLOCK
  {
    if k == 0 then 0 else BlockOf(size, k - 1) * BLOCK + BLOCK
  }

  /** The loop's own rule, back to zero when no whole block is left, takes the blocks in turn. */
  lemma OffsetGoesRound(size: nat, k: nat)
    requires size >= BLOCK
    ensures BlockOf(size, k) * BLOCK == if NextOffset(size, k) + BLOCK > size then 0 else NextOffset(size, k)
  {
  }

  /** How many rounds get as far as the flash: the clean ones, and the first that is not. */
  function Tried(rounds: seq<Round>): (n: nat)
    ensures n <= |rounds|
  {
    if CleanRounds(rounds) < |rounds| then CleanRounds(rounds) + 1 else |rounds|
  }

  /** partition_cycle: the rounds end with the deadline or an abort, which the list's end stands for.
      A partition that is missing or running, or for want of memory, is left alone. */
  method PartitionCycle(partition: Partition?, running: bool, haveBuffers: bool, rounds: seq<Round>, aborted: bool)
    returns (ok: bool, bytes: nat)
    requires partition != null ==> partition.Valid()
    modifies if partition != null then {partition.cells, partition.wear} else {}
    ensures partition == null || running || !haveBuffers ==> !ok && bytes == 0
    ensures partition != null && (running || !haveBuffers) ==>
              partition.cells[..] == old(partition.cells[..]) && partition.wear[..] == old(partition.wear[..])
    ensures partition != null && !running && haveBuffers && partition.cells.Length < BLOCK ==>
              && ok == (rounds == [] && !aborted) && bytes == 0
              && partition.cells[..] == old(partition.cells[..])
    ensures partition != null && !running && haveBuffers && partition.cells.Length >= BLOCK ==>
              && ok == (CleanRounds(rounds) == |rounds| && !aborted)
              && bytes == 4096 * CleanRounds(rounds)
              && partition.cells[..] == After(old(partition.cells[..]), rounds, Tried(rounds))
              && WornBy(partition.wear[..], old(partition.wear[..]), partition.cells.Length, Tried(rounds))
  {
    ok, bytes := false, 0;
    if partition == null || running || !haveBuffers { return; }
    if partition.cells.Length >= BLOCK {
      ok, bytes := WearLoop(partition, rounds);
    } else {
      ok := TooSmall(partition, rounds);
    }
    ok := ok && !aborted;
  }

  /** The loop on a partition of at least one block. */
  method WearLoop(partition: Partition, rounds: seq<Round>) returns (ok: bool, bytes: nat)
    requires partition.Valid() && partition.cells.Length >= BLOCK
    modifies partition.cells, partition.wear
    ensures ok == (CleanRounds(rounds) == |rounds|) && bytes == BLOCK * CleanRounds(rounds)
    ensures partition.cells[..] == After(old(partition.cells[..]), rounds, Tried(rounds))
    ensures WornBy(partition.wear[..], old(partition.wear[..]), partition.cells.Length, Tried(rounds))
  {
    ok, bytes := true, 0;
    var offset, k := 0, 0;
    ghost var was, wear, size := partition.cells[..], partition.wear[..], partition.cells.Length;
    while k < |rounds|
      invariant 0 <= k <= |rounds| && bytes == BLOCK * k && ok
      invariant offset == NextOffset(size, k)
      invariant forall j :: 0 <= j < k ==> rounds[j].Clean()
      invariant partition.cells[..] == After(was, rounds, k)
      invariant WornBy(partition.wear[..], wear, size, k)
    {
      if offset + BLOCK > partition.cells.Length {
        offset := 0;
      }
      OffsetGoesRound(size, k);
      var good := RoundAt(partition, offset, rounds, k, was, wear);
      if !good {
        CleanRoundsAre(rounds, k);
        return false, bytes;
      }
      offset := offset + BLOCK;
      bytes := bytes + BLOCK;
      k := k + 1;
    }
    CleanRoundsAre(rounds, k);
  }

  /** Round k of the loop. */
  method RoundAt(partition: Partition, offset: nat, rounds: seq<Round>, k: nat, ghost was: seq<bv8>, ghost wear: seq<nat>)
    returns (good: bool)
    requires partition.Valid() && partition.cells.Length == |was| >= BLOCK && k < |rounds|
    requires offset == BlockOf(|was|, k) * BLOCK
    requires partition.cells[..] == After(was, rounds, k) && WornBy(partition.wear[..], wear, |was|, k)
    modifies partition.cells, partition.wear
    ensures good == rounds[k].Clean()
    ensures partition.cells[..] == After(was, rounds, k + 1) && WornBy(partition.wear[..], wear, |was|, k + 1)
  {
    InBounds(|was|, k);
    WornByOneMore(partition.wear[..], wear, |was|, k);
    assert offset / BLOCK == BlockOf(|was|, k);
    good := EraseWriteVerify(partition, offset, rounds[k]);
  }

  /** The loop on a partition smaller than a block: the first erase is refused. */
  method TooSmall(partition: Partition, rounds: seq<Round>) returns (ok: bool)
    requires partition.Valid() && partition.cells.Length < BLOCK
    modifies partition.cells, partition.wear
    ensures ok == (rounds == []) && partition.cells[..] == old(partition.cells[..])
  {
    ok := true;
    if rounds != [] {
      ok := EraseWriteVerify(partition, 0, rounds[0]);
    }
  }

  /** Each block's erase count has grown by the rounds at it. */
  ghost predicate WornBy(wear: seq<nat>, before: seq<nat>, size: nat, n: nat)
    requires size >= BLOCK
  {
    && |wear| == |before| == size / BLOCK
    && forall b :: 0 <= b < |wear| ==> wear[b] == before[b] + Erases(size, n, b)
  }

  lemma WornByOneMore(wear: seq<nat>, before: seq<nat>, size: nat, n: nat)
    requires size >= BLOCK && WornBy(wear, before, size, n)
    ensures WornBy(wear[BlockOf(size, n) := wear[BlockOf(size, n)] + 1], before, size, n + 1)
  {
  }

  lemma CleanRoundsAre(rounds: seq<Round>, k: nat)
    requires k <= |rounds| && forall j :: 0 <= j < k ==> rounds[j].Clean()
    requires k < |rounds| ==> !rounds[k].Clean()
    ensures CleanRounds(rounds) == k
  {
  }

  // ---- What the rounds add up to ----------------------------------------------------------

  /** How often block b has been erased after n rounds. */
  function Erases(size: nat, n: nat, b: nat): nat
    requires size >= BLOCK
  {
    if n == 0 then 0 else Erases(size, n - 1, b) + if BlockOf(size, n - 1) == b then 1 else 0
  }

  /** Wear is level: each full turn erases every block once, and the blocks before the present
      position are one ahead. */
  lemma {:induction false} WearIsLevel(size: nat, n: nat, b: nat)
    requires size >= BLOCK && b < size / BLOCK
    ensures var (turns, at) := Position(size / BLOCK, n); Erases(size, n, b) == turns + if b < at then 1 else 0
  {
    if n > 0 {
      WearIsLevel(size, n - 1, b);
    }
  }

  lemma WearDiffersByAtMostOne(size: nat, n: nat, b: nat, c: nat)
    requires size >= BLOCK && b < size / BLOCK && c < size / BLOCK
    ensures -1 <= Erases(size, n, b) - Erases(size, n, c) <= 1
  {
    WearIsLevel(size, n, b);
    WearIsLevel(size, n, c);
  }

  /** A block holds what the last round at it left. */
  lemma {:induction false} LastRoundStays(cells: seq<bv8>, rounds: seq<Round>, n: nat, k: nat)
    requires k < n <= |rounds| && |cells| >= BLOCK
    requires forall m :: k < m < n ==> BlockOf(|cells|, m) != BlockOf(|cells|, k)
    ensures var at := BlockOf(|cells|, k) * BLOCK;
            at + BLOCK <= |cells| && After(cells, rounds, n)[at..at + BLOCK] == rounds[k].Left()
  {
    InBounds(|cells|, k);
    InBounds(|cells|, n - 1);
    var at := BlockOf(|cells|, k) * BLOCK;
    if n == k + 1 {
      SpliceTwice(After(cells, rounds, k), at, rounds[k].Left(), rounds[k].Left());
    } else {
      LastRoundStays(cells, rounds, n - 1, k);
      assert BlockOf(|cells|, n - 1) != BlockOf(|cells|, k);
      SpliceElsewhere(After(cells, rounds, n - 1), BlockOf(|cells|, n - 1) * BLOCK, rounds[n - 1].Left(), at);
    }
  }

  lemma SpliceElsewhere(cells: seq<bv8>, offset: nat, content: Block, at: nat)
    requires offset + BLOCK <= |cells| && at + BLOCK <= |cells|
    requires at + BLOCK <= offset || offset + BLOCK <= at
    ensures Splice(cells, offset, content)[at..at + BLOCK] == cells[at..at + BLOCK]
  {
  }

  /** Cells outside the blocks tried so far, the odd end of the partition included, stay as they were. */
  lemma {:induction false} UntriedStays(cells: seq<bv8>, rounds: seq<Round>, n: nat, i: nat)
    requires n <= |rounds| && |cells| >= BLOCK && i < |cells|
    requires forall m :: 0 <= m < n ==> BlockOf(|cells|, m) != i / BLOCK
    ensures After(cells, rounds, n)[i] == cells[i]
  {
    if n > 0 {
      InBounds(|cells|, n - 1);
      UntriedStays(cells, rounds, n - 1, i);
      assert BlockOf(|cells|, n - 1) != i / BLOCK;
    }
  }
}
