/**
 Disk blocks, shared by the buffer cache, the log and the file system.

 A block is BSIZE bytes. The log header, indirect blocks and on-disk inodes are
 arrays of 32-bit little-endian words laid over the same bytes.
 */
module Blocks {

  const BSIZE := 512
  const NWORDS := 128

  type byte = x: int | 0 <= x < 0x100
  type uint = x: int | 0 <= x < 0x1_0000_0000
  type Block = b: seq<byte> | |b| == BSIZE witness Zeros(BSIZE)

  /** A block is named by its device and its number on that device. */
  datatype Name = Name(dev: nat, blockno: nat)

  type Disk = map<Name, Block>

  function Zeros(n: nat): (z: seq<byte>)
    ensures |z| == n && forall i :: 0 <= i < n ==> z[i] == 0
  {
    if n == 0 then [] else Zeros(n - 1) + [0]
  }

  /** The states a disk has been through, one per block write. */
  datatype History = Boot | Wrote(before: History, disk: Disk)

  const ZERO_BLOCK: Block := Zeros(BSIZE)

  /** What the disk holds; a block never written reads as zeroes. */
  function Read(d: Disk, n: Name): Block {
    if n in d then d[n] else ZERO_BLOCK
  }

  /** The word at index i. */
  function Word(b: Block, i: nat): uint
    requires i < NWORDS
  {
    (b[4 * i] as int) + 0x100 * (b[4 * i + 1] as int)
    + 0x1_0000 * (b[4 * i + 2] as int) + 0x100_0000 * (b[4 * i + 3] as int)
  }

  lemma Bytes(w: uint)
    ensures w / 0x100 % 0x100 + 0x100 * (w / 0x1_0000) == w / 0x100
    ensures w == w % 0x100 + 0x100 * (w / 0x100 % 0x100)
                 + 0x1_0000 * (w / 0x1_0000 % 0x100) + 0x100_0000 * (w / 0x100_0000)
  {
  }

  /** Storing a word changes that word to the stored value and no other word. */
  function SetWord(b: Block, i: nat, w: uint): (r: Block)
    requires i < NWORDS
    ensures Word(r, i) == w
    ensures forall j: nat :: j < NWORDS && j != i ==> Word(r, j) == Word(b, j)
  {
    Bytes(w);
    b[..4 * i] + [w % 0x100, w / 0x100 % 0x100, w / 0x1_0000 % 0x100, w / 0x100_0000] + b[4 * i + 4..]
  }

  lemma ZeroWord(i: nat)
    requires i < NWORDS
    ensures Word(ZERO_BLOCK, i) == 0
  {
  }
}
