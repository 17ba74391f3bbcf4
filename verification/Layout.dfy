/**
 Where things are on the disk (fs.h, fs.c, log.c), byte by byte: the disk as one array of bytes, and in
 it the inodes, the bitmap, the bytes of files and a transaction that has just committed.
 */
module Layout {
  import opened Blocks
  import opened FileSpec
  import opened Files
  import L = LogSpec

  /** Byte a of the disk. */
  function DiskByte(s: Store, a: nat): byte {
    Get(s, a / 512)[a % 512]
  }

  /** Two bytes, the lower one first. */
  function Short(s: Store, a: nat): ushort {
    DiskByte(s, a) + 0x100 * DiskByte(s, a + 1)
  }

  /** Four bytes, the lower ones first. */
  function Uint(s: Store, a: nat): uint {
    Short(s, a) + 0x1_0000 * Short(s, a + 2)
  }

  /** Where struct dinode number inum starts. */
  function InodeStart(sb: Super, inum: nat): nat {
    512 * sb.inodestart + 64 * inum
  }

  /** The number of the block that holds byte x of file inum. */
  function FileBlock(sb: Super, s: Store, inum: nat, x: nat): uint {
    var addrs := InodeStart(sb, inum) + 12;
    if x < 12 * 512 then Uint(s, addrs + 4 * (x / 512))
    else Uint(s, 512 * Uint(s, addrs + 48) + 4 * (x / 512 - 12))
  }

  /** Bytes of one block are next to each other on the disk. */
  lemma InBlock(s: Store, b: nat, j: nat)
    requires j < 512
    ensures DiskByte(s, 512 * b + j) == Get(s, b)[j]
  {
  }

  lemma UintInBlock(s: Store, b: nat, w: nat)
    requires w < NWORDS
    ensures Uint(s, 512 * b + 4 * w) == Word(Get(s, b), w)
  {
    hide DiskByte;
    var a := 512 * b + 4 * w;
    InBlock(s, b, 4 * w);
    InBlock(s, b, 4 * w + 1);
    InBlock(s, b, 4 * w + 2);
    InBlock(s, b, 4 * w + 3);
    assert Uint(s, a) == DiskByte(s, a) + 0x100 * DiskByte(s, a + 1)
                         + 0x1_0000 * (DiskByte(s, a + 2) + 0x100 * DiskByte(s, a + 3));
  }

  /** Word w of inode inum. */
  lemma InodeUint(sb: Super, s: Store, inum: nat, w: nat)
    requires w < 16
    ensures Uint(s, InodeStart(sb, inum) + 4 * w) == InodeWord(Get(s, sb.IBlock(inum)), inum % IPB, w)
  {
    hide Uint, Word;
    UintInBlock(s, sb.IBlock(inum), 16 * (inum % IPB) + w);
    assert InodeStart(sb, inum) + 4 * w == 512 * sb.IBlock(inum) + 4 * (16 * (inum % IPB) + w);
  }

  /** The fields of an inode, at the offsets of struct dinode. */
  lemma InodeOnDisk(sb: Super, s: Store, inum: nat)
    ensures var ip, a := InodeAt(Get(s, sb.IBlock(inum)), inum % IPB), InodeStart(sb, inum);
            && ip.typ == Short(s, a) && ip.major == Short(s, a + 2) && ip.minor == Short(s, a + 4)
            && ip.nlink == Short(s, a + 6) && ip.size == Uint(s, a + 8)
            && forall k: nat :: k <= 12 ==> ip.addrs[k] == Uint(s, a + 12 + 4 * k)
  {
    hide Short, InodeWord;
    var ip, a := InodeAt(Get(s, sb.IBlock(inum)), inum % IPB), InodeStart(sb, inum);
    InodeUint(sb, s, inum, 0);
    InodeUint(sb, s, inum, 1);
    InodeUint(sb, s, inum, 2);
    assert ip.typ == Short(s, a) && ip.minor == Short(s, a + 4);
    forall k: nat | k <= 12 ensures ip.addrs[k] == Uint(s, a + 12 + 4 * k) {
      InodeUint(sb, s, inum, k + 3);
    }
  }

  lemma BitOf(v: bv8, k: nat)
    requires k < 8
    ensures Has(v, k) <==> (v >> k) & 1 == 1
  {
  }

  /** Bit b of the bitmap: bit b % 8, counted from the lowest, of its byte b / 8. */
  lemma BitOnDisk(sb: Super, s: Store, b: nat)
    ensures Bit(sb, s, b) <==> ((DiskByte(s, 512 * sb.bmapstart + b / 8) as bv8) >> (b % 8)) & 1 == 1
  {
    hide Has;
    var bi := b % BPB;
    InBlock(s, sb.BBlock(b), bi / 8);
    assert 512 * sb.BBlock(b) + bi / 8 == 512 * sb.bmapstart + b / 8 && bi % 8 == b % 8;
    BitOf(ToBits(Get(s, sb.BBlock(b))[bi / 8]), b % 8);
  }

  /** Byte x of a file, by its inode: the direct pointers in order, then the entries of the indirect block. */
  lemma ByteOfFile(s: Store, ip: Inode, x: nat)
    requires NoHoles(s, ip) && x < ip.size
    ensures x < 12 * 512 ==> Contents(s, ip)[x] == Get(s, ip.addrs[x / 512])[x % 512]
    ensures x >= 12 * 512 ==>
              var ind, j := Get(s, ip.addrs[12]), 4 * (x / 512 - 12);
              var p: nat := (ind[j] as int) + 0x100 * (ind[j + 1] as int)
                            + 0x1_0000 * (ind[j + 2] as int) + 0x100_0000 * (ind[j + 3] as int);
              Contents(s, ip)[x] == Get(s, p)[x % 512]
  {
    var bn := x / 512;
    assert bn * BSIZE < ip.size && Ptr(s, ip, DataSlot(bn)) != 0;
    assert Contents(s, ip)[x] == ByteAt(s, ip, x);
  }

  /** Byte x of a file, by the bytes of the disk alone. */
  lemma ByteOnDisk(sb: Super, s: Store, inum: nat, ip: Inode, x: nat)
    requires NoHoles(s, ip) && OnDisk(sb, s, inum, ip) && x < ip.size
    ensures ip.size == Uint(s, InodeStart(sb, inum) + 8)
    ensures Contents(s, ip)[x] == DiskByte(s, 512 * FileBlock(sb, s, inum, x) + x % 512)
  {
    hide Short, InodeAt, NoHoles, Contents;
    InodeOnDisk(sb, s, inum);
    ByteOfFile(s, ip, x);
    var a := InodeStart(sb, inum);
    if x < 12 * 512 {
      assert ip.addrs[x / 512] == Uint(s, a + 12 + 4 * (x / 512));
    } else {
      SizeHas(s, ip);
      UintInBlock(s, ip.addrs[12], x / 512 - 12);
      assert ip.addrs[12] == Uint(s, a + 12 + 4 * 12);
    }
    InBlock(s, FileBlock(sb, s, inum, x), x % 512);
  }

  /**
   The files of a valid file system are on the disk as fs.h and fs.c lay them out: the size of file inum is
   in its inode, and each byte is where the pointers of the inode, or of its indirect block, say.
   */
  lemma FilesOnDisk(fs: Fs, inum: nat)
    requires fs.Valid() && inum < |fs.inodes|
    ensures |fs.Bytes()[inum]| == Uint(fs.store, InodeStart(fs.sb, inum) + 8)
    ensures forall x: nat :: x < |fs.Bytes()[inum]| ==>
              fs.Bytes()[inum][x] == DiskByte(fs.store, 512 * FileBlock(fs.sb, fs.store, inum, x) + x % 512)
  {
    hide Core, OnlyLogged, NoHoles, OnDisk, Uint, FileBlock, DiskByte;
    var s, ip := fs.store, fs.inodes[inum];
    assert NoHoles(s, ip) && OnDisk(fs.sb, s, inum, ip);
    forall x: nat | x < |fs.Bytes()[inum]|
      ensures fs.Bytes()[inum][x] == DiskByte(s, 512 * FileBlock(fs.sb, s, inum, x) + x % 512)
    {
      ByteOnDisk(fs.sb, s, inum, ip, x);
    }
    SizeOnDisk(fs.sb, s, inum, ip);
  }

  lemma SizeOnDisk(sb: Super, s: Store, inum: nat, ip: Inode)
    requires OnDisk(sb, s, inum, ip)
    ensures ip.size == Uint(s, InodeStart(sb, inum) + 8)
  {
    hide Short, Uint;
    InodeOnDisk(sb, s, inum);
  }

  /**
   The log at the moment a transaction commits: the header block holds the count and then the block
   numbers, each in four bytes with the lowest first, and the new contents follow it in order.
   */
  lemma LogOnDisk(d: Disk, l: L.Layout, bs: seq<uint>, cs: seq<Block>, i: nat)
    requires L.Loggable(l, bs) && |bs| == |cs| && i < |bs|
    ensures var d' := L.CommitState(d, l, bs, cs, |bs| + 1);
            var h := Read(d', Name(l.dev, l.start));
            && Read(d', Name(l.dev, l.start + 1 + i)) == cs[i]
            && h[..4] == [|bs|, 0, 0, 0]
            && bs[i] == (h[4 + 4 * i] as int) + 0x100 * (h[5 + 4 * i] as int)
                        + 0x1_0000 * (h[6 + 4 * i] as int) + 0x100_0000 * (h[7 + 4 * i] as int)
  {
    hide SetWord, L.PutWords, L.TakeWords;
    L.LoggedReads(d, l, cs, |bs|);
    L.HeadCommits(d, l, bs, cs);
  }
}
