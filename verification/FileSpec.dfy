/**
 Files as the file system lays them out on blocks (fs.c): the free bitmap, inodes with
 direct and indirect block pointers, and which block belongs to which pointer.

 The blocks are seen through the buffer cache and the log, that is, as the contents last
 left in them.
 */
module FileSpec {
  import opened Blocks

  const NDIRECT := 12
  const NINDIRECT := 128
  const MAXFILE := 140
  const MAXBYTES := 71680
  const BPB := 4096
  const IPB := 8

  /** The pointers of an inode: NDIRECT direct ones, the one to the indirect block (slot
      NDIRECT), and the NINDIRECT in that block. */
  const NSLOT := 141

  type ushort = x: int | 0 <= x < 0x1_0000
  type Store = map<nat, Block>
  type Addrs = a: seq<uint> | |a| == NDIRECT + 1 witness [0, 0, 0, 0, 0, 0, 0, 0, 0, 0, 0, 0, 0]

  datatype Inode = Inode(typ: ushort, major: ushort, minor: ushort, nlink: ushort, size: uint, addrs: Addrs)

  datatype Slot = Slot(inum: nat, k: nat)

  /** The superblock, without the place of the log. */
  datatype Super = Super(size: nat, nblocks: nat, ninodes: nat, inodestart: nat, bmapstart: nat) {
    function DataStart(): int { size - nblocks }

    function BBlock(b: nat): nat { b / BPB + bmapstart }

    function IBlock(inum: nat): nat { inum / IPB + inodestart }

    /** Inode blocks, then the bitmap, then the data, none overlapping. */
    predicate Sane() {
      && inodestart + ninodes / IPB + 1 <= bmapstart
      && 0 < bmapstart + size / BPB + 1 <= DataStart()
      && size < 0x8000_0000
    }
  }

  function Get(s: Store, b: nat): Block {
    if b in s then s[b] else ZERO_BLOCK
  }

  // ---- The bitmap ----------------------------------------------------------------

  predicate Has(v: bv8, k: nat)
    requires k < 8
  {
    v & (1 << k) != 0
  }

  function With(v: bv8, k: nat): bv8
    requires k < 8
  {
    v | (1 << k)
  }

  function Without(v: bv8, k: nat): bv8
    requires k < 8
  {
    v & !(1 << k)
  }

  lemma WithBits(v: bv8, k: nat, j: nat)
    requires k < 8 && j < 8
    ensures Has(With(v, k), j) <==> j == k || Has(v, j)
  {
  }

  lemma WithoutBits(v: bv8, k: nat, j: nat)
    requires k < 8 && j < 8
    ensures Has(Without(v, k), j) <==> j != k && Has(v, j)
  {
  }

  function ToBits(x: byte): bv8 { x as bv8 }

  function OfBits(v: bv8): byte { v as int }

  lemma BitsBack(v: bv8)
    ensures ToBits(OfBits(v)) == v
  {
  }

  predicate BitAt(blk: Block, bi: nat)
    requires bi < BPB
  {
    Has(ToBits(blk[bi / 8]), bi % 8)
  }

  function SetBit(blk: Block, bi: nat): Block
    requires bi < BPB
  {
    blk[bi / 8 := OfBits(With(ToBits(blk[bi / 8]), bi % 8))]
  }

  function ClearBit(blk: Block, bi: nat): Block
    requires bi < BPB
  {
    blk[bi / 8 := OfBits(Without(ToBits(blk[bi / 8]), bi % 8))]
  }

  lemma SetBitAt(blk: Block, bi: nat, j: nat)
    requires bi < BPB && j < BPB
    ensures BitAt(SetBit(blk, bi), j) <==> j == bi || BitAt(blk, j)
  {
    hide Has, With, ToBits, OfBits;
    if j / 8 == bi / 8 {
      var v := ToBits(blk[bi / 8]);
      WithBits(v, bi % 8, j % 8);
      BitsBack(With(v, bi % 8));
    }
  }

  lemma ClearBitAt(blk: Block, bi: nat, j: nat)
    requires bi < BPB && j < BPB
    ensures BitAt(ClearBit(blk, bi), j) <==> j != bi && BitAt(blk, j)
  {
    hide Has, Without, ToBits, OfBits;
    if j / 8 == bi / 8 {
      var v := ToBits(blk[bi / 8]);
      WithoutBits(v, bi % 8, j % 8);
      BitsBack(Without(v, bi % 8));
    }
  }

  /** Whether the bitmap marks block b in use. */
  predicate Bit(sb: Super, s: Store, b: nat) {
    BitAt(Get(s, sb.BBlock(b)), b % BPB)
  }

  lemma BitChange(sb: Super, s: Store, b: nat, blk: Block, c: nat)
    ensures Bit(sb, s[sb.BBlock(b) := blk], c)
       <==> if c / BPB == b / BPB then BitAt(blk, c % BPB) else Bit(sb, s, c)
  {
    hide BitAt;
  }

  lemma MarkBit(sb: Super, s: Store, b: nat, c: nat)
    ensures Bit(sb, s[sb.BBlock(b) := SetBit(Get(s, sb.BBlock(b)), b % BPB)], c) <==> c == b || Bit(sb, s, c)
  {
    hide SetBit, BitAt;
    SetBitAt(Get(s, sb.BBlock(b)), b % BPB, c % BPB);
    BitChange(sb, s, b, SetBit(Get(s, sb.BBlock(b)), b % BPB), c);
  }

  lemma UnmarkBit(sb: Super, s: Store, b: nat, c: nat)
    ensures Bit(sb, s[sb.BBlock(b) := ClearBit(Get(s, sb.BBlock(b)), b % BPB)], c) <==> c != b && Bit(sb, s, c)
  {
    hide ClearBit, BitAt;
    ClearBitAt(Get(s, sb.BBlock(b)), b % BPB, c % BPB);
    BitChange(sb, s, b, ClearBit(Get(s, sb.BBlock(b)), b % BPB), c);
  }

  // ---- Pointers --------------------------------------------------------------------

  function Ptr(s: Store, ip: Inode, k: nat): uint
    requires k < NSLOT
  {
    if k <= NDIRECT then ip.addrs[k]
    else if ip.addrs[NDIRECT] == 0 then 0
    else Word(Get(s, ip.addrs[NDIRECT]), k - NDIRECT - 1)
  }

  /** The slot that points to block bn of the file. */
  function DataSlot(bn: nat): nat {
    if bn < NDIRECT then bn else bn + 1
  }

  /** Block bn of the file; an absent block counts as zeroes. */
  function Blk(s: Store, ip: Inode, bn: nat): Block
    requires bn < MAXFILE
  {
    var p := Ptr(s, ip, DataSlot(bn));
    if p == 0 then ZERO_BLOCK else Get(s, p)
  }

  /** `owner` is the inverse of the pointers, so no block number occurs twice. */
  ghost predicate Points(s: Store, ins: seq<Inode>, owner: map<nat, Slot>) {
    && (forall i: nat, k: nat :: i < |ins| && k < NSLOT && Ptr(s, ins[i], k) != 0
          ==> Ptr(s, ins[i], k) in owner && owner[Ptr(s, ins[i], k)] == Slot(i, k))
    && (forall b: nat :: b in owner ==>
          b != 0 && owner[b].inum < |ins| && owner[b].k < NSLOT && Ptr(s, ins[owner[b].inum], owner[b].k) == b)
  }

  /** The bitmap marks the blocks before the data and the ones that have an owner, no others. */
  ghost predicate Marked(sb: Super, s: Store, owner: map<nat, Slot>) {
    && (forall b: nat :: b in owner ==> sb.DataStart() <= b < sb.size)
    && (forall b: nat :: b < sb.size ==> (Bit(sb, s, b) <==> b < sb.DataStart() || b in owner))
  }

  ghost predicate Core(sb: Super, s: Store, ins: seq<Inode>, owner: map<nat, Slot>) {
    sb.Sane() && |ins| == sb.ninodes && Points(s, ins, owner) && Marked(sb, s, owner)
  }

  predicate InBitmap(sb: Super, b: nat) {
    sb.bmapstart <= b <= sb.bmapstart + sb.size / BPB
  }

  /** What balloc does to the blocks when it returns r. */
  ghost predicate Balloced(sb: Super, s: Store, s': Store, r: nat) {
    && r < sb.size && !Bit(sb, s, r) && Get(s', r) == ZERO_BLOCK
    && (forall c: nat :: c < sb.size ==> (Bit(sb, s', c) <==> c == r || Bit(sb, s, c)))
    && (forall c: nat :: c != r && !InBitmap(sb, c) ==> Get(s', c) == Get(s, c))
  }

  /** A balloc'ed block is a data block nobody owns. */
  lemma BallocedFresh(sb: Super, s: Store, ins: seq<Inode>, owner: map<nat, Slot>, s': Store, r: nat)
    requires Core(sb, s, ins, owner) && Balloced(sb, s, s', r)
    ensures r !in owner && r != 0 && sb.DataStart() <= r < sb.size
    ensures forall b: nat :: b in owner ==> b != r && Get(s', b) == Get(s, b)
  {
    hide Bit;
    forall b: nat | b in owner ensures b != r && Get(s', b) == Get(s, b) {
      assert Bit(sb, s, b) && !InBitmap(sb, b);
    }
  }

  /** From one state to the next, slot sl, which was empty, has come to point to r, which is
      new and zero; no other pointer and no file block has changed. */
  ghost predicate Grew(s: Store, ins: seq<Inode>, owner: map<nat, Slot>, s': Store, ins': seq<Inode>, sl: Slot,
                       r: nat) {
    && |ins'| == |ins| && sl.inum < |ins| && sl.k < NSLOT && r !in owner && r != 0
    && Ptr(s, ins[sl.inum], sl.k) == 0 && Get(s', r) == ZERO_BLOCK
    && (forall i: nat, k: nat :: i < |ins| && k < NSLOT
          ==> Ptr(s', ins'[i], k) == if Slot(i, k) == sl then r else Ptr(s, ins[i], k))
    && (forall b: nat :: b in owner && owner[b].k != NDIRECT ==> Get(s', b) == Get(s, b))
  }

  lemma GrewCore(sb: Super, s: Store, ins: seq<Inode>, owner: map<nat, Slot>, s': Store, ins': seq<Inode>, sl: Slot,
                 r: nat)
    requires Core(sb, s, ins, owner) && Grew(s, ins, owner, s', ins', sl, r)
    requires sb.DataStart() <= r < sb.size
    requires forall c: nat :: c < sb.size ==> (Bit(sb, s', c) <==> c == r || Bit(sb, s, c))
    ensures Core(sb, s', ins', owner[r := sl])
  {
    hide Bit, Ptr;
    var owner' := owner[r := sl];
    forall i: nat, k: nat | i < |ins'| && k < NSLOT && Ptr(s', ins'[i], k) != 0
      ensures Ptr(s', ins'[i], k) in owner' && owner'[Ptr(s', ins'[i], k)] == Slot(i, k)
    {
    }
    forall b: nat | b in owner'
      ensures b != 0 && owner'[b].inum < |ins'| && owner'[b].k < NSLOT
              && Ptr(s', ins'[owner'[b].inum], owner'[b].k) == b
    {
    }
  }

  /** No file block changes when a slot comes to point to a zero block. */
  lemma GrewBlk(s: Store, ins: seq<Inode>, owner: map<nat, Slot>, s': Store, ins': seq<Inode>, sl: Slot, r: nat,
                i: nat, bn: nat)
    requires Points(s, ins, owner) && Grew(s, ins, owner, s', ins', sl, r) && i < |ins| && bn < MAXFILE
    ensures Blk(s', ins'[i], bn) == Blk(s, ins[i], bn)
  {
    hide Ptr;
  }

  lemma PtrInInode(s: Store, ins: seq<Inode>, owner: map<nat, Slot>, s': Store, inum: nat, k: nat, r: uint, i: nat,
                   l: nat)
    requires Points(s, ins, owner) && inum < |ins| && k <= NDIRECT && ins[inum].addrs[k] == 0 && r != 0
    requires Get(s', r) == ZERO_BLOCK && forall b: nat :: b in owner ==> Get(s', b) == Get(s, b)
    requires i < |ins| && l < NSLOT
    ensures Ptr(s', ins[inum := ins[inum].(addrs := ins[inum].addrs[k := r])][i], l)
         == if Slot(i, l) == Slot(inum, k) then r else Ptr(s, ins[i], l)
  {
    hide Word;
    assert Ptr(s, ins[i], NDIRECT) == ins[i].addrs[NDIRECT];
    if l > NDIRECT { ZeroWord(l - NDIRECT - 1); }
  }

  /** bmap gives an inode a new direct or indirect block. */
  lemma GrowInode(sb: Super, s: Store, ins: seq<Inode>, owner: map<nat, Slot>, s': Store, inum: nat, k: nat, r: nat)
    requires Core(sb, s, ins, owner) && inum < |ins| && k <= NDIRECT && ins[inum].addrs[k] == 0
    requires Balloced(sb, s, s', r)
    ensures var ins' := ins[inum := ins[inum].(addrs := ins[inum].addrs[k := r])];
            Grew(s, ins, owner, s', ins', Slot(inum, k), r) && Core(sb, s', ins', owner[r := Slot(inum, k)])
  {
    hide Bit, Word, Points, Marked;
    BallocedFresh(sb, s, ins, owner, s', r);
    var ins' := ins[inum := ins[inum].(addrs := ins[inum].addrs[k := r])];
    forall i: nat, l: nat | i < |ins| && l < NSLOT
      ensures Ptr(s', ins'[i], l) == if Slot(i, l) == Slot(inum, k) then r else Ptr(s, ins[i], l)
    {
      PtrInInode(s, ins, owner, s', inum, k, r, i, l);
    }
    GrewCore(sb, s, ins, owner, s', ins', Slot(inum, k), r);
  }

  lemma SetWordAt(b: Block, e: nat, w: uint, j: nat)
    requires e < NWORDS && j < NWORDS
    ensures Word(SetWord(b, e, w), j) == if j == e then w else Word(b, j)
  {
    hide Word;
  }

  lemma PtrInIndirect(s: Store, ins: seq<Inode>, owner: map<nat, Slot>, s1: Store, inum: nat, e: nat, r: uint,
                      i: nat, l: nat)
    requires Points(s, ins, owner) && inum < |ins| && e < NINDIRECT && ins[inum].addrs[NDIRECT] != 0
    requires forall b: nat :: b in owner ==> Get(s1, b) == Get(s, b)
    requires i < |ins| && l < NSLOT
    ensures var x := ins[inum].addrs[NDIRECT];
            var s' := s1[x := SetWord(Get(s1, x), e, r)];
            Ptr(s', ins[i], l) == if Slot(i, l) == Slot(inum, NDIRECT + 1 + e) then r else Ptr(s, ins[i], l)
  {
    hide Word, SetWord;
    var x := ins[inum].addrs[NDIRECT];
    assert Ptr(s, ins[inum], NDIRECT) == x;
    assert Ptr(s, ins[i], NDIRECT) == ins[i].addrs[NDIRECT];
    if l > NDIRECT && i == inum { SetWordAt(Get(s1, x), e, r, l - NDIRECT - 1); }
  }

  lemma BitElsewhere(sb: Super, s: Store, x: nat, blk: Block, c: nat)
    requires sb.Sane() && x >= sb.DataStart() && c < sb.size
    ensures Bit(sb, s[x := blk], c) <==> Bit(sb, s, c)
  {
    assert sb.BBlock(c) != x;
  }

  /** bmap puts a new block into an indirect block. */
  lemma GrowIndirect(sb: Super, s: Store, ins: seq<Inode>, owner: map<nat, Slot>, s1: Store, inum: nat, e: nat, r: nat)
    requires Core(sb, s, ins, owner) && inum < |ins| && e < NINDIRECT
    requires ins[inum].addrs[NDIRECT] != 0 && Word(Get(s, ins[inum].addrs[NDIRECT]), e) == 0
    requires Balloced(sb, s, s1, r)
    ensures var x := ins[inum].addrs[NDIRECT];
            var s' := s1[x := SetWord(Get(s1, x), e, r)];
            var sl := Slot(inum, NDIRECT + 1 + e);
            Grew(s, ins, owner, s', ins, sl, r) && Core(sb, s', ins, owner[r := sl])
  {
    hide Bit, Word, SetWord, Points, Marked;
    BallocedFresh(sb, s, ins, owner, s1, r);
    var x := ins[inum].addrs[NDIRECT];
    var s' := s1[x := SetWord(Get(s1, x), e, r)];
    var sl := Slot(inum, NDIRECT + 1 + e);
    assert Ptr(s, ins[inum], NDIRECT) == x;
    OwnerOf(sb, s, ins, owner, inum, NDIRECT);
    forall i: nat, l: nat | i < |ins| && l < NSLOT
      ensures Ptr(s', ins[i], l) == if Slot(i, l) == sl then r else Ptr(s, ins[i], l)
    {
      PtrInIndirect(s, ins, owner, s1, inum, e, r, i, l);
    }
    forall c: nat | c < sb.size ensures Bit(sb, s', c) <==> c == r || Bit(sb, s, c) {
      BitElsewhere(sb, s1, x, SetWord(Get(s1, x), e, r), c);
    }
    GrewCore(sb, s, ins, owner, s', ins, sl, r);
  }

  lemma OwnerOf(sb: Super, s: Store, ins: seq<Inode>, owner: map<nat, Slot>, i: nat, k: nat)
    requires Core(sb, s, ins, owner) && i < |ins| && k < NSLOT && Ptr(s, ins[i], k) != 0
    ensures var p := Ptr(s, ins[i], k);
            p in owner && owner[p] == Slot(i, k) && Bit(sb, s, p)
            && sb.inodestart <= sb.bmapstart < sb.DataStart() <= p < sb.size
  {
    hide Bit, Ptr;
  }

  // ---- Contents ------------------------------------------------------------------------

  lemma PtrKept(s: Store, ins: seq<Inode>, owner: map<nat, Slot>, p: nat, blk: Block, i: nat, k: nat)
    requires Points(s, ins, owner) && i < |ins| && k < NSLOT
    requires p !in owner || owner[p].k != NDIRECT
    ensures Ptr(s[p := blk], ins[i], k) == Ptr(s, ins[i], k)
  {
    hide Word;
    assert Ptr(s, ins[i], NDIRECT) == ins[i].addrs[NDIRECT];
  }

  lemma BlkKept(s: Store, ins: seq<Inode>, owner: map<nat, Slot>, p: nat, blk: Block, i: nat, bn: nat)
    requires Points(s, ins, owner) && i < |ins| && bn < MAXFILE
    requires p !in owner || (owner[p].k != NDIRECT && owner[p] != Slot(i, DataSlot(bn)))
    ensures Blk(s[p := blk], ins[i], bn) == Blk(s, ins[i], bn)
  {
    hide Ptr;
    PtrKept(s, ins, owner, p, blk, i, DataSlot(bn));
    assert Ptr(s, ins[i], DataSlot(bn)) != 0 ==> Ptr(s, ins[i], DataSlot(bn)) != p;
  }

  /** Storing into a block of a file, or into one that is no file's, changes that block alone. */
  lemma StoreKeeps(sb: Super, s: Store, ins: seq<Inode>, owner: map<nat, Slot>, p: nat, blk: Block)
    requires Core(sb, s, ins, owner) && !InBitmap(sb, p)
    requires p !in owner || owner[p].k != NDIRECT
    ensures Core(sb, s[p := blk], ins, owner)
    ensures forall i: nat, k: nat :: i < |ins| && k < NSLOT ==> Ptr(s[p := blk], ins[i], k) == Ptr(s, ins[i], k)
  {
    hide Bit, Ptr;
    var s' := s[p := blk];
    forall i: nat, k: nat | i < |ins| && k < NSLOT ensures Ptr(s', ins[i], k) == Ptr(s, ins[i], k) {
      PtrKept(s, ins, owner, p, blk, i, k);
    }
    forall c: nat | c < sb.size ensures Bit(sb, s', c) <==> Bit(sb, s, c) {
      BitSame(sb, s, p, blk, c);
    }
  }

  lemma BitSame(sb: Super, s: Store, p: nat, blk: Block, c: nat)
    requires !InBitmap(sb, p) && c < sb.size
    ensures Bit(sb, s[p := blk], c) <==> Bit(sb, s, c)
  {
    hide BitAt;
    assert c / BPB <= sb.size / BPB;
  }

  /** Byte x of the file. */
  function ByteAt(s: Store, ip: Inode, x: nat): byte
    requires x < MAXBYTES
  {
    Blk(s, ip, x / BSIZE)[x % BSIZE]
  }

  function First(s: Store, ip: Inode, n: nat): (c: seq<byte>)
    requires n <= MAXBYTES
    ensures |c| == n && forall x: nat :: x < n ==> c[x] == ByteAt(s, ip, x)
  {
    if n == 0 then [] else First(s, ip, n - 1) + [ByteAt(s, ip, n - 1)]
  }

  /** The file as a sequence of bytes. */
  function Contents(s: Store, ip: Inode): seq<byte>
    requires ip.size <= MAXBYTES
  {
    First(s, ip, ip.size)
  }

  /** src written over c at off. */
  function Splice(c: seq<byte>, off: nat, src: seq<byte>): seq<byte>
    requires off <= |c|
  {
    c[..off] + src + if off + |src| < |c| then c[off + |src|..] else []
  }

  /** The bytes of the second file are those of the first with src at off. */
  ghost predicate Spliced(s: Store, ip: Inode, s': Store, ip': Inode, off: nat, src: seq<byte>) {
    forall x: nat :: x < MAXBYTES ==>
      ByteAt(s', ip', x) == if off <= x < off + |src| then src[x - off] else ByteAt(s, ip, x)
  }

  lemma SplicedContents(s: Store, ip: Inode, s': Store, ip': Inode, off: nat, src: seq<byte>)
    requires Spliced(s, ip, s', ip', off, src) && off <= ip.size <= MAXBYTES && off + |src| <= MAXBYTES
    requires ip'.size == if off + |src| > ip.size then off + |src| else ip.size
    ensures Contents(s', ip') == Splice(Contents(s, ip), off, src)
  {
    hide ByteAt;
    var c, c' := Contents(s, ip), Contents(s', ip');
    forall x: nat | x < |c'| ensures c'[x] == Splice(c, off, src)[x] {
    }
  }

  /** A block with bytes put in at `at`. */
  function Patch(blk: Block, at: nat, bytes: seq<byte>): Block
    requires at + |bytes| <= BSIZE
  {
    blk[..at] + bytes + blk[at + |bytes|..]
  }

  lemma InBlock(x: nat, y: nat, m: nat)
    requires y % BSIZE + m <= BSIZE && m > 0
    ensures x / BSIZE == y / BSIZE ==> x - y == x % BSIZE - y % BSIZE
    ensures x / BSIZE != y / BSIZE ==> x < y || x >= y + m
  {
  }

  lemma PatchAt(blk: Block, at: nat, bytes: seq<byte>, i: nat)
    requires at + |bytes| <= BSIZE && i < BSIZE
    ensures Patch(blk, at, bytes)[i] == if at <= i < at + |bytes| then bytes[i - at] else blk[i]
  {
  }

  /** One more piece of a splice, within one block. */
  lemma SplicedMore(s0: Store, ip0: Inode, s: Store, ip: Inode, s': Store, ip': Inode, off: nat, src: seq<byte>,
                    tot: nat, m: nat)
    requires tot + m <= |src| && off + tot + m <= MAXBYTES && (off + tot) % BSIZE + m <= BSIZE && m > 0
    requires Spliced(s0, ip0, s, ip, off, src[..tot])
    requires forall bn: nat :: bn < MAXFILE && bn != (off + tot) / BSIZE ==> Blk(s', ip', bn) == Blk(s, ip, bn)
    requires var bn := (off + tot) / BSIZE;
             Blk(s', ip', bn) == Patch(Blk(s, ip, bn), (off + tot) % BSIZE, src[tot..tot + m])
    ensures Spliced(s0, ip0, s', ip', off, src[..tot + m])
  {
    hide Blk, Patch;
    var y := off + tot;
    forall x: nat | x < MAXBYTES
      ensures ByteAt(s', ip', x) == if off <= x < off + tot + m then src[x - off] else ByteAt(s0, ip0, x)
    {
      InBlock(x, y, m);
      assert ByteAt(s, ip, x) == if off <= x < off + tot then src[x - off] else ByteAt(s0, ip0, x);
      if x / BSIZE == y / BSIZE {
        PatchAt(Blk(s, ip, y / BSIZE), y % BSIZE, src[tot..tot + m], x % BSIZE);
      }
    }
  }

  // ---- Inodes on disk --------------------------------------------------------------

  /** Word w of the inode in slot sl of an inode block. */
  function InodeWord(blk: Block, sl: nat, w: nat): uint
    requires sl < IPB && w < 16
  {
    Word(blk, 16 * sl + w)
  }

  /** The inode in slot sl of an inode block, as ilock loads it. */
  function InodeAt(blk: Block, sl: nat): Inode
    requires sl < IPB
  {
    var w0, w1 := InodeWord(blk, sl, 0), InodeWord(blk, sl, 1);
    Inode(w0 % 0x1_0000, w0 / 0x1_0000, w1 % 0x1_0000, w1 / 0x1_0000, InodeWord(blk, sl, 2),
          [InodeWord(blk, sl, 3), InodeWord(blk, sl, 4), InodeWord(blk, sl, 5), InodeWord(blk, sl, 6),
           InodeWord(blk, sl, 7), InodeWord(blk, sl, 8), InodeWord(blk, sl, 9), InodeWord(blk, sl, 10),
           InodeWord(blk, sl, 11), InodeWord(blk, sl, 12), InodeWord(blk, sl, 13), InodeWord(blk, sl, 14),
           InodeWord(blk, sl, 15)])
  }

  /** What iupdate stores. */
  function InodeWords(ip: Inode): (ws: seq<uint>)
    ensures |ws| == 16
  {
    [ip.typ + 0x1_0000 * ip.major, ip.minor + 0x1_0000 * ip.nlink, ip.size] + ip.addrs
  }

  function PutWordsAt(blk: Block, at: nat, ws: seq<uint>): (r: Block)
    requires at + |ws| <= NWORDS
    ensures forall j: nat :: j < NWORDS ==> Word(r, j) == if at <= j < at + |ws| then ws[j - at] else Word(blk, j)
    decreases |ws|
  {
    if ws == [] then blk
    else
      var n := |ws| - 1;
      SetWord(PutWordsAt(blk, at, ws[..n]), at + n, ws[n])
  }

  lemma SameWords(b: Block, b': Block, sl: nat)
    requires sl < IPB && forall w: nat :: w < 16 ==> InodeWord(b', sl, w) == InodeWord(b, sl, w)
    ensures InodeAt(b', sl) == InodeAt(b, sl)
  {
    hide InodeWord;
  }

  lemma WordsOf(b: Block, sl: nat, ip: Inode)
    requires sl < IPB && forall w: nat :: w < 16 ==> InodeWord(b, sl, w) == InodeWords(ip)[w]
    ensures InodeAt(b, sl) == ip
  {
    hide InodeWord;
    assert InodeAt(b, sl).addrs == ip.addrs;
  }

  /** iupdate's change to the block: the inode it stores is read back, the others stay. */
  lemma PutInode(blk: Block, sl: nat, ip: Inode, j: nat)
    requires sl < IPB && j < IPB
    ensures InodeAt(PutWordsAt(blk, 16 * sl, InodeWords(ip)), j) == if j == sl then ip else InodeAt(blk, j)
  {
    hide Word, InodeAt, SetWord;
    var ws := InodeWords(ip);
    var r := PutWordsAt(blk, 16 * sl, ws);
    forall w: nat | w < 16 ensures InodeWord(r, j, w) == if j == sl then ws[w] else InodeWord(blk, j, w) {
      assert 16 * j + w < NWORDS;
    }
    if j == sl { WordsOf(r, j, ip); } else { SameWords(blk, r, j); }
  }

  // ---- What an operation leaves alone -----------------------------------------------

  /** Inodes other than inum are as they were; inum keeps everything but its pointers. */
  ghost predicate SameInodes(ins: seq<Inode>, ins': seq<Inode>, inum: nat) {
    && |ins'| == |ins|
    && (forall i: nat :: i < |ins| && i != inum ==> ins'[i] == ins[i])
    && (inum < |ins| ==> ins'[inum] == ins[inum].(addrs := ins'[inum].addrs))
  }

  /** No pointer that was there has changed. */
  ghost predicate SamePtrs(s: Store, ins: seq<Inode>, s': Store, ins': seq<Inode>)
    requires |ins'| == |ins|
  {
    forall i: nat, k: nat :: i < |ins| && k < NSLOT && Ptr(s, ins[i], k) != 0 ==>
        Ptr(s', ins'[i], k) == Ptr(s, ins[i], k)
  }

  /** The blocks before the bitmap, where the inodes are, have not changed. */
  ghost predicate SameLow(sb: Super, s: Store, s': Store) {
    forall b: nat :: b < sb.bmapstart ==> Get(s', b) == Get(s, b)
  }

  ghost predicate Kept(sb: Super, s: Store, ins: seq<Inode>, s': Store, ins': seq<Inode>, inum: nat) {
    SameInodes(ins, ins', inum) && SamePtrs(s, ins, s', ins') && SameLow(sb, s, s')
  }

  /** No block of a file has changed, unless it is block bn of inode inum. */
  ghost predicate SameBlksBut(s: Store, ins: seq<Inode>, s': Store, ins': seq<Inode>, inum: nat, bn: nat)
    requires |ins'| == |ins|
  {
    forall i: nat, b: nat :: i < |ins| && b < MAXFILE && (i != inum || b != bn) ==>
        Blk(s', ins'[i], b) == Blk(s, ins[i], b)
  }

  ghost predicate SameBlks(s: Store, ins: seq<Inode>, s': Store, ins': seq<Inode>)
    requires |ins'| == |ins|
  {
    forall i: nat, b: nat :: i < |ins| && b < MAXFILE ==> Blk(s', ins'[i], b) == Blk(s, ins[i], b)
  }

  lemma GrewKept(sb: Super, s: Store, ins: seq<Inode>, owner: map<nat, Slot>, s': Store, ins': seq<Inode>, sl: Slot,
                 r: nat)
    requires Points(s, ins, owner) && Grew(s, ins, owner, s', ins', sl, r)
    requires SameInodes(ins, ins', sl.inum) && SameLow(sb, s, s')
    ensures Kept(sb, s, ins, s', ins', sl.inum) && SameBlks(s, ins, s', ins')
  {
    hide Ptr, Blk, Points;
    forall i: nat, b: nat | i < |ins| && b < MAXFILE ensures Blk(s', ins'[i], b) == Blk(s, ins[i], b) {
      GrewBlk(s, ins, owner, s', ins', sl, r, i, b);
    }
  }

  lemma KeptTwice(sb: Super, s: Store, ins: seq<Inode>, s1: Store, ins1: seq<Inode>, s2: Store, ins2: seq<Inode>,
                  inum: nat)
    requires Kept(sb, s, ins, s1, ins1, inum) && Kept(sb, s1, ins1, s2, ins2, inum)
    ensures Kept(sb, s, ins, s2, ins2, inum)
  {
    hide Ptr, Get;
  }

  // ---- Well-formed files ---------------------------------------------------------------

  /** Every block below the size is there. */
  ghost predicate NoHoles(s: Store, ip: Inode) {
    ip.size <= MAXBYTES && forall bn: nat :: bn * BSIZE < ip.size ==> Ptr(s, ip, DataSlot(bn)) != 0
  }

  /** ilock would load the inode as it is in memory. */
  predicate OnDisk(sb: Super, s: Store, inum: nat, ip: Inode) {
    InodeAt(Get(s, sb.IBlock(inum)), inum % IPB) == ip
  }

  ghost predicate FilesOk(sb: Super, s: Store, ins: seq<Inode>) {
    forall i: nat :: i < |ins| ==> NoHoles(s, ins[i]) && OnDisk(sb, s, i, ins[i])
  }

  lemma KeptFileOk(sb: Super, s: Store, ins: seq<Inode>, s': Store, ins': seq<Inode>, inum: nat, i: nat)
    requires Kept(sb, s, ins, s', ins', inum) && sb.Sane() && |ins| == sb.ninodes && i < |ins|
    requires NoHoles(s, ins[i]) && OnDisk(sb, s, i, ins[i])
    ensures NoHoles(s', ins'[i]) && (ins'[i] == ins[i] ==> OnDisk(sb, s', i, ins'[i]))
  {
    hide Ptr, InodeAt;
    assert sb.IBlock(i) < sb.bmapstart;
  }

  /** A write within the file leaves all files well-formed. */
  lemma KeptFiles(sb: Super, s: Store, ins: seq<Inode>, s': Store, inum: nat)
    requires Kept(sb, s, ins, s', ins, inum) && sb.Sane() && |ins| == sb.ninodes && FilesOk(sb, s, ins)
    ensures FilesOk(sb, s', ins)
  {
    hide NoHoles, OnDisk, Kept;
    forall i: nat | i < |ins| ensures NoHoles(s', ins[i]) && OnDisk(sb, s', i, ins[i]) {
      KeptFileOk(sb, s, ins, s', ins, inum, i);
    }
  }

  /** The blocks of a write that ends at `end` are there. */
  ghost predicate Filled(s: Store, ip: Inode, off: nat, end: nat)
    requires end <= MAXBYTES
  {
    forall bn: nat :: off < (bn + 1) * BSIZE && bn * BSIZE < end ==> Ptr(s, ip, DataSlot(bn)) != 0
  }

  lemma FilledMore(s: Store, ip: Inode, s': Store, ip': Inode, off: nat, y: nat, m: nat)
    requires off <= y && y + m <= MAXBYTES && y % BSIZE + m <= BSIZE && m > 0
    requires Filled(s, ip, off, y)
    requires forall k: nat :: k < NSLOT && Ptr(s, ip, k) != 0 ==> Ptr(s', ip', k) != 0
    requires Ptr(s', ip', DataSlot(y / BSIZE)) != 0
    ensures Filled(s', ip', off, y + m)
  {
    hide Ptr;
    forall bn: nat | off < (bn + 1) * BSIZE && bn * BSIZE < y + m ensures Ptr(s', ip', DataSlot(bn)) != 0 {
      if bn * BSIZE >= y { assert bn == y / BSIZE; }
    }
  }

  /** A write that extends the file leaves it without holes. */
  lemma ExtendNoHoles(s: Store, ip: Inode, s': Store, ip': Inode, off: nat, end: nat)
    requires NoHoles(s, ip) && off <= ip.size < end <= MAXBYTES && Filled(s', ip', off, end) && ip'.size == end
    requires forall k: nat :: k < NSLOT && Ptr(s, ip, k) != 0 ==> Ptr(s', ip', k) != 0
    ensures NoHoles(s', ip')
  {
    hide Ptr;
    forall bn: nat | bn * BSIZE < end ensures Ptr(s', ip', DataSlot(bn)) != 0 {
      if bn * BSIZE < ip.size { assert Ptr(s, ip, DataSlot(bn)) != 0; }
    }
  }

  /** The first block of a write that starts inside a block is there already. */
  lemma FirstBlockThere(s: Store, ip: Inode, off: nat)
    requires NoHoles(s, ip) && off <= ip.size && off % BSIZE != 0
    ensures Ptr(s, ip, DataSlot(off / BSIZE)) != 0
  {
    assert off / BSIZE * BSIZE < ip.size;
  }

  /** The blocks that n bytes at off touch. */
  ghost function Span(off: nat, n: nat): nat {
    if n == 0 then 0 else (off + n - 1) / BSIZE - off / BSIZE + 1
  }

  /** The bytes of the block at off that are among the next `left`: min(left, BSIZE - off % BSIZE). */
  function Piece(off: nat, left: nat): (m: nat)
    ensures left > 0 ==> m > 0
    ensures m <= left && off % BSIZE + m <= BSIZE && (m == left || (off + m) % BSIZE == 0)
  {
    if left < BSIZE - off % BSIZE then left else BSIZE - off % BSIZE
  }

  lemma SpanMore(off: nat, tot: nat, m: nat, n: nat)
    requires tot < n && (tot == 0 || (off + tot) % BSIZE == 0) && m == Piece(off + tot, n - tot)
    ensures Span(off, tot + m) == Span(off, tot) + 1
  {
  }

  lemma SameContents(s: Store, ip: Inode, s': Store, ip': Inode)
    requires ip'.size == ip.size <= MAXBYTES
    requires forall b: nat :: b < MAXFILE ==> Blk(s', ip', b) == Blk(s, ip, b)
    ensures Contents(s', ip') == Contents(s, ip)
  {
    hide Blk;
    forall x: nat | x < ip.size ensures ByteAt(s', ip', x) == ByteAt(s, ip, x) {
      assert x / BSIZE < MAXFILE;
    }
    hide ByteAt;
    assert Contents(s', ip') == Contents(s, ip);
  }

  /** The other files: inode and blocks. */
  ghost predicate SameOthers(s: Store, ins: seq<Inode>, s': Store, ins': seq<Inode>, inum: nat)
    requires |ins'| == |ins|
  {
    forall i: nat, b: nat :: i < |ins| && i != inum && b < MAXFILE ==> Blk(s', ins'[i], b) == Blk(s, ins[i], b)
  }

  /** writei refuses to start past the end, to wrap around, and to exceed the largest file. */
  predicate BadWrite(size: uint, off: uint, n: uint) {
    off > size || (off + n) % 0x1_0000_0000 < off || (off + n) % 0x1_0000_0000 > MAXBYTES
  }

  lemma GoodWrite(size: uint, off: uint, n: uint)
    ensures BadWrite(size, off, n) <==> off > size || off + n > MAXBYTES
  {
  }

  /** Every file as a sequence of bytes. */
  ghost function AllContents(s: Store, ins: seq<Inode>): (f: seq<seq<byte>>)
    requires forall i :: 0 <= i < |ins| ==> ins[i].size <= MAXBYTES
    ensures |f| == |ins| && forall i :: 0 <= i < |ins| ==> f[i] == Contents(s, ins[i])
  {
    if ins == [] then [] else AllContents(s, ins[..|ins| - 1]) + [Contents(s, ins[|ins| - 1])]
  }

  // ---- Running out of blocks -----------------------------------------------------------

  /** The blocks the bitmap has as free. */
  ghost function FreeBlocks(sb: Super, s: Store): set<int> {
    set b | 0 <= b < sb.size && !Bit(sb, s, b)
  }

  /** The numbers from a on, n of them. */
  ghost function From(a: int, n: nat): (r: set<int>)
    ensures |r| == n && forall b :: b in r <==> a <= b < a + n
  {
    if n == 0 then {} else From(a, n - 1) + {a + n - 1}
  }

  /** Every data block is free or has an owner. */
  lemma FreeCount(sb: Super, s: Store, ins: seq<Inode>, owner: map<nat, Slot>)
    requires Core(sb, s, ins, owner)
    ensures |FreeBlocks(sb, s)| + |owner| == sb.nblocks
  {
    hide Bit, Ptr;
    var free, owned: set<int> := FreeBlocks(sb, s), set b | b in owner;
    forall b | sb.DataStart() <= b < sb.size ensures b in free || b in owned {
      assert Bit(sb, s, b) <==> b in owner;
    }
    forall b | b in free ensures sb.DataStart() <= b && b !in owned {
      assert Bit(sb, s, b) <==> b < sb.DataStart() || b in owner;
    }
    assert free + owned == From(sb.DataStart(), sb.nblocks);
    assert owned == owner.Keys;
  }

  /** 1 if the file has no block bn. */
  ghost function NoBlock(s: Store, ip: Inode, bn: nat): nat
    requires bn < MAXFILE
  {
    if Ptr(s, ip, DataSlot(bn)) == 0 then 1 else 0
  }

  /** How many blocks bmap lacks for block bn: the block, and the indirect block if it takes one. */
  ghost function Lack(s: Store, ip: Inode, bn: nat): nat
    requires bn < MAXFILE
  {
    NoBlock(s, ip, bn) + if bn >= NDIRECT && ip.addrs[NDIRECT] == 0 then 1 else 0
  }

  ghost function BlocksLacking(s: Store, ip: Inode, bn: nat, end: nat): nat
    requires end <= MAXBYTES
    decreases end - bn
  {
    if bn * BSIZE >= end then 0 else NoBlock(s, ip, bn) + BlocksLacking(s, ip, bn + 1, end)
  }

  /** How many blocks the file lacks for bytes off up to end. */
  ghost function Lacks(s: Store, ip: Inode, off: nat, end: nat): nat
    requires end <= MAXBYTES
  {
    if off >= end then 0
    else BlocksLacking(s, ip, off / BSIZE, end) + if end > NDIRECT * BSIZE && ip.addrs[NDIRECT] == 0 then 1 else 0
  }

  /** No pointer has changed but those bmap may fill for block bn. */
  ghost predicate PtrsBut(s: Store, ip: Inode, s': Store, ip': Inode, bn: nat) {
    forall l: nat :: l < NSLOT && l != DataSlot(bn) && (l != NDIRECT || bn < NDIRECT) ==>
        Ptr(s', ip', l) == Ptr(s, ip, l)
  }

  lemma {:induction false} LackingSame(s: Store, ip: Inode, s': Store, ip': Inode, bn: nat, end: nat)
    requires end <= MAXBYTES && forall b: nat :: bn <= b < MAXFILE ==>
               Ptr(s', ip', DataSlot(b)) == Ptr(s, ip, DataSlot(b))
    ensures BlocksLacking(s', ip', bn, end) == BlocksLacking(s, ip, bn, end)
    decreases end - bn
  {
    hide Ptr;
    if bn * BSIZE < end { LackingSame(s, ip, s', ip', bn + 1, end); }
  }

  /** bmap for the first block of what is to be written. */
  lemma LacksStep(s: Store, ip: Inode, s': Store, ip': Inode, off: nat, m: nat, end: nat)
    requires m > 0 && off % BSIZE + m <= BSIZE && off + m <= end <= MAXBYTES
    requires var bn := off / BSIZE;
             && PtrsBut(s, ip, s', ip', bn) && Ptr(s', ip', DataSlot(bn)) != 0
             && (bn >= NDIRECT ==> ip'.addrs[NDIRECT] != 0)
    ensures Lacks(s, ip, off, end) == Lack(s, ip, off / BSIZE) + Lacks(s', ip', off + m, end)
  {
    var bn := off / BSIZE;
    assert Ptr(s', ip', NDIRECT) == ip'.addrs[NDIRECT] && Ptr(s, ip, NDIRECT) == ip.addrs[NDIRECT];
    hide Ptr;
    LackingSame(s, ip, s', ip', bn + 1, end);
    var bn' := (off + m) / BSIZE;
    assert bn' == bn || (bn' == bn + 1 && (off + m) % BSIZE == 0);
    assert BlocksLacking(s', ip', bn', end) == BlocksLacking(s', ip', bn + 1, end);
  }

  /** A file lacks nothing up to its size. */
  lemma {:induction false} LacksNothing(s: Store, ip: Inode, bn: nat, end: nat)
    requires NoHoles(s, ip) && end <= ip.size
    ensures BlocksLacking(s, ip, bn, end) == 0
    ensures end > NDIRECT * BSIZE ==> ip.addrs[NDIRECT] != 0
    decreases end - bn
  {
    if end > NDIRECT * BSIZE { assert Ptr(s, ip, DataSlot(NDIRECT)) != 0; }
    hide Ptr;
    if bn * BSIZE < end { LacksNothing(s, ip, bn + 1, end); }
  }

  /** From one state to the next, the blocks taken are those lacking up to where the writing has got. */
  ghost predicate Spends(s: Store, ip: Inode, owner: map<nat, Slot>, s': Store, ip': Inode, owner': map<nat, Slot>,
                         off: nat, off': nat) {
    forall end: nat :: off' <= end <= MAXBYTES ==>
        |owner'| + Lacks(s', ip', off', end) == |owner| + Lacks(s, ip, off, end)
  }

  /** The file lacks more blocks for bytes off up to end than are free. */
  ghost predicate TooFew(sb: Super, s: Store, ip: Inode, off: nat, end: nat)
    requires end <= MAXBYTES
  {
    Lacks(s, ip, off, end) > |FreeBlocks(sb, s)|
  }

  /** Within its size a file lacks nothing. */
  lemma EnoughWithin(sb: Super, s: Store, ip: Inode, off: nat, end: nat)
    requires NoHoles(s, ip) && end <= ip.size
    ensures !TooFew(sb, s, ip, off, end)
  {
    hide Ptr, FreeBlocks;
    LacksNothing(s, ip, off / BSIZE, end);
  }

  lemma {:induction false} LackingMore(s: Store, ip: Inode, bn: nat, end: nat, end': nat)
    requires end <= end' <= MAXBYTES
    ensures BlocksLacking(s, ip, bn, end) <= BlocksLacking(s, ip, bn, end')
    decreases end - bn
  {
    hide Ptr;
    if bn * BSIZE < end { LackingMore(s, ip, bn + 1, end, end'); }
  }

  lemma SpendsTwice(s0: Store, ip0: Inode, owner0: map<nat, Slot>, s: Store, ip: Inode, owner: map<nat, Slot>,
                    s': Store, ip': Inode, owner': map<nat, Slot>, off0: nat, off: nat, off': nat)
    requires Spends(s0, ip0, owner0, s, ip, owner, off0, off) && Spends(s, ip, owner, s', ip', owner', off, off')
    requires off <= off'
    ensures Spends(s0, ip0, owner0, s', ip', owner', off0, off')
  {
    hide Lacks;
  }

  lemma SpendsNothing(s: Store, ip: Inode, owner: map<nat, Slot>, off: nat)
    ensures Spends(s, ip, owner, s, ip, owner, off, off)
  {
  }

  lemma SpendsMore(s0: Store, ip0: Inode, owner0: map<nat, Slot>, s: Store, ip: Inode, owner: map<nat, Slot>,
                   s': Store, ip': Inode, owner': map<nat, Slot>, off0: nat, off: nat, m: nat)
    requires Spends(s0, ip0, owner0, s, ip, owner, off0, off) && m > 0 && off % BSIZE + m <= BSIZE
             && off + m <= MAXBYTES
    requires var bn := off / BSIZE;
             && PtrsBut(s, ip, s', ip', bn) && Ptr(s', ip', DataSlot(bn)) != 0
               && (bn >= NDIRECT ==> ip'.addrs[NDIRECT] != 0)
             && |owner'| == |owner| + Lack(s, ip, bn)
    ensures Spends(s0, ip0, owner0, s', ip', owner', off0, off + m)
  {
    hide Lacks, Lack, Ptr, PtrsBut;
    forall end: nat | off + m <= end <= MAXBYTES
      ensures |owner'| + Lacks(s', ip', off + m, end) == |owner0| + Lacks(s0, ip0, off0, end)
    {
      LacksStep(s, ip, s', ip', off, m, end);
    }
  }

  /** A block that cannot be had is one of those lacking. */
  lemma SpendsShort(s0: Store, ip0: Inode, owner0: map<nat, Slot>, s: Store, ip: Inode, owner: map<nat, Slot>,
                    taken: nat, off0: nat, off: nat, end: nat)
    requires Spends(s0, ip0, owner0, s, ip, owner, off0, off) && off < end <= MAXBYTES
    requires taken < |owner| + Lack(s, ip, off / BSIZE)
    ensures taken < |owner0| + Lacks(s0, ip0, off0, end)
  {
    hide Ptr;
  }

  // ---- Truncation ------------------------------------------------------------------

  const NO_ADDRS: Addrs := [0, 0, 0, 0, 0, 0, 0, 0, 0, 0, 0, 0, 0]

  /** Slots of inode inum that itrunc has freed, when it has freed the first i, and the ones
      after the indirect block's up to j. */
  ghost predicate Gone(owner: map<nat, Slot>, inum: nat, i: nat, j: nat, c: nat) {
    c in owner && owner[c].inum == inum && (owner[c].k < i || NDIRECT < owner[c].k < j)
  }

  /** The blocks are as in s, except that the bitmap no longer marks those. */
  ghost predicate Freed(sb: Super, s: Store, owner: map<nat, Slot>, s': Store, inum: nat, i: nat, j: nat) {
    && (forall c: nat :: c < sb.size ==> (Bit(sb, s', c) <==> Bit(sb, s, c) && !Gone(owner, inum, i, j, c)))
    && (forall c: nat :: !InBitmap(sb, c) ==> Get(s', c) == Get(s, c))
  }

  lemma FreedNone(sb: Super, s: Store, owner: map<nat, Slot>, inum: nat)
    ensures Freed(sb, s, owner, s, inum, 0, NDIRECT + 1)
  {
  }

  /** bfree's change to the bitmap, when block c goes, which slot k points to. */
  lemma FreedOne(sb: Super, s: Store, ins: seq<Inode>, owner: map<nat, Slot>, s': Store, inum: nat, i: nat, j: nat,
                 k: nat)
    requires Core(sb, s, ins, owner) && inum < |ins| && k < NSLOT && Freed(sb, s, owner, s', inum, i, j)
    requires i <= NDIRECT < j && (k == i || k == j)
    ensures var p := Ptr(s, ins[inum], k);
            var s2 := if p == 0 then s' else s'[sb.BBlock(p) := ClearBit(Get(s', sb.BBlock(p)), p % BPB)];
            var i', j' := if k == i then i + 1 else i, if k == i then j else j + 1;
            Freed(sb, s, owner, s2, inum, i', j') && (p != 0 ==> Bit(sb, s', p) && p < sb.size) && sb.Sane()
  {
    hide Bit, Ptr, ClearBit;
    var p := Ptr(s, ins[inum], k);
    var i', j' := if k == i then i + 1 else i, if k == i then j else j + 1;
    assert forall c: nat :: Gone(owner, inum, i', j', c) <==> Gone(owner, inum, i, j, c) || (c == p && p != 0);
    if p != 0 {
      OwnerOf(sb, s, ins, owner, inum, k);
      var s2 := s'[sb.BBlock(p) := ClearBit(Get(s', sb.BBlock(p)), p % BPB)];
      forall c: nat | c < sb.size ensures Bit(sb, s2, c) <==> Bit(sb, s', c) && c != p {
        UnmarkBit(sb, s', p, c);
      }
      assert InBitmap(sb, sb.BBlock(p));
    }
  }

  ghost function OthersOf(owner: map<nat, Slot>, inum: nat): map<nat, Slot> {
    map c | c in owner && owner[c].inum != inum :: owner[c]
  }

  lemma FreedMarks(sb: Super, s: Store, ins: seq<Inode>, owner: map<nat, Slot>, s': Store, inum: nat)
    requires Core(sb, s, ins, owner) && Freed(sb, s, owner, s', inum, NDIRECT + 1, NSLOT)
    ensures Marked(sb, s', OthersOf(owner, inum))
  {
    hide Bit, Ptr;
    assert forall c: nat :: Gone(owner, inum, NDIRECT + 1, NSLOT, c) <==> c in owner && owner[c].inum == inum;
  }

  lemma FreedPoints(s: Store, ins: seq<Inode>, owner: map<nat, Slot>, s': Store, inum: nat, ip: Inode)
    requires Points(s, ins, owner) && inum < |ins| && ip.addrs == NO_ADDRS
    requires forall i: nat, k: nat :: i < |ins| && i != inum && k < NSLOT ==> Ptr(s', ins[i], k) == Ptr(s, ins[i], k)
    ensures Points(s', ins[inum := ip], OthersOf(owner, inum))
  {
    assert forall k: nat :: k < NSLOT ==> Ptr(s', ip, k) == 0;
    hide Ptr;
  }

  /** With all its slots freed and its pointers cleared, the inode owns nothing, and the bitmap
      is right again. */
  lemma FreedAll(sb: Super, s: Store, ins: seq<Inode>, owner: map<nat, Slot>, s': Store, inum: nat, ip: Inode)
    requires Core(sb, s, ins, owner) && inum < |ins| && Freed(sb, s, owner, s', inum, NDIRECT + 1, NSLOT)
             && ip.addrs == NO_ADDRS
    ensures Core(sb, s', ins[inum := ip], OthersOf(owner, inum))
    ensures SameOthers(s, ins, s', ins[inum := ip], inum)
    ensures forall i: nat, k: nat :: i < |ins| && i != inum && k < NSLOT ==> Ptr(s', ins[i], k) == Ptr(s, ins[i], k)
  {
    hide Bit, Ptr, Freed, Points, Marked;
    forall i: nat, k: nat | i < |ins| && i != inum && k < NSLOT ensures Ptr(s', ins[i], k) == Ptr(s, ins[i], k) {
      FreedPtr(sb, s, ins, owner, s', inum, i, k);
    }
    FreedPoints(s, ins, owner, s', inum, ip);
    FreedMarks(sb, s, ins, owner, s', inum);
    forall i: nat, b: nat | i < |ins| && i != inum && b < MAXFILE
      ensures Blk(s', ins[inum := ip][i], b) == Blk(s, ins[i], b)
    {
      FreedPtr(sb, s, ins, owner, s', inum, i, DataSlot(b));
    }
  }

  lemma FreedPtr(sb: Super, s: Store, ins: seq<Inode>, owner: map<nat, Slot>, s': Store, inum: nat, i: nat, k: nat)
    requires Core(sb, s, ins, owner) && Freed(sb, s, owner, s', inum, NDIRECT + 1, NSLOT) && i < |ins| && k < NSLOT
    ensures Ptr(s', ins[i], k) == Ptr(s, ins[i], k)
    ensures Ptr(s, ins[i], k) != 0 ==> Get(s', Ptr(s, ins[i], k)) == Get(s, Ptr(s, ins[i], k))
  {
    hide Bit, Word;
    assert Ptr(s, ins[i], NDIRECT) == ins[i].addrs[NDIRECT];
    if Ptr(s, ins[i], NDIRECT) != 0 { OwnerOf(sb, s, ins, owner, i, NDIRECT); }
    if Ptr(s, ins[i], k) != 0 { OwnerOf(sb, s, ins, owner, i, k); }
  }
}
