// Day 9: compacting a disk described by a dense map of digits.
module Day09 {
  import opened Common

  // ---------------------------------------------------------------------
  // Sums of consecutive positions

  /** start + (start + 1) + ... + (start + len - 1). */
  function Series(start: nat, len: nat): nat
  {
    if len == 0 then 0 else Series(start, len - 1) + (start + len - 1)
  }

  lemma {:induction false} SeriesClosed(start: nat, len: nat)
    ensures (start + (start + len - 1)) * len == 2 * Series(start, len)
  {
    if len > 0 {
      SeriesClosed(start, len - 1);
      var m := len - 1;
      assert (start + (start + m - 1)) * m == 2 * Series(start, m);
      calc {
        (start + (start + len - 1)) * len;
        (2 * start + m) * (m + 1);
        (2 * start + m) * m + 2 * start + m;
        (2 * start + m - 1) * m + m + 2 * start + m;
        2 * Series(start, m) + 2 * (start + len - 1);
      }
    }
  }

  /** The closed form the source uses for the sum of a run of positions. */
  function GaussSum(start: nat, len: nat): (r: nat)
    ensures r == Series(start, len)
  {
    SeriesClosed(start, len);
    ((start + (start + len - 1)) * len) / 2
  }

  /** What a run of len blocks of file id adds to the checksum from position start on. */
  function Weight(id: nat, start: nat, len: nat): nat
  {
    id * Series(start, len)
  }

  /** The source's product of a file id with the closed-form sum of a run. */
  function RunWeight(id: nat, start: nat, len: nat): (r: nat)
    ensures r == Weight(id, start, len)
  {
    var g := GaussSum(start, len);
    assert g == Series(start, len);
    id * g
  }

  // ---------------------------------------------------------------------
  // The disk

  /** A run of blocks: a file with its id, or free space (id 0). */
  datatype DiskBlock = DiskBlock(isFile: bool, fileIndex: nat, length: nat)

  /** Even digits are file lengths (file id = index / 2), odd digits gap lengths. */
  function Blocks(input: seq<nat>): seq<DiskBlock>
  {
    seq(|input|, k requires 0 <= k < |input| =>
      if k % 2 == 0 then DiskBlock(true, k / 2, input[k]) else DiskBlock(false, 0, input[k]))
  }

  function Repeat<T>(v: T, n: nat): (r: seq<T>)
    ensures |r| == n && forall k :: 0 <= k < n ==> r[k] == v
  {
    seq(n, _ => v)
  }

  /** What each block of a run holds: Some(id) for a file, None for free space. */
  function Tag(block: DiskBlock): Option<nat>
  {
    if block.isFile then Some(block.fileIndex) else None
  }

  /** The number of blocks in the first k runs. */
  function TotalTo(blocks: seq<DiskBlock>, k: nat): nat
    requires k <= |blocks|
  {
    if k == 0 then 0 else TotalTo(blocks, k - 1) + blocks[k - 1].length
  }

  /** The number of file blocks in the first k runs. */
  function FileTotalTo(blocks: seq<DiskBlock>, k: nat): nat
    requires k <= |blocks|
  {
    if k == 0 then 0 else FileTotalTo(blocks, k - 1) + (if blocks[k - 1].isFile then blocks[k - 1].length else 0)
  }

  /** The number of free blocks in the first k runs. */
  function GapTotalTo(blocks: seq<DiskBlock>, k: nat): nat
    requires k <= |blocks|
  {
    if k == 0 then 0 else GapTotalTo(blocks, k - 1) + (if blocks[k - 1].isFile then 0 else blocks[k - 1].length)
  }

  /** The first k runs, block by block. */
  function ExpandTo(blocks: seq<DiskBlock>, k: nat): (r: seq<Option<nat>>)
    requires k <= |blocks|
    ensures |r| == TotalTo(blocks, k)
  {
    if k == 0 then [] else ExpandTo(blocks, k - 1) + Repeat(Tag(blocks[k - 1]), blocks[k - 1].length)
  }

  /** The disk, block by block. */
  function Expand(blocks: seq<DiskBlock>): seq<Option<nat>>
  {
    ExpandTo(blocks, |blocks|)
  }

  function Disk(input: seq<nat>): seq<Option<nat>>
  {
    Expand(Blocks(input))
  }

  /** The ids of the file blocks among the first n blocks, left to right. */
  function FilesTo(d: seq<Option<nat>>, n: nat): (r: seq<nat>)
    requires n <= |d|
    ensures |r| <= n
  {
    if n == 0 then [] else FilesTo(d, n - 1) + (if d[n - 1].Some? then [d[n - 1].value] else [])
  }

  function Files(d: seq<Option<nat>>): seq<nat>
  {
    FilesTo(d, |d|)
  }

  /** The number of free blocks among the first n blocks. */
  function FreeTo(d: seq<Option<nat>>, n: nat): (r: nat)
    requires n <= |d|
    ensures r + |FilesTo(d, n)| == n
  {
    if n == 0 then 0 else FreeTo(d, n - 1) + (if d[n - 1].Some? then 0 else 1)
  }

  /** The sum of position * id over the file blocks among the first n blocks. */
  function ChecksumTo(d: seq<Option<nat>>, n: nat): nat
    requires n <= |d|
  {
    if n == 0 then 0 else ChecksumTo(d, n - 1) + (if d[n - 1].Some? then (n - 1) * d[n - 1].value else 0)
  }

  /** The checksum of a disk. */
  function Checksum(d: seq<Option<nat>>): nat
  {
    ChecksumTo(d, |d|)
  }

  /**
   * The disk after moving file blocks one at a time from the end of the
   * disk to the leftmost free block: the free block that has n free blocks
   * before it receives the n-th file block counted from the end, and every
   * block from the first |Files(d)| onwards is free.
   */
  function Compacted(d: seq<Option<nat>>): (r: seq<Option<nat>>)
    ensures |r| == |d|
    ensures forall p :: 0 <= p < |d| ==> (r[p].Some? <==> p < |Files(d)|)
  {
    seq(|d|, p => CompactedAt(d, p))
  }

  /** Block p of the compacted disk. */
  function CompactedAt(d: seq<Option<nat>>, p: int): Option<nat>
  {
    var files := Files(d);
    if p < 0 || p >= |files| then None
    else if d[p].Some? then d[p]
    else Some(files[|files| - 1 - FreeTo(d, p)])
  }

  // ---------------------------------------------------------------------
  // Facts about disks

  lemma {:induction false} TotalSplit(blocks: seq<DiskBlock>, k: nat)
    requires k <= |blocks|
    ensures TotalTo(blocks, k) == FileTotalTo(blocks, k) + GapTotalTo(blocks, k)
  {
    if k > 0 {
      TotalSplit(blocks, k - 1);
    }
  }

  lemma {:induction false} Monotone(blocks: seq<DiskBlock>, j: nat, k: nat)
    requires j <= k <= |blocks|
    ensures TotalTo(blocks, j) <= TotalTo(blocks, k)
    ensures FileTotalTo(blocks, j) <= FileTotalTo(blocks, k)
    decreases k
  {
    if j < k {
      Monotone(blocks, j, k - 1);
    }
  }

  /** Block r of run j sits at position TotalTo(blocks, j) + r. */
  lemma {:induction false} ExpandAt(blocks: seq<DiskBlock>, k: nat, j: nat, r: nat)
    requires j < k <= |blocks| && r < blocks[j].length
    ensures TotalTo(blocks, j) + r < TotalTo(blocks, k)
    ensures ExpandTo(blocks, k)[TotalTo(blocks, j) + r] == Tag(blocks[j])
    decreases k
  {
    if j + 1 < k {
      ExpandAt(blocks, k - 1, j, r);
    }
  }

  lemma DiskAt(blocks: seq<DiskBlock>, j: nat, r: nat)
    requires j < |blocks| && r < blocks[j].length
    ensures TotalTo(blocks, j) + r < |Expand(blocks)|
    ensures Expand(blocks)[TotalTo(blocks, j) + r] == Tag(blocks[j])
  {
    ExpandAt(blocks, |blocks|, j, r);
  }

  /** Every block of run k sits in the expanded disk with the run's tag. */
  lemma RunAt(blocks: seq<DiskBlock>, k: nat)
    requires k < |blocks|
    ensures TotalTo(blocks, k) + blocks[k].length <= |Expand(blocks)|
    ensures forall q :: TotalTo(blocks, k) <= q < TotalTo(blocks, k) + blocks[k].length ==>
      Expand(blocks)[q] == Tag(blocks[k])
  {
    var t := TotalTo(blocks, k);
    RunFits(blocks, k);
    forall q | t <= q < t + blocks[k].length
      ensures Expand(blocks)[q] == Tag(blocks[k])
    {
      DiskAt(blocks, k, q - t);
    }
  }

  /** Run k ends inside the expanded disk. */
  lemma RunFits(blocks: seq<DiskBlock>, k: nat)
    requires k < |blocks|
    ensures TotalTo(blocks, k) + blocks[k].length <= |Expand(blocks)|
  {
    Monotone(blocks, k + 1, |blocks|);
  }

  /** Counting over n equal blocks from position p. */
  lemma RunCounts(d: seq<Option<nat>>, p: nat, n: nat, v: Option<nat>)
    requires p + n <= |d|
    requires forall q :: p <= q < p + n ==> d[q] == v
    ensures FreeTo(d, p + n) == FreeTo(d, p) + (if v.Some? then 0 else n)
    ensures FilesTo(d, p + n) == FilesTo(d, p) + (if v.Some? then Repeat(v.value, n) else [])
  {
    RunFree(d, p, n, v);
    RunFiles(d, p, n, v);
  }

  /** n equal blocks from position p add n free blocks, or none. */
  lemma {:induction false} RunFree(d: seq<Option<nat>>, p: nat, n: nat, v: Option<nat>)
    requires p + n <= |d|
    requires forall q :: p <= q < p + n ==> d[q] == v
    ensures FreeTo(d, p + n) == FreeTo(d, p) + (if v.Some? then 0 else n)
  {
    if n > 0 {
      RunFree(d, p, n - 1, v);
    }
  }

  /** n equal blocks from position p add n copies of a file id, or none. */
  lemma {:induction false} RunFiles(d: seq<Option<nat>>, p: nat, n: nat, v: Option<nat>)
    requires p + n <= |d|
    requires forall q :: p <= q < p + n ==> d[q] == v
    ensures FilesTo(d, p + n) == FilesTo(d, p) + (if v.Some? then Repeat(v.value, n) else [])
  {
    if n > 0 {
      RunFiles(d, p, n - 1, v);
      if v.Some? {
        assert Repeat(v.value, n) == Repeat(v.value, n - 1) + [v.value];
      }
    }
  }

  lemma {:induction false} ChecksumSpan(d: seq<Option<nat>>, p: nat, n: nat, id: nat)
    requires p + n <= |d|
    requires forall q :: p <= q < p + n ==> d[q] == Some(id)
    ensures ChecksumTo(d, p + n) == ChecksumTo(d, p) + Weight(id, p, n)
  {
    if n > 0 {
      ChecksumSpan(d, p, n - 1, id);
      Distribute(id, Series(p, n - 1), p + n - 1);
    }
  }

  /** ChecksumSpan with the end of the span given as m. */
  lemma ChecksumSpanTo(d: seq<Option<nat>>, p: nat, n: nat, m: nat, id: nat)
    requires p + n <= |d| && m == p + n
    requires forall q :: p <= q < p + n ==> d[q] == Some(id)
    ensures ChecksumTo(d, m) == ChecksumTo(d, p) + Weight(id, p, n)
  {
    ChecksumSpan(d, p, n, id);
  }

  lemma Distribute(x: nat, y: nat, z: nat)
    ensures x * (y + z) == x * y + z * x
  {
  }

  /** The runs before run k hold GapTotalTo free and FileTotalTo file blocks. */
  lemma {:induction false} PrefixCounts(blocks: seq<DiskBlock>, k: nat)
    requires k <= |blocks|
    ensures TotalTo(blocks, k) <= |Expand(blocks)|
    ensures FreeTo(Expand(blocks), TotalTo(blocks, k)) == GapTotalTo(blocks, k)
    ensures |FilesTo(Expand(blocks), TotalTo(blocks, k))| == FileTotalTo(blocks, k)
  {
    Monotone(blocks, k, |blocks|);
    if k > 0 {
      PrefixCounts(blocks, k - 1);
      PrefixStep(blocks, k);
    }
  }

  /** `PrefixCounts`'s step over run k - 1. */
  lemma PrefixStep(blocks: seq<DiskBlock>, k: nat)
    requires 0 < k <= |blocks| && TotalTo(blocks, k - 1) <= TotalTo(blocks, k) <= |Expand(blocks)|
    requires FreeTo(Expand(blocks), TotalTo(blocks, k - 1)) == GapTotalTo(blocks, k - 1)
    requires |FilesTo(Expand(blocks), TotalTo(blocks, k - 1))| == FileTotalTo(blocks, k - 1)
    ensures FreeTo(Expand(blocks), TotalTo(blocks, k)) == GapTotalTo(blocks, k)
    ensures |FilesTo(Expand(blocks), TotalTo(blocks, k))| == FileTotalTo(blocks, k)
  {
    var d := Expand(blocks);
    var p := TotalTo(blocks, k - 1);
    RunAt(blocks, k - 1);
    RunCounts(d, p, blocks[k - 1].length, Tag(blocks[k - 1]));
    TotalSplit(blocks, k);
  }

  lemma {:induction false} FilesPrefix(d: seq<Option<nat>>, m: nat, n: nat)
    requires m <= n <= |d|
    ensures |FilesTo(d, m)| <= |FilesTo(d, n)|
    ensures FilesTo(d, n)[..|FilesTo(d, m)|] == FilesTo(d, m)
    decreases n
  {
    if m < n {
      FilesPrefix(d, m, n - 1);
    }
  }

  /** The file blocks of run k are the entries FileTotalTo(blocks, k) + m of Files. */
  lemma FilesAt(blocks: seq<DiskBlock>, k: nat, m: nat)
    requires k < |blocks| && blocks[k].isFile && m < blocks[k].length
    ensures FileTotalTo(blocks, k) + m < |Files(Expand(blocks))|
    ensures Files(Expand(blocks))[FileTotalTo(blocks, k) + m] == blocks[k].fileIndex
  {
    var d := Expand(blocks);
    var p := TotalTo(blocks, k);
    var len := blocks[k].length;
    var id := blocks[k].fileIndex;
    PrefixCounts(blocks, k);
    RunAt(blocks, k);
    RunCounts(d, p, len, Some(id));
    var run := FilesTo(d, p + len);
    assert run == FilesTo(d, p) + Repeat(id, len);
    assert run[FileTotalTo(blocks, k) + m] == id;
    FilesPrefix(d, p + len, |d|);
  }

  lemma {:induction false} ChecksumFreeTail(d: seq<Option<nat>>, n: nat, m: nat)
    requires n <= m <= |d|
    requires forall p :: n <= p < |d| ==> d[p].None?
    ensures ChecksumTo(d, m) == ChecksumTo(d, n)
    decreases m
  {
    if n < m {
      ChecksumFreeTail(d, n, m - 1);
    }
  }

  lemma CompactedKeeps(d: seq<Option<nat>>, p: nat)
    requires p < |Files(d)| && d[p].Some?
    ensures Compacted(d)[p] == d[p]
  {
  }

  lemma CompactedFills(d: seq<Option<nat>>, p: nat)
    requires p < |Files(d)| && d[p].None?
    ensures FreeTo(d, p) < |Files(d)|
    ensures Compacted(d)[p] == Some(Files(d)[|Files(d)| - 1 - FreeTo(d, p)])
  {
  }

  // ---------------------------------------------------------------------
  // Part 1 (two cursors)

  /** The compacted disk of the input: file runs stay, gaps take blocks from the end. */
  ghost function Compact1(input: seq<nat>): seq<Option<nat>>
  {
    Compacted(Disk(input))
  }

  /**
   * The n blocks of run k (a file) from its start keep the file's id in the
   * compacted disk when they lie before the end of the compacted files.
   */
  lemma FileRunKept(b: seq<DiskBlock>, k: nat, n: nat)
    requires k < |b| && b[k].isFile && n <= b[k].length
    requires TotalTo(b, k) + n <= FileTotalTo(b, |b|)
    ensures TotalTo(b, k) + n <= |Expand(b)|
    ensures forall q :: TotalTo(b, k) <= q < TotalTo(b, k) + n ==> Compacted(Expand(b))[q] == Some(b[k].fileIndex)
  {
    var d := Expand(b);
    var p := TotalTo(b, k);
    PrefixCounts(b, |b|);
    forall q | p <= q < p + n
      ensures Compacted(d)[q] == Some(b[k].fileIndex)
    {
      DiskAt(b, k, q - p);
      CompactedKeeps(d, q);
    }
  }

  /** The arithmetic of TakeOne: which file block, counted from the end, block r of gap k receives. */
  lemma TakeIndex(b: seq<DiskBlock>, k: nat, j: nat, c: nat, r: nat)
    requires k < j < |b| && !b[k].isFile && b[j].isFile
    requires r < b[k].length && c < b[j].length
    requires GapTotalTo(b, k) + r + FileTotalTo(b, j + 1) == FileTotalTo(b, |b|) + c
    ensures TotalTo(b, k) + r < FileTotalTo(b, |b|)
    ensures FileTotalTo(b, |b|) - 1 - (GapTotalTo(b, k) + r) == FileTotalTo(b, j) + (b[j].length - c - 1)
  {
    TotalSplit(b, k);
    Monotone(b, k, j);
  }

  /**
   * Block r of gap k receives a block of file run j when the free blocks
   * before it match the file blocks after the c used-up ones of run j.
   */
  lemma TakeOne(b: seq<DiskBlock>, k: nat, j: nat, c: nat, r: nat, q: nat)
    requires k < j < |b| && !b[k].isFile && b[j].isFile
    requires r < b[k].length && c < b[j].length && q == TotalTo(b, k) + r
    requires GapTotalTo(b, k) + r + FileTotalTo(b, j + 1) == FileTotalTo(b, |b|) + c
    ensures q < |Expand(b)|
    ensures Compacted(Expand(b))[q] == Some(b[j].fileIndex)
  {
    var d := Expand(b);
    var m := b[j].length - c - 1;
    TakeSlot(b, k, j, c, r, q);
    FilesAt(b, j, m);
    CompactedFills(d, q);
  }

  /** TakeOne's counting: block q is free, and the free blocks before it pick file block m of run j. */
  lemma TakeSlot(b: seq<DiskBlock>, k: nat, j: nat, c: nat, r: nat, q: nat)
    requires k < j < |b| && !b[k].isFile && b[j].isFile
    requires r < b[k].length && c < b[j].length && q == TotalTo(b, k) + r
    requires GapTotalTo(b, k) + r + FileTotalTo(b, j + 1) == FileTotalTo(b, |b|) + c
    ensures q < |Files(Expand(b))| && q < |Expand(b)| && Expand(b)[q] == None
    ensures |Files(Expand(b))| - 1 - FreeTo(Expand(b), q) == FileTotalTo(b, j) + (b[j].length - c - 1)
  {
    var d := Expand(b);
    var p := TotalTo(b, k);
    TakeIndex(b, k, j, c, r);
    PrefixCounts(b, |b|);
    PrefixCounts(b, k);
    DiskAt(b, k, r);
    forall q | p <= q < p + r
      ensures d[q] == None
    {
      DiskAt(b, k, q - p);
    }
    RunCounts(d, p, r, None);
  }

  /**
   * Gap k, from its block r on, receives n blocks of file run j: the run
   * whose blocks are the next ones counted from the end, c of them used.
   */
  lemma TakeRun(b: seq<DiskBlock>, k: nat, r: nat, j: nat, c: nat, n: nat)
    requires k < j < |b| && !b[k].isFile && b[j].isFile
    requires r + n <= b[k].length && c + n <= b[j].length
    requires GapTotalTo(b, k) + r + FileTotalTo(b, j + 1) == FileTotalTo(b, |b|) + c
    ensures TotalTo(b, k) + r + n <= |Expand(b)|
    ensures forall q :: TotalTo(b, k) + r <= q < TotalTo(b, k) + r + n ==>
      Compacted(Expand(b))[q] == Some(b[j].fileIndex)
  {
    var p := TotalTo(b, k) + r;
    Monotone(b, k + 1, |b|);
    forall q | p <= q < p + n
      ensures q < |Expand(b)| && Compacted(Expand(b))[q] == Some(b[j].fileIndex)
    {
      TakeOne(b, k, j, c + (q - p), q - TotalTo(b, k), q);
    }
  }

  /** While the cursors have not crossed, the forward file lies before the end of the compacted files. */
  lemma FileRoom(b: seq<DiskBlock>, k: nat, j: nat, c: nat, n: nat)
    requires k <= j < |b| && b[k].isFile && b[j].isFile && c <= b[j].length
    requires (k < j && n <= b[k].length) || (k == j && n + c <= b[k].length)
    requires GapTotalTo(b, k) + FileTotalTo(b, j + 1) == FileTotalTo(b, |b|) + c
    ensures TotalTo(b, k) + n <= FileTotalTo(b, |b|)
  {
    TotalSplit(b, k);
    if k < j {
      Monotone(b, k + 1, j);
    }
  }

  lemma FileBlock(input: seq<nat>, f: nat)
    requires 2 * f < |input|
    ensures Blocks(input)[2 * f] == DiskBlock(true, f, input[2 * f])
  {
  }

  lemma GapBlock(input: seq<nat>, f: nat)
    requires 2 * f + 1 < |input|
    ensures Blocks(input)[2 * f + 1] == DiskBlock(false, 0, input[2 * f + 1])
  {
  }

  /** The state of the outer loop of part 1 while the two cursors have not crossed. */
  ghost predicate Ahead(input: seq<nat>, fi: nat, i: nat, e: nat, c: nat, answer: nat)
  {
    var b := Blocks(input);
    2 * e < |input| && fi <= e && c <= input[2 * e] &&
    i == TotalTo(b, 2 * fi) &&
    GapTotalTo(b, 2 * fi) + FileTotalTo(b, 2 * e + 1) == FileTotalTo(b, |b|) + c &&
    i <= |Compact1(input)| && answer == ChecksumTo(Compact1(input), i)
  }

  /** The state of the gap loop of part 1: gapDone blocks of the gap after file fi are filled. */
  ghost predicate Filling(input: seq<nat>, fi: nat, gapDone: nat, i: nat, e: nat, c: nat, answer: nat)
  {
    var b := Blocks(input);
    2 * fi + 1 < |input| && gapDone <= input[2 * fi + 1] &&
    2 * e < |input| && fi <= e && c <= input[2 * e] && (e == fi ==> c == 0) &&
    i == TotalTo(b, 2 * fi + 1) + gapDone &&
    GapTotalTo(b, 2 * fi + 1) + gapDone + FileTotalTo(b, 2 * e + 1) == FileTotalTo(b, |b|) + c &&
    i <= |Compact1(input)| && answer == ChecksumTo(Compact1(input), i)
  }

  /** Ahead, unfolded. */
  lemma AheadFacts(input: seq<nat>, fi: nat, i: nat, e: nat, c: nat, answer: nat)
    requires Ahead(input, fi, i, e, c, answer)
    ensures 2 * e < |input| && fi <= e && c <= input[2 * e]
    ensures i == TotalTo(Blocks(input), 2 * fi)
    ensures GapTotalTo(Blocks(input), 2 * fi) + FileTotalTo(Blocks(input), 2 * e + 1)
      == FileTotalTo(Blocks(input), |Blocks(input)|) + c
    ensures i <= |Compact1(input)| && answer == ChecksumTo(Compact1(input), i)
  {
  }

  /** Filling, folded from its parts. */
  lemma MakeFilling(input: seq<nat>, fi: nat, gapDone: nat, i: nat, e: nat, c: nat, answer: nat)
    requires 2 * fi + 1 < |input| && gapDone <= input[2 * fi + 1]
    requires 2 * e < |input| && fi <= e && c <= input[2 * e] && (e == fi ==> c == 0)
    requires i == TotalTo(Blocks(input), 2 * fi + 1) + gapDone
    requires GapTotalTo(Blocks(input), 2 * fi + 1) + gapDone + FileTotalTo(Blocks(input), 2 * e + 1)
      == FileTotalTo(Blocks(input), |Blocks(input)|) + c
    requires i <= |Compact1(input)| && answer == ChecksumTo(Compact1(input), i)
    ensures Filling(input, fi, gapDone, i, e, c, answer)
  {
  }

  /** The start: nothing counted, the backward cursor on the last file. */
  lemma Begin(input: seq<nat>, e: nat)
    requires 2 * e < |input| <= 2 * e + 2
    ensures Ahead(input, 0, 0, e, 0, 0)
  {
    if |input| == 2 * e + 2 {
      GapBlock(input, e);
    }
  }

  /** File fi, still before the backward cursor, is counted where it stands. */
  lemma KeepFile(input: seq<nat>, fi: nat, i: nat, e: nat, c: nat, answer: nat)
    requires Ahead(input, fi, i, e, c, answer) && fi < e
    ensures Filling(input, fi, 0, i + input[2 * fi], e, c, answer + Weight(fi, i, input[2 * fi]))
  {
    var i' := i + input[2 * fi];
    AheadFacts(input, fi, i, e, c, answer);
    KeepFileSum(input, fi, i, e, c, i');
    KeepFileCounts(input, fi, i, i');
    MakeFilling(input, fi, 0, i', e, c, answer + Weight(fi, i, input[2 * fi]));
  }

  /** KeepFile's checksum: file fi's blocks, ending at i', keep their place in the compacted disk. */
  lemma KeepFileSum(input: seq<nat>, fi: nat, i: nat, e: nat, c: nat, i': nat)
    requires 2 * e < |input| && fi < e && c <= input[2 * e]
    requires i == TotalTo(Blocks(input), 2 * fi) && i' == i + input[2 * fi]
    requires GapTotalTo(Blocks(input), 2 * fi) + FileTotalTo(Blocks(input), 2 * e + 1)
      == FileTotalTo(Blocks(input), |Blocks(input)|) + c
    ensures i' <= |Compact1(input)|
    ensures ChecksumTo(Compact1(input), i') == ChecksumTo(Compact1(input), i) + Weight(fi, i, input[2 * fi])
  {
    var b := Blocks(input);
    FileBlock(input, fi);
    FileBlock(input, e);
    FileRoom(b, 2 * fi, 2 * e, c, input[2 * fi]);
    FileRunKept(b, 2 * fi, input[2 * fi]);
    assert Compact1(input) == Compacted(Expand(b));
    ChecksumSpanTo(Compact1(input), i, input[2 * fi], i', fi);
  }

  /** KeepFile's totals: run 2·fi is file fi, so the gap total does not move. */
  lemma KeepFileCounts(input: seq<nat>, fi: nat, i: nat, i': nat)
    requires 2 * fi + 1 < |input| && i == TotalTo(Blocks(input), 2 * fi) && i' == i + input[2 * fi]
    ensures TotalTo(Blocks(input), 2 * fi + 1) == i'
    ensures GapTotalTo(Blocks(input), 2 * fi + 1) == GapTotalTo(Blocks(input), 2 * fi)
  {
    FileBlock(input, fi);
  }

  /** The cursors meet: the unconsumed rest of file fi closes the checksum. */
  lemma MeetFile(input: seq<nat>, fi: nat, i: nat, c: nat, answer: nat)
    requires Ahead(input, fi, i, fi, c, answer)
    ensures answer + Weight(fi, i, input[2 * fi] - c) == Checksum(Compact1(input))
  {
    var m := i + (input[2 * fi] - c);
    AheadFacts(input, fi, i, fi, c, answer);
    MeetFileSum(input, fi, i, c, m);
    AllCounted(input, m);
  }

  /** MeetFile's checksum: the rest of file fi keeps its place and ends the file blocks at m. */
  lemma MeetFileSum(input: seq<nat>, fi: nat, i: nat, c: nat, m: nat)
    requires 2 * fi < |input| && c <= input[2 * fi]
    requires i == TotalTo(Blocks(input), 2 * fi) && m == i + (input[2 * fi] - c)
    requires GapTotalTo(Blocks(input), 2 * fi) + FileTotalTo(Blocks(input), 2 * fi + 1)
      == FileTotalTo(Blocks(input), |Blocks(input)|) + c
    ensures m == FileTotalTo(Blocks(input), |input|)
    ensures m <= |Compact1(input)|
    ensures ChecksumTo(Compact1(input), m) == ChecksumTo(Compact1(input), i) + Weight(fi, i, input[2 * fi] - c)
  {
    var b := Blocks(input);
    var n := input[2 * fi] - c;
    FileBlock(input, fi);
    FileRoom(b, 2 * fi, 2 * fi, c, n);
    TotalSplit(b, 2 * fi);
    FileRunKept(b, 2 * fi, n);
    assert Compact1(input) == Compacted(Expand(b));
    ChecksumSpanTo(Compact1(input), i, n, m, fi);
  }

  /** Once every file block is counted, the rest of the compacted disk adds nothing. */
  lemma AllCounted(input: seq<nat>, n: nat)
    requires n == FileTotalTo(Blocks(input), |input|)
    ensures n <= |Compact1(input)| && ChecksumTo(Compact1(input), n) == Checksum(Compact1(input))
  {
    var b := Blocks(input);
    PrefixCounts(b, |b|);
    ChecksumFreeTail(Compact1(input), n, |Compact1(input)|);
  }

  /**
   * n blocks of the gap receive blocks of the file at the backward cursor;
   * the primed values are the loop's new ones.
   */
  lemma Take(input: seq<nat>, fi: nat, gapDone: nat, i: nat, e: nat, c: nat, answer: nat, n: nat,
             gapDone': nat, i': nat, c': nat, answer': nat)
    requires Filling(input, fi, gapDone, i, e, c, answer) && fi < e
    requires gapDone + n <= input[2 * fi + 1] && c + n <= input[2 * e]
    requires gapDone' == gapDone + n && i' == i + n && c' == c + n && answer' == answer + Weight(e, i, n)
    ensures Filling(input, fi, gapDone', i', e, c', answer')
  {
    FillingFacts(input, fi, gapDone, i, e, c, answer);
    TakeSum(input, fi, gapDone, i, e, c, n, i');
    MakeFilling(input, fi, gapDone', i', e, c', answer');
  }

  /** Filling, unfolded. */
  lemma FillingFacts(input: seq<nat>, fi: nat, gapDone: nat, i: nat, e: nat, c: nat, answer: nat)
    requires Filling(input, fi, gapDone, i, e, c, answer)
    ensures 2 * fi + 1 < |input| && gapDone <= input[2 * fi + 1]
    ensures 2 * e < |input| && fi <= e && c <= input[2 * e] && (e == fi ==> c == 0)
    ensures i == TotalTo(Blocks(input), 2 * fi + 1) + gapDone
    ensures GapTotalTo(Blocks(input), 2 * fi + 1) + gapDone + FileTotalTo(Blocks(input), 2 * e + 1)
      == FileTotalTo(Blocks(input), |Blocks(input)|) + c
    ensures i <= |Compact1(input)| && answer == ChecksumTo(Compact1(input), i)
  {
  }

  /** Take's checksum: the n gap blocks hold the file at the backward cursor. */
  lemma TakeSum(input: seq<nat>, fi: nat, gapDone: nat, i: nat, e: nat, c: nat, n: nat, i': nat)
    requires 2 * fi + 1 < |input| && 2 * e < |input| && fi < e
    requires gapDone + n <= input[2 * fi + 1] && c + n <= input[2 * e]
    requires i == TotalTo(Blocks(input), 2 * fi + 1) + gapDone && i <= |Compact1(input)|
    requires GapTotalTo(Blocks(input), 2 * fi + 1) + gapDone + FileTotalTo(Blocks(input), 2 * e + 1)
      == FileTotalTo(Blocks(input), |Blocks(input)|) + c
    requires i' == i + n
    ensures i' <= |Compact1(input)|
    ensures ChecksumTo(Compact1(input), i') == ChecksumTo(Compact1(input), i) + Weight(e, i, n)
  {
    var b := Blocks(input);
    var d := Compacted(Expand(b));
    FileBlock(input, e);
    GapBlock(input, fi);
    assert Compact1(input) == d;
    TakeRun(b, 2 * fi + 1, gapDone, 2 * e, c, n);
    ChecksumSpanTo(Compact1(input), i, n, i', e);
  }

  /** The file at the backward cursor is used up: the cursor moves one file down. */
  lemma Retreat(input: seq<nat>, fi: nat, gapDone: nat, i: nat, e: nat, answer: nat)
    requires fi < e && 2 * e < |input| && Filling(input, fi, gapDone, i, e, input[2 * e], answer)
    ensures Filling(input, fi, gapDone, i, e - 1, 0, answer)
  {
    var b := Blocks(input);
    FileBlock(input, e);
    GapBlock(input, e - 1);
    assert 2 * (e - 1) + 1 == 2 * e - 1;
    assert FileTotalTo(b, 2 * e + 1) == FileTotalTo(b, 2 * e - 1) + input[2 * e];
  }

  /** The gap takes the whole rest of the file at the backward cursor, which then moves one file down. */
  lemma TakeRest(input: seq<nat>, fi: nat, gapDone: nat, i: nat, e: nat, c: nat, answer: nat, n: nat,
                 gapDone': nat, i': nat, answer': nat)
    requires Filling(input, fi, gapDone, i, e, c, answer) && fi < e
    requires gapDone + n <= input[2 * fi + 1] && c + n == input[2 * e]
    requires gapDone' == gapDone + n && i' == i + n && answer' == answer + Weight(e, i, n)
    ensures Filling(input, fi, gapDone', i', e - 1, 0, answer')
  {
    Take(input, fi, gapDone, i, e, c, answer, n, gapDone', i', input[2 * e], answer');
    Retreat(input, fi, gapDone', i', e, answer');
  }

  /** The gap is full: the forward cursor moves to the next file. */
  lemma GapFull(input: seq<nat>, fi: nat, i: nat, e: nat, c: nat, answer: nat)
    requires fi < e && 2 * fi + 1 < |input| && Filling(input, fi, input[2 * fi + 1], i, e, c, answer)
    ensures Ahead(input, fi + 1, i, e, c, answer)
  {
    GapBlock(input, fi);
  }

  /** The backward cursor reached the forward one: every file block is counted. */
  lemma Crossed(input: seq<nat>, fi: nat, gapDone: nat, i: nat, answer: nat)
    requires Filling(input, fi, gapDone, i, fi, 0, answer)
    ensures answer == Checksum(Compact1(input))
  {
    TotalSplit(Blocks(input), 2 * fi + 1);
    AllCounted(input, i);
  }

  /** The gap loop has stopped: either the gap is full or the cursors have met. */
  lemma GapDone(input: seq<nat>, fi: nat, gapDone: nat, i: nat, e: nat, c: nat, answer: nat)
    requires Filling(input, fi, gapDone, i, e, c, answer)
    requires e == fi || gapDone == input[2 * fi + 1]
    ensures e == fi ==> answer == Checksum(Compact1(input))
    ensures fi < e ==> Ahead(input, fi + 1, i, e, c, answer)
  {
    if e == fi {
      Crossed(input, fi, gapDone, i, answer);
    } else {
      GapFull(input, fi, i, e, c, answer);
    }
  }

  /**
   * The gap after file fi is filled block by block from the file at the
   * backward cursor e (of which c blocks are used up), until the gap is full
   * or the backward cursor reaches the forward one.
   */
  method FillGap(input: seq<nat>, fi: nat, i0: nat, e0: nat, c0: nat, sum0: nat)
    returns (i: nat, e: nat, c: nat, sum: nat)
    requires fi < e0 && Filling(input, fi, 0, i0, e0, c0, sum0)
    ensures fi <= e <= e0
    ensures e == fi ==> sum == Checksum(Compact1(input))
    ensures fi < e ==> Ahead(input, fi + 1, i, e, c, sum)
  {
    i, e, c, sum := i0, e0, c0, sum0;
    var gapLen := input[fi * 2 + 1];
    var remaining := gapLen;
    ghost var done: nat := 0;
    while remaining > 0 && e > fi
      invariant done + remaining == gapLen && fi <= e <= e0
      invariant Filling(input, fi, done, i, e, c, sum)
      decreases remaining, e
    {
      var taken;
      taken, i, e, c, sum := TakeBlocks(input, fi, gapLen - remaining, remaining, i, e, c, sum);
      done := done + taken;
      remaining := remaining - taken;
    }
    GapDone(input, fi, done, i, e, c, sum);
  }

  /**
   * One round of the gap loop: the rest of the gap, or the rest of the file
   * at the backward cursor when that is shorter, moves into the gap.
   */
  method TakeBlocks(input: seq<nat>, fi: nat, done: nat, remaining: nat, i0: nat, e0: nat, c0: nat, sum0: nat)
    returns (taken: nat, i: nat, e: nat, c: nat, sum: nat)
    requires fi < e0 && 0 < remaining && Filling(input, fi, done, i0, e0, c0, sum0)
    requires done + remaining == input[2 * fi + 1]
    ensures taken <= remaining && fi <= e <= e0
    ensures taken == remaining ==> e == e0
    ensures taken < remaining ==> e < e0
    ensures Filling(input, fi, done + taken, i, e, c, sum)
  {
    var endFileLen := input[e0 * 2] - c0;
    if endFileLen >= remaining {
      taken, i, e, c := remaining, i0 + remaining, e0, c0 + remaining;
      sum := sum0 + RunWeight(e0, i0, remaining);
      Take(input, fi, done, i0, e0, c0, sum0, remaining, done + taken, i, c, sum);
    } else {
      taken, i, e, c := endFileLen, i0 + endFileLen, e0 - 1, 0;
      sum := sum0 + RunWeight(e0, i0, endFileLen);
      TakeRest(input, fi, done, i0, e0, c0, sum0, endFileLen, done + taken, i, sum);
    }
  }

  /**
   * Part 1: the checksum after moving single blocks from the end into the
   * leftmost free blocks. The forward cursor walks the files in place and
   * counts each where it stands; the gap after it is filled by FillGap.
   */
  method Part1(input: seq<nat>) returns (answer: Option<nat>)
    ensures answer == if |input| == 0 then None else Some(Checksum(Compact1(input)))
  {
    if |input| == 0 {
      return None;
    }
    var fileIndex: nat := 0;
    var i: nat := 0;
    var endFileIndex: nat := if |input| % 2 == 0 then (|input| - 2) / 2 else (|input| - 1) / 2;
    var endFileConsumed: nat := 0;
    var sum: nat := 0;
    Begin(input, endFileIndex);
    while fileIndex * 2 < |input| && fileIndex <= endFileIndex
      invariant fileIndex <= endFileIndex + 1
      invariant fileIndex <= endFileIndex ==> Ahead(input, fileIndex, i, endFileIndex, endFileConsumed, sum)
      invariant fileIndex > endFileIndex ==> sum == Checksum(Compact1(input))
      decreases endFileIndex + 1 - fileIndex
    {
      if fileIndex == endFileIndex {
        sum := LastFile(input, fileIndex, i, endFileConsumed, sum);
        return Some(sum);
      }
      i, endFileIndex, endFileConsumed, sum := VisitFile(input, fileIndex, i, endFileIndex, endFileConsumed, sum);
      fileIndex := fileIndex + 1;
    }
    return Some(sum);
  }

  /** The cursors meet at file fi: its unconsumed blocks end the checksum. */
  method LastFile(input: seq<nat>, fi: nat, i: nat, c: nat, sum0: nat) returns (sum: nat)
    requires Ahead(input, fi, i, fi, c, sum0)
    ensures sum == Checksum(Compact1(input))
  {
    MeetFile(input, fi, i, c, sum0);
    sum := sum0 + RunWeight(fi, i, input[fi * 2] - c);
  }

  /** File fi is counted where it stands, then the gap after it is filled. */
  method VisitFile(input: seq<nat>, fi: nat, i0: nat, e0: nat, c0: nat, sum0: nat)
    returns (i: nat, e: nat, c: nat, sum: nat)
    requires fi < e0 && Ahead(input, fi, i0, e0, c0, sum0)
    ensures fi <= e <= e0
    ensures e == fi ==> sum == Checksum(Compact1(input))
    ensures fi < e ==> Ahead(input, fi + 1, i, e, c, sum)
  {
    var fileLen := input[fi * 2];
    KeepFile(input, fi, i0, e0, c0, sum0);
    i, e, c, sum := FillGap(input, fi, i0 + fileLen, e0, c0, sum0 + RunWeight(fi, i0, fileLen));
  }

  // ---------------------------------------------------------------------
  // Part 1 as written: the gap loop has no guard against the cursors meeting

  /** The loop variables of part 1 besides the forward file index. */
  datatype Cursors = Cursors(i: nat, endFile: nat, consumed: nat, answer: nat)

  /**
   * The gap loop as written: it keeps taking blocks from the backward cursor
   * until the gap is full, even once that cursor has reached the forward
   * file or gone below it. None is a panic (the index going below 0).
   */
  function FillAsWritten(input: seq<nat>, remaining: nat, s: Cursors): (r: Option<Cursors>)
    ensures r.Some? ==> r.value.i == s.i + remaining && r.value.answer >= s.answer
    decreases remaining, s.endFile
  {
    if remaining == 0 then Some(s)
    else if 2 * s.endFile >= |input| || input[2 * s.endFile] < s.consumed then None
    else
      var len := input[2 * s.endFile] - s.consumed;
      if len >= remaining then
        Some(Cursors(s.i + remaining, s.endFile, s.consumed + remaining,
                      s.answer + RunWeight(s.endFile, s.i, remaining)))
      else if s.endFile == 0 then None
      else
        FillAsWritten(input, remaining - len,
                      Cursors(s.i + len, s.endFile - 1, 0, s.answer + RunWeight(s.endFile, s.i, len)))
  }

  /** The outer loop as written, from forward file fi on. */
  function ForwardAsWritten(input: seq<nat>, fi: nat, s: Cursors): (r: Option<nat>)
    ensures r.Some? ==> r.value >= s.answer
    decreases |input| - 2 * fi
  {
    if !(2 * fi < |input| && fi <= s.endFile) then Some(s.answer)
    else
      var fileLen := input[2 * fi];
      if fi == s.endFile then
        if fileLen < s.consumed then None
        else Some(s.answer + RunWeight(fi, s.i, fileLen - s.consumed))
      else
        var t := Cursors(s.i + fileLen, s.endFile, s.consumed, s.answer + RunWeight(fi, s.i, fileLen));
        if 2 * fi + 1 < |input| then
          match FillAsWritten(input, input[2 * fi + 1], t)
          case None => None
          case Some(u) => ForwardAsWritten(input, fi + 1, u)
        else ForwardAsWritten(input, fi + 1, t)
  }

  /** Part 1 as written; an empty map panics computing the last file index,
      and a lone file, file 0, adds nothing. */
  function Part1AsWritten(input: seq<nat>): (r: Option<nat>)
    ensures |input| == 0 ==> r.None?
    ensures |input| == 1 ==> r == Some(0)
  {
    if |input| == 0 then None
    else
      var e := if |input| % 2 == 0 then (|input| - 2) / 2 else (|input| - 1) / 2;
      ForwardAsWritten(input, 0, Cursors(0, e, 0, 0))
  }

  /**
   * On the map 1113111 the gap of three after file 1 takes file 3, file 2,
   * then file 1 itself, which was already counted in place: as written the
   * answer is 15.
   */
  lemma AsWrittenCountsTwice()
    ensures Part1AsWritten([1, 1, 1, 3, 1, 1, 1]) == Some(15)
  {
    var input := [1, 1, 1, 3, 1, 1, 1];
    SecondFileTakesThree();
    RunWeightOne(0, 0);
    RunWeightOne(3, 1);
    assert FillAsWritten(input, 1, Cursors(1, 3, 0, 0)) == Some(Cursors(2, 3, 1, 3));
    assert ForwardAsWritten(input, 0, Cursors(0, 3, 0, 0)) == Some(15);
  }

  /** On 1113111, from file 1 on: file 1 in place, then its gap takes
      files 3, 2 and 1, and the loop ends at 15. */
  lemma SecondFileTakesThree()
    ensures ForwardAsWritten([1, 1, 1, 3, 1, 1, 1], 1, Cursors(2, 3, 1, 3)) == Some(15)
  {
    var input := [1, 1, 1, 3, 1, 1, 1];
    GapTakesThree();
    RunWeightOne(1, 2);
    assert ForwardAsWritten(input, 2, Cursors(6, 0, 1, 15)) == Some(15);
  }

  /** A run of one block adds its file id times its position. */
  lemma RunWeightOne(id: nat, start: nat)
    ensures RunWeight(id, start, 1) == id * start
  {
    assert Series(start, 1) == start;
  }

  /** On 1113111 the gap of three after file 1 takes files 3, 2 and 1. */
  lemma GapTakesThree()
    ensures FillAsWritten([1, 1, 1, 3, 1, 1, 1], 3, Cursors(3, 3, 1, 5)) == Some(Cursors(6, 0, 1, 15))
  {
    GapTakesTwo();
    RunWeightOne(2, 3);
    assert FillAsWritten([1, 1, 1, 3, 1, 1, 1], 3, Cursors(3, 2, 0, 5)) == Some(Cursors(6, 0, 1, 15));
  }

  /** The last two blocks of that gap take file 2, then file 1. */
  lemma GapTakesTwo()
    ensures FillAsWritten([1, 1, 1, 3, 1, 1, 1], 2, Cursors(4, 1, 0, 11)) == Some(Cursors(6, 0, 1, 15))
  {
    RunWeightOne(0, 5);
    RunWeightOne(1, 4);
    assert FillAsWritten([1, 1, 1, 3, 1, 1, 1], 1, Cursors(5, 0, 0, 15)) == Some(Cursors(6, 0, 1, 15));
  }

  /** The map 1113111 lays out the disk 0.1...2.3. */
  lemma DiskExample()
    ensures Disk([1, 1, 1, 3, 1, 1, 1]) == [Some(0), None, Some(1), None, None, None, Some(2), None, Some(3)]
  {
    var b := Blocks([1, 1, 1, 3, 1, 1, 1]);
    assert b == [DiskBlock(true, 0, 1), DiskBlock(false, 0, 1), DiskBlock(true, 1, 1), DiskBlock(false, 0, 3),
                 DiskBlock(true, 2, 1), DiskBlock(false, 0, 1), DiskBlock(true, 3, 1)];
    var d := [Some(0), None, Some(1), None, None, None, Some(2), None, Some(3)];
    assert Repeat<Option<nat>>(None, 3) == d[3..6];
    assert ExpandTo(b, 1) == d[..1];
    assert ExpandTo(b, 2) == d[..2];
    assert ExpandTo(b, 3) == d[..3];
    assert ExpandTo(b, 4) == d[..6];
    assert ExpandTo(b, 5) == d[..7];
    assert ExpandTo(b, 6) == d[..8];
    assert ExpandTo(b, 7) == d;
  }

  /** The compaction of the same map is 0312, with checksum 11. */
  lemma CompactedChecksumExample()
    ensures Checksum(Compact1([1, 1, 1, 3, 1, 1, 1])) == 11
  {
    var c := [Some(0), Some(3), Some(1), Some(2), None, None, None, None, None];
    DiskExample();
    CompactedExample();
    assert ChecksumTo(c, 4) == 11;
    assert ChecksumTo(c, 9) == 11 by {
      ChecksumFreeTail(c, 4, 9);
    }
  }

  /** The disk 0.1...2.3 holds the files 0, 1, 2, 3 in order. */
  lemma FilesExample()
    ensures Files([Some(0), None, Some(1), None, None, None, Some(2), None, Some(3)]) == [0, 1, 2, 3]
  {
    var d := [Some(0), None, Some(1), None, None, None, Some(2), None, Some(3)];
    assert FilesTo(d, 3) == [0, 1];
    assert FilesTo(d, 7) == [0, 1, 2];
    assert FilesTo(d, 8) == [0, 1, 2];
  }

  /** The disk 0.1...2.3 compacts to 0312. */
  lemma CompactedExample()
    ensures Compacted([Some(0), None, Some(1), None, None, None, Some(2), None, Some(3)])
         == [Some(0), Some(3), Some(1), Some(2), None, None, None, None, None]
  {
    var d := [Some(0), None, Some(1), None, None, None, Some(2), None, Some(3)];
    FilesExample();
    assert FreeTo(d, 3) == 1;
    assert CompactedAt(d, 1) == Some(3) && CompactedAt(d, 3) == Some(2);
  }

  // ---------------------------------------------------------------------
  // Part 2 (whole files)

  /** A free run that can take a file of len blocks. */
  predicate Fits(block: DiskBlock, len: nat)
  {
    !block.isFile && block.length >= len
  }

  /** The leftmost run at an index in [g, e) that fits a file of len blocks. */
  function FirstFit(blocks: seq<DiskBlock>, e: nat, len: nat, g: nat): (r: Option<nat>)
    requires e <= |blocks|
    ensures r.Some? ==> g <= r.value < e && Fits(blocks[r.value], len)
    ensures r.Some? ==> forall h :: g <= h < r.value ==> !Fits(blocks[h], len)
    ensures r.None? ==> forall h :: g <= h < e ==> !Fits(blocks[h], len)
    decreases e - g
  {
    if g >= e then None
    else if Fits(blocks[g], len) then Some(g)
    else FirstFit(blocks, e, len, g + 1)
  }

  /**
   * One step of the rearrangement: the file run at index e moves into the
   * leftmost gap before it that fits; its old run becomes free space of the
   * same length, the gap shrinks by the file's length and the file is
   * inserted just before it. A free run, or a file with no gap that fits,
   * leaves the runs unchanged.
   */
  function Move(blocks: seq<DiskBlock>, e: nat): (r: seq<DiskBlock>)
    requires e < |blocks|
    ensures |r| == |blocks| || |r| == |blocks| + 1
  {
    var block := blocks[e];
    if !block.isFile then blocks
    else
      match FirstFit(blocks, e, block.length, 0)
      case None => blocks
      case Some(g) =>
        var vacated := blocks[e := block.(isFile := false)];
        var shrunk := vacated[g := vacated[g].(length := vacated[g].length - block.length)];
        shrunk[..g] + [block] + shrunk[g..]
  }

  /**
   * The moves for the indices e - 1 down to 0, in that order. The indices
   * are positions in the current list of runs, which grows with each move.
   */
  function Rearrange(blocks: seq<DiskBlock>, e: nat): (r: seq<DiskBlock>)
    requires e <= |blocks|
    ensures |blocks| <= |r| <= |blocks| + e
    decreases e
  {
    if e == 0 then blocks else Rearrange(Move(blocks, e - 1), e - 1)
  }

  /** The blocks a run lays out, as a multiset. */
  function Bag(block: DiskBlock): multiset<Option<nat>>
  {
    multiset(Repeat(Tag(block), block.length))
  }

  lemma BagStep(b: seq<DiskBlock>, k: nat)
    requires 0 < k <= |b|
    ensures multiset(ExpandTo(b, k)) == multiset(ExpandTo(b, k - 1)) + Bag(b[k - 1])
  {
  }

  lemma AddBoth(a: multiset<Option<nat>>, b: multiset<Option<nat>>, p: multiset<Option<nat>>,
                q: multiset<Option<nat>>, r: multiset<Option<nat>>)
    requires a + p == b + q
    ensures a + r + p == b + r + q
  {
    forall v
      ensures (a + r + p)[v] == (b + r + q)[v]
    {
      assert (a + p)[v] == (b + q)[v];
    }
  }

  lemma Commute(a: multiset<Option<nat>>, p: multiset<Option<nat>>, q: multiset<Option<nat>>)
    ensures a + p + q == a + q + p
  {
  }

  /** Runs before the replaced one lay out the same blocks. */
  lemma {:induction false} UpdateBagPrefix(b: seq<DiskBlock>, i: nat, x: DiskBlock, k: nat)
    requires k <= i < |b|
    ensures multiset(ExpandTo(b[i := x], k)) == multiset(ExpandTo(b, k))
  {
    if k > 0 {
      UpdateBagPrefix(b, i, x, k - 1);
      UpdateBagBefore(b, i, x, k);
    }
  }

  /** From the replaced run on, the blocks differ by the swapped runs. */
  lemma {:induction false} UpdateBagSuffix(b: seq<DiskBlock>, i: nat, x: DiskBlock, k: nat)
    requires i < k <= |b|
    ensures multiset(ExpandTo(b[i := x], k)) + Bag(b[i]) == multiset(ExpandTo(b, k)) + Bag(x)
  {
    if k == i + 1 {
      UpdateBagPrefix(b, i, x, k - 1);
      UpdateBagAt(b, i, x, k);
    } else {
      UpdateBagSuffix(b, i, x, k - 1);
      UpdateBagAfter(b, i, x, k);
    }
  }

  /** `UpdateBagPrefix`'s step for a run before the replaced one. */
  lemma UpdateBagBefore(b: seq<DiskBlock>, i: nat, x: DiskBlock, k: nat)
    requires 0 < k <= i < |b|
    requires multiset(ExpandTo(b[i := x], k - 1)) == multiset(ExpandTo(b, k - 1))
    ensures multiset(ExpandTo(b[i := x], k)) == multiset(ExpandTo(b, k))
  {
    BagStep(b, k);
    BagStep(b[i := x], k);
  }

  /** `UpdateBagSuffix`'s first step: the replaced run itself. */
  lemma UpdateBagAt(b: seq<DiskBlock>, i: nat, x: DiskBlock, k: nat)
    requires k == i + 1 <= |b|
    requires multiset(ExpandTo(b[i := x], k - 1)) == multiset(ExpandTo(b, k - 1))
    ensures multiset(ExpandTo(b[i := x], k)) + Bag(b[i]) == multiset(ExpandTo(b, k)) + Bag(x)
  {
    BagStep(b, k);
    BagStep(b[i := x], k);
    Commute(multiset(ExpandTo(b, k - 1)), Bag(x), Bag(b[i]));
  }

  /** `UpdateBagSuffix`'s step for a run after the replaced one. */
  lemma UpdateBagAfter(b: seq<DiskBlock>, i: nat, x: DiskBlock, k: nat)
    requires i < k - 1 && k <= |b|
    requires multiset(ExpandTo(b[i := x], k - 1)) + Bag(b[i]) == multiset(ExpandTo(b, k - 1)) + Bag(x)
    ensures multiset(ExpandTo(b[i := x], k)) + Bag(b[i]) == multiset(ExpandTo(b, k)) + Bag(x)
  {
    var c := b[i := x];
    BagStep(b, k);
    BagStep(c, k);
    assert c[k - 1] == b[k - 1];
    AddBoth(multiset(ExpandTo(c, k - 1)), multiset(ExpandTo(b, k - 1)), Bag(b[i]), Bag(x), Bag(b[k - 1]));
  }

  /** Replacing one run swaps its blocks in the disk's multiset of blocks. */
  lemma UpdateBag(b: seq<DiskBlock>, i: nat, x: DiskBlock)
    requires i < |b|
    ensures multiset(Expand(b[i := x])) + Bag(b[i]) == multiset(Expand(b)) + Bag(x)
  {
    UpdateBagSuffix(b, i, x, |b|);
  }

  lemma {:induction false} InsertBagTo(b: seq<DiskBlock>, g: nat, x: DiskBlock, k: nat)
    requires g <= |b| && k <= |b| + 1
    ensures k <= g ==> multiset(ExpandTo(b[..g] + [x] + b[g..], k)) == multiset(ExpandTo(b, k))
    ensures g < k ==> multiset(ExpandTo(b[..g] + [x] + b[g..], k)) == multiset(ExpandTo(b, k - 1)) + Bag(x)
  {
    var c := b[..g] + [x] + b[g..];
    if k > 0 {
      InsertBagTo(b, g, x, k - 1);
      BagStep(c, k);
      if k - 1 != g {
        BagStep(b, if k - 1 < g then k else k - 1);
      }
      if k - 1 < g {
        assert c[k - 1] == b[k - 1];
      } else if k - 1 > g {
        assert c[k - 1] == b[k - 2];
      }
    }
  }

  /** Inserting a run adds its blocks to the disk's multiset of blocks. */
  lemma InsertBag(b: seq<DiskBlock>, g: nat, x: DiskBlock)
    requires g <= |b|
    ensures multiset(Expand(b[..g] + [x] + b[g..])) == multiset(Expand(b)) + Bag(x)
  {
    InsertBagTo(b, g, x, |b| + 1);
  }

  /** Free runs of m and n blocks lay out as many free blocks as one of m + n. */
  lemma FreeBags(m: nat, n: nat)
    ensures Bag(DiskBlock(false, 0, m + n)) == Bag(DiskBlock(false, 0, m)) + Bag(DiskBlock(false, 0, n))
  {
    assert Repeat(Tag(DiskBlock(false, 0, m + n)), m + n)
      == Repeat(Tag(DiskBlock(false, 0, m)), m) + Repeat(Tag(DiskBlock(false, 0, n)), n);
  }

  /** The multiset sums of MovePermutes: the three edits together add and remove the same blocks. */
  lemma MoveBookkeeping(e0: multiset<Option<nat>>, e1: multiset<Option<nat>>, e2: multiset<Option<nat>>,
                        e3: multiset<Option<nat>>, file: multiset<Option<nat>>, freed: multiset<Option<nat>>,
                        gap: multiset<Option<nat>>, rest: multiset<Option<nat>>)
    requires e1 + file == e0 + freed
    requires e2 + gap == e1 + rest
    requires e3 == e2 + file
    requires gap == rest + freed
    ensures e3 == e0
  {
    forall v
      ensures e3[v] == e0[v]
    {
      assert (e1 + file)[v] == (e0 + freed)[v];
      assert (e2 + gap)[v] == (e1 + rest)[v];
      assert gap[v] == (rest + freed)[v];
    }
  }

  /** A move only reorders the blocks of the disk. */
  lemma MovePermutes(blocks: seq<DiskBlock>, e: nat)
    requires e < |blocks|
    ensures multiset(Expand(Move(blocks, e))) == multiset(Expand(blocks))
  {
    var block := blocks[e];
    if block.isFile {
      match FirstFit(blocks, e, block.length, 0)
      case None =>
      case Some(g) =>
        var gap := blocks[g];
        var freed := block.(isFile := false);
        var rest := gap.(length := gap.length - block.length);
        var vacated := blocks[e := freed];
        var shrunk := vacated[g := rest];
        assert vacated[g] == gap;
        var moved := shrunk[..g] + [block] + shrunk[g..];
        assert Move(blocks, e) == moved;
        UpdateBag(blocks, e, freed);
        UpdateBag(vacated, g, rest);
        InsertBag(shrunk, g, block);
        SplitGap(gap, freed, rest);
        MoveBookkeeping(multiset(Expand(blocks)), multiset(Expand(vacated)), multiset(Expand(shrunk)),
                        multiset(Expand(moved)), Bag(block), Bag(freed), Bag(gap), Bag(rest));
    }
  }

  /** A free run split in two lays out the blocks of its two parts. */
  lemma SplitGap(gap: DiskBlock, freed: DiskBlock, rest: DiskBlock)
    requires !gap.isFile && !freed.isFile && !rest.isFile && gap.length == rest.length + freed.length
    ensures Bag(gap) == Bag(rest) + Bag(freed)
  {
    assert Bag(freed) == Bag(DiskBlock(false, 0, freed.length));
    assert Bag(gap) == Bag(DiskBlock(false, 0, gap.length));
    assert Bag(rest) == Bag(DiskBlock(false, 0, rest.length));
    FreeBags(rest.length, freed.length);
  }

  /** The whole rearrangement only reorders the blocks of the disk. */
  lemma {:induction false} RearrangePermutes(blocks: seq<DiskBlock>, e: nat)
    requires e <= |blocks|
    ensures multiset(Expand(Rearrange(blocks, e))) == multiset(Expand(blocks))
    ensures |Expand(Rearrange(blocks, e))| == |Expand(blocks)|
    decreases e
  {
    if e > 0 {
      MovePermutes(blocks, e - 1);
      RearrangePermutes(Move(blocks, e - 1), e - 1);
    }
    assert |multiset(Expand(Rearrange(blocks, e)))| == |multiset(Expand(blocks))|;
  }

  lemma {:induction false} ChecksumFreeSpan(d: seq<Option<nat>>, p: nat, n: nat)
    requires p + n <= |d|
    requires forall q :: p <= q < p + n ==> d[q] == None
    ensures ChecksumTo(d, p + n) == ChecksumTo(d, p)
  {
    if n > 0 {
      ChecksumFreeSpan(d, p, n - 1);
    }
  }

  /** What run k adds to the checksum of the disk: its id times its positions, or nothing for free space. */
  lemma ChecksumRun(b: seq<DiskBlock>, k: nat)
    requires k < |b|
    ensures TotalTo(b, k + 1) <= |Expand(b)|
    ensures ChecksumTo(Expand(b), TotalTo(b, k + 1)) == ChecksumTo(Expand(b), TotalTo(b, k))
      + (if b[k].isFile then Weight(b[k].fileIndex, TotalTo(b, k), b[k].length) else 0)
  {
    RunAt(b, k);
    if b[k].isFile {
      ChecksumSpan(Expand(b), TotalTo(b, k), b[k].length, b[k].fileIndex);
    } else {
      ChecksumFreeSpan(Expand(b), TotalTo(b, k), b[k].length);
    }
  }

  /**
   * The source's attempt to move the run at index e: scan the runs before
   * it for the first gap long enough, and edit the list in place there.
   */
  method TryMove(blocks: seq<DiskBlock>, e: nat) returns (r: seq<DiskBlock>)
    requires e < |blocks|
    ensures r == Move(blocks, e)
  {
    r := blocks;
    var block := r[e];
    if !block.isFile {
      return;
    }
    for gapIndex := 0 to e
      invariant r == blocks
      invariant FirstFit(blocks, e, block.length, gapIndex) == FirstFit(blocks, e, block.length, 0)
    {
      var gap := r[gapIndex];
      if gap.isFile {
        continue;
      }
      if gap.length >= block.length {
        r := r[e := r[e].(isFile := false)];
        r := r[gapIndex := r[gapIndex].(length := r[gapIndex].length - block.length)];
        r := r[..gapIndex] + [block] + r[gapIndex..];
        return;
      }
    }
  }

  /** The checksum of a list of runs, run by run with the closed-form sums. */
  method Tally(blocks: seq<DiskBlock>) returns (answer: nat)
    ensures answer == Checksum(Expand(blocks))
  {
    var i: nat := 0;
    answer := 0;
    for k := 0 to |blocks|
      invariant i == TotalTo(blocks, k) && i <= |Expand(blocks)|
      invariant answer == ChecksumTo(Expand(blocks), i)
    {
      var block := blocks[k];
      ChecksumRun(blocks, k);
      if block.isFile {
        answer := answer + RunWeight(block.fileIndex, i, block.length);
        i := i + block.length;
      } else {
        i := i + block.length;
      }
    }
  }

  /**
   * Part 2: the checksum after trying once, from the last index of the
   * original list of runs down to the first, to move each file into the
   * leftmost gap before it that is long enough.
   */
  method Part2(input: seq<nat>) returns (answer: nat)
    ensures answer == Checksum(Expand(Rearrange(Blocks(input), |input|)))
    ensures multiset(Expand(Rearrange(Blocks(input), |input|))) == multiset(Disk(input))
  {
    var blocks := Blocks(input);
    for endBlockIndex := |blocks| downto 0
      invariant |input| <= |blocks|
      invariant Rearrange(blocks, endBlockIndex) == Rearrange(Blocks(input), |input|)
    {
      blocks := TryMove(blocks, endBlockIndex);
    }
    RearrangePermutes(Blocks(input), |input|);
    answer := Tally(blocks);
  }
}
