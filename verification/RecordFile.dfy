/** The file a recording is saved to and loaded from: save and streamer_load of streamer.c. */
module RecordFormat {
  import opened Machine
  import opened FrameRecord
  import opened FrameRuns

  const MAGIC: U32 := 0xc1ab511c

  /** The four bytes of an `unsigned`, lowest first. */
  function Le32(x: U32): (b: seq<Byte>)
    ensures |b| == 4
  {
    [x % 256, x / 256 % 256, x / 256 / 256 % 256, x / 256 / 256 / 256]
  }

  function FromLe32(b: seq<Byte>): U32
    requires |b| >= 4
  {
    Digit(b[0], Digit(b[1], Digit(b[2], b[3])))
  }

  function Digit(low: Byte, high: nat): nat {
    low + 256 * high
  }

  lemma DigitDivMod(low: Byte, high: nat)
    ensures Digit(low, high) % 256 == low && Digit(low, high) / 256 == high
  {
  }

  lemma Le32RoundTrip(x: U32, rest: seq<Byte>)
    ensures FromLe32(Le32(x) + rest) == x
  {
    var y := x / 256;
    var z := y / 256;
    assert Digit(z % 256, z / 256) == z;
    assert Digit(y % 256, z) == y;
    assert Digit(x % 256, y) == x;
    assert (Le32(x) + rest)[..4] == Le32(x);
  }

  lemma FromLe32RoundTrip(b: seq<Byte>)
    requires |b| == 4
    ensures Le32(FromLe32(b)) == b
  {
    var z := Digit(b[2], b[3]);
    var y := Digit(b[1], z);
    DigitDivMod(b[2], b[3]);
    DigitDivMod(b[1], z);
    DigitDivMod(b[0], y);
  }

  // ----- frames in memory -----

  /** A byte of a block; past its end (a block no camera writes) it stands as 0. */
  function At(block: seq<Byte>, i: nat): Byte {
    if i < |block| then block[i] else 0
  }

  function Half(block: seq<Byte>, i: nat): U16 {
    At(block, i) + 256 * At(block, i + 1)
  }

  function Word(block: seq<Byte>, i: nat): U32 {
    Half(block, i) + 0x1_0000 * Half(block, i + 2)
  }

  /** The frame a memory block holds: width at 0, height at 2, time stamp at 8. */
  function FrameOf(block: seq<Byte>): Frame {
    Frame(Word(block, 8) + 0x1_0000_0000 * Word(block, 12), Half(block, 0), Half(block, 2), block)
  }

  function FramesOf(blocks: seq<seq<Byte>>): (fs: seq<Frame>)
    ensures |fs| == |blocks|
  {
    if blocks == [] then [] else [FrameOf(blocks[0])] + FramesOf(blocks[1..])
  }

  /** kcSizeofFrame: three bytes a pixel, the 24 bytes of a KcFrame and 32 more, in `unsigned`. */
  function SizeofFrame(f: Frame): U32 {
    ToU32(f.width * f.height * 3 + 24 + 32)
  }

  /** save may read as many bytes as it writes. */
  predicate Savable(fs: seq<Frame>) {
    forall f :: f in fs ==> SizeofFrame(f) <= |f.block|
  }

  /** A frame as the camera stores it: its block has the size its header says, and holds it. */
  predicate Stored(f: Frame) {
    f == FrameOf(f.block) && |f.block| == SizeofFrame(f)
  }

  // ----- writing -----

  function EncodeBlock(block: seq<Byte>): (b: seq<Byte>)
    requires |block| < 0x1_0000_0000
    ensures |b| == 8 + |block|
  {
    Le32(MAGIC) + Le32(|block|) + block
  }

  predicate Fit(blocks: seq<seq<Byte>>) {
    forall b :: b in blocks ==> |b| < 0x1_0000_0000
  }

  function EncodeBlocks(blocks: seq<seq<Byte>>): seq<Byte>
    requires Fit(blocks)
  {
    if blocks == [] then [] else EncodeBlock(blocks[0]) + EncodeBlocks(blocks[1..])
  }

  function SavedBlock(f: Frame): seq<Byte>
    requires SizeofFrame(f) <= |f.block|
  {
    f.block[..SizeofFrame(f)]
  }

  /** What save writes for each frame. */
  function SavedBlocks(fs: seq<Frame>): (blocks: seq<seq<Byte>>)
    requires Savable(fs)
    ensures |blocks| == |fs| && Fit(blocks)
    ensures forall i :: 0 <= i < |fs| ==> blocks[i] == SavedBlock(fs[i])
  {
    if fs == [] then [] else [SavedBlock(fs[0])] + SavedBlocks(fs[1..])
  }

  /** The number of bytes save reports, before `unsigned` truncates it. */
  function SavedSize(fs: seq<Frame>): nat {
    if fs == [] then 0 else 8 + SizeofFrame(fs[0]) + SavedSize(fs[1..])
  }

  function SavedFile(fs: seq<Frame>): seq<Byte>
    requires Savable(fs)
  {
    EncodeBlocks(SavedBlocks(fs))
  }

  lemma {:induction false} SavedFileSize(fs: seq<Frame>)
    requires Savable(fs)
    ensures |SavedFile(fs)| == SavedSize(fs)
  {
    if fs != [] {
      SavedFileSize(fs[1..]);
      assert SavedBlocks(fs)[1..] == SavedBlocks(fs[1..]);
    }
  }

  lemma {:induction false} EncodeBlocksPush(blocks: seq<seq<Byte>>, block: seq<Byte>)
    requires Fit(blocks) && |block| < 0x1_0000_0000
    ensures Fit(blocks + [block])
    ensures EncodeBlocks(blocks + [block]) == EncodeBlocks(blocks) + EncodeBlock(block)
  {
    if blocks == [] {
      assert [] + [block] == [block];
      assert EncodeBlocks([block]) == EncodeBlock(block) + [];
    } else {
      assert (blocks + [block])[1..] == blocks[1..] + [block];
      EncodeBlocksPush(blocks[1..], block);
    }
  }

  lemma SavedFilePush(fs: seq<Frame>, f: Frame)
    requires Savable(fs) && SizeofFrame(f) <= |f.block|
    ensures Savable(fs + [f])
    ensures SavedFile(fs + [f]) == SavedFile(fs) + EncodeBlock(SavedBlock(f))
  {
    EncodeBlocksPush(SavedBlocks(fs), SavedBlock(f));
    assert SavedBlocks(fs + [f]) == SavedBlocks(fs) + [SavedBlock(f)];
  }

  /**
   * The bytes of a saved file: for each frame the magic number 0xc1ab511c and the size n of the
   * frame in memory, lowest byte first, and then the first n bytes of its block.
   */
  lemma SavedBytes(fs: seq<Frame>)
    requires Savable(fs) && fs != []
    ensures var f := fs[0];
      var n := (f.width * f.height * 3 + 24 + 32) % 0x1_0000_0000;
      && n <= |f.block| && Savable(fs[1..])
      && SavedFile(fs) ==
           [0x1c, 0x51, 0xab, 0xc1] + [n % 256, n / 256 % 256, n / 256 / 256 % 256, n / 256 / 256 / 256]
           + f.block[..n] + SavedFile(fs[1..])
  {
    assert fs[0] in fs;
    assert SavedBlocks(fs)[1..] == SavedBlocks(fs[1..]);
    MagicBytes();
  }

  lemma MagicBytes()
    ensures Le32(MAGIC) == [0x1c, 0x51, 0xab, 0xc1]
  {
  }

  /** The bytes from i on are those of x, the lowest first. */
  predicate Holds16(block: seq<Byte>, i: nat, x: U16) {
    i + 2 <= |block| && block[i] == x % 256 && block[i + 1] == x / 256
  }

  predicate Holds32(block: seq<Byte>, i: nat, x: U32) {
    && i + 4 <= |block| && block[i] == x % 256 && block[i + 1] == x / 256 % 256
    && block[i + 2] == x / 256 / 256 % 256 && block[i + 3] == x / 256 / 256 / 256
  }

  lemma WordIs(block: seq<Byte>, i: nat, x: U32)
    requires Holds32(block, i, x)
    ensures Word(block, i) == x
  {
    var y := x / 256;
    var z := y / 256;
    assert x == 256 * y + block[i];
    assert y == 256 * z + block[i + 1];
    assert z == 256 * (z / 256) + block[i + 2];
  }

  /**
   * The header of a block as the camera writes it: the width in bytes 0 and 1, the height in 2 and 3
   * and the two halves of the time stamp in 8 to 15 are the fields of the frame.
   */
  lemma HeaderFields(block: seq<Byte>, width: U16, height: U16, low: U32, high: U32)
    requires Holds16(block, 0, width) && Holds16(block, 2, height)
    requires Holds32(block, 8, low) && Holds32(block, 12, high)
    ensures FrameOf(block) == Frame(low + 0x1_0000_0000 * high, width, height, block)
  {
    WordIs(block, 8, low);
    WordIs(block, 12, high);
  }

  // ----- reading -----

  /** What streamer_load does with a file: the blocks it appends, and whether it returns 0. */
  datatype Parsed = Parsed(blocks: seq<seq<Byte>>, ok: bool)

  /** Before each record the memory reserve is checked, and its block must be allocated. */
  datatype Memory = Memory(reserve: nat -> bool, alloc: nat -> bool)

  function Parse(file: seq<Byte>, i: nat, mem: Memory): Parsed {
    if !mem.reserve(i) then Parsed([], false)
    else if |file| < 4 then Parsed([], true)
    else if FromLe32(file) != MAGIC then Parsed([], false)
    else if |file| < 8 then Parsed([], false)
    else
      var n: int := FromLe32(file[4..]);
      if !mem.alloc(i) || |file| < 8 + n then Parsed([], false)
      else
        var rest := Parse(file[8 + n..], i + 1, mem);
        Parsed([file[8..8 + n]] + rest.blocks, rest.ok)
  }

  ghost predicate Ample(mem: Memory) {
    forall i :: mem.reserve(i) && mem.alloc(i)
  }

  /** The file is a concatenation of records and then fewer than four bytes. */
  predicate IsRecords(file: seq<Byte>, blocks: seq<seq<Byte>>, tail: seq<Byte>) {
    Fit(blocks) && |tail| < 4 && file == EncodeBlocks(blocks) + tail
  }

  lemma EncodeFirst(block: seq<Byte>, rest: seq<Byte>)
    requires |block| < 0x1_0000_0000
    ensures var file := EncodeBlock(block) + rest;
      && FromLe32(file) == MAGIC && FromLe32(file[4..]) == |block|
      && file[8..8 + |block|] == block && file[8 + |block|..] == rest
  {
    var file := EncodeBlock(block) + rest;
    assert file == Le32(MAGIC) + (Le32(|block|) + block + rest);
    Le32RoundTrip(MAGIC, Le32(|block|) + block + rest);
    assert file[4..] == Le32(|block|) + (block + rest);
    Le32RoundTrip(|block|, block + rest);
  }

  lemma {:induction false} ParseRecords(blocks: seq<seq<Byte>>, tail: seq<Byte>, i: nat, mem: Memory)
    requires Fit(blocks) && |tail| < 4 && Ample(mem)
    ensures Parse(EncodeBlocks(blocks) + tail, i, mem) == Parsed(blocks, true)
    decreases blocks
  {
    if blocks == [] {
      assert EncodeBlocks(blocks) + tail == tail;
    } else {
      var rest := EncodeBlocks(blocks[1..]) + tail;
      assert EncodeBlocks(blocks) + tail == EncodeBlock(blocks[0]) + rest;
      EncodeFirst(blocks[0], rest);
      ParseRecords(blocks[1..], tail, i + 1, mem);
    }
  }

  /** Whatever memory does, a file that loads is a concatenation of the records loaded. */
  lemma {:induction false} ParsedIsRecords(file: seq<Byte>, i: nat, mem: Memory) returns (tail: seq<Byte>)
    requires Parse(file, i, mem).ok
    ensures IsRecords(file, Parse(file, i, mem).blocks, tail)
    decreases file
  {
    if |file| < 4 {
      tail := file;
      assert EncodeBlocks([]) + tail == file;
    } else {
      var n: int := FromLe32(file[4..]);
      var block, rest := file[8..8 + n], file[8 + n..];
      var blocks := Parse(rest, i + 1, mem).blocks;
      tail := ParsedIsRecords(rest, i + 1, mem);
      FirstRecord(file, n);
      OneRecordMore(block, blocks, tail);
    }
  }

  /** A header that is accepted, and as many bytes as it says, are an encoded block. */
  lemma FirstRecord(file: seq<Byte>, n: U32)
    requires |file| >= 8 + n && FromLe32(file) == MAGIC && FromLe32(file[4..]) == n
    ensures file == EncodeBlock(file[8..8 + n]) + file[8 + n..]
  {
    FromLe32RoundTrip(file[..4]);
    FromLe32RoundTrip(file[4..8]);
    FourParts(file, n);
    assert Le32(MAGIC) == file[..4] && Le32(n) == file[4..8];
  }

  lemma FourParts(file: seq<Byte>, n: nat)
    requires |file| >= 8 + n
    ensures file == file[..4] + file[4..8] + file[8..8 + n] + file[8 + n..]
  {
  }

  lemma OneRecordMore(block: seq<Byte>, blocks: seq<seq<Byte>>, tail: seq<Byte>)
    requires |block| < 0x1_0000_0000 && Fit(blocks)
    ensures Fit([block] + blocks)
    ensures EncodeBlock(block) + (EncodeBlocks(blocks) + tail) == EncodeBlocks([block] + blocks) + tail
  {
    assert ([block] + blocks)[1..] == blocks;
  }

  /**
   * With memory available streamer_load returns 0 exactly on concatenations of records followed by
   * fewer than four bytes, and the list then holds exactly those records in order.
   */
  lemma LoadAcceptsRecords(file: seq<Byte>, mem: Memory)
    requires Ample(mem)
    ensures Parse(file, 0, mem).ok <==> exists blocks, tail :: IsRecords(file, blocks, tail)
    ensures forall blocks, tail :: IsRecords(file, blocks, tail) ==> Parse(file, 0, mem).blocks == blocks
  {
    if Parse(file, 0, mem).ok {
      var tail := ParsedIsRecords(file, 0, mem);
    }
    forall blocks, tail | IsRecords(file, blocks, tail)
      ensures Parse(file, 0, mem) == Parsed(blocks, true)
    {
      ParseRecords(blocks, tail, 0, mem);
    }
  }

  /** Running out of memory loads a prefix of what would have been loaded, and reports failure. */
  lemma {:induction false} MemoryOnlyCuts(file: seq<Byte>, i: nat, mem: Memory, ample: Memory)
    requires Ample(ample)
    ensures Parse(file, i, mem).blocks <= Parse(file, i, ample).blocks
    ensures Parse(file, i, mem).ok ==> Parse(file, i, mem) == Parse(file, i, ample)
    decreases file
  {
    if mem.reserve(i) && mem.alloc(i) && |file| >= 8 && FromLe32(file) == MAGIC {
      var n: int := FromLe32(file[4..]);
      if |file| >= 8 + n {
        MemoryOnlyCuts(file[8 + n..], i + 1, mem, ample);
      }
    }
  }

  /** Memory for the first n records of a file: each of them, and the look for one more, needs it. */
  ghost predicate MemoryFor(mem: Memory, i: nat, n: nat) {
    && (forall j :: i <= j < i + n ==> mem.reserve(j) && mem.alloc(j))
    && mem.reserve(i + n)
  }

  /** So a file loads exactly if it would with ample memory and there is memory for each record. */
  lemma {:induction false} LoadsWhen(file: seq<Byte>, i: nat, mem: Memory, ample: Memory)
    requires Ample(ample)
    ensures Parse(file, i, mem).ok <==>
      Parse(file, i, ample).ok && MemoryFor(mem, i, |Parse(file, i, ample).blocks|)
    decreases file
  {
    if |file| >= 8 && FromLe32(file) == MAGIC && |file| >= 8 + FromLe32(file[4..]) {
      var rest := file[8 + FromLe32(file[4..])..];
      LoadsWhen(rest, i + 1, mem, ample);
      MemoryNext(mem, i, |Parse(rest, i + 1, ample).blocks|);
    }
  }

  lemma MemoryNext(mem: Memory, i: nat, n: nat)
    ensures MemoryFor(mem, i, n + 1) <==> mem.reserve(i) && mem.alloc(i) && MemoryFor(mem, i + 1, n)
  {
  }

  // ----- there and back -----

  /** The list streamer_load builds from the blocks it reads. */
  function Loaded(blocks: seq<seq<Byte>>): Record {
    AppendAll(Init(0, 0), FramesOf(blocks))
  }

  lemma LoadedHoldsAll(blocks: seq<seq<Byte>>)
    ensures Loaded(blocks).frames == FramesOf(blocks) && Loaded(blocks).cursor == 0
  {
    RecordingRun(Init(0, 0), FramesOf(blocks));
    TakesAll([], FramesOf(blocks));
    assert [] + FramesOf(blocks) == FramesOf(blocks);
  }

  lemma {:induction false} TakesAll(base: seq<Frame>, gs: seq<Frame>)
    ensures Taken(base, gs, 0) == base + gs
    decreases gs
  {
    if gs == [] {
      assert base + gs == base;
    } else {
      TakesAll(base + [gs[0]], gs[1..]);
      assert base + [gs[0]] + gs[1..] == base + gs;
    }
  }

  lemma {:induction false} FramesOfPush(blocks: seq<seq<Byte>>, block: seq<Byte>)
    ensures FramesOf(blocks + [block]) == FramesOf(blocks) + [FrameOf(block)]
  {
    if blocks == [] {
      assert [] + [block] == [block];
    } else {
      assert (blocks + [block])[1..] == blocks[1..] + [block];
      FramesOfPush(blocks[1..], block);
    }
  }

  lemma ReloadedFrame(f: Frame)
    requires SizeofFrame(f) <= |f.block|
    ensures FrameOf(SavedBlock(f)) == f <==> Stored(f)
  {
    if |f.block| == SizeofFrame(f) {
      assert SavedBlock(f) == f.block;
    } else {
      assert FrameOf(SavedBlock(f)).block != f.block;
    }
  }

  lemma ReloadedHead(fs: seq<Frame>)
    requires Savable(fs) && fs != []
    ensures fs[0] in fs && Savable(fs[1..])
    ensures FramesOf(SavedBlocks(fs)) == [FrameOf(SavedBlock(fs[0]))] + FramesOf(SavedBlocks(fs[1..]))
  {
    assert SavedBlocks(fs)[1..] == SavedBlocks(fs[1..]);
  }

  /** What the saved blocks hold is what was saved, exactly when every frame is as a camera stores it. */
  lemma {:induction false} ReloadedFrames(fs: seq<Frame>)
    requires Savable(fs)
    ensures FramesOf(SavedBlocks(fs)) == fs <==> forall f :: f in fs ==> Stored(f)
  {
    if fs != [] {
      ReloadedFrame(fs[0]);
      ReloadedFrames(fs[1..]);
      ReloadedHead(fs);
      assert fs == [fs[0]] + fs[1..];
      assert forall f :: f in fs <==> f == fs[0] || f in fs[1..];
    }
  }

  /**
   * Loading what save wrote succeeds, and gives back the same frames exactly when every frame is as
   * a camera stores it.
   */
  lemma SaveLoadRoundTrip(fs: seq<Frame>, mem: Memory)
    requires Savable(fs) && Ample(mem)
    ensures var p := Parse(SavedFile(fs), 0, mem);
      p.ok && (Loaded(p.blocks).frames == fs <==> forall f :: f in fs ==> Stored(f))
  {
    var blocks := SavedBlocks(fs);
    assert EncodeBlocks(blocks) + [] == EncodeBlocks(blocks);
    ParseRecords(blocks, [], 0, mem);
    LoadedHoldsAll(blocks);
    ReloadedFrames(fs);
  }
}
