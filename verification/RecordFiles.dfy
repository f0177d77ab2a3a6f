/** save and streamer_load as they run: a read cursor on one side, a file position on the other. */
module RecordFiles {
  import opened Machine
  import opened FrameRecord
  import opened FrameLists
  import opened RecordFormat
  import opened Wrappers

  /** The file after the first k frames. */
  ghost function Written(frames: seq<Frame>, k: nat): seq<Byte>
    requires Savable(frames) && k <= |frames|
  {
    SavedFile(frames[..k])
  }

  lemma WrittenNext(frames: seq<Frame>, k: nat)
    requires Savable(frames) && k < |frames|
    ensures Written(frames, k + 1) == Written(frames, k) + EncodeBlock(SavedBlock(frames[k]))
  {
    assert frames[..k + 1] == frames[..k] + [frames[k]];
    SavedFilePush(frames[..k], frames[k]);
  }

  lemma WrittenAll(frames: seq<Frame>)
    requires Savable(frames)
    ensures Written(frames, 0) == [] && Written(frames, |frames|) == SavedFile(frames)
    ensures |SavedFile(frames)| == SavedSize(frames)
  {
    assert frames[..0] == [] && frames[..|frames|] == frames;
    SavedFileSize(frames);
  }

  /** The count of bytes written after the three fwrite calls for one block, each added to `len`. */
  function Counted(len: U32, block: seq<Byte>): U32 {
    ToU32(ToU32(ToU32(len + 4) + 4) + |block|)
  }

  lemma CountedIsLength(file: seq<Byte>, block: seq<Byte>)
    requires |block| < 0x1_0000_0000
    ensures Counted(ToU32(|file|), block) == ToU32(|file + EncodeBlock(block)|)
  {
    AddU32(|file|, 4);
    AddU32(|file| + 4, 4);
    AddU32(|file| + 8, |block|);
  }

  /** Three fwrite calls later: the file and the count after one more frame. */
  lemma OneMoreWritten(frames: seq<Frame>, k: nat, file: seq<Byte>, len: U32)
    requires Savable(frames) && k < |frames| && file == Written(frames, k) && len == ToU32(|file|)
    ensures frames[k] in frames
    ensures var block := SavedBlock(frames[k]);
      && file + EncodeBlock(block) == Written(frames, k + 1)
      && Counted(len, block) == ToU32(|Written(frames, k + 1)|)
  {
    assert frames[k] in frames;
    WrittenNext(frames, k);
    CountedIsLength(file, SavedBlock(frames[k]));
  }

  /** k frames have been read and saved, and `frame` is what was read next. */
  ghost predicate Reading(r: Record, start: Record, k: nat, frame: Option<Frame>) {
    start.cursor == 0 &&
    if k < |start.frames| then frame == Some(start.frames[k]) && r == Advanced(start, k + 1)
    else frame == None && k == |start.frames| && r == Advanced(start, k)
  }

  lemma ReadingStarts(start: Record)
    requires start.cursor == 0
    ensures Reading(Next(start), start, 0, NextFrame(start))
  {
  }

  lemma ReadingOn(r: Record, start: Record, k: nat, frame: Option<Frame>)
    requires CursorInList(r) && Reading(r, start, k, frame) && frame.Some?
    ensures Reading(Next(r), start, k + 1, NextFrame(r))
  {
  }

  /** k frames have been saved, and the next one has been read. */
  ghost predicate Saving(
      r: Record, start: Record, k: nat, frame: Option<Frame>, file: seq<Byte>, len: U32)
    requires Savable(start.frames)
  {
    && k <= |start.frames| && Reading(r, start, k, frame)
    && file == Written(start.frames, k) && len == ToU32(|file|)
  }

  /** One turn of the saving loop: write the frame, and read the next one. */
  method SaveFrame(list: FrameList, file: seq<Byte>, len: U32, frame: Frame, ghost start: Record, ghost k: nat)
    returns (file': seq<Byte>, len': U32, next: Option<Frame>)
    requires list.Valid() && Savable(start.frames) && Saving(list.Abs(), start, k, Some(frame), file, len)
    modifies list, list.chain
    ensures list.Valid() && k < |start.frames| && Saving(list.Abs(), start, k + 1, next, file', len')
  {
    OneMoreWritten(start.frames, k, file, len);
    ReadingOn(list.Abs(), start, k, Some(frame));
    var block := SavedBlock(frame);
    file', len' := file + EncodeBlock(block), Counted(len, block);
    next := list.FlistNext();
  }

  /** Read the first frame of the list. */
  method FirstFrame(list: FrameList) returns (frame: Option<Frame>)
    requires list.Valid()
    modifies list, list.chain
    ensures list.Valid() && Reading(list.Abs(), Seek(old(list.Abs()), 0), 0, frame)
  {
    var _ := list.FlistSeek(0);
    ReadingStarts(list.Abs());
    frame := list.FlistNext();
  }

  /** Write every frame of the list, from the first on, and return the number of bytes written. */
  method Save(list: FrameList) returns (file: seq<Byte>, len: U32)
    requires list.Valid() && Savable(list.Abs().frames)
    modifies list, list.chain
    ensures list.Valid()
    ensures list.Abs() == Drain(Seek(old(list.Abs()), 0))
    ensures file == SavedFile(old(list.Abs()).frames)
    ensures len == ToU32(SavedSize(old(list.Abs()).frames))
  {
    WrittenAll(list.Abs().frames);
    file, len := [], 0;
    ghost var start := Seek(list.Abs(), 0);
    ghost var k := 0;
    var frame := FirstFrame(list);
    while frame.Some?
      invariant list.Valid() && Saving(list.Abs(), start, k, frame, file, len)
      decreases |start.frames| - k
    {
      file, len, frame := SaveFrame(list, file, len, frame.value, start, k);
      k := k + 1;
    }
  }

  /** What one turn of the loading loop finds in the rest of the file. */
  datatype Read = EndOfFile | Malformed | Block(block: seq<Byte>, rest: seq<Byte>)

  method ReadBlock(rest: seq<Byte>, i: nat, mem: Memory) returns (r: Read)
    ensures Parse(rest, i, mem) == match r
      case EndOfFile => Parsed([], true)
      case Malformed => Parsed([], false)
      case Block(block, more) =>
        var p := Parse(more, i + 1, mem); Parsed([block] + p.blocks, p.ok)
    ensures r.Block? ==> |r.rest| < |rest|
  {
    if !mem.reserve(i) {
      return Malformed;
    }
    if |rest| < 4 || FromLe32(rest) != MAGIC {
      return if |rest| < 4 then EndOfFile else Malformed;
    }
    if |rest| < 8 {
      return Malformed;
    }
    var n: int := FromLe32(rest[4..]);
    if !mem.alloc(i) || |rest| < 8 + n {
      return Malformed;
    }
    return Block(rest[8..8 + n], rest[8 + n..]);
  }

  method AppendBlock(list: FrameList, ghost blocks: seq<seq<Byte>>, block: seq<Byte>)
    requires list.Valid() && list.Abs() == Loaded(blocks)
    modifies list, list.chain, list.chain.repr
    ensures list.Valid() && list.Abs() == Loaded(blocks + [block])
    ensures fresh(list.chain.repr - old(list.chain.repr))
  {
    LoadedPush(blocks, block);
    var _ := list.AppendFrame(FrameOf(block));
  }

  /** Read records from the file into an empty list; 0 means the file was read to its end. */
  method Load(list: FrameList, file: seq<Byte>, mem: Memory) returns (code: int)
    requires list.Valid() && list.Abs() == Init(0, 0)
    modifies list, list.chain, list.chain.repr
    ensures list.Valid()
    ensures code == if Parse(file, 0, mem).ok then 0 else -1
    ensures list.Abs() == Loaded(Parse(file, 0, mem).blocks)
  {
    var i := 0;
    var read := ReadBlock(file, i, mem);
    ghost var blocks: seq<seq<Byte>> := [];
    assert Loaded([]) == Init(0, 0);
    assert [] + Parse(file, 0, mem).blocks == Parse(file, 0, mem).blocks;
    while read.Block?
      invariant list.Valid() && list.Abs() == Loaded(blocks)
      invariant fresh(list.chain.repr - old(list.chain.repr))
      invariant Remaining(Parse(file, 0, mem), blocks, read, i, mem)
      decreases if read.Block? then |read.rest| + 1 else 0
    {
      AppendBlock(list, blocks, read.block);
      TakeBlock(Parse(file, 0, mem), blocks, read, i, mem);
      blocks := blocks + [read.block];
      i := i + 1;
      read := ReadBlock(read.rest, i, mem);
    }
    assert blocks + [] == blocks;
    return if read.EndOfFile? then 0 else -1;
  }

  /** All that is loaded is what has been, and then what the rest of the file holds. */
  ghost predicate Remaining(all: Parsed, blocks: seq<seq<Byte>>, read: Read, i: nat, mem: Memory) {
    match read
    case EndOfFile => all == Parsed(blocks + [], true)
    case Malformed => all == Parsed(blocks + [], false)
    case Block(block, rest) =>
      var p := Parse(rest, i + 1, mem); all == Parsed(blocks + ([block] + p.blocks), p.ok)
  }

  lemma TakeBlock(all: Parsed, blocks: seq<seq<Byte>>, read: Read, i: nat, mem: Memory)
    requires read.Block? && Remaining(all, blocks, read, i, mem)
    ensures var p := Parse(read.rest, i + 1, mem); all == Parsed(blocks + [read.block] + p.blocks, p.ok)
  {
    var p := Parse(read.rest, i + 1, mem);
    assert blocks + ([read.block] + p.blocks) == blocks + [read.block] + p.blocks;
  }

  lemma LoadedPush(blocks: seq<seq<Byte>>, block: seq<Byte>)
    ensures Loaded(blocks + [block]) == Append(Loaded(blocks), FrameOf(block))
    ensures Loaded(blocks).cursor == 0
  {
    FramesOfPush(blocks, block);
    var fs := FramesOf(blocks);
    assert (fs + [FrameOf(block)])[..|fs|] == fs;
    LoadedHoldsAll(blocks);
  }
}
