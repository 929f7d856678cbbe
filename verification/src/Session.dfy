/** Whole runs of the allocator as a program sees them: blocks under handles of its own choice. */
module Sessions {
  import opened Sizes
  import opened Rings
  import opened Tries
  import opened Tags
  import opened Heaps
  import opened HeapOps
  import opened Coalescing
  import opened SystemSteps
  import opened Payloads
  import opened Canon
  import opened Choices
  import opened Allocators

  datatype Op =
    | Obtain(handle: nat, bytes: nat)
    | ObtainAligned(handle: nat, alignment: nat, bytes: nat)
    | Resize(handle: nat, bytes: nat)
    | Drop(handle: nat)
    | Write(handle: nat, word: nat, value: int)

  /** What the program has written to a block: whole words by index, and their bytes by offset. */
  datatype Data = Data(words: map<nat, int>, bytes: map<nat, int>)

  const BLANK: Data := Data(map[], map[])

  /** A block as the program knows it. */
  datatype Block = Block(at: int, bytes: nat, data: Data)

  /** The ideal memory: arrays that have nothing to do with each other. */
  datatype Cell = Cell(bytes: nat, data: Data)

  /** The cell exists and has the word. */
  predicate Room(cells: map<nat, Cell>, h: nat, word: nat) { h in cells && 8 * word + 8 <= cells[h].bytes }

  function Ideal(cells: map<nat, Cell>, op: Op, ok: bool): map<nat, Cell>
  {
    match op
    case Obtain(h, bytes) => if ok && h !in cells then cells[h := Cell(bytes, BLANK)] else cells
    case ObtainAligned(h, _, bytes) => if ok && h !in cells then cells[h := Cell(bytes, BLANK)] else cells
    case Resize(h, bytes) =>
      if ok && h in cells then cells[h := Cell(bytes, Shortened(cells[h].data, bytes))] else cells
    case Drop(h) => cells - {h}
    case Write(h, word, value) =>
      if Room(cells, h, word) then cells[h := Cell(cells[h].bytes, Written(cells[h].data, word, value))] else cells
  }

  /** The ideal memory after a run in which the requests marked in `oks` were met. */
  function IdealRun(ops: seq<Op>, oks: seq<bool>): map<nat, Cell>
    requires |oks| == |ops|
  {
    if ops == [] then map[]
    else Ideal(IdealRun(ops[..|ops| - 1], oks[..|ops| - 1]), ops[|ops| - 1], oks[|ops| - 1])
  }

  function Cells(blocks: map<nat, Block>): map<nat, Cell>
  {
    map h | h in blocks :: Cell(blocks[h].bytes, blocks[h].data)
  }

  lemma CellsChange(blocks: map<nat, Block>, h: nat, b: Block)
    ensures Cells(blocks[h := b]) == Cells(blocks)[h := Cell(b.bytes, b.data)]
    ensures Cells(blocks - {h}) == Cells(blocks) - {h}
  {
  }

  ghost predicate Proper(ops: seq<Op>)
  {
    forall i :: 0 <= i < |ops| && ops[i].ObtainAligned? ==> PowerOfTwo(ops[i].alignment) && ops[i].alignment < WORD
  }

  /** The program's blocks are exactly the chunks the heap has in use, each with the room asked for. */
  ghost predicate Owned(blocks: map<nat, Block>, held: Tiling)
  {
    AllCovered(blocks, held) && OneEach(blocks) && AllHandled(blocks, held)
  }

  ghost predicate AllCovered(blocks: map<nat, Block>, held: Tiling)
  {
    forall h :: h in blocks ==> Covers(held, blocks[h])
  }

  ghost predicate OneEach(blocks: map<nat, Block>)
  {
    forall g, h :: g in blocks && h in blocks && g != h ==> blocks[g].at != blocks[h].at
  }

  ghost predicate AllHandled(blocks: map<nat, Block>, held: Tiling) { forall p :: p in held ==> Handled(blocks, p) }

  ghost predicate Handled(blocks: map<nat, Block>, p: int) { exists h :: h in blocks && blocks[h].at == p + MEM_OFFSET }

  ghost predicate Covers(held: Tiling, b: Block)
  {
    b.at - MEM_OFFSET in held && b.bytes + OVERHEAD <= held[b.at - MEM_OFFSET].size
  }

  ghost predicate Apart(a: Block, b: Block) { a.at + a.bytes <= b.at || b.at + b.bytes <= a.at }

  lemma Gained(blocks: map<nat, Block>, held: Tiling, held': Tiling, h: nat, p: int, s: int, bytes: nat,
      data: Data)
    requires Owned(blocks, held) && h !in blocks && p !in held && held' == held[p := Ck(s, Live)]
    requires bytes + OVERHEAD <= s
    ensures Owned(blocks[h := Block(p + MEM_OFFSET, bytes, data)], held')
  {
    var b := Block(p + MEM_OFFSET, bytes, data);
    assert AllCovered(blocks[h := b], held') by {
      hide OneEach, AllHandled;
      CoveredPlus(blocks, held, held', h, b);
    }
    assert OneEach(blocks[h := b]) by {
      hide AllHandled, OneEach;
      forall g | g in blocks
        ensures blocks[g].at != b.at
      {
        assert Covers(held, blocks[g]);
      }
      OnePlus(blocks, h, b);
    }
    assert AllHandled(blocks[h := b], held') by {
      hide OneEach, AllCovered;
      GainedHandles(blocks, held, h, p, b);
    }
  }

  lemma CoveredPlus(blocks: map<nat, Block>, held: Tiling, held': Tiling, h: nat, b: Block)
    requires AllCovered(blocks, held) && Covers(held', b) && forall q :: q in held ==> q in held' && held'[q] == held[q]
    ensures AllCovered(blocks[h := b], held')
  {
    var blocks' := blocks[h := b];
    forall g | g in blocks'
      ensures Covers(held', blocks'[g])
    {
      if g != h { assert Covers(held, blocks[g]); }
    }
  }

  lemma OnePlus(blocks: map<nat, Block>, h: nat, b: Block)
    requires OneEach(blocks) && forall g :: g in blocks && g != h ==> blocks[g].at != b.at
    ensures OneEach(blocks[h := b])
  {
    var blocks' := blocks[h := b];
    forall f, g | f in blocks' && g in blocks' && f != g
      ensures blocks'[f].at != blocks'[g].at
    {
      assert f != h ==> f in blocks && blocks'[f] == blocks[f];
      assert g != h ==> g in blocks && blocks'[g] == blocks[g];
    }
  }

  lemma GainedHandles(blocks: map<nat, Block>, held: Tiling, h: nat, p: int, b: Block)
    requires AllHandled(blocks, held) && h !in blocks && b.at == p + MEM_OFFSET
    ensures Handled(blocks[h := b], p) && forall q :: q in held ==> Handled(blocks[h := b], q)
  {
    var blocks' := blocks[h := b];
    assert h in blocks' && blocks'[h].at == p + MEM_OFFSET;
    forall q | q in held
      ensures Handled(blocks', q)
    {
      assert Handled(blocks, q);
      var g :| g in blocks && blocks[g].at == q + MEM_OFFSET;
      assert g in blocks' && blocks'[g].at == q + MEM_OFFSET;
    }
  }

  lemma Lost(blocks: map<nat, Block>, held: Tiling, h: nat)
    requires Owned(blocks, held) && h in blocks
    ensures Owned(blocks - {h}, held - {blocks[h].at - MEM_OFFSET})
  {
    LostOne(blocks, h);
    LostCovers(blocks, held, h);
    LostHandles(blocks, held, h);
    hide AllCovered, OneEach, AllHandled;
  }

  lemma LostOne(blocks: map<nat, Block>, h: nat)
    requires OneEach(blocks)
    ensures OneEach(blocks - {h})
  {
  }

  lemma LostCovers(blocks: map<nat, Block>, held: Tiling, h: nat)
    requires AllCovered(blocks, held) && OneEach(blocks) && h in blocks
    ensures AllCovered(blocks - {h}, held - {blocks[h].at - MEM_OFFSET})
  {
    var blocks', held' := blocks - {h}, held - {blocks[h].at - MEM_OFFSET};
    forall g | g in blocks'
      ensures Covers(held', blocks'[g])
    {
      assert Covers(held, blocks[g]) && blocks[g].at != blocks[h].at;
    }
  }

  lemma LostHandles(blocks: map<nat, Block>, held: Tiling, h: nat)
    requires AllHandled(blocks, held) && h in blocks
    ensures AllHandled(blocks - {h}, held - {blocks[h].at - MEM_OFFSET})
  {
    var blocks', held' := blocks - {h}, held - {blocks[h].at - MEM_OFFSET};
    forall q | q in held'
      ensures Handled(blocks', q)
    {
      assert Handled(blocks, q);
      var g :| g in blocks && blocks[g].at == q + MEM_OFFSET;
      assert g in blocks' && blocks'[g].at == q + MEM_OFFSET;
    }
  }

  lemma Exchanged(blocks: map<nat, Block>, held: Tiling, held': Tiling, h: nat, q: int, s: int, bytes: nat,
      data: Data)
    requires Owned(blocks, held) && h in blocks && bytes + OVERHEAD <= s
    requires q !in held - {blocks[h].at - MEM_OFFSET} && held' == (held - {blocks[h].at - MEM_OFFSET})[q := Ck(s, Live)]
    ensures Owned(blocks[h := Block(q + MEM_OFFSET, bytes, data)], held')
  {
    hide Owned;
    Lost(blocks, held, h);
    Gained(blocks - {h}, held - {blocks[h].at - MEM_OFFSET}, held', h, q, s, bytes, data);
    assert (blocks - {h})[h := Block(q + MEM_OFFSET, bytes, data)] == blocks[h := Block(q + MEM_OFFSET, bytes, data)];
  }

  // ---------------------------------------------------------------- contents

  /** Memory holds what the program wrote: its words read back as written, and so do their bytes. */
  ghost predicate Contents(mem: Mem, b: Block) { WordContents(mem, b) && ByteContents(mem, b) }

  ghost predicate WordContents(mem: Mem, b: Block)
  {
    forall w :: w in b.data.words ==> 8 * w + 8 <= b.bytes && Get(mem, b.at + 8 * w) == b.data.words[w]
  }

  ghost predicate ByteContents(mem: Mem, b: Block)
  {
    forall off :: off in b.data.bytes ==> off < b.bytes && ByteAt(mem, b.at + off) == b.data.bytes[off]
  }

  ghost predicate AllContents(mem: Mem, blocks: map<nat, Block>)
  {
    forall h :: h in blocks ==> Contents(mem, blocks[h])
  }

  /** What lies below a new size. */
  function Shortened(data: Data, bytes: nat): Data
  {
    Data(map w | w in data.words && 8 * w + 8 <= bytes :: data.words[w],
         map off | off in data.bytes && off < bytes :: data.bytes[off])
  }

  function Eight(a: nat): set<nat> { {a, a + 1, a + 2, a + 3, a + 4, a + 5, a + 6, a + 7} }

  /** After a word was written. */
  function Written(data: Data, word: nat, value: int): Data
  {
    Data(data.words[word := value],
         map off | off in data.bytes.Keys + Eight(8 * word) ::
           if 8 * word <= off < 8 * word + 8 then ByteOf(value, off - 8 * word) else data.bytes[off])
  }

  lemma ContentsMoved(m0: Mem, b: Block, m1: Mem, at: int, bytes: nat, n: int)
    requires Contents(m0, b) && SameBytes(m0, b.at, m1, at, n) && SameWords(m0, b.at, m1, at, n)
    requires b.bytes <= n || bytes <= n
    ensures Contents(m1, Block(at, bytes, Shortened(b.data, bytes)))
  {
    WordsMoved(m0, b, m1, at, bytes, n);
    BytesMoved(m0, b, m1, at, bytes, n);
  }

  lemma WordsMoved(m0: Mem, b: Block, m1: Mem, at: int, bytes: nat, n: int)
    requires WordContents(m0, b) && SameWords(m0, b.at, m1, at, n) && (b.bytes <= n || bytes <= n)
    ensures WordContents(m1, Block(at, bytes, Shortened(b.data, bytes)))
  {
    forall w | w in Shortened(b.data, bytes).words
      ensures 8 * w + 8 <= bytes && Get(m1, at + 8 * w) == b.data.words[w]
    {
      assert WordCopied(m0, m1, b.at, at, w);
    }
  }

  lemma BytesMoved(m0: Mem, b: Block, m1: Mem, at: int, bytes: nat, n: int)
    requires ByteContents(m0, b) && SameBytes(m0, b.at, m1, at, n) && (b.bytes <= n || bytes <= n)
    ensures ByteContents(m1, Block(at, bytes, Shortened(b.data, bytes)))
  {
    hide ByteAt;
    forall off | off in Shortened(b.data, bytes).bytes
      ensures off < bytes && ByteAt(m1, at + off) == b.data.bytes[off]
    {
      assert ByteSame(m0, b.at, m1, at, off);
    }
  }

  /** All that fits is kept. */
  lemma NothingShortened(mem: Mem, b: Block)
    requires Contents(mem, b)
    ensures Shortened(b.data, b.bytes) == b.data
  {
    hide ByteAt;
    assert Shortened(b.data, b.bytes).words == b.data.words;
    assert Shortened(b.data, b.bytes).bytes == b.data.bytes;
  }

  /** What is left alone keeps its contents. */
  lemma ContentsKept(m0: Mem, bins: map<int, int>, v: View, m1: Mem, hs: Tiling, b: Block)
    requires HeapOk(m0, bins, v) && Covers(Holdings(v.ch), b) && Contents(m0, b)
    requires b.at - MEM_OFFSET in hs && hs[b.at - MEM_OFFSET] == Holdings(v.ch)[b.at - MEM_OFFSET]
    requires SamePayloads(m0, m1, hs)
    ensures Contents(m1, b)
  {
    hide HeapOk, SamePayloads, Sound, SameBytes, SameWords, Contents;
    var p := b.at - MEM_OFFSET;
    HeldThere(m0, bins, v, p);
    ChunkSized(m0, bins, v, p);
    PayloadBytes(m0, m1, hs, p, b.bytes);
    ContentsMoved(m0, b, m1, b.at, b.bytes, b.bytes);
    NothingShortened(m0, b);
  }

  lemma ChunkSized(mem: Mem, bins: map<int, int>, v: View, p: int)
    requires Sound(mem, bins, v) && p in v.ch && v.ch[p].kind.Live?
    ensures p % 8 == 0 && v.ch[p].size % 8 == 0
  {
    hide SegsOk, VictimOk, Binned, TopOk, OneTop;
    assert Tagged(mem, v.ch, p);
  }

  lemma OthersKept(m0: Mem, bins: map<int, int>, v: View, m1: Mem, hs: Tiling, blocks: map<nat, Block>)
    requires HeapOk(m0, bins, v) && AllContents(m0, blocks) && SamePayloads(m0, m1, hs)
    requires AllCovered(blocks, Holdings(v.ch))
    requires forall h :: h in blocks ==>
        blocks[h].at - MEM_OFFSET in hs && hs[blocks[h].at - MEM_OFFSET] == Holdings(v.ch)[blocks[h].at - MEM_OFFSET]
    ensures AllContents(m1, blocks)
  {
    hide HeapOk, SamePayloads, Contents, Holdings;
    forall h | h in blocks
      ensures Contents(m1, blocks[h])
    {
      assert Covers(Holdings(v.ch), blocks[h]) && Contents(m0, blocks[h]);
      ContentsKept(m0, bins, v, m1, hs, blocks[h]);
    }
  }

  lemma WordOf(off: nat, word: nat)
    ensures off / 8 == word <==> 8 * word <= off < 8 * word + 8
    ensures off / 8 == word ==> off % 8 == off - 8 * word
  {
  }

  lemma WordWritten(mem: Mem, b: Block, word: nat, value: int)
    requires Contents(mem, b) && b.at % 8 == 0 && 8 * word + 8 <= b.bytes
    ensures Contents(mem[b.at + 8 * word := value], b.(data := Written(b.data, word, value)))
  {
    hide ByteOf, ByteAt;
    ReadsBack(mem, b, word, value);
    BytesWritten(mem, b, word, value);
  }

  lemma ReadsBack(mem: Mem, b: Block, word: nat, value: int)
    requires WordContents(mem, b) && 8 * word + 8 <= b.bytes
    ensures WordContents(mem[b.at + 8 * word := value], b.(data := Written(b.data, word, value)))
  {
    hide ByteOf;
    var m1, b' := mem[b.at + 8 * word := value], b.(data := Written(b.data, word, value));
    forall w | w in b'.data.words
      ensures 8 * w + 8 <= b'.bytes && Get(m1, b.at + 8 * w) == b'.data.words[w]
    {
      assert w != word ==> w in b.data.words;
    }
  }

  lemma BytesWritten(mem: Mem, b: Block, word: nat, value: int)
    requires ByteContents(mem, b) && b.at % 8 == 0 && 8 * word + 8 <= b.bytes
    ensures ByteContents(mem[b.at + 8 * word := value], b.(data := Written(b.data, word, value)))
  {
    hide ByteOf, ByteAt;
    var m1, b' := mem[b.at + 8 * word := value], b.(data := Written(b.data, word, value));
    forall off | off in b'.data.bytes
      ensures off < b'.bytes && ByteAt(m1, b.at + off) == b'.data.bytes[off]
    {
      WordOf(off, word);
      ByteAfter(mem, b.at, word, value, off);
    }
  }

  lemma ByteAfter(mem: Mem, at: int, word: nat, value: int, off: nat)
    requires at % 8 == 0
    ensures ByteAt(mem[at + 8 * word := value], at + off) == (if off / 8 == word then ByteOf(value, off % 8)
        else ByteAt(mem, at + off))
  {
    ByteSplit(at, off);
    hide ByteOf;
  }

  // ---------------------------------------------------------------- one request

  ghost predicate InStep(d: Dlmalloc, blocks: map<nat, Block>)
    reads d, d.store
  {
    d.Valid() && Owned(blocks, Holdings(d.ch)) && AllContents(d.store.mem, blocks)
  }

  /** A new block, unless the handle has one already. */
  method DoObtain(d: Dlmalloc, h: nat, alignment: nat, bytes: nat, blocks: map<nat, Block>)
    returns (blocks': map<nat, Block>, ok: bool)
    requires InStep(d, blocks) && (alignment > 0 ==> PowerOfTwo(alignment) && alignment < WORD)
    modifies d, d.store
    ensures InStep(d, blocks')
    ensures var req := if alignment == 0 then bytes else AlignedRequest(alignment, bytes);
      && (ok <==> h in blocks || (req < MAX_REQUEST && !old(d.Denied(Request2Size(req)))))
      && d.refusals == old(d.refusals) + (if !ok && req < MAX_REQUEST then 1 else 0)
    ensures Cells(blocks') == (if ok && h !in blocks then Cells(blocks)[h := Cell(bytes, BLANK)] else Cells(blocks))
  {
    hide Owned, Holdings, SamePayloads, AllContents, Exhausted, PowerOfTwo, Granted, Cells, AlignUp, PadRequest;
    hide AskSize, Request2Size, AlignedRequest;
    ghost var m0, b0, v0 := d.store.mem, d.store.bins, d.Now();
    blocks', ok := blocks, h in blocks;
    if !ok {
      var ret;
      ghost var s;
      ret, s := Fetch(d, alignment, bytes);
      if ret != NULL {
        Obtained(m0, b0, v0, d.store.mem, d.ch, blocks, h, ret, s, bytes);
        blocks', ok := blocks[h := Block(ret, bytes, BLANK)], true;
      }
    }
  }

  /** `memalign`, or `malloc` if no alignment is asked for. */
  method Fetch(d: Dlmalloc, alignment: nat, bytes: nat) returns (ret: int, ghost s: int)
    requires d.Valid() && (alignment > 0 ==> PowerOfTwo(alignment) && alignment < WORD)
    modifies d, d.store
    ensures d.Valid()
    ensures var req := if alignment == 0 then bytes else AlignedRequest(alignment, bytes);
      && (ret == NULL <==> req >= MAX_REQUEST || old(d.Denied(Request2Size(req))))
      && d.refusals == old(d.refusals) + (if ret == NULL && req < MAX_REQUEST then 1 else 0)
    ensures ret == NULL ==> d.Same(old(d.store.mem), old(d.Now()))
    ensures ret != NULL ==> bytes + OVERHEAD <= s
    ensures ret != NULL ==> Granted(old(d.store.mem), old(d.ch), d.store.mem, d.ch, ret - MEM_OFFSET, s)
  {
    hide Granted, Exhausted, PowerOfTwo, AlignUp, PadRequest, AskSize, AlignedRequest, Sound, Unborn;
    if alignment == 0 {
      ret, s := d.Malloc(bytes);
    } else {
      ret, s := d.Memalign(alignment, bytes);
    }
  }

  lemma Obtained(m0: Mem, bins: map<int, int>, v: View, mem: Mem, ch: Tiling, blocks: map<nat, Block>, h: nat,
      ret: int, s: int, bytes: nat)
    requires HeapOk(m0, bins, v) && Owned(blocks, Holdings(v.ch)) && AllContents(m0, blocks) && h !in blocks
    requires Granted(m0, v.ch, mem, ch, ret - MEM_OFFSET, s) && bytes + OVERHEAD <= s
    ensures var blocks' := blocks[h := Block(ret, bytes, BLANK)];
      && Owned(blocks', Holdings(ch)) && AllContents(mem, blocks')
      && Cells(blocks') == Cells(blocks)[h := Cell(bytes, BLANK)]
  {
    hide HeapOk, Owned, Holdings, SamePayloads, AllContents, Cells;
    var b := Block(ret, bytes, BLANK);
    Gained(blocks, Holdings(v.ch), Holdings(ch), h, ret - MEM_OFFSET, s, bytes, BLANK);
    OwnedAll(blocks, Holdings(v.ch));
    OthersKept(m0, bins, v, mem, Holdings(v.ch), blocks);
    MoreContents(mem, blocks, h, b);
    CellsChange(blocks, h, b);
  }

  method DoResize(d: Dlmalloc, h: nat, bytes: nat, blocks: map<nat, Block>) returns (blocks': map<nat, Block>, ok: bool)
    requires InStep(d, blocks) && h in blocks
    modifies d, d.store
    ensures InStep(d, blocks')
    ensures ok <==> bytes < MAX_REQUEST && !old(d.Stuck(blocks[h].at - MEM_OFFSET, Request2Size(bytes)))
    ensures d.refusals == old(d.refusals) + (if !ok && bytes < MAX_REQUEST then 1 else 0)
    ensures Cells(blocks') == (if ok then Cells(blocks)[h := Cell(bytes, Shortened(blocks[h].data, bytes))]
        else Cells(blocks))
  {
    hide Owned, Holdings, SamePayloads, SameBytes, SameWords, AllContents, Contents, Exhausted, RoomBehind, Shortened;
    hide Moved;
    hide Cells, AlignUp, PadRequest, AskSize;
    ghost var m0, b0, v0 := d.store.mem, d.store.bins, d.Now();
    var b := blocks[h];
    blocks', ok := blocks, false;
    OwnedThere(blocks, Holdings(d.ch), h);
    var ret;
    ghost var s;
    ret, s := d.Realloc(b.at, bytes);
    if ret != NULL {
      Reshaped(m0, b0, v0, d.store.mem, d.ch, blocks, h, ret, s, bytes);
      blocks', ok := blocks[h := Block(ret, bytes, Shortened(b.data, bytes))], true;
    }
  }

  lemma Reshaped(m0: Mem, bins: map<int, int>, v: View, mem: Mem, ch: Tiling, blocks: map<nat, Block>, h: nat,
      ret: int, s: int, bytes: nat)
    requires HeapOk(m0, bins, v) && Owned(blocks, Holdings(v.ch)) && AllContents(m0, blocks) && h in blocks
    requires Moved(m0, v.ch, mem, ch, blocks[h].at - MEM_OFFSET, ret - MEM_OFFSET, s, bytes) && bytes + OVERHEAD <= s
    ensures var b' := Block(ret, bytes, Shortened(blocks[h].data, bytes));
      && Owned(blocks[h := b'], Holdings(ch)) && AllContents(mem, blocks[h := b'])
      && Cells(blocks[h := b']) == Cells(blocks)[h := Cell(bytes, b'.data)]
  {
    hide HeapOk, Owned, Holdings, SamePayloads, SameBytes, SameWords, AllContents, Contents, Cells, Shortened;
    var b, held := blocks[h], Holdings(v.ch);
    var p, b' := b.at - MEM_OFFSET, Block(ret, bytes, Shortened(b.data, bytes));
    OwnedThere(blocks, held, h);
    Exchanged(blocks, held, Holdings(ch), h, ret - MEM_OFFSET, s, bytes, b'.data);
    Lost(blocks, held, h);
    OwnedAll(blocks - {h}, held - {p});
    AtHandle(m0, blocks, h);
    RestCovered(blocks, held, h);
    OthersKept(m0, bins, v, mem, held - {p}, blocks - {h});
    ContentsMoved(m0, b, mem, ret, bytes, Min(held[p].size - OVERHEAD, bytes));
    MoreContents(mem, blocks - {h}, h, b');
    CellsChange(blocks, h, b');
    assert (blocks - {h})[h := b'] == blocks[h := b'];
  }

  method DoDrop(d: Dlmalloc, h: nat, blocks: map<nat, Block>) returns (blocks': map<nat, Block>)
    requires InStep(d, blocks) && h in blocks
    modifies d, d.store
    ensures InStep(d, blocks') && Cells(blocks') == Cells(blocks) - {h} && d.refusals == old(d.refusals)
  {
    hide Owned, Holdings, SamePayloads, AllContents, Contents;
    CellsChange(blocks, h, blocks[h]);
    ghost var m0, b0, v0, held := d.store.mem, d.store.bins, d.Now(), Holdings(d.ch);
    OwnedThere(blocks, held, h);
    Lost(blocks, held, h);
    OwnedAll(blocks - {h}, held - {blocks[h].at - MEM_OFFSET});
    AtHandle(m0, blocks, h);
    RestCovered(blocks, held, h);
    d.Free(blocks[h].at);
    blocks' := blocks - {h};
    OthersKept(m0, b0, v0, d.store.mem, held - {blocks[h].at - MEM_OFFSET}, blocks');
  }

  /** A write to a word of a block; outside the block nothing is written. */
  method DoWrite(d: Dlmalloc, h: nat, word: nat, value: int, blocks: map<nat, Block>) returns (blocks': map<nat, Block>)
    requires InStep(d, blocks) && h in blocks && 8 * word + 8 <= blocks[h].bytes
    modifies d.store`mem
    ensures InStep(d, blocks')
    ensures Cells(blocks') == Cells(blocks)[h := Cell(blocks[h].bytes, Written(blocks[h].data, word, value))]
  {
    hide Owned, Holdings, SamePayloads, AllContents, Contents, Sound, Written;
    ghost var m0, b0, v0, held := d.store.mem, d.store.bins, d.Now(), Holdings(d.ch);
    var b := blocks[h];
    ghost var p := b.at - MEM_OFFSET;
    OwnedThere(blocks, held, h);
    HeldThere(m0, b0, v0, p);
    ChunkSized(m0, b0, v0, p);
    HeldSame(v0.ch, p);
    AtHandle(m0, blocks, h);
    WordWritten(m0, b, word, value);
    WordInside(v0.ch, p, b, word);
    d.WriteWord(b.at + 8 * word, value, p);
    Lost(blocks, held, h);
    OwnedAll(blocks - {h}, held - {p});
    RestCovered(blocks, held, h);
    OthersKept(m0, b0, v0, d.store.mem, held - {p}, blocks - {h});
    var b' := b.(data := Written(b.data, word, value));
    MoreContents(d.store.mem, blocks - {h}, h, b');
    CellsChange(blocks, h, b');
    blocks' := blocks[h := b'];
    assert (blocks - {h})[h := b'] == blocks';
    assert (held - {p})[p := Ck(held[p].size, Live)] == held;
    Exchanged(blocks, held, held, h, p, held[p].size, b.bytes, b'.data);
  }

  lemma WordInside(ch: Tiling, p: int, b: Block, word: nat)
    requires p in ch && ch[p].kind.Live? && p == b.at - MEM_OFFSET && p % 8 == 0
    requires 8 * word + 8 <= b.bytes && b.bytes + OVERHEAD <= ch[p].size
    ensures PayloadWord(ch, p, b.at + 8 * word)
  {
  }

  lemma HeldSame(ch: Tiling, p: int)
    requires p in Holdings(ch)
    ensures p in ch && Holdings(ch)[p] == ch[p]
  {
  }

  lemma OwnedAll(blocks: map<nat, Block>, held: Tiling)
    requires Owned(blocks, held)
    ensures AllCovered(blocks, held) && forall h :: h in blocks ==> blocks[h].at - MEM_OFFSET in held
  {
    hide OneEach, AllHandled;
    forall h | h in blocks
      ensures blocks[h].at - MEM_OFFSET in held
    {
      assert Covers(held, blocks[h]);
    }
  }

  lemma OwnedThere(blocks: map<nat, Block>, held: Tiling, h: nat)
    requires Owned(blocks, held) && h in blocks
    ensures blocks[h].at - MEM_OFFSET in held && blocks[h].bytes + OVERHEAD <= held[blocks[h].at - MEM_OFFSET].size
  {
    assert Covers(held, blocks[h]);
  }

  lemma RestCovered(blocks: map<nat, Block>, held: Tiling, h: nat)
    requires Owned(blocks, held) && h in blocks
    ensures AllCovered(blocks - {h}, held)
  {
    hide OneEach, AllHandled, Covers;
  }

  lemma AtHandle(mem: Mem, blocks: map<nat, Block>, h: nat)
    requires AllContents(mem, blocks) && h in blocks
    ensures AllContents(mem, blocks - {h}) && Contents(mem, blocks[h])
  {
    hide Contents;
  }

  lemma MoreContents(mem: Mem, blocks: map<nat, Block>, h: nat, b: Block)
    requires AllContents(mem, blocks) && Contents(mem, b)
    ensures AllContents(mem, blocks[h := b])
  {
    hide Contents;
  }

  /** What cannot be met whatever the system says. */
  predicate TooLarge(op: Op)
  {
    match op
    case Obtain(_, bytes) => bytes >= MAX_REQUEST
    case ObtainAligned(_, alignment, bytes) => AlignedRequest(alignment, bytes) >= MAX_REQUEST
    case Resize(_, bytes) => bytes >= MAX_REQUEST
    case _ => false
  }

  /** Exactly the requests that fail: too large, or nothing on hand serves and the system refuses. */
  ghost predicate Fails(d: Dlmalloc, op: Op, blocks: map<nat, Block>)
    reads d, d.store
  {
    match op
    case Obtain(h, bytes) => h !in blocks && (TooLarge(op) || d.Denied(Request2Size(bytes)))
    case ObtainAligned(h, alignment, bytes) =>
      h !in blocks && (TooLarge(op) || d.Denied(Request2Size(AlignedRequest(alignment, bytes))))
    case Resize(h, bytes) =>
      h in blocks && (TooLarge(op) || d.Stuck(blocks[h].at - MEM_OFFSET, Request2Size(bytes)))
    case _ => false
  }

  /** One request; a handle in use is not given a second block, and an unknown one is left alone. */
  method Perform(d: Dlmalloc, op: Op, blocks: map<nat, Block>) returns (blocks': map<nat, Block>, ok: bool)
    requires InStep(d, blocks)
    requires op.ObtainAligned? ==> PowerOfTwo(op.alignment) && op.alignment < WORD
    modifies d, d.store
    ensures InStep(d, blocks') && Cells(blocks') == Ideal(Cells(blocks), op, ok)
    ensures ok <==> !old(Fails(d, op, blocks))
    ensures d.refusals == old(d.refusals) + (if !ok && !TooLarge(op) then 1 else 0)
  {
    hide InStep, PowerOfTwo, Shortened, Written, AlignedRequest;
    AlignedPositive(op);
    blocks', ok := blocks, true;
    match op
    case Obtain(h, bytes) => blocks', ok := DoObtain(d, h, 0, bytes, blocks);
    case ObtainAligned(h, alignment, bytes) => blocks', ok := DoObtain(d, h, alignment, bytes, blocks);
    case Resize(h, bytes) =>
      if h in blocks { blocks', ok := DoResize(d, h, bytes, blocks); }
    case Drop(h) =>
      if h in blocks { blocks' := DoDrop(d, h, blocks); } else { assert Cells(blocks) - {h} == Cells(blocks); }
    case Write(h, word, value) =>
      if h in blocks && 8 * word + 8 <= blocks[h].bytes { blocks' := DoWrite(d, h, word, value, blocks); }
  }

  lemma AlignedPositive(op: Op)
    ensures op.ObtainAligned? && PowerOfTwo(op.alignment) ==> op.alignment > 0
  {
  }

  // ---------------------------------------------------------------- whole runs

  lemma ChunkAligned(mem: Mem, bins: map<int, int>, v: View, p: int)
    requires Sound(mem, bins, v) && p in v.ch
    ensures (p + MEM_OFFSET) % 16 == 0
  {
    hide SegsOk, VictimOk, Binned, TopOk, OneTop;
    assert Tagged(mem, v.ch, p);
    Mod16(p, MEM_OFFSET);
  }

  lemma BlocksApart(mem: Mem, bins: map<int, int>, v: View, blocks: map<nat, Block>, g: nat, h: nat)
    requires Sound(mem, bins, v) && Owned(blocks, Holdings(v.ch)) && g in blocks && h in blocks
    ensures blocks[g].at % 16 == 0 && (g != h ==> Apart(blocks[g], blocks[h]))
  {
    hide Sound;
    assert Covers(Holdings(v.ch), blocks[g]) && Covers(Holdings(v.ch), blocks[h]);
    assert blocks[g].at - MEM_OFFSET in v.ch && blocks[h].at - MEM_OFFSET in v.ch;
    ChunkAligned(mem, bins, v, blocks[g].at - MEM_OFFSET);
    if g != h { LivePayloads(mem, bins, v, blocks[g].at - MEM_OFFSET, blocks[h].at - MEM_OFFSET); }
  }

  /** Everything that can be met at all was met. */
  ghost predicate AllMet(ops: seq<Op>, oks: seq<bool>)
    requires |oks| == |ops|
  {
    forall i :: 0 <= i < |ops| ==> oks[i] || TooLarge(ops[i])
  }

  lemma IdealStep(ops: seq<Op>, oks: seq<bool>, i: nat, ok: bool)
    requires i < |ops| && |oks| == i
    ensures IdealRun(ops[..i + 1], oks + [ok]) == Ideal(IdealRun(ops[..i], oks), ops[i], ok)
    ensures AllMet(ops[..i], oks) && (ok || TooLarge(ops[i])) ==> AllMet(ops[..i + 1], oks + [ok])
  {
    hide Ideal, TooLarge;
    assert ops[..i + 1][..i] == ops[..i] && (oks + [ok])[..i] == oks;
  }

  /** Whatever the program asks for, in whatever order, the heap is as good as an ideal memory: each block is aligned,
      overlaps no other, has the room asked for and holds exactly what was written to it. */
  method Session(d: Dlmalloc, ops: seq<Op>) returns (blocks: map<nat, Block>, oks: seq<bool>)
    requires d.Valid() && Holdings(d.ch) == map[] && Proper(ops)
    modifies d, d.store
    ensures d.Valid() && Owned(blocks, Holdings(d.ch))
    ensures |oks| == |ops| && Cells(blocks) == IdealRun(ops, oks)
    ensures d.refusals >= old(d.refusals) && (d.refusals == old(d.refusals) ==> AllMet(ops, oks))
    ensures forall h :: h in blocks ==> blocks[h].at % 16 == 0 && Contents(d.store.mem, blocks[h])
    ensures forall g, h :: g in blocks && h in blocks && g != h ==> Apart(blocks[g], blocks[h])
  {
    hide Holdings, PowerOfTwo, Apart, Sound, Unborn, Contents, Ideal, IdealRun, TooLarge, Fails, Proper, AllMet;
    assert Owned(map[], Holdings(d.ch));
    hide Owned, Cells;
    blocks, oks := Steps(d, ops);
    forall g, h | g in blocks && h in blocks
      ensures blocks[g].at % 16 == 0 && (g != h ==> Apart(blocks[g], blocks[h]))
    {
      OwnedThere(blocks, Holdings(d.ch), g);
      HeldThere(d.store.mem, d.store.bins, d.Now(), blocks[g].at - MEM_OFFSET);
      BlocksApart(d.store.mem, d.store.bins, d.Now(), blocks, g, h);
    }
  }

  /** One more request of the sequence. */
  method NextStep(d: Dlmalloc, ops: seq<Op>, blocks: map<nat, Block>, oks: seq<bool>)
    returns (blocks': map<nat, Block>, ok: bool)
    requires InStep(d, blocks) && Proper(ops) && |oks| < |ops| && Cells(blocks) == IdealRun(ops[..|oks|], oks)
    modifies d, d.store
    ensures InStep(d, blocks') && Cells(blocks') == IdealRun(ops[..|oks| + 1], oks + [ok])
    ensures d.refusals >= old(d.refusals)
    ensures d.refusals == old(d.refusals) && AllMet(ops[..|oks|], oks) ==> AllMet(ops[..|oks| + 1], oks + [ok])
  {
    hide AllMet, InStep, PowerOfTwo, Ideal, IdealRun, TooLarge, Fails, Cells;
    blocks', ok := Perform(d, ops[|oks|], blocks);
    IdealStep(ops, oks, |oks|, ok);
  }

  /** The requests one after another, from no blocks at all. */
  method Steps(d: Dlmalloc, ops: seq<Op>) returns (blocks: map<nat, Block>, oks: seq<bool>)
    requires InStep(d, map[]) && Proper(ops)
    modifies d, d.store
    ensures InStep(d, blocks) && |oks| == |ops| && Cells(blocks) == IdealRun(ops, oks)
    ensures d.refusals >= old(d.refusals) && (d.refusals == old(d.refusals) ==> AllMet(ops, oks))
  {
    blocks, oks := map[], [];
    assert Cells(blocks) == map[] == IdealRun([], []) && AllMet(ops[..0], []);
    hide AllMet, InStep, Proper, IdealRun, Cells;
    var i := 0;
    while i < |ops|
      invariant 0 <= i <= |ops| && InStep(d, blocks) && |oks| == i && Cells(blocks) == IdealRun(ops[..i], oks)
      invariant d.refusals >= old(d.refusals) && (d.refusals == old(d.refusals) ==> AllMet(ops[..i], oks))
    {
      var ok;
      blocks, ok := NextStep(d, ops, blocks, oks);
      oks := oks + [ok];
      i := i + 1;
    }
    assert ops[..i] == ops;
  }

  /** The request ends what is known of a word: the block goes, shrinks below it, or is written there. */
  predicate Disturbs(op: Op, ok: bool, h: nat, word: nat)
  {
    match op
    case Resize(g, bytes) => ok && g == h && 8 * word + 8 > bytes
    case Drop(g) => g == h
    case Write(g, w, _) => g == h && w == word
    case _ => false
  }

  ghost predicate Undisturbed(ops: seq<Op>, oks: seq<bool>, i: nat, h: nat, word: nat)
    requires |oks| == |ops|
  {
    forall j :: i < j < |ops| ==> !Disturbs(ops[j], oks[j], h, word)
  }

  predicate Remembers(cells: map<nat, Cell>, h: nat, word: nat, value: int)
  {
    Room(cells, h, word) && word in cells[h].data.words && cells[h].data.words[word] == value
  }

  lemma StillRemembers(cells: map<nat, Cell>, op: Op, ok: bool, h: nat, word: nat, value: int)
    requires Remembers(cells, h, word, value) && !Disturbs(op, ok, h, word)
    ensures Remembers(Ideal(cells, op, ok), h, word, value)
  {
  }

  /** In any run the ideal memory holds the last value written to a word. */
  lemma {:induction false} LastWriteStands(ops: seq<Op>, oks: seq<bool>, i: nat, h: nat, word: nat, value: int)
    requires |oks| == |ops| && i < |ops| && ops[i] == Write(h, word, value)
    requires Room(IdealRun(ops[..i], oks[..i]), h, word) && Undisturbed(ops, oks, i, h, word)
    ensures Remembers(IdealRun(ops, oks), h, word, value)
    decreases |ops|
  {
    var n := |ops| - 1;
    if i < n {
      var front, done := ops[..n], oks[..n];
      assert front[..i] == ops[..i] && done[..i] == oks[..i];
      LastWriteStands(front, done, i, h, word, value);
      StillRemembers(IdealRun(front, done), ops[n], oks[n], h, word, value);
    }
  }

  /** And so does the heap: after any session, a word of a block reads back as it was last written, wherever the block
      has moved since. */
  lemma ReadsLastWrite(mem: Mem, blocks: map<nat, Block>, ops: seq<Op>, oks: seq<bool>, i: nat, h: nat, word: nat,
      value: int)
    requires |oks| == |ops| && i < |ops| && ops[i] == Write(h, word, value)
    requires Room(IdealRun(ops[..i], oks[..i]), h, word) && Undisturbed(ops, oks, i, h, word)
    requires Cells(blocks) == IdealRun(ops, oks) && AllContents(mem, blocks)
    ensures h in blocks && 8 * word + 8 <= blocks[h].bytes && Get(mem, blocks[h].at + 8 * word) == value
  {
    LastWriteStands(ops, oks, i, h, word, value);
    hide IdealRun, Undisturbed;
    assert h in Cells(blocks);
    assert Contents(mem, blocks[h]);
  }
}
