/** The reused seven-jit executor and its Memory (src/lanes/seven_jit_lane.cpp): why re-mapping the
    pages makes every call run the bytes it just wrote.

    seven-jit itself is not part of this model. What is used of it is the contract the lane states:
    unmap and map bump the page's code epoch, and a cached entry is stale when its recorded epoch
    differs from the page's.
 */
module JitCache {
  import opened Types

  const PAGES := {CODE_BASE, DATA_BASE, STACK_BASE}

  function PageOf(address: u64): u64 {
    address - address % 0x1000
  }

  function EpochIn(epochs: map<u64, nat>, page: u64): nat {
    if page in epochs then epochs[page] else 0
  }

  ghost predicate Grew(before: map<u64, nat>, after: map<u64, nat>) {
    forall p: u64 :: EpochIn(before, p) <= EpochIn(after, p)
  }

  /** The guest pages; an unmapped page has no contents, but its epoch survives. */
  class Memory {
    /** Whether a write, too, bumps the epoch of its page: seven's business. */
    const writesBump: bool
    var pages: map<u64, Page>
    var epochs: map<u64, nat>

    constructor (writesBump: bool)
      ensures pages == map[] && epochs == map[] && this.writesBump == writesBump
    {
      this.writesBump := writesBump;
      pages, epochs := map[], map[];
    }

    function Epoch(page: u64): nat
      reads this`epochs
    {
      EpochIn(epochs, page)
    }

    method Unmap(page: u64)
      modifies this
      ensures pages == old(pages) - {page} && Epoch(page) == old(Epoch(page)) + 1
      ensures forall q: u64 :: q != page ==> Epoch(q) == old(Epoch(q))
    {
      pages := pages - {page};
      epochs := epochs[page := Epoch(page) + 1];
    }

    method Map(page: u64)
      modifies this
      ensures pages == old(pages)[page := Zeros(PAGE_SIZE)] && Epoch(page) == old(Epoch(page)) + 1
      ensures forall q: u64 :: q != page ==> Epoch(q) == old(Epoch(q))
    {
      pages := pages[page := Zeros(PAGE_SIZE)];
      epochs := epochs[page := Epoch(page) + 1];
    }

    /** The instruction under test: it may store anywhere, and epochs only grow. */
    method Execute()
      modifies this
      ensures Grew(old(epochs), epochs)
    {
      pages := *;
      var touched: u64, extra: nat := *, *;
      epochs := epochs[touched := Epoch(touched) + extra];
    }

    /** A write inside one page. */
    method Write(page: u64, offset: nat, bytes: seq<u8>) returns (ok: bool)
      modifies this
      ensures ok <==> page in old(pages) && offset + |bytes| <= PAGE_SIZE
      ensures ok ==> pages == old(pages)[page := Overlay(old(pages)[page], offset, bytes)]
      ensures !ok ==> pages == old(pages)
      ensures forall q: u64 :: Epoch(q) == old(Epoch(q)) + (if ok && writesBump && q == page then 1 else 0)
    {
      ok := page in pages && offset + |bytes| <= PAGE_SIZE;
      if ok {
        pages := pages[page := Overlay(pages[page], offset, bytes)];
        if writesBump { epochs := epochs[page := Epoch(page) + 1]; }
      }
    }
  }

  /** A compiled block: the epoch of its page when it was compiled, and what it was compiled from. */
  datatype Entry = Entry(epoch: nat, code: Page)

  class JitExecutor {
    var cache: map<u64, Entry>

    constructor ()
      ensures cache == map[]
    {
      cache := map[];
    }

    method Recycle()
      modifies this
      ensures cache == map[]
    {
      cache := map[];
    }

    /** Run one instruction at the code base; `executed` is the code the block that ran was made
        from. A block may be compiled and kept or not; compilation may leave any number of other
        entries behind, all of the current epoch. */
    method RunOne(memory: Memory) returns (executed: Page)
      requires CODE_BASE in memory.pages
      modifies this, memory
      ensures executed == if Fresh(old(cache), CODE_BASE, old(memory.Epoch(CODE_BASE)))
        then old(cache)[CODE_BASE].code else old(memory.pages)[CODE_BASE]
      ensures CODE_BASE in old(cache) ==> CODE_BASE in cache
      ensures CODE_BASE in cache ==>
        || (CODE_BASE in old(cache) && cache[CODE_BASE] == old(cache)[CODE_BASE])
        || cache[CODE_BASE] == Entry(old(memory.Epoch(CODE_BASE)), executed)
      ensures old(Paired(this, memory)) ==> Paired(this, memory)
    {
      if Fresh(cache, CODE_BASE, memory.Epoch(CODE_BASE)) {
        executed := cache[CODE_BASE].code;
      } else {
        executed := memory.pages[CODE_BASE];
        Compile(memory, executed);
      }
      ghost var before := memory.epochs;
      memory.Execute();
      StillNotFromFuture(cache, before, memory.epochs);
    }

    method Compile(memory: Memory, code: Page)
      modifies this
      ensures CODE_BASE in old(cache) ==> CODE_BASE in cache
      ensures CODE_BASE in cache ==>
        || (CODE_BASE in old(cache) && cache[CODE_BASE] == old(cache)[CODE_BASE])
        || cache[CODE_BASE] == Entry(memory.Epoch(CODE_BASE), code)
      ensures old(Paired(this, memory)) ==> Paired(this, memory)
    {
      var keep: bool := *;
      var more: map<u64, Entry> :| CODE_BASE !in more && OfEpoch(more, memory.epochs);
      assert OfEpoch(more, memory.epochs) && PageOf(CODE_BASE) == CODE_BASE;
      var own := if keep then map[CODE_BASE := Entry(memory.Epoch(CODE_BASE), code)] else map[];
      KeptEntries(cache, own + more, memory.epochs);
      cache := cache + (own + more);
    }
  }

  lemma StillNotFromFuture(cache: map<u64, Entry>, before: map<u64, nat>, after: map<u64, nat>)
    requires Grew(before, after)
    ensures NoneFromFuture(cache, before) ==> NoneFromFuture(cache, after)
  {
  }

  lemma KeptEntries(cache: map<u64, Entry>, more: map<u64, Entry>, epochs: map<u64, nat>)
    requires OfEpoch(more, epochs)
    ensures NoneFromFuture(cache, epochs) ==> NoneFromFuture(cache + more, epochs)
  {
  }

  predicate OfEpoch(entries: map<u64, Entry>, epochs: map<u64, nat>) {
    forall a: u64 :: a in entries ==> entries[a].epoch == EpochIn(epochs, PageOf(a))
  }

  predicate Fresh(cache: map<u64, Entry>, address: u64, epoch: nat) {
    address in cache && cache[address].epoch == epoch
  }

  predicate NoneFromFuture(cache: map<u64, Entry>, epochs: map<u64, nat>) {
    forall a: u64 :: a in cache ==> cache[a].epoch <= EpochIn(epochs, PageOf(a))
  }

  /** No entry is from the future of its page. */
  ghost predicate Paired(jit: JitExecutor, memory: Memory)
    reads jit, memory
  {
    NoneFromFuture(jit.cache, memory.epochs)
  }

  method Remap(memory: Memory)
    modifies memory
    ensures forall p: u64 :: p in PAGES ==> p in memory.pages && memory.pages[p] == Zeros(PAGE_SIZE)
    ensures forall p: u64 :: old(memory.Epoch(p)) + (if p in PAGES then 2 else 0) == memory.Epoch(p)
  {
    memory.Unmap(CODE_BASE);
    memory.Unmap(DATA_BASE);
    memory.Unmap(STACK_BASE);
    memory.Map(CODE_BASE);
    memory.Map(DATA_BASE);
    memory.Map(STACK_BASE);
  }

  /** The seven lane's set-up fails only over code that does not fit its page. */
  predicate SetsUp(tc: TestCase) {
    |tc.bytes| <= PAGE_SIZE
  }

  function Mapped(memory: Memory): Pages
    requires PAGES <= memory.pages.Keys
    reads memory
  {
    Pages(memory.pages[CODE_BASE], memory.pages[DATA_BASE], memory.pages[STACK_BASE])
  }

  /** run_seven_jit up to the call into the executor: whatever earlier calls left, all three pages hold
      what the case asks for, and the code page an epoch it never had before. */
  method WriteCase(tc: TestCase, memory: Memory) returns (setupOk: bool)
    modifies memory
    ensures setupOk == SetsUp(tc)
    ensures setupOk ==> PAGES <= memory.pages.Keys && Mapped(memory) == StartPages(tc)
    ensures Grew(old(memory.epochs), memory.epochs)
    ensures old(memory.Epoch(CODE_BASE)) < memory.Epoch(CODE_BASE)
    ensures setupOk && tc.bytes != [] ==>
      memory.Epoch(CODE_BASE) == old(memory.Epoch(CODE_BASE)) + FirstEpoch(memory.writesBump)
  {
    Remap(memory);
    var _ := memory.Write(STACK_BASE, RETURN_SLOT, RETURN_ADDRESS);
    var _ := memory.Write(DATA_BASE, 0, tc.dataSeed);
    setupOk := true;
    if tc.bytes != [] { setupOk := memory.Write(CODE_BASE, 0, tc.bytes); }
    if setupOk {
      assert memory.pages[CODE_BASE] == StartPages(tc).code by {
        if tc.bytes == [] { assert Overlay(BLANK.code, 0, []) == BLANK.code; }
      }
      assert memory.pages[DATA_BASE] == StartPages(tc).data && memory.pages[STACK_BASE] == StartPages(tc).stack;
    }
    forall p: u64 ensures EpochIn(old(memory.epochs), p) <= EpochIn(memory.epochs, p) {
      assert old(memory.Epoch(p)) <= memory.Epoch(p);
    }
  }

  /** run_seven_jit up to and including the call into the executor; `seen` is the code that ran and the
      data and stack it ran on. */
  method RunSevenJit(tc: TestCase, jit: JitExecutor, memory: Memory) returns (setupOk: bool, seen: Pages)
    requires Paired(jit, memory)
    modifies jit, memory
    ensures Paired(jit, memory)
    ensures setupOk == SetsUp(tc)
    ensures setupOk ==> seen == StartPages(tc)
  {
    seen := BLANK;
    ghost var before := memory.epochs;
    setupOk := WriteCase(tc, memory);
    StillNotFromFuture(jit.cache, before, memory.epochs);
    assert PageOf(CODE_BASE) == CODE_BASE;
    if !setupOk { return; }
    seen := Mapped(memory);
    var executed := jit.RunOne(memory);
    seen := seen.(code := executed);
  }

  /** A worker's whole life: however many cases, with the executor recycled every 2000 of them, each
      runs exactly its own bytes on its own data and stack. */
  method RunWorker(cases: seq<TestCase>, writesBump: bool) returns (seen: seq<Pages>)
    requires forall i :: 0 <= i < |cases| ==> SetsUp(cases[i])
    ensures seen == Starts(cases)
  {
    var jit := new JitExecutor();
    var memory := new Memory(writesBump);
    ghost var starts := Starts(cases);
    seen := [];
    for i := 0 to |cases|
      invariant Paired(jit, memory) && fresh(jit) && fresh(memory)
      invariant seen == starts[..i]
    {
      if i != 0 && i % 2000 == 0 { jit.Recycle(); }
      var _, pages := RunSevenJit(cases[i], jit, memory);
      assert pages == starts[i];
      seen := seen + [pages];
    }
  }

  /** The memory each case asks for. */
  function Starts(cases: seq<TestCase>): (starts: seq<Pages>)
    ensures |starts| == |cases|
  {
    seq(|cases|, i requires 0 <= i < |cases| => StartPages(cases[i]))
  }

  // ---------------------------------------------------------------- the pairing that is ruled out

  /** An executor that has compiled anything is not paired with a Memory of its own age. */
  lemma FreshMemoryUnpaired(jit: JitExecutor, memory: Memory)
    requires memory.epochs == map[] && CODE_BASE in jit.cache && jit.cache[CODE_BASE].epoch > 0
    ensures !Paired(jit, memory)
  {
    assert PageOf(CODE_BASE) == CODE_BASE;
    assert memory.Epoch(CODE_BASE) == 0;
  }

  /** The epoch every new Memory has reached once a case is written. */
  function FirstEpoch(writesBump: bool): nat {
    if writesBump then 3 else 2
  }

  /** One call with a Memory of its own. */
  method RunOnFreshMemory(tc: TestCase, jit: JitExecutor, writesBump: bool)
    returns (executed: Page, ghost paired: bool)
    requires SetsUp(tc) && tc.bytes != []
    modifies jit
    ensures CODE_BASE in old(jit.cache) && old(jit.cache)[CODE_BASE].epoch > 0 ==> !paired
    ensures executed == if Fresh(old(jit.cache), CODE_BASE, FirstEpoch(writesBump))
      then old(jit.cache)[CODE_BASE].code else StartPages(tc).code
    ensures CODE_BASE in old(jit.cache) ==> CODE_BASE in jit.cache
    ensures CODE_BASE in jit.cache ==>
      || (CODE_BASE in old(jit.cache) && jit.cache[CODE_BASE] == old(jit.cache)[CODE_BASE])
      || jit.cache[CODE_BASE] == Entry(FirstEpoch(writesBump), executed)
  {
    var memory := new Memory(writesBump);
    paired := Paired(jit, memory);
    if CODE_BASE in jit.cache && jit.cache[CODE_BASE].epoch > 0 { FreshMemoryUnpaired(jit, memory); }
    var _ := WriteCase(tc, memory);
    executed := jit.RunOne(memory);
  }

  /** The code each case asks for. */
  function Codes(cases: seq<TestCase>): (codes: seq<Page>)
    ensures |codes| == |cases|
  {
    seq(|cases|, i requires 0 <= i < |cases| => StartPages(cases[i]).code)
  }

  /** Up to the kept call its own code, from there on that call's. */
  predicate Replayed(codes: seq<Page>, executed: seq<Page>, kept: nat) {
    |executed| <= |codes| && forall i :: 0 <= i < |executed| ==> executed[i] == codes[if i < kept then i else kept]
  }

  /** A kept executor with a new Memory for every call: up to the first call whose block is kept each
      runs its own code, from then on every call runs that one's. It is right if and only if the calls
      from there on all have the same code. */
  method RunOnFreshMemories(cases: seq<TestCase>, writesBump: bool) returns (executed: seq<Page>, ghost kept: nat)
    requires forall i :: 0 <= i < |cases| ==> SetsUp(cases[i]) && cases[i].bytes != []
    ensures kept <= |cases| == |executed| && Replayed(Codes(cases), executed, kept)
    ensures executed == Codes(cases) <==>
            (forall i :: kept <= i < |cases| ==> Codes(cases)[i] == Codes(cases)[kept])
  {
    var jit := new JitExecutor();
    executed, kept := [], 0;
    ghost var codes := Codes(cases);
    for i := 0 to |cases|
      invariant fresh(jit) && |executed| == i
      invariant if CODE_BASE in jit.cache
        then kept < i && jit.cache[CODE_BASE] == Entry(FirstEpoch(writesBump), codes[kept])
        else kept == i
      invariant Replayed(codes, executed, kept)
    {
      var page;
      ghost var paired;
      page, paired := RunOnFreshMemory(cases[i], jit, writesBump);
      if CODE_BASE !in jit.cache { kept := i + 1; }
      executed := executed + [page];
    }
    ReplayRightIff(codes, executed, kept);
  }

  lemma ReplayRightIff(codes: seq<Page>, executed: seq<Page>, kept: nat)
    requires Replayed(codes, executed, kept) && |executed| == |codes|
    ensures executed == codes <==> forall i :: kept <= i < |codes| ==> codes[i] == codes[kept]
  {
    if executed == codes {
      forall i | kept <= i < |codes| ensures codes[i] == codes[kept] {
        assert executed[i] == codes[i];
      }
    }
  }
}
