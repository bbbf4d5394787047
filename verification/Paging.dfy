/** Demand paging of project 5: page tables, code pages and stack pages share one small set of page frames, code
    pages are replaced first in, first out. The steps are setup_page_table() for a new process and handle_tlb_c()
    for a faulting one. Words are 32-bit numbers; the bit operations on page table entries are written as
    arithmetic. `image` is the page of code on disk at the process's `loc`. */
module Paging {
  import opened Seqs

  const PAGE_SIZE := 4096
  const WORDS: nat := 1024
  const MEM_START := 0xa090_8000

  datatype Entry = Entry(vaddr: nat, pinned: bool, isUsed: bool, pid: nat)

  /** pageTable is the index of the frame that holds the page table, once it has been set up. */
  datatype Proc = Proc(entryPoint: nat, size: nat, image: seq<nat>, pageTable: Option<nat>)

  datatype Memory = Memory(pageMap: seq<Entry>, pageQueue: seq<nat>, frames: seq<seq<nat>>, procs: seq<Proc>)

  function Paddr(i: nat): nat { MEM_START + i * PAGE_SIZE }

  /** ((paddr&0xfffff000)>>6) | (flag&0x3f) */
  function Pte(paddr: nat, flag: nat): nat { paddr / PAGE_SIZE * 64 + flag % 64 }

  /** The V bit, and the page frame a page table entry names. */
  predicate IsValid(pte: nat) { pte / 2 % 2 == 1 }
  function Target(pte: nat): nat { pte / 64 * PAGE_SIZE }

  function Slot(vaddr: nat): nat { vaddr / PAGE_SIZE }

  predicate IsStack(vaddr: nat) { vaddr / 0x10_0000 == 3 }

  function Zeroes(): seq<nat> { seq(WORDS, _ => 0) }

  // ---------- the functions of memory.c ----------

  predicate Shaped(m: Memory) {
    && |m.frames| == |m.pageMap|
    && (forall f :: 0 <= f < |m.frames| ==> |m.frames[f]| == WORDS)
    && (forall i :: 0 <= i < |m.pageQueue| ==> m.pageQueue[i] < |m.pageMap|)
    && (forall p :: 0 <= p < |m.procs| ==> ProcOk(m.procs[p], |m.pageMap|))
  }

  predicate ProcOk(p: Proc, frames: nat) {
    && (p.pageTable.Some? ==> p.pageTable.value < frames)
    && |p.image| == WORDS && Slot(p.entryPoint) < WORDS && !IsStack(p.entryPoint)
  }

  predicate HasTable(m: Memory, pid: nat) {
    pid < |m.procs| && m.procs[pid].pageTable.Some?
  }

  /** insert_page_table_entry() into the table of process pid. */
  function Insert(m: Memory, pid: nat, vaddr: nat, paddr: nat, flag: nat): Memory {
    if HasTable(m, pid) && m.procs[pid].pageTable.value < |m.frames| then
      var t := m.procs[pid].pageTable.value;
      if Slot(vaddr) < |m.frames[t]| then
        var page: seq<nat> := m.frames[t][Slot(vaddr) := Pte(paddr, flag)];
        m.(frames := m.frames[t := page])
      else m
    else m
  }

  /** The first unused frame at or after i; |pageMap| when there is none. */
  function FirstUnused(pageMap: seq<Entry>, i: nat := 0): (r: nat)
    requires i <= |pageMap|
    ensures i <= r <= |pageMap|
    ensures forall j :: i <= j < r ==> pageMap[j].isUsed
    ensures r < |pageMap| ==> !pageMap[r].isUsed
    decreases |pageMap| - i
  {
    if i == |pageMap| || !pageMap[i].isUsed then i else FirstUnused(pageMap, i + 1)
  }

  predicate HasFree(m: Memory) { FirstUnused(m.pageMap) < |m.pageMap| }

  /** page_alloc() finds a frame; with none free and none replaceable it would dereference NULL. */
  predicate CanAlloc(m: Memory) { HasFree(m) || m.pageQueue != [] }

  /** The frame page_alloc() is going to return. */
  function Chosen(m: Memory): nat
    requires CanAlloc(m)
  {
    if HasFree(m) then FirstUnused(m.pageMap) else m.pageQueue[0]
  }

  /** The replacement half of page_alloc(): take the oldest unpinned frame and clear the entry that maps it. */
  function Evict(m: Memory): Memory
    requires Shaped(m) && m.pageQueue != []
  {
    var pid := m.pageMap[m.pageQueue[0]].pid;
    if pid < |m.procs| then Insert(m.(pageQueue := m.pageQueue[1..]), pid, m.procs[pid].entryPoint, 0, 0)
    else m.(pageQueue := m.pageQueue[1..])
  }

  /** Mark, queue and zero the frame. */
  function Take(m: Memory, f: nat, pinned: bool): Memory
    requires f < |m.pageMap| == |m.frames|
  {
    m.(pageMap := m.pageMap[f := m.pageMap[f].(isUsed := true, pinned := pinned)],
       pageQueue := if pinned then m.pageQueue else m.pageQueue + [f],
       frames := m.frames[f := Zeroes()])
  }

  function Alloc(m: Memory, pinned: bool): Memory
    requires Shaped(m) && CanAlloc(m)
  {
    Take(if HasFree(m) then m else Evict(m), Chosen(m), pinned)
  }

  function AllocOk(m: Memory, pinned: bool): (r: Memory)
    requires Shaped(m) && CanAlloc(m)
    ensures |r.pageMap| == |r.frames| == |m.pageMap| && r.procs == m.procs && Chosen(m) < |m.pageMap|
  {
    Alloc(m, pinned)
  }

  /** setup_page_table() after its page_alloc() returned frame g. */
  function Equip(m: Memory, g: nat, pid: nat): Memory
    requires pid < |m.procs|
  {
    var m' := m.(procs := m.procs[pid := m.procs[pid].(pageTable := Some(g))]);
    if m.procs[pid].size / PAGE_SIZE > 0 then Insert(m', pid, m.procs[pid].entryPoint, 0, 0x04) else m'
  }

  /** setup_page_table(), with the assignment to pcb.page_table that follows it. */
  function SetUp(m: Memory, pid: nat): Memory
    requires Shaped(m) && CanAlloc(m) && pid < |m.procs|
  {
    Equip(AllocOk(m, true), Chosen(m), pid)
  }

  /** refresh_page_map(): load the code page into frame f and map it. */
  function MapCode(m: Memory, f: nat, pid: nat): Memory
    requires f < |m.pageMap| == |m.frames| && pid < |m.procs|
  {
    var p := m.procs[pid];
    Insert(m.(pageMap := m.pageMap[f := m.pageMap[f].(pid := pid, vaddr := p.entryPoint)],
              frames := m.frames[f := p.image]),
           pid, p.entryPoint, Paddr(f), 0x02)
  }

  /** refresh_page_map_s(): map frame f as a stack page. */
  function MapStack(m: Memory, f: nat, vaddr: nat, pid: nat): Memory
    requires f < |m.pageMap|
  {
    Insert(m.(pageMap := m.pageMap[f := m.pageMap[f].(pid := pid, vaddr := vaddr)]), pid, vaddr, Paddr(f), 0x06)
  }

  // ---------- the machine ----------

  /** `beyond` is the word that handle_tlb_c() finds when badVaddr lies past the 4 MB that a page table covers, and
      with it the read past the table; it may be anything. */
  datatype Event = NewProcess(pid: nat) | Fault(pid: nat, badVaddr: nat, beyond: nat)

  /** The entry that translates vaddr for process pid. */
  function PteAt(m: Memory, pid: nat, slot: nat): nat
    requires Shaped(m) && HasTable(m, pid) && slot < WORDS
  {
    m.frames[m.procs[pid].pageTable.value][slot]
  }

  /** The entry that handle_tlb_c() looks at. */
  function PteRead(m: Memory, e: Event): nat
    requires Shaped(m) && e.Fault? && HasTable(m, e.pid)
  {
    if Slot(e.badVaddr) < WORDS then PteAt(m, e.pid, Slot(e.badVaddr)) else e.beyond
  }

  /** What a call needs so as not to go through a null pointer: a table is set up once, a faulting process has one,
      and page_alloc() can find a frame. */
  predicate Possible(m: Memory, e: Event)
    requires Shaped(m)
  {
    match e
    case NewProcess(pid) => pid < |m.procs| && m.procs[pid].pageTable.None? && CanAlloc(m)
    case Fault(pid, _, _) => HasTable(m, pid) && (IsValid(PteRead(m, e)) || CanAlloc(m))
  }

  /** A new process, or a fault on an invalid entry. */
  predicate Allocates(m: Memory, e: Event)
    requires Shaped(m) && Possible(m, e)
  {
    e.Fault? ==> !IsValid(PteRead(m, e))
  }

  /** The frame refresh_page_q() would move: the first one recorded at badVaddr & ~1; |pageMap| when there is none. */
  function FirstAt(pageMap: seq<Entry>, badVaddr: nat, i: nat := 0): (r: nat)
    requires i <= |pageMap|
    ensures i <= r <= |pageMap|
    ensures forall j :: i <= j < r ==> pageMap[j].vaddr != badVaddr / 2 * 2
    ensures r < |pageMap| ==> pageMap[r].vaddr == badVaddr / 2 * 2
    decreases |pageMap| - i
  {
    if i == |pageMap| || pageMap[i].vaddr == badVaddr / 2 * 2 then i else FirstAt(pageMap, badVaddr, i + 1)
  }

  /** refresh_page_q(), which enqueues without unlinking: None when the page queue is no ring afterwards, as
      Rings.RefreshPageQ finds for a frame that was on it. */
  function Refill(m: Memory, badVaddr: nat): Option<Memory> {
    var f := FirstAt(m.pageMap, badVaddr);
    if f == |m.pageMap| then Some(m)
    else if f in m.pageQueue then None
    else Some(m.(pageQueue := m.pageQueue + [f]))
  }

  /** The two halves of handle_tlb_c() for an invalid entry. Off the stack it is always the entry page that is
      loaded, whatever the address. */
  function LoadCode(m: Memory, pid: nat): Memory
    requires Shaped(m) && CanAlloc(m) && pid < |m.procs|
  {
    MapCode(AllocOk(m, false), Chosen(m), pid)
  }

  function LoadStack(m: Memory, pid: nat, badVaddr: nat): Memory
    requires Shaped(m) && CanAlloc(m) && pid < |m.procs|
  {
    MapStack(AllocOk(m, true), Chosen(m), badVaddr, pid)
  }

  /** The memory after e; None when there is no page queue any more. */
  function After(m: Memory, e: Event): Option<Memory>
    requires Shaped(m) && Possible(m, e)
  {
    match e
    case NewProcess(pid) => Some(SetUp(m, pid))
    case Fault(pid, badVaddr, _) =>
      if !Allocates(m, e) then Refill(m, badVaddr)
      else if IsStack(badVaddr) then Some(LoadStack(m, pid, badVaddr))
      else Some(LoadCode(m, pid))
  }

  /** All table setups, all faults on invalid entries, and the refills that find no frame at their address. These
      are exactly the possible events that keep the ownership of frames; see KeptExactlyWhenHarmless. */
  predicate Harmless(m: Memory, e: Event)
    requires Shaped(m) && Possible(m, e)
  {
    Allocates(m, e) || FirstAt(m.pageMap, e.badVaddr) == |m.pageMap|
  }

  predicate Enabled(m: Memory, e: Event)
    requires Shaped(m)
  {
    Possible(m, e) && Harmless(m, e)
  }

  /** The page of code of pid is not in memory, or is the one about to be replaced. */
  predicate Loadable(m: Memory, pid: nat)
    requires Shaped(m) && HasTable(m, pid) && CanAlloc(m)
  {
    var pte := PteAt(m, pid, Slot(m.procs[pid].entryPoint));
    IsValid(pte) ==> Target(pte) == Paddr(Chosen(m))
  }

  /** A page of code that is in memory is not loaded a second time. */
  predicate LoadsOnce(m: Memory, e: Event)
    requires Shaped(m) && Possible(m, e)
  {
    e.Fault? && Allocates(m, e) && !IsStack(e.badVaddr) ==> Loadable(m, e.pid)
  }

  function Step(m: Memory, e: Event): Memory
    requires Shaped(m) && Enabled(m, e)
  {
    After(m, e).value
  }

  function Init(frames: nat, procs: seq<Proc>): Memory {
    Memory(seq(frames, _ => Entry(0, false, false, 0)), [], seq(frames, _ => Zeroes()), procs)
  }

  ghost predicate IsRun(ms: seq<Memory>, es: seq<Event>, frames: nat, procs: seq<Proc>) {
    && |ms| == |es| + 1 && ms[0] == Init(frames, procs)
    && (forall p :: 0 <= p < |procs| ==> procs[p].pageTable == None && ProcOk(procs[p], frames))
    && forall i :: 0 <= i < |es| ==> Shaped(ms[i]) && Enabled(ms[i], es[i]) && ms[i + 1] == Step(ms[i], es[i])
  }

  // ---------- ownership ----------

  lemma PteRoundTrip(f: nat, flag: nat)
    requires flag < 64
    ensures Target(Pte(Paddr(f), flag)) == Paddr(f)
    ensures IsValid(Pte(Paddr(f), flag)) <==> flag / 2 % 2 == 1
  {
    var q := 0xa_0908 + f;
    assert Paddr(f) == q * PAGE_SIZE;
    ModIs(Paddr(f), PAGE_SIZE, q, 0);
    ModIs(flag, 64, 0, flag);
    ModIs(q * 64 + flag, 64, q, flag);
    ModIs(q * 64 + flag, 2, q * 32 + flag / 2, flag % 2);
    ModIs(q * 32 + flag / 2, 2, q * 16 + flag / 2 / 2, flag / 2 % 2);
  }

  predicate IsTable(m: Memory, f: nat) {
    exists p :: 0 <= p < |m.procs| && m.procs[p].pageTable == Some(f)
  }

  /** Process p's valid entry for slot v names frame f. */
  predicate Names(m: Memory, p: nat, v: nat, f: nat)
    requires Shaped(m)
  {
    HasTable(m, p) && v < WORDS && IsValid(PteAt(m, p, v)) && Target(PteAt(m, p, v)) == Paddr(f)
  }

  /** Frame f belongs to process p, at slot v; a page of code is not pinned. */
  predicate Owned(m: Memory, f: nat, p: nat, v: nat) {
    && f < |m.pageMap| && m.pageMap[f].isUsed && m.pageMap[f].pid == p && Slot(m.pageMap[f].vaddr) == v
    && !IsTable(m, f) && (IsCodeSlot(m, p, v) ==> !m.pageMap[f].pinned)
  }

  predicate IsCodeSlot(m: Memory, p: nat, v: nat) { p < |m.procs| && Slot(m.procs[p].entryPoint) == v }

  /** The stack region and the page of code have no slot in common. */
  lemma StackIsNotCode(m: Memory, p: nat, vaddr: nat)
    requires Shaped(m) && p < |m.procs| && IsStack(vaddr)
    ensures !IsCodeSlot(m, p, Slot(vaddr)) && Slot(vaddr) < WORDS
  {
    RegionOfSlot(vaddr);
    RegionOfSlot(m.procs[p].entryPoint);
  }

  lemma RegionOfSlot(vaddr: nat)
    ensures vaddr / 0x10_0000 == Slot(vaddr) / 256
  {
    var q, r := vaddr / PAGE_SIZE, vaddr % PAGE_SIZE;
    ModIs(vaddr, 0x10_0000, q / 256, q % 256 * PAGE_SIZE + r);
  }

  /** Page tables are pinned frames of their own, and every valid entry names a frame that records it as its owner. */
  ghost predicate Core(m: Memory) {
    && Shaped(m)
    && (forall p: nat :: HasTable(m, p) ==> m.pageMap[m.procs[p].pageTable.value].isUsed && m.pageMap[m.procs[p].pageTable.value].pinned)
    && (forall p: nat, q: nat :: HasTable(m, p) && HasTable(m, q) && m.procs[p].pageTable == m.procs[q].pageTable ==> p == q)
    && (forall p: nat, v: nat :: HasTable(m, p) && v < WORDS && IsValid(PteAt(m, p, v)) ==> exists f: nat :: Names(m, p, v, f))
    && (forall p: nat, v: nat, f: nat :: Names(m, p, v, f) ==> Owned(m, f, p, v))
    && InRange(m)
  }

  /** Whatever is recorded for a frame is an address that a page table covers. */
  predicate InRange(m: Memory) {
    forall f :: 0 <= f < |m.pageMap| ==> Slot(m.pageMap[f].vaddr) < WORDS
  }

  /** Frame f was loaded with the page of code of a process. */
  predicate IsCodeFrame(m: Memory, f: nat) {
    f < |m.pageMap| && HasTable(m, m.pageMap[f].pid) && IsCodeSlot(m, m.pageMap[f].pid, Slot(m.pageMap[f].vaddr))
  }

  /** The page queue is exactly the used unpinned frames, all of them pages of code; frame g aside. */
  ghost predicate QueueOk(m: Memory, g: Option<nat>)
    requires Shaped(m)
  {
    && NoDup(m.pageQueue)
    && (forall f: nat :: f < |m.pageMap| && g != Some(f) ==> (f in m.pageQueue <==> m.pageMap[f].isUsed && !m.pageMap[f].pinned))
    && (forall f :: f in m.pageQueue && g != Some(f) ==> IsCodeFrame(m, f))
  }

  /** The ownership of frames. */
  ghost predicate Inv(m: Memory) { Core(m) && QueueOk(m, None) }

  /** Nobody uses frame g. */
  ghost predicate Unnamed(m: Memory, g: nat)
    requires Shaped(m)
  {
    g < |m.pageMap| && !IsTable(m, g) && forall p: nat, v: nat :: !Names(m, p, v, g)
  }

  ghost predicate Freed(m: Memory, g: nat) {
    Core(m) && Unnamed(m, g) && QueueOk(m, Some(g)) && g !in m.pageQueue
  }

  /** Frame g has been allocated and not yet mapped. */
  ghost predicate Allocated(m: Memory, g: nat, pinned: bool) {
    && Core(m) && Unnamed(m, g) && QueueOk(m, Some(g))
    && m.pageMap[g].isUsed && m.pageMap[g].pinned == pinned && (g in m.pageQueue <==> !pinned)
  }

  /** An insertion changes one entry of one table. */
  lemma InsertChangesOne(m: Memory, pid: nat, vaddr: nat, paddr: nat, flag: nat)
    requires Core(m) && HasTable(m, pid) && Slot(vaddr) < WORDS
    ensures var m' := Insert(m, pid, vaddr, paddr, flag);
      && Shaped(m') && m' == m.(frames := m'.frames)
      && (forall p: nat, v: nat :: HasTable(m, p) && v < WORDS ==>
            PteAt(m', p, v) == if p == pid && v == Slot(vaddr) then Pte(paddr, flag) else PteAt(m, p, v))
      && (forall f: nat :: f < |m.frames| && f != m.procs[pid].pageTable.value ==> m'.frames[f] == m.frames[f])
  {
  }

  /** Clearing (or writing an invalid) entry takes away one name and nothing else. */
  lemma InsertInvalid(m: Memory, pid: nat, vaddr: nat, flag: nat)
    requires Core(m) && HasTable(m, pid) && Slot(vaddr) < WORDS && flag < 64 && flag / 2 % 2 == 0
    ensures var m' := Insert(m, pid, vaddr, 0, flag);
      && Core(m')
      && forall p: nat, v: nat, f: nat :: Names(m', p, v, f) <==> Names(m, p, v, f) && !(p == pid && v == Slot(vaddr))
  {
    InsertChangesOne(m, pid, vaddr, 0, flag);
    var m' := Insert(m, pid, vaddr, 0, flag);
    assert !IsValid(Pte(0, flag));
    forall p: nat, v: nat | HasTable(m', p) && v < WORDS && IsValid(PteAt(m', p, v)) ensures exists f: nat :: Names(m', p, v, f) {
      var f: nat :| Names(m, p, v, f);
      assert Names(m', p, v, f);
    }
    assert forall f: nat :: IsTable(m', f) <==> IsTable(m, f);
  }

  lemma InsertValidNames(m: Memory, pid: nat, vaddr: nat, g: nat, flag: nat)
    requires Core(m) && HasTable(m, pid) && Slot(vaddr) < WORDS && flag < 64 && flag / 2 % 2 == 1
    ensures var m' := Insert(m, pid, vaddr, Paddr(g), flag);
      && Shaped(m')
      && forall p: nat, v: nat, f: nat :: Names(m', p, v, f) <==> if p == pid && v == Slot(vaddr) then f == g else Names(m, p, v, f)
  {
    InsertChangesOne(m, pid, vaddr, Paddr(g), flag);
    PteRoundTrip(g, flag);
  }

  /** An unnamed frame is given its one name, in place of what the entry named before. */
  lemma InsertValid(m: Memory, pid: nat, vaddr: nat, g: nat, flag: nat)
    requires Core(m) && HasTable(m, pid) && Slot(vaddr) < WORDS && flag < 64 && flag / 2 % 2 == 1
    requires Unnamed(m, g) && Owned(m, g, pid, Slot(vaddr))
    ensures var m' := Insert(m, pid, vaddr, Paddr(g), flag);
      && Core(m')
      && forall p: nat, v: nat, f: nat :: Names(m', p, v, f) <==> if p == pid && v == Slot(vaddr) then f == g else Names(m, p, v, f)
  {
    InsertChangesOne(m, pid, vaddr, Paddr(g), flag);
    InsertValidNames(m, pid, vaddr, g, flag);
    var m' := Insert(m, pid, vaddr, Paddr(g), flag);
    forall p: nat, v: nat | HasTable(m', p) && v < WORDS && IsValid(PteAt(m', p, v)) ensures exists f: nat :: Names(m', p, v, f) {
      if p == pid && v == Slot(vaddr) {
        assert Names(m', p, v, g);
      } else {
        var f: nat :| Names(m, p, v, f);
        assert Names(m', p, v, f);
      }
    }
    assert forall f: nat :: IsTable(m', f) <==> IsTable(m, f);
    forall p: nat, v: nat, f: nat | Names(m', p, v, f) ensures Owned(m', f, p, v) {
      assert (p == pid && v == Slot(vaddr)) || Owned(m, f, p, v);
    }
  }

  /** The same tables, and the same records for every frame that is a table or has a name. */
  ghost predicate SameTables(m: Memory, m': Memory)
    requires Shaped(m)
  {
    && Shaped(m') && InRange(m') && m'.procs == m.procs && |m'.pageMap| == |m.pageMap|
    && (forall p: nat, v: nat :: HasTable(m, p) && v < WORDS ==> PteAt(m', p, v) == PteAt(m, p, v))
    && (forall p: nat, v: nat, f: nat :: Names(m, p, v, f) && f < |m.pageMap| ==> m'.pageMap[f] == m.pageMap[f])
    && (forall p: nat :: HasTable(m, p) ==> m'.pageMap[m.procs[p].pageTable.value] == m.pageMap[m.procs[p].pageTable.value])
  }

  lemma SameTablesSameNames(m: Memory, m': Memory)
    requires Core(m) && SameTables(m, m')
    ensures Core(m')
    ensures forall p: nat, v: nat, f: nat :: Names(m', p, v, f) <==> Names(m, p, v, f)
    ensures forall f: nat :: IsTable(m', f) <==> IsTable(m, f)
  {
    assert forall f: nat :: IsTable(m', f) <==> IsTable(m, f);
    assert forall p: nat, v: nat, f: nat :: Names(m', p, v, f) <==> Names(m, p, v, f);
    forall p: nat, v: nat, f: nat | Names(m', p, v, f) ensures Owned(m', f, p, v) { assert Owned(m, f, p, v); }
    forall p: nat, v: nat | HasTable(m', p) && v < WORDS && IsValid(PteAt(m', p, v)) ensures exists f: nat :: Names(m', p, v, f) {
      var f: nat :| Names(m, p, v, f);
      assert Names(m', p, v, f);
    }
  }

  /** The entry that page_alloc() clears when it has to replace a page: the one for the code of the process that the
      victim is recorded for. */
  predicate IsCleared(m: Memory, p: nat, v: nat) {
    m.pageQueue != [] && m.pageQueue[0] < |m.pageMap| && p == m.pageMap[m.pageQueue[0]].pid && IsCodeSlot(m, p, v)
  }

  lemma EvictUnmaps(m: Memory)
    requires Inv(m) && m.pageQueue != []
    ensures var m' := Evict(m);
      Core(m') && m' == m.(frames := m'.frames, pageQueue := m.pageQueue[1..])
    ensures forall p: nat, v: nat, f: nat :: Names(Evict(m), p, v, f) <==> Names(m, p, v, f) && !IsCleared(m, p, v)
  {
    var g := m.pageQueue[0];
    assert g in m.pageQueue && IsCodeFrame(m, g);
    var pid := m.pageMap[g].pid;
    var m1 := m.(pageQueue := m.pageQueue[1..]);
    SameTablesSameNames(m, m1);
    InsertInvalid(m1, pid, m.procs[pid].entryPoint, 0);
    InsertChangesOne(m1, pid, m.procs[pid].entryPoint, 0, 0);
  }

  /** After an eviction nobody uses the oldest frame in the queue: the cleared entry is the only one that can have
      named it. */
  lemma EvictFrees(m: Memory)
    requires Inv(m) && m.pageQueue != []
    ensures Freed(Evict(m), m.pageQueue[0])
    ensures forall p: nat, v: nat, f: nat :: Names(Evict(m), p, v, f) <==> Names(m, p, v, f) && !IsCleared(m, p, v)
  {
    EvictUnmaps(m);
    Dropped(m.pageQueue);
    var g, m' := m.pageQueue[0], Evict(m);
    assert g in m.pageQueue && IsCodeFrame(m, g);
    forall p: nat, v: nat ensures !Names(m', p, v, g) { assert Names(m, p, v, g) ==> Owned(m, g, p, v); }
    forall f | f in m'.pageQueue ensures IsCodeFrame(m', f) { assert f in m.pageQueue && IsCodeFrame(m, f); }
    assert !IsTable(m, g);
  }

  lemma FreeIsFreed(m: Memory)
    requires Inv(m) && HasFree(m)
    ensures Freed(m, FirstUnused(m.pageMap))
  {
    var g := FirstUnused(m.pageMap);
    assert forall p: nat, v: nat :: Names(m, p, v, g) ==> Owned(m, g, p, v);
  }

  /** Marking, queueing and zeroing a freed frame disturbs no table and no other frame. */
  lemma TakeAllocates(m: Memory, g: nat, pinned: bool)
    requires Freed(m, g)
    ensures Allocated(Take(m, g, pinned), g, pinned)
    ensures forall p: nat, v: nat, f: nat :: Names(Take(m, g, pinned), p, v, f) <==> Names(m, p, v, f)
  {
    var m' := Take(m, g, pinned);
    if !pinned { Appended(m.pageQueue, g); }
    SameTablesSameNames(m, m');
    forall f | f in m'.pageQueue && f != g ensures IsCodeFrame(m', f) { assert f in m.pageQueue && IsCodeFrame(m, f); }
  }

  /** The entry that this call of page_alloc() clears, if any. */
  predicate IsVictims(m: Memory, p: nat, v: nat) { !HasFree(m) && IsCleared(m, p, v) }

  /** page_alloc() returns a frame nobody uses; the only entry it changes is the one it clears. */
  lemma AllocAllocates(m: Memory, pinned: bool)
    requires Inv(m) && CanAlloc(m)
    ensures Allocated(Alloc(m, pinned), Chosen(m), pinned)
    ensures forall p: nat, v: nat, f: nat :: Names(Alloc(m, pinned), p, v, f) <==> Names(m, p, v, f) && !IsVictims(m, p, v)
  {
    var g := Chosen(m);
    if HasFree(m) {
      FreeIsFreed(m);
      TakeAllocates(m, g, pinned);
    } else {
      EvictFrees(m);
      TakeAllocates(Evict(m), g, pinned);
    }
  }

  lemma SetOwner(m: Memory, g: nat, pinned: bool, pid: nat, vaddr: nat, page: seq<nat>)
    requires Allocated(m, g, pinned) && |page| == WORDS && Slot(vaddr) < WORDS
    requires pinned ==> !IsCodeSlot(m, pid, Slot(vaddr))
    ensures var m' := m.(pageMap := m.pageMap[g := m.pageMap[g].(pid := pid, vaddr := vaddr)], frames := m.frames[g := page]);
      && Allocated(m', g, pinned) && Owned(m', g, pid, Slot(vaddr))
      && forall p: nat, v: nat, f: nat :: Names(m', p, v, f) <==> Names(m, p, v, f)
  {
    var m' := m.(pageMap := m.pageMap[g := m.pageMap[g].(pid := pid, vaddr := vaddr)], frames := m.frames[g := page]);
    SameTablesSameNames(m, m');
    forall f | f in m'.pageQueue && f != g ensures IsCodeFrame(m', f) { assert f in m.pageQueue && IsCodeFrame(m, f); }
  }

  /** Mapping an allocated frame makes it a used frame like any other. */
  lemma MapAllocated(m: Memory, g: nat, pinned: bool, pid: nat, vaddr: nat, flag: nat)
    requires Allocated(m, g, pinned) && HasTable(m, pid) && Slot(vaddr) < WORDS && flag < 64 && flag / 2 % 2 == 1
    requires Owned(m, g, pid, Slot(vaddr)) && (!pinned ==> IsCodeSlot(m, pid, Slot(vaddr)))
    ensures var m' := Insert(m, pid, vaddr, Paddr(g), flag);
      && Inv(m')
      && forall p: nat, v: nat, f: nat :: Names(m', p, v, f) <==> if p == pid && v == Slot(vaddr) then f == g else Names(m, p, v, f)
  {
    InsertChangesOne(m, pid, vaddr, Paddr(g), flag);
    InsertValid(m, pid, vaddr, g, flag);
    var m' := Insert(m, pid, vaddr, Paddr(g), flag);
    forall f | f in m'.pageQueue ensures IsCodeFrame(m', f) { assert f in m.pageQueue && (f != g ==> IsCodeFrame(m, f)); }
  }

  /** Who names what after a fault that maps the chosen frame at this slot of process pid. */
  predicate NamesAfterFault(m: Memory, m': Memory, pid: nat, slot: nat, p: nat, v: nat, f: nat)
    requires Shaped(m) && Shaped(m') && CanAlloc(m)
  {
    Names(m', p, v, f) <==> if p == pid && v == slot then f == Chosen(m) else Names(m, p, v, f) && !IsVictims(m, p, v)
  }

  /** page_alloc() followed by the bookkeeping of refresh_page_map() or refresh_page_map_s(). */
  function AllocFor(m: Memory, pinned: bool, pid: nat, vaddr: nat, page: seq<nat>): Memory
    requires Shaped(m) && CanAlloc(m)
  {
    var m1, g := AllocOk(m, pinned), Chosen(m);
    m1.(pageMap := m1.pageMap[g := m1.pageMap[g].(pid := pid, vaddr := vaddr)], frames := m1.frames[g := page])
  }

  lemma AllocForOwns(m: Memory, pinned: bool, pid: nat, vaddr: nat, page: seq<nat>)
    requires Inv(m) && CanAlloc(m) && |page| == WORDS && Slot(vaddr) < WORDS
    requires pinned ==> !IsCodeSlot(m, pid, Slot(vaddr))
    ensures var m' := AllocFor(m, pinned, pid, vaddr, page);
      && Allocated(m', Chosen(m), pinned) && Owned(m', Chosen(m), pid, Slot(vaddr)) && m'.procs == m.procs
      && forall p: nat, v: nat, f: nat :: Names(m', p, v, f) <==> Names(m, p, v, f) && !IsVictims(m, p, v)
  {
    AllocAllocates(m, pinned);
    SetOwner(AllocOk(m, pinned), Chosen(m), pinned, pid, vaddr, page);
  }

  lemma AllocThenMap(m: Memory, pinned: bool, pid: nat, vaddr: nat, page: seq<nat>, flag: nat)
    requires Inv(m) && CanAlloc(m) && |page| == WORDS && HasTable(m, pid) && Slot(vaddr) < WORDS
    requires flag < 64 && flag / 2 % 2 == 1 && (pinned <==> !IsCodeSlot(m, pid, Slot(vaddr)))
    ensures var m' := Insert(AllocFor(m, pinned, pid, vaddr, page), pid, vaddr, Paddr(Chosen(m)), flag);
      Inv(m') && forall p: nat, v: nat, f: nat :: NamesAfterFault(m, m', pid, Slot(vaddr), p, v, f)
  {
    AllocForOwns(m, pinned, pid, vaddr, page);
    MapAllocated(AllocFor(m, pinned, pid, vaddr, page), Chosen(m), pinned, pid, vaddr, flag);
  }

  lemma StackFaultKeeps(m: Memory, pid: nat, badVaddr: nat)
    requires Inv(m) && HasTable(m, pid) && CanAlloc(m) && IsStack(badVaddr)
    ensures var m' := LoadStack(m, pid, badVaddr);
      Inv(m') && forall p: nat, v: nat, f: nat :: NamesAfterFault(m, m', pid, Slot(badVaddr), p, v, f)
  {
    var m1 := AllocOk(m, true);
    AllocAllocates(m, true);
    assert m1.frames[Chosen(m) := m1.frames[Chosen(m)]] == m1.frames;
    StackIsNotCode(m, pid, badVaddr);
    AllocThenMap(m, true, pid, badVaddr, m1.frames[Chosen(m)], 0x06);
  }

  lemma CodeFaultKeeps(m: Memory, pid: nat)
    requires Inv(m) && HasTable(m, pid) && CanAlloc(m)
    ensures var m' := LoadCode(m, pid);
      Inv(m') && forall p: nat, v: nat, f: nat :: NamesAfterFault(m, m', pid, Slot(m.procs[pid].entryPoint), p, v, f)
  {
    AllocThenMap(m, false, pid, m.procs[pid].entryPoint, m.procs[pid].image, 0x02);
  }

  /** The slot at which handle_tlb_c() maps a page. */
  function MappedSlot(m: Memory, pid: nat, badVaddr: nat): nat
    requires Shaped(m) && HasTable(m, pid)
  {
    if IsStack(badVaddr) then Slot(badVaddr) else Slot(m.procs[pid].entryPoint)
  }

  /** A page fault maps one frame that nobody else has, in place of what that entry named, and unmaps at most what
      page_alloc() clears. */
  lemma FaultKeeps(m: Memory, e: Event)
    requires Inv(m) && e.Fault? && Possible(m, e) && Allocates(m, e)
    ensures var m' := Step(m, e);
      Inv(m') && forall p: nat, v: nat, f: nat :: NamesAfterFault(m, m', e.pid, MappedSlot(m, e.pid, e.badVaddr), p, v, f)
  {
    if IsStack(e.badVaddr) { StackFaultKeeps(m, e.pid, e.badVaddr); } else { CodeFaultKeeps(m, e.pid); }
  }

  /** A refill keeps the ownership of frames if and only if no frame is recorded at that address. */
  lemma RefillKeepsExactly(m: Memory, badVaddr: nat)
    requires Inv(m)
    ensures var r := Refill(m, badVaddr);
      r.Some? && Inv(r.value) <==> forall f :: 0 <= f < |m.pageMap| ==> m.pageMap[f].vaddr != badVaddr / 2 * 2
  {
    var f := FirstAt(m.pageMap, badVaddr);
    if f < |m.pageMap| && f !in m.pageQueue { assert f in Refill(m, badVaddr).value.pageQueue; }
  }

  /** None is, past the addresses that a page table covers. */
  lemma FarRefillMovesNothing(m: Memory, badVaddr: nat)
    requires Inv(m) && WORDS <= Slot(badVaddr)
    ensures Refill(m, badVaddr) == Some(m)
  {
    var q, r := badVaddr / PAGE_SIZE, badVaddr % PAGE_SIZE;
    ModIs(badVaddr / 2 * 2, PAGE_SIZE, q, r / 2 * 2);
  }

  /** What it does to a named frame that was not queued, a pinned one: it makes it replaceable. */
  lemma RefillQueuesPinned(m: Memory, badVaddr: nat, p: nat, v: nat)
    requires Inv(m) && Refill(m, badVaddr).Some?
    requires FirstAt(m.pageMap, badVaddr) < |m.pageMap| && Names(m, p, v, FirstAt(m.pageMap, badVaddr))
    ensures var f, m' := FirstAt(m.pageMap, badVaddr), Refill(m, badVaddr).value;
      && m'.pageMap[f].pinned && m'.pageQueue == m.pageQueue + [f]
      && Core(m') && Names(m', p, v, f) && !IsCodeSlot(m', p, v)
  {
    var f, m' := FirstAt(m.pageMap, badVaddr), Refill(m, badVaddr).value;
    assert Owned(m, f, p, v);
    SameTablesSameNames(m, m');
  }

  /** And when its turn comes it is handed out while its old owner's entry still names it. */
  lemma PinnedVictimStaysNamed(m: Memory, p: nat, v: nat, pinned: bool)
    requires Core(m) && !HasFree(m) && m.pageQueue != [] && Names(m, p, v, m.pageQueue[0]) && !IsCodeSlot(m, p, v)
    ensures Chosen(m) == m.pageQueue[0] && Shaped(Alloc(m, pinned)) && Names(Alloc(m, pinned), p, v, Chosen(m))
  {
    var f := m.pageQueue[0];
    assert Owned(m, f, p, v);
    var m1 := m.(pageQueue := m.pageQueue[1..]);
    SameTablesSameNames(m, m1);
    InsertChangesOne(m1, p, m.procs[p].entryPoint, 0, 0);
    assert Evict(m) == Insert(m1, p, m.procs[p].entryPoint, 0, 0);
    assert Names(Evict(m), p, v, f) && IsTable(m, m.procs[p].pageTable.value);
  }

  lemma InsertInvalidKeeps(m: Memory, pid: nat, vaddr: nat, flag: nat)
    requires Inv(m) && HasTable(m, pid) && Slot(vaddr) < WORDS && flag < 64 && flag / 2 % 2 == 0
    requires forall f: nat :: !Names(m, pid, Slot(vaddr), f)
    ensures Inv(Insert(m, pid, vaddr, 0, flag))
    ensures forall p: nat, v: nat, f: nat :: Names(Insert(m, pid, vaddr, 0, flag), p, v, f) <==> Names(m, p, v, f)
  {
    InsertInvalid(m, pid, vaddr, flag);
    InsertChangesOne(m, pid, vaddr, 0, flag);
    var m' := Insert(m, pid, vaddr, 0, flag);
    forall f | f in m'.pageQueue ensures IsCodeFrame(m', f) { assert f in m.pageQueue && IsCodeFrame(m, f); }
  }

  lemma EquipKeeps(m: Memory, g: nat, pid: nat)
    requires Allocated(m, g, true) && m.frames[g] == Zeroes() && pid < |m.procs| && m.procs[pid].pageTable.None?
    ensures Inv(Equip(m, g, pid))
    ensures forall p: nat, v: nat, f: nat :: Names(Equip(m, g, pid), p, v, f) <==> Names(m, p, v, f)
  {
    TableAdded(m, g, pid);
    if m.procs[pid].size / PAGE_SIZE > 0 {
      InsertInvalidKeeps(m.(procs := m.procs[pid := m.procs[pid].(pageTable := Some(g))]), pid, m.procs[pid].entryPoint, 0x04);
    }
  }

  /** A new process gets a page table in a frame of its own. */
  lemma SetUpKeeps(m: Memory, pid: nat)
    requires Inv(m) && Enabled(m, NewProcess(pid))
    ensures Inv(SetUp(m, pid))
    ensures forall p: nat, v: nat, f: nat :: Names(SetUp(m, pid), p, v, f) <==> Names(m, p, v, f) && !IsVictims(m, p, v)
  {
    AllocAllocates(m, true);
    EquipKeeps(AllocOk(m, true), Chosen(m), pid);
  }

  lemma NewTableNames(m: Memory, g: nat, pid: nat)
    requires Allocated(m, g, true) && m.frames[g] == Zeroes() && pid < |m.procs| && m.procs[pid].pageTable.None?
    ensures var m' := m.(procs := m.procs[pid := m.procs[pid].(pageTable := Some(g))]);
      && Shaped(m') && (forall p: nat :: HasTable(m', p) <==> HasTable(m, p) || p == pid)
      && (forall p: nat, v: nat, f: nat :: Names(m', p, v, f) <==> Names(m, p, v, f))
      && (forall f: nat :: IsTable(m', f) <==> IsTable(m, f) || f == g)
  {
    var m' := m.(procs := m.procs[pid := m.procs[pid].(pageTable := Some(g))]);
    assert m'.procs[pid].pageTable == Some(g);
    assert forall v: nat, f: nat :: !Names(m', pid, v, f);
    forall f: nat ensures IsTable(m', f) <==> IsTable(m, f) || f == g {
      if IsTable(m, f) { var p :| 0 <= p < |m.procs| && m.procs[p].pageTable == Some(f); assert m'.procs[p].pageTable == Some(f); }
    }
  }

  lemma TableAdded(m: Memory, g: nat, pid: nat)
    requires Allocated(m, g, true) && m.frames[g] == Zeroes() && pid < |m.procs| && m.procs[pid].pageTable.None?
    ensures var m' := m.(procs := m.procs[pid := m.procs[pid].(pageTable := Some(g))]);
      && Inv(m') && (forall p: nat, v: nat, f: nat :: Names(m', p, v, f) <==> Names(m, p, v, f))
      && (forall v: nat, f: nat :: !Names(m', pid, v, f))
  {
    var m' := m.(procs := m.procs[pid := m.procs[pid].(pageTable := Some(g))]);
    NewTableNames(m, g, pid);
    assert forall v: nat, f: nat :: !Names(m', pid, v, f);
    forall p: nat, q: nat | HasTable(m', p) && HasTable(m', q) && m'.procs[p].pageTable == m'.procs[q].pageTable ensures p == q {
      assert !IsTable(m, g);
    }
    forall p: nat, v: nat | HasTable(m', p) && v < WORDS && IsValid(PteAt(m', p, v)) ensures exists f: nat :: Names(m', p, v, f) {
      var f: nat :| Names(m, p, v, f);
      assert Names(m', p, v, f);
    }
    forall f | f in m'.pageQueue ensures IsCodeFrame(m', f) { assert f in m.pageQueue && IsCodeFrame(m, f); }
  }

  lemma StepKeeps(m: Memory, e: Event)
    requires Inv(m) && Enabled(m, e)
    ensures Inv(Step(m, e))
  {
    if e.NewProcess? { SetUpKeeps(m, e.pid); } else if Allocates(m, e) { FaultKeeps(m, e); }
  }

  /** No other events keep it: a possible event keeps the ownership of frames if and only if it is harmless. */
  lemma KeptExactlyWhenHarmless(m: Memory, e: Event)
    requires Inv(m) && Possible(m, e)
    ensures After(m, e).Some? && Inv(After(m, e).value) <==> Harmless(m, e)
  {
    if Harmless(m, e) { StepKeeps(m, e); } else { RefillKeepsExactly(m, e.badVaddr); }
  }

  lemma InitIsOk(frames: nat, procs: seq<Proc>)
    requires forall p :: 0 <= p < |procs| ==> procs[p].pageTable == None && ProcOk(procs[p], frames)
    ensures Inv(Init(frames, procs))
  {
  }

  lemma {:induction false} EveryRunKeeps(ms: seq<Memory>, es: seq<Event>, frames: nat, procs: seq<Proc>, i: nat)
    requires IsRun(ms, es, frames, procs) && i < |ms|
    ensures Inv(ms[i])
  {
    if i == 0 {
      InitIsOk(frames, procs);
    } else {
      EveryRunKeeps(ms, es, frames, procs, i - 1);
      StepKeeps(ms[i - 1], es[i - 1]);
    }
  }

  // ---------- what that means for every run ----------

  /** In every reachable state no two valid entries, of one process or of two, name the same frame, and none names
      a page table. */
  lemma NoFrameIsShared(ms: seq<Memory>, es: seq<Event>, frames: nat, procs: seq<Proc>, i: nat,
                        p: nat, v: nat, q: nat, w: nat, f: nat)
    requires IsRun(ms, es, frames, procs) && i < |ms| && Shaped(ms[i])
    requires Names(ms[i], p, v, f) && Names(ms[i], q, w, f)
    ensures p == q && v == w && !IsTable(ms[i], f)
  {
    EveryRunKeeps(ms, es, frames, procs, i);
    assert Owned(ms[i], f, p, v) && Owned(ms[i], f, q, w);
  }

  /** page_alloc() never takes a pinned frame or a page table; what it takes is unused or, when all are used, the
      oldest unpinned frame, and nobody names it afterwards. */
  lemma VictimIsOldestUnpinned(ms: seq<Memory>, es: seq<Event>, frames: nat, procs: seq<Proc>, i: nat, pinned: bool)
    requires IsRun(ms, es, frames, procs) && i < |ms| && Shaped(ms[i]) && CanAlloc(ms[i])
    ensures var m := ms[i]; var g := Chosen(m);
      && g < |m.pageMap| && !IsTable(m, g)
      && (m.pageMap[g].isUsed ==> !m.pageMap[g].pinned && m.pageQueue != [] && g == m.pageQueue[0])
      && (m.pageMap[g].isUsed ==> forall f: nat :: f < |m.pageMap| ==> m.pageMap[f].isUsed)
      && Unnamed(Alloc(m, pinned), g)
  {
    EveryRunKeeps(ms, es, frames, procs, i);
    var m := ms[i];
    AllocAllocates(m, pinned);
    if HasFree(m) { FreeIsFreed(m); } else { EvictFrees(m); assert m.pageQueue[0] in m.pageQueue; }
  }

  lemma EvictTables(m: Memory, p: nat, v: nat)
    requires Inv(m) && m.pageQueue != [] && HasTable(m, p) && v < WORDS && !IsCleared(m, p, v)
    ensures Shaped(Evict(m)) && Evict(m).procs == m.procs && PteAt(Evict(m), p, v) == PteAt(m, p, v)
  {
    var g, m1 := m.pageQueue[0], m.(pageQueue := m.pageQueue[1..]);
    SameTablesSameNames(m, m1);
    assert g in m.pageQueue && IsCodeFrame(m, g);
    InsertChangesOne(m1, m.pageMap[g].pid, m.procs[m.pageMap[g].pid].entryPoint, 0, 0);
  }

  lemma TakeTables(m: Memory, g: nat, pinned: bool, p: nat, v: nat)
    requires Shaped(m) && g < |m.pageMap| && !IsTable(m, g) && HasTable(m, p) && v < WORDS && Shaped(Take(m, g, pinned))
    ensures PteAt(Take(m, g, pinned), p, v) == PteAt(m, p, v)
  {
    assert IsTable(m, m.procs[p].pageTable.value);
  }

  lemma AllocTables(m: Memory, pinned: bool, p: nat, v: nat)
    requires Inv(m) && CanAlloc(m) && HasTable(m, p) && v < WORDS && !IsVictims(m, p, v)
    ensures Shaped(AllocOk(m, pinned)) && PteAt(AllocOk(m, pinned), p, v) == PteAt(m, p, v)
  {
    AllocAllocates(m, pinned);
    if HasFree(m) {
      FreeIsFreed(m);
      TakeTables(m, Chosen(m), pinned, p, v);
    } else {
      EvictFrees(m);
      EvictTables(m, p, v);
      TakeTables(Evict(m), Chosen(m), pinned, p, v);
    }
  }

  /** The entries that e writes: the one page_alloc() clears, and the one it maps a page at. */
  predicate IsWritten(m: Memory, e: Event, p: nat, v: nat)
    requires Shaped(m) && Possible(m, e)
  {
    Allocates(m, e) && (IsVictims(m, p, v) || (e.Fault? && p == e.pid && v == MappedSlot(m, e.pid, e.badVaddr)))
  }

  /** No step zeroes or overwrites a page table: every other entry keeps its word. */
  lemma TablesSurvive(ms: seq<Memory>, es: seq<Event>, frames: nat, procs: seq<Proc>, i: nat, p: nat, v: nat)
    requires IsRun(ms, es, frames, procs) && i < |es| && Shaped(ms[i]) && HasTable(ms[i], p) && v < WORDS
    requires !IsWritten(ms[i], es[i], p, v)
    ensures Shaped(ms[i + 1]) && HasTable(ms[i + 1], p) && PteAt(ms[i + 1], p, v) == PteAt(ms[i], p, v)
  {
    EveryRunKeeps(ms, es, frames, procs, i);
    EveryRunKeeps(ms, es, frames, procs, i + 1);
    StepTables(ms[i], es[i], p, v);
  }

  lemma StepTables(m: Memory, e: Event, p: nat, v: nat)
    requires Inv(m) && Enabled(m, e) && HasTable(m, p) && v < WORDS && Inv(Step(m, e)) && !IsWritten(m, e, p, v)
    ensures HasTable(Step(m, e), p) && PteAt(Step(m, e), p, v) == PteAt(m, p, v)
  {
    if e.NewProcess? { NewProcessTables(m, e.pid, p, v); } else if Allocates(m, e) { FaultTables(m, e, p, v); }
  }

  lemma MapTables(m: Memory, pinned: bool, pid: nat, vaddr: nat, page: seq<nat>, flag: nat, p: nat, v: nat)
    requires Inv(m) && CanAlloc(m) && |page| == WORDS && HasTable(m, pid) && Slot(vaddr) < WORDS
    requires pinned ==> !IsCodeSlot(m, pid, Slot(vaddr))
    requires HasTable(m, p) && v < WORDS && !IsVictims(m, p, v) && !(p == pid && v == Slot(vaddr))
    ensures var m' := Insert(AllocFor(m, pinned, pid, vaddr, page), pid, vaddr, Paddr(Chosen(m)), flag);
      Shaped(m') && HasTable(m', p) && PteAt(m', p, v) == PteAt(m, p, v)
  {
    AllocTables(m, pinned, p, v);
    AllocAllocates(m, pinned);
    var m1 := AllocOk(m, pinned);
    assert IsTable(m1, m1.procs[p].pageTable.value);
    AllocForOwns(m, pinned, pid, vaddr, page);
    InsertChangesOne(AllocFor(m, pinned, pid, vaddr, page), pid, vaddr, Paddr(Chosen(m)), flag);
  }

  lemma FaultTables(m: Memory, e: Event, p: nat, v: nat)
    requires Inv(m) && e.Fault? && Possible(m, e) && Allocates(m, e) && Shaped(Step(m, e))
    requires HasTable(m, p) && v < WORDS && !IsWritten(m, e, p, v)
    ensures HasTable(Step(m, e), p) && PteAt(Step(m, e), p, v) == PteAt(m, p, v)
  {
    if IsStack(e.badVaddr) {
      var m1 := AllocOk(m, true);
      AllocAllocates(m, true);
      assert m1.frames[Chosen(m) := m1.frames[Chosen(m)]] == m1.frames;
      StackIsNotCode(m, e.pid, e.badVaddr);
      MapTables(m, true, e.pid, e.badVaddr, m1.frames[Chosen(m)], 0x06, p, v);
    } else {
      MapTables(m, false, e.pid, m.procs[e.pid].entryPoint, m.procs[e.pid].image, 0x02, p, v);
    }
  }

  lemma NewProcessTables(m: Memory, pid: nat, p: nat, v: nat)
    requires Inv(m) && Enabled(m, NewProcess(pid)) && HasTable(m, p) && v < WORDS && !IsVictims(m, p, v)
    requires Shaped(SetUp(m, pid))
    ensures HasTable(SetUp(m, pid), p) && PteAt(SetUp(m, pid), p, v) == PteAt(m, p, v)
  {
    AllocTables(m, true, p, v);
    AllocAllocates(m, true);
    var g, m1 := Chosen(m), AllocOk(m, true);
    TableAdded(m1, g, pid);
    if m.procs[pid].size / PAGE_SIZE > 0 {
      InsertChangesOne(m1.(procs := m1.procs[pid := m1.procs[pid].(pageTable := Some(g))]), pid, m.procs[pid].entryPoint, 0, 0x04);
    }
  }

  // ---------- whose entry an eviction clears ----------

  /** The queued frame f is mapped at its process's entry point. */
  predicate Mapped(m: Memory, f: nat)
    requires Shaped(m)
  {
    && f < |m.pageMap| && HasTable(m, m.pageMap[f].pid)
    && Names(m, m.pageMap[f].pid, Slot(m.procs[m.pageMap[f].pid].entryPoint), f)
  }

  /** An eviction takes no name from any frame but the victim if and only if the victim is mapped, or its process has
      no page of code in memory at all. */
  lemma ClearsOwnEntryExactly(m: Memory)
    requires Inv(m) && m.pageQueue != []
    ensures Shaped(Evict(m))
    ensures (forall p: nat, v: nat, f: nat :: Names(m, p, v, f) && !Names(Evict(m), p, v, f) ==> f == m.pageQueue[0])
       <==> Mapped(m, m.pageQueue[0]) || forall v: nat, f: nat :: IsCleared(m, m.pageMap[m.pageQueue[0]].pid, v) ==>
              !Names(m, m.pageMap[m.pageQueue[0]].pid, v, f)
  {
    EvictFrees(m);
    var g := m.pageQueue[0];
    assert g in m.pageQueue && IsCodeFrame(m, g);
    var pid, slot := m.pageMap[g].pid, Slot(m.procs[m.pageMap[g].pid].entryPoint);
    assert IsCleared(m, pid, slot);
    forall v: nat, f: nat | IsCleared(m, pid, v) && Names(m, pid, v, f) ensures v == slot && !Names(Evict(m), pid, v, f) { }
  }

  /** Every page in the queue is mapped, so that each eviction clears the victim's own entry. */
  ghost predicate AllMapped(m: Memory) {
    Inv(m) && forall f :: f in m.pageQueue ==> Mapped(m, f)
  }

  /** What a step leaves alone besides the tables. */
  ghost predicate RecordsKept(m: Memory, m': Memory)
    requires Shaped(m) && CanAlloc(m)
  {
    && Shaped(m') && |m'.procs| == |m.procs| && |m'.pageMap| == |m.pageMap|
    && (forall p: nat :: p < |m.procs| ==> m'.procs[p].entryPoint == m.procs[p].entryPoint && (HasTable(m, p) ==> HasTable(m', p)))
    && (forall f: nat :: f < |m.pageMap| && f != Chosen(m) ==> m'.pageMap[f] == m.pageMap[f])
    && (forall f :: f in m'.pageQueue && f != Chosen(m) ==> f in m.pageQueue)
  }

  lemma AllocRecords(m: Memory, pinned: bool)
    requires Inv(m) && CanAlloc(m)
    ensures RecordsKept(m, Alloc(m, pinned)) && Alloc(m, pinned).procs == m.procs
    ensures Alloc(m, pinned).pageMap[Chosen(m)] == m.pageMap[Chosen(m)].(isUsed := true, pinned := pinned)
    ensures pinned ==> Chosen(m) !in Alloc(m, pinned).pageQueue
  {
    AllocAllocates(m, pinned);
    if !HasFree(m) { EvictUnmaps(m); }
  }

  lemma SetUpRecords(m: Memory, pid: nat)
    requires Inv(m) && Possible(m, NewProcess(pid))
    ensures RecordsKept(m, SetUp(m, pid)) && Chosen(m) !in SetUp(m, pid).pageQueue
    ensures SetUp(m, pid).pageMap[Chosen(m)] == m.pageMap[Chosen(m)].(isUsed := true, pinned := true)
  {
    AllocRecords(m, true);
    SetUpKeeps(m, pid);
  }

  lemma LoadCodeRecords(m: Memory, pid: nat)
    requires Inv(m) && HasTable(m, pid) && CanAlloc(m)
    ensures RecordsKept(m, LoadCode(m, pid)) && Chosen(m) in LoadCode(m, pid).pageQueue
    ensures LoadCode(m, pid).pageMap[Chosen(m)] == Entry(m.procs[pid].entryPoint, false, true, pid)
  {
    AllocRecords(m, false);
    CodeFaultKeeps(m, pid);
  }

  lemma LoadStackRecords(m: Memory, pid: nat, badVaddr: nat)
    requires Inv(m) && HasTable(m, pid) && CanAlloc(m) && IsStack(badVaddr)
    ensures RecordsKept(m, LoadStack(m, pid, badVaddr)) && Chosen(m) !in LoadStack(m, pid, badVaddr).pageQueue
  {
    AllocRecords(m, true);
    StackFaultKeeps(m, pid, badVaddr);
  }

  /** The entry that is cleared is not that of another mapped page in the queue. */
  lemma NotVictims(m: Memory, f: nat)
    requires AllMapped(m) && CanAlloc(m) && f in m.pageQueue && f != Chosen(m)
    ensures Mapped(m, f) && !IsVictims(m, m.pageMap[f].pid, Slot(m.procs[m.pageMap[f].pid].entryPoint))
  {
    assert Mapped(m, f);
    if !HasFree(m) { assert m.pageQueue[0] in m.pageQueue && Mapped(m, m.pageQueue[0]); }
  }

  /** The names of queued pages survive a step that maps at an entry which names at most the victim. */
  lemma StillMapped(m: Memory, m': Memory, pid: nat, slot: nat, f: nat)
    requires AllMapped(m) && CanAlloc(m) && RecordsKept(m, m') && f in m.pageQueue && f != Chosen(m)
    requires forall p: nat, v: nat, x: nat :: NamesAfterFault(m, m', pid, slot, p, v, x)
    requires forall x: nat :: Names(m, pid, slot, x) ==> x == Chosen(m)
    ensures Mapped(m', f)
  {
    NotVictims(m, f);
    assert NamesAfterFault(m, m', pid, slot, m.pageMap[f].pid, Slot(m.procs[m.pageMap[f].pid].entryPoint), f);
  }

  lemma CodeFaultKeepsMapped(m: Memory, pid: nat)
    requires AllMapped(m) && HasTable(m, pid) && CanAlloc(m) && Loadable(m, pid)
    ensures AllMapped(LoadCode(m, pid))
  {
    var m', slot, g := LoadCode(m, pid), Slot(m.procs[pid].entryPoint), Chosen(m);
    CodeFaultKeeps(m, pid);
    LoadCodeRecords(m, pid);
    assert NamesAfterFault(m, m', pid, slot, pid, slot, g);
    forall f | f in m'.pageQueue ensures Mapped(m', f) { if f != g { StillMapped(m, m', pid, slot, f); } }
  }

  lemma StackFaultKeepsMapped(m: Memory, pid: nat, badVaddr: nat)
    requires AllMapped(m) && HasTable(m, pid) && CanAlloc(m) && IsStack(badVaddr) && Slot(badVaddr) < WORDS
    requires !IsValid(PteAt(m, pid, Slot(badVaddr)))
    ensures AllMapped(LoadStack(m, pid, badVaddr))
  {
    var m' := LoadStack(m, pid, badVaddr);
    StackFaultKeeps(m, pid, badVaddr);
    LoadStackRecords(m, pid, badVaddr);
    forall f | f in m'.pageQueue ensures Mapped(m', f) { StillMapped(m, m', pid, Slot(badVaddr), f); }
  }

  lemma SetUpKeepsMapped(m: Memory, pid: nat)
    requires AllMapped(m) && Possible(m, NewProcess(pid))
    ensures AllMapped(SetUp(m, pid))
  {
    SetUpKeeps(m, pid);
    SetUpRecords(m, pid);
    var m' := SetUp(m, pid);
    forall f | f in m'.pageQueue ensures Mapped(m', f) { NotVictims(m, f); }
  }

  /** A page of code that is in memory and is not the one being replaced is loaded a second time, and its entry
      overwritten: its frame stays in the queue although nothing maps it. */
  lemma SecondLoadOrphansFrame(m: Memory, pid: nat) returns (f: nat)
    requires Inv(m) && HasTable(m, pid) && CanAlloc(m) && !Loadable(m, pid)
    ensures Names(m, pid, Slot(m.procs[pid].entryPoint), f) && f != Chosen(m)
    ensures var m' := LoadCode(m, pid);
      Shaped(m') && f in m'.pageQueue && !Mapped(m', f) && forall p: nat, v: nat :: !Names(m', p, v, f)
  {
    var g, slot := Chosen(m), Slot(m.procs[pid].entryPoint);
    f :| Names(m, pid, slot, f);
    assert Owned(m, f, pid, slot) && IsCodeSlot(m, pid, slot);
    var m' := LoadCode(m, pid);
    CodeFaultKeeps(m, pid);
    LoadCodeRecords(m, pid);
    forall p: nat, v: nat ensures !Names(m', p, v, f) {
      assert NamesAfterFault(m, m', pid, slot, p, v, f) && (Names(m, p, v, f) ==> Owned(m, f, p, v));
    }
  }

  /** Loading a page of code keeps every queued page mapped if and only if the process has none in memory, or the one
      it has is the one being replaced. */
  lemma LoadCodeKeepsExactly(m: Memory, pid: nat)
    requires AllMapped(m) && HasTable(m, pid) && CanAlloc(m)
    ensures AllMapped(LoadCode(m, pid)) <==> Loadable(m, pid)
  {
    if Loadable(m, pid) { CodeFaultKeepsMapped(m, pid); } else { var f := SecondLoadOrphansFrame(m, pid); }
  }

  /** Every queued page stays mapped exactly in the harmless events that load no page of code a second time. */
  lemma MappedExactlyWhenLoadedOnce(m: Memory, e: Event)
    requires AllMapped(m) && Possible(m, e)
    ensures After(m, e).Some? && AllMapped(After(m, e).value) <==> Harmless(m, e) && LoadsOnce(m, e)
  {
    KeptExactlyWhenHarmless(m, e);
    if e.NewProcess? {
      SetUpKeepsMapped(m, e.pid);
    } else if Allocates(m, e) {
      if IsStack(e.badVaddr) {
        RegionOfSlot(e.badVaddr);
        StackFaultKeepsMapped(m, e.pid, e.badVaddr);
      } else {
        LoadCodeKeepsExactly(m, e.pid);
      }
    }
  }

  /** So a run that loads no page of code twice replaces only mapped pages. */
  lemma {:induction false} VictimIsMapped(ms: seq<Memory>, es: seq<Event>, frames: nat, procs: seq<Proc>, i: nat)
    requires IsRun(ms, es, frames, procs) && i < |ms|
    requires forall j :: 0 <= j < i ==> Shaped(ms[j]) && Possible(ms[j], es[j]) && LoadsOnce(ms[j], es[j])
    ensures AllMapped(ms[i])
    ensures CanAlloc(ms[i]) && ms[i].pageMap[Chosen(ms[i])].isUsed ==> Mapped(ms[i], Chosen(ms[i]))
  {
    EveryRunKeeps(ms, es, frames, procs, i);
    if i > 0 {
      VictimIsMapped(ms, es, frames, procs, i - 1);
      MappedExactlyWhenLoadedOnce(ms[i - 1], es[i - 1]);
    }
    if CanAlloc(ms[i]) && !HasFree(ms[i]) { assert ms[i].pageQueue[0] in ms[i].pageQueue; }
  }

  // ---------- first in, first out ----------

  /** The step has to replace a page. */
  predicate Evicts(m: Memory, e: Event)
    requires Shaped(m) && Enabled(m, e)
  {
    !HasFree(m) && Allocates(m, e)
  }

  /** A replacement takes the head of the queue; otherwise the queue only grows at its end. */
  lemma StepQueue(m: Memory, e: Event)
    requires Inv(m) && Enabled(m, e)
    ensures QueueStepped(m, e, Step(m, e))
  {
    if Evicts(m, e) { EvictFrees(m); }
  }

  ghost function Evictions(ms: seq<Memory>, es: seq<Event>, i: nat, j: nat): nat
    requires i <= j <= |es| && |ms| == |es| + 1
    requires forall k :: i <= k < j ==> Shaped(ms[k]) && Enabled(ms[k], es[k])
  {
    if i == j then 0 else Evictions(ms, es, i, j - 1) + if Evicts(ms[j - 1], es[j - 1]) then 1 else 0
  }

  ghost predicate QueueStepped(m: Memory, e: Event, m': Memory)
    requires Shaped(m) && Enabled(m, e)
  {
    if Evicts(m, e) then m.pageQueue != [] && m.pageQueue[1..] <= m'.pageQueue else m.pageQueue <= m'.pageQueue
  }

  lemma {:induction false} PositionsShift(ms: seq<Memory>, es: seq<Event>, i: nat, j: nat, p: nat)
    requires i <= j <= |es| && |ms| == |es| + 1 && p < |ms[i].pageQueue|
    requires forall k :: i <= k < j ==> Shaped(ms[k]) && Enabled(ms[k], es[k]) && QueueStepped(ms[k], es[k], ms[k + 1])
    requires Evictions(ms, es, i, j) <= p
    ensures var left := p - Evictions(ms, es, i, j);
      left < |ms[j].pageQueue| && ms[j].pageQueue[left] == ms[i].pageQueue[p]
  {
    if i < j {
      PositionsShift(ms, es, i, j - 1, p);
      assert QueueStepped(ms[j - 1], es[j - 1], ms[j]);
    }
  }

  lemma RunStepQueue(ms: seq<Memory>, es: seq<Event>, frames: nat, procs: seq<Proc>, k: nat)
    requires IsRun(ms, es, frames, procs) && k < |es|
    ensures QueueStepped(ms[k], es[k], ms[k + 1])
  {
    EveryRunKeeps(ms, es, frames, procs, k);
    StepQueue(ms[k], es[k]);
  }

  /** Replacement is in allocation order: while at most p pages have been replaced, the page that was at position p
      of the queue has moved up by exactly that many, and it is the victim of the (p+1)-th replacement. */
  lemma ReplacementIsFifo(ms: seq<Memory>, es: seq<Event>, frames: nat, procs: seq<Proc>, i: nat, j: nat, p: nat)
    requires IsRun(ms, es, frames, procs) && i <= j <= |es| && p < |ms[i].pageQueue|
    requires Evictions(ms, es, i, j) <= p
    ensures var left := p - Evictions(ms, es, i, j);
      && left < |ms[j].pageQueue| && ms[j].pageQueue[left] == ms[i].pageQueue[p]
      && (j < |es| && left == 0 && Evicts(ms[j], es[j]) ==> CanAlloc(ms[j]) && Chosen(ms[j]) == ms[i].pageQueue[p])
  {
    EveryRunKeeps(ms, es, frames, procs, j);
    forall k | i <= k < j ensures QueueStepped(ms[k], es[k], ms[k + 1]) { RunStepQueue(ms, es, frames, procs, k); }
    PositionsShift(ms, es, i, j, p);
  }

  // ---------- what the frames hold ----------

  /** A frame that is neither taken nor a page table keeps its words. */
  lemma AllocFrames(m: Memory, pinned: bool, f: nat)
    requires Inv(m) && CanAlloc(m) && f < |m.frames| && f != Chosen(m) && !IsTable(m, f)
    ensures |Alloc(m, pinned).frames| == |m.frames| && Alloc(m, pinned).frames[f] == m.frames[f]
  {
    if !HasFree(m) {
      var g, m1 := m.pageQueue[0], m.(pageQueue := m.pageQueue[1..]);
      SameTablesSameNames(m, m1);
      assert g in m.pageQueue && IsCodeFrame(m, g);
      InsertChangesOne(m1, m.pageMap[g].pid, m.procs[m.pageMap[g].pid].entryPoint, 0, 0);
    }
  }

  /** Mapping an allocated frame writes no word of a frame that is not a table. */
  lemma MapFrames(m: Memory, pid: nat, vaddr: nat, paddr: nat, flag: nat, f: nat)
    requires Core(m) && HasTable(m, pid) && Slot(vaddr) < WORDS && f < |m.frames| && !IsTable(m, f)
    ensures var m' := Insert(m, pid, vaddr, paddr, flag); |m'.frames| == |m.frames| && m'.frames[f] == m.frames[f]
  {
    InsertChangesOne(m, pid, vaddr, paddr, flag);
    assert m.procs[pid].pageTable.value != f;
  }

  /** After a fault off the stack the chosen frame holds the process's page of code, and the entry for it says where it is,
      with the V bit; every frame but that and the tables is as before. */
  lemma CodeArrives(m: Memory, pid: nat)
    requires Inv(m) && HasTable(m, pid) && CanAlloc(m)
    ensures var m', g := LoadCode(m, pid), Chosen(m);
      && Inv(m') && m'.procs == m.procs && g < |m'.frames| && m'.frames[g] == m.procs[pid].image
      && PteAt(m', pid, m.procs[pid].entryPoint / 4096) == (0xa090_8000 + g * 4096) / 4096 * 64 + 2
      && forall f: nat :: f < |m.frames| && f != g && !IsTable(m, f) ==> m'.frames[f] == m.frames[f]
  {
    var g, p := Chosen(m), m.procs[pid];
    CodeFaultKeeps(m, pid);
    AllocForOwns(m, false, pid, p.entryPoint, p.image);
    var m2 := AllocFor(m, false, pid, p.entryPoint, p.image);
    assert LoadCode(m, pid) == Insert(m2, pid, p.entryPoint, Paddr(g), 0x02);
    MapFrames(m2, pid, p.entryPoint, Paddr(g), 0x02, g);
    InsertChangesOne(m2, pid, p.entryPoint, Paddr(g), 0x02);
    forall f: nat | f < |m.frames| && f != g && !IsTable(m, f) ensures LoadCode(m, pid).frames[f] == m.frames[f] {
      AllocFrames(m, false, f);
      MapFrames(m2, pid, p.entryPoint, Paddr(g), 0x02, f);
    }
  }

  /** A new stack page is all zeros, and its entry has the D bit, too. */
  lemma StackArrives(m: Memory, pid: nat, badVaddr: nat)
    requires Inv(m) && HasTable(m, pid) && CanAlloc(m) && IsStack(badVaddr)
    ensures var m', g := LoadStack(m, pid, badVaddr), Chosen(m);
      && Inv(m') && m'.procs == m.procs && badVaddr / 4096 < WORDS && g < |m'.frames|
      && (forall i :: 0 <= i < WORDS ==> m'.frames[g][i] == 0)
      && PteAt(m', pid, badVaddr / 4096) == (0xa090_8000 + g * 4096) / 4096 * 64 + 6
      && forall f: nat :: f < |m.frames| && f != g && !IsTable(m, f) ==> m'.frames[f] == m.frames[f]
  {
    var g, m1 := Chosen(m), AllocOk(m, true);
    StackFaultKeeps(m, pid, badVaddr);
    StackIsNotCode(m, pid, badVaddr);
    AllocAllocates(m, true);
    AllocForOwns(m, true, pid, badVaddr, m1.frames[g]);
    var m2 := AllocFor(m, true, pid, badVaddr, m1.frames[g]);
    assert m1.frames[g := m1.frames[g]] == m1.frames;
    assert LoadStack(m, pid, badVaddr) == Insert(m2, pid, badVaddr, Paddr(g), 0x06);
    MapFrames(m2, pid, badVaddr, Paddr(g), 0x06, g);
    InsertChangesOne(m2, pid, badVaddr, Paddr(g), 0x06);
    forall f: nat | f < |m.frames| && f != g && !IsTable(m, f) ensures LoadStack(m, pid, badVaddr).frames[f] == m.frames[f] {
      AllocFrames(m, true, f);
      MapFrames(m2, pid, badVaddr, Paddr(g), 0x06, f);
    }
  }

  /** A new page table is empty but for the entry for the code, which is marked and not valid. */
  lemma TableArrives(m: Memory, pid: nat)
    requires Inv(m) && Possible(m, NewProcess(pid))
    ensures var m', g := SetUp(m, pid), Chosen(m);
      && Inv(m') && g < |m'.frames| && m'.procs == m.procs[pid := m.procs[pid].(pageTable := Some(g))]
      && (forall v :: 0 <= v < WORDS ==>
            m'.frames[g][v] == if v == m.procs[pid].entryPoint / 4096 && 4096 <= m.procs[pid].size then 4 else 0)
      && forall f: nat :: f < |m.frames| && f != g && !IsTable(m, f) ==> m'.frames[f] == m.frames[f]
  {
    SetUpKeeps(m, pid);
    forall f: nat | f < |m.frames| && f != Chosen(m) && !IsTable(m, f) ensures SetUp(m, pid).frames[f] == m.frames[f] {
      AllocFrames(m, true, f);
    }
  }

  /** The page queue holds pages of code, each of the process it is recorded for. */
  ghost predicate Loaded(m: Memory) {
    Inv(m) && forall f: nat :: f in m.pageQueue ==>
      m.pageMap[f].pid < |m.procs| && m.frames[f] == m.procs[m.pageMap[f].pid].image
  }

  lemma StillLoaded(m: Memory, m': Memory)
    requires Loaded(m) && Inv(m') && CanAlloc(m) && RecordsKept(m, m')
    requires forall p: nat :: p < |m.procs| ==> m'.procs[p].image == m.procs[p].image
    requires forall f: nat :: f < |m.frames| && f != Chosen(m) && !IsTable(m, f) ==> m'.frames[f] == m.frames[f]
    requires Chosen(m) in m'.pageQueue ==>
      m'.pageMap[Chosen(m)].pid < |m.procs| && m'.frames[Chosen(m)] == m.procs[m'.pageMap[Chosen(m)].pid].image
    ensures Loaded(m')
  {
    forall f: nat | f in m'.pageQueue && f != Chosen(m)
      ensures m'.pageMap[f].pid < |m'.procs| && m'.frames[f] == m'.procs[m'.pageMap[f].pid].image
    {
      assert f in m.pageQueue && !IsTable(m, f);
    }
  }

  lemma StepKeepsLoaded(m: Memory, e: Event)
    requires Loaded(m) && Enabled(m, e)
    ensures Loaded(Step(m, e))
    ensures |Step(m, e).procs| == |m.procs|
    ensures forall p: nat :: p < |m.procs| ==> Step(m, e).procs[p].(pageTable := None) == m.procs[p].(pageTable := None)
  {
    if e.NewProcess? {
      SetUpRecords(m, e.pid);
      TableArrives(m, e.pid);
      StillLoaded(m, Step(m, e));
    } else if Allocates(m, e) {
      if IsStack(e.badVaddr) {
        LoadStackRecords(m, e.pid, e.badVaddr);
        StackArrives(m, e.pid, e.badVaddr);
      } else {
        LoadCodeRecords(m, e.pid);
        CodeArrives(m, e.pid);
      }
      StillLoaded(m, Step(m, e));
    }
  }

  lemma {:induction false} EveryRunIsLoaded(ms: seq<Memory>, es: seq<Event>, frames: nat, procs: seq<Proc>, i: nat)
    requires IsRun(ms, es, frames, procs) && i < |ms|
    ensures Loaded(ms[i]) && |ms[i].procs| == |procs|
    ensures forall p: nat :: p < |procs| ==> ms[i].procs[p].(pageTable := None) == procs[p]
  {
    if i == 0 {
      InitIsOk(frames, procs);
    } else {
      EveryRunIsLoaded(ms, es, frames, procs, i - 1);
      StepKeepsLoaded(ms[i - 1], es[i - 1]);
    }
  }

  /** In every reachable state, the frame that a process finds at its entry point holds its page of code as it is on
      disk, and so does every frame in the page queue for the process it is recorded for. */
  lemma CodeIsInPlace(ms: seq<Memory>, es: seq<Event>, frames: nat, procs: seq<Proc>, i: nat, p: nat, f: nat)
    requires IsRun(ms, es, frames, procs) && i < |ms| && Shaped(ms[i]) && p < |procs|
    requires Names(ms[i], p, procs[p].entryPoint / 4096, f) || (f in ms[i].pageQueue && ms[i].pageMap[f].pid == p)
    ensures f < |ms[i].frames| && ms[i].frames[f] == procs[p].image
  {
    EveryRunIsLoaded(ms, es, frames, procs, i);
    var m := ms[i];
    assert m.procs[p].(pageTable := None) == procs[p];
    if Names(m, p, Slot(procs[p].entryPoint), f) {
      assert Owned(m, f, p, Slot(procs[p].entryPoint)) && IsCodeSlot(m, p, Slot(procs[p].entryPoint));
    }
  }

  // ---------- whether a fault is resolved ----------

  /** A fault on an invalid entry makes that entry valid if and only if the address is on the stack or on the page of
      the entry point. */
  lemma ResolvedExactly(m: Memory, e: Event)
    requires Inv(m) && e.Fault? && Possible(m, e) && Allocates(m, e) && Slot(e.badVaddr) < WORDS
    ensures Shaped(Step(m, e)) && HasTable(Step(m, e), e.pid)
    ensures IsValid(PteAt(Step(m, e), e.pid, Slot(e.badVaddr)))
       <==> IsStack(e.badVaddr) || Slot(e.badVaddr) == Slot(m.procs[e.pid].entryPoint)
  {
    var m', slot := Step(m, e), Slot(e.badVaddr);
    FaultKeeps(m, e);
    assert NamesAfterFault(m, m', e.pid, MappedSlot(m, e.pid, e.badVaddr), e.pid, MappedSlot(m, e.pid, e.badVaddr), Chosen(m));
    if IsValid(PteAt(m', e.pid, slot)) {
      var f: nat :| Names(m', e.pid, slot, f);
      assert NamesAfterFault(m, m', e.pid, MappedSlot(m, e.pid, e.badVaddr), e.pid, slot, f);
    }
  }

  /** Elsewhere the same fault comes again, any number of times, each time with another load of the page of code. */
  lemma {:induction false} UnresolvedComesAgain(m: Memory, e: Event, n: nat) returns (ms: seq<Memory>)
    requires Inv(m) && e.Fault? && Possible(m, e) && Allocates(m, e) && Slot(e.badVaddr) < WORDS
    requires !IsStack(e.badVaddr) && Slot(e.badVaddr) != Slot(m.procs[e.pid].entryPoint)
    ensures |ms| == n + 1 && ms[0] == m
    ensures forall i :: 0 <= i <= n ==> Inv(ms[i]) && Possible(ms[i], e) && Allocates(ms[i], e)
                                        && (i < n ==> ms[i + 1] == Step(ms[i], e) == LoadCode(ms[i], e.pid))
    decreases n
  {
    if n == 0 {
      ms := [m];
    } else {
      FaultKeeps(m, e);
      LoadCodeRecords(m, e.pid);
      ResolvedExactly(m, e);
      var rest := UnresolvedComesAgain(Step(m, e), e, n - 1);
      ms := [m] + rest;
    }
  }

  // ---------- reachable memories in which things go wrong ----------

  const SAMPLE: seq<Proc> := [Proc(0x10_0000, 16 * PAGE_SIZE, Zeroes(), None)]

  /** One process of 16 pages, started and faulted in at its entry point: a fault on its second page would load the page
      of code again, and a refill at the entry point would leave no page queue. */
  lemma ReachableHarm() returns (ms: seq<Memory>, es: seq<Event>)
    ensures IsRun(ms, es, 3, SAMPLE) && |es| == 2 && Inv(ms[2])
    ensures var e := Fault(0, 0x10_1000, 0); Possible(ms[2], e) && Harmless(ms[2], e) && !LoadsOnce(ms[2], e)
    ensures var e := Fault(0, 0x10_0000, 0); Possible(ms[2], e) && !Harmless(ms[2], e) && After(ms[2], e) == None
  {
    var m0, e0, e1 := Init(3, SAMPLE), NewProcess(0), Fault(0, 0x10_0000, 0);
    InitIsOk(3, SAMPLE);
    SampleStarts();
    var m1 := Step(m0, e0);
    var m2 := Step(m1, e1);
    CodeFaultKeeps(m1, 0);
    LoadCodeRecords(m1, 0);
    SampleLoaded(m1, m2);
    ms, es := [m0, m1, m2], [e0, e1];
  }

  lemma SampleStarts()
    ensures var m0, e1 := Init(3, SAMPLE), Fault(0, 0x10_0000, 0);
      && Shaped(m0) && Enabled(m0, NewProcess(0))
      && var m1 := Step(m0, NewProcess(0));
      && Inv(m1) && Enabled(m1, e1) && Allocates(m1, e1) && HasFree(m1) && Chosen(m1) == 1
      && |m1.procs| == 1 && m1.procs[0].entryPoint == 0x10_0000
      && |m1.pageMap| == 3 && !m1.pageMap[2].isUsed && m1.pageMap[0].vaddr == 0
      && forall p: nat, v: nat, f: nat :: !Names(m1, p, v, f)
  {
    var m0 := Init(3, SAMPLE);
    InitIsOk(3, SAMPLE);
    assert FirstUnused(m0.pageMap) == 0;
    SetUpKeeps(m0, 0);
    SetUpRecords(m0, 0);
    SampleStarted(SetUp(m0, 0));
  }

  lemma SampleStarted(m: Memory)
    requires Inv(m) && |m.procs| == 1 && HasTable(m, 0) && m.procs[0].entryPoint == 0x10_0000 && |m.pageMap| == 3
    requires m.pageMap[0].isUsed && !m.pageMap[1].isUsed && !m.pageMap[2].isUsed
    requires forall p: nat, v: nat, f: nat :: !Names(m, p, v, f)
    ensures FirstUnused(m.pageMap) == 1 && Enabled(m, Fault(0, 0x10_0000, 0)) && Allocates(m, Fault(0, 0x10_0000, 0))
  {
    assert FirstUnused(m.pageMap, 1) == 1;
    assert Slot(0x10_0000) == 256;
  }

  lemma SampleLoaded(m: Memory, m': Memory)
    requires Shaped(m) && HasFree(m) && Chosen(m) == 1 && |m.procs| == 1 && m.procs[0].entryPoint == 0x10_0000
    requires |m.pageMap| == 3 && !m.pageMap[2].isUsed && m.pageMap[0].vaddr == 0
    requires forall p: nat, v: nat, f: nat :: !Names(m, p, v, f)
    requires Inv(m') && RecordsKept(m, m') && HasTable(m', 0) && 1 in m'.pageQueue
    requires m'.pageMap[1] == Entry(0x10_0000, false, true, 0)
    requires forall p: nat, v: nat, f: nat :: NamesAfterFault(m, m', 0, 256, p, v, f)
    ensures var e := Fault(0, 0x10_1000, 0); Possible(m', e) && Harmless(m', e) && !LoadsOnce(m', e)
    ensures var e := Fault(0, 0x10_0000, 0); Possible(m', e) && !Harmless(m', e) && After(m', e) == None
  {
    assert Slot(0x10_0000) == 256 && Slot(0x10_1000) == 257;
    assert NamesAfterFault(m, m', 0, 256, 0, 256, 1);
    NamelessIsInvalid(m', 0, 257);
    assert HasFree(m') && Chosen(m') != 1;
    assert FirstAt(m'.pageMap, 0x10_0000, 1) == 1;
  }

  lemma NamelessIsInvalid(m: Memory, p: nat, v: nat)
    requires Core(m) && HasTable(m, p) && v < WORDS && forall f: nat :: !Names(m, p, v, f)
    ensures !IsValid(PteAt(m, p, v))
  {
  }
}
