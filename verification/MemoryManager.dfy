/** project5_start_code/memory.c and handle_tlb_c() of interrupt.c in place: page_map[], the page queue and the
    words of the page frames are updated where they are. Each call is tied to the Paging functions. */
module MemoryManagers {
  import opened Seqs
  import opened Paging

  class MemoryManager {
    const pageMap: array<Entry>
    const words: array2<nat>   // words[f, i] is word i of page frame f
    var pageQueue: seq<nat>
    var procs: seq<Proc>       // the pcb fields that paging uses

    ghost predicate Valid()
    {
      words.Length0 == pageMap.Length && words.Length1 == WORDS
    }

    ghost function Page(f: nat): (r: seq<nat>)
      requires Valid() && f < pageMap.Length
      reads words
      ensures |r| == WORDS
    {
      seq(WORDS, i requires 0 <= i < WORDS && Valid() && f < pageMap.Length reads words => words[f, i])
    }

    ghost function Abs(): (m: Memory)
      requires Valid()
      reads this, pageMap, words
      ensures |m.frames| == |m.pageMap| == pageMap.Length && m.pageQueue == pageQueue && m.procs == procs
    {
      Memory(pageMap[..], pageQueue,
             seq(pageMap.Length, f requires 0 <= f < pageMap.Length && Valid() reads words => Page(f)), procs)
    }

    /** init_memory() */
    constructor (frames: nat, procs: seq<Proc>)
      ensures Valid() && fresh(pageMap) && fresh(words) && Abs() == Init(frames, procs)
    {
      pageMap := new Entry[frames](_ => Entry(0, false, false, 0));
      words := new nat[frames, WORDS]((f, i) => 0);
      pageQueue := [];
      this.procs := procs;
      new;
      assert pageMap[..] == seq(frames, _ => Entry(0, false, false, 0));
      forall f: nat | f < frames ensures Page(f) == Zeroes() { }
    }

    method InsertPageTableEntry(pid: nat, vaddr: nat, paddr: nat, flag: nat)
      requires Valid() && Shaped(Abs()) && HasTable(Abs(), pid) && Slot(vaddr) < WORDS
      modifies words
      ensures Abs() == Insert(old(Abs()), pid, vaddr, paddr, flag)
    {
      ghost var after := Insert(Abs(), pid, vaddr, paddr, flag);
      var table := procs[pid].pageTable.value;
      words[table, vaddr / PAGE_SIZE] := paddr / PAGE_SIZE * 64 + flag % 64;
      forall f: nat | f < pageMap.Length ensures Page(f) == after.frames[f] { }
      assert Abs().frames == after.frames;
    }

    method Bzero(f: nat)
      requires Valid() && f < pageMap.Length
      modifies words
      ensures Abs() == old(Abs()).(frames := old(Abs()).frames[f := Zeroes()])
    {
      ghost var before := Abs();
      for i := 0 to WORDS
        invariant forall j :: 0 <= j < i ==> words[f, j] == 0
        invariant forall g, j :: 0 <= g < pageMap.Length && g != f && 0 <= j < WORDS ==> words[g, j] == old(words[g, j])
      {
        words[f, i] := 0;
      }
      assert Page(f) == Zeroes();
      forall g: nat | g < pageMap.Length && g != f ensures Page(g) == before.frames[g] { }
      assert Abs().frames == before.frames[f := Zeroes()];
    }

    method Bcopy(image: seq<nat>, f: nat)
      requires Valid() && f < pageMap.Length && |image| == WORDS
      modifies words
      ensures Abs() == old(Abs()).(frames := old(Abs()).frames[f := image])
    {
      ghost var before := Abs();
      for i := 0 to WORDS
        invariant forall j :: 0 <= j < i ==> words[f, j] == image[j]
        invariant forall g, j :: 0 <= g < pageMap.Length && g != f && 0 <= j < WORDS ==> words[g, j] == old(words[g, j])
      {
        words[f, i] := image[i];
      }
      assert Page(f) == image;
      forall g: nat | g < pageMap.Length && g != f ensures Page(g) == before.frames[g] { }
      assert Abs().frames == before.frames[f := image];
    }

    /** The scan of page_alloc() for an unused frame. */
    method FindUnused() returns (free: nat)
      requires Valid()
      ensures free <= pageMap.Length && free == FirstUnused(Abs().pageMap)
    {
      free := 0;
      while free < pageMap.Length
        invariant free <= pageMap.Length && FirstUnused(pageMap[..], free) == FirstUnused(pageMap[..])
      {
        if !pageMap[free].isUsed { return; }
        free := free + 1;
      }
    }

    /** The replacement half of page_alloc(). */
    method EvictOldest() returns (index: nat)
      requires Valid() && Inv(Abs()) && pageQueue != []
      modifies this`pageQueue, words
      ensures Abs() == Evict(old(Abs())) && index == old(pageQueue[0]) && index < pageMap.Length
    {
      ghost var m := Abs();
      index := pageQueue[0];
      assert index in pageQueue && IsCodeFrame(m, index);
      pageQueue := pageQueue[1..];
      assert Abs().frames == m.frames;
      SameTablesSameNames(m, Abs());
      var pid := pageMap[index].pid;
      InsertPageTableEntry(pid, procs[pid].entryPoint, 0, 0);
    }

    /** page_map[index].is_used = 1; page_map[index].pinned = pinned; and the queueing of an unpinned frame. */
    method MarkTaken(index: nat, pinned: bool)
      requires Valid() && index < pageMap.Length
      modifies this`pageQueue, pageMap
      ensures Abs() == Take(old(Abs()), index, pinned).(frames := old(Abs()).frames)
    {
      ghost var m := Abs();
      pageMap[index] := pageMap[index].(isUsed := true, pinned := pinned);
      if !pinned {
        pageQueue := pageQueue + [index];
      }
      assert Abs().frames == m.frames;
      assert pageMap[..] == m.pageMap[index := m.pageMap[index].(isUsed := true, pinned := pinned)];
    }

    method PageAlloc(pinned: bool) returns (index: nat)
      requires Valid() && Inv(Abs()) && CanAlloc(Abs())
      modifies this`pageQueue, pageMap, words
      ensures Abs() == Alloc(old(Abs()), pinned) && index == Chosen(old(Abs())) && index < pageMap.Length
    {
      index := FindUnused();
      if index == pageMap.Length {
        index := EvictOldest();
      }
      MarkTaken(index, pinned);
      Bzero(index);
    }

    /** The loop of setup_page_table(), which writes one and the same entry once for every page of the program. */
    method InsertInitialEntries(pid: nat)
      requires Valid() && Inv(Abs()) && HasTable(Abs(), pid)
      modifies words
      ensures Abs() == if procs[pid].size / PAGE_SIZE > 0 then Insert(old(Abs()), pid, procs[pid].entryPoint, 0, 0x04) else old(Abs())
    {
      ghost var m := Abs();
      InsertTwice(m, pid, procs[pid].entryPoint, 0x04);
      for i := 0 to procs[pid].size / PAGE_SIZE
        invariant Abs() == if i == 0 then m else Insert(m, pid, procs[pid].entryPoint, 0, 0x04)
      {
        InsertPageTableEntry(pid, procs[pid].entryPoint, 0, 0x04);
      }
    }

    /** p->page_table = ... */
    method AssignTable(pid: nat, frame: nat)
      requires Valid() && pid < |procs|
      modifies this`procs
      ensures Abs() == old(Abs()).(procs := old(procs)[pid := old(procs)[pid].(pageTable := Some(frame))])
    {
      ghost var m := Abs();
      procs := procs[pid := procs[pid].(pageTable := Some(frame))];
      assert Abs().frames == m.frames;
    }

    /** setup_page_table(pid), whose result the caller stores in pcb.page_table. */
    method SetupPageTable(pid: nat)
      requires Valid() && Inv(Abs()) && Enabled(Abs(), NewProcess(pid))
      modifies this`pageQueue, this`procs, pageMap, words
      ensures Abs() == Step(old(Abs()), NewProcess(pid)) && Inv(Abs())
    {
      SetUpPlan(Abs(), pid);
      var frame := PageAlloc(true);
      Equip(pid, frame);
    }

    /** The rest of it, with the assignment. */
    method Equip(pid: nat, frame: nat)
      requires Valid() && Allocated(Abs(), frame, true) && Abs().frames[frame] == Zeroes()
      requires pid < |procs| && procs[pid].pageTable.None?
      modifies this`procs, words
      ensures Abs() == Paging.Equip(old(Abs()), frame, pid)
    {
      TableAdded(Abs(), frame, pid);
      AssignTable(pid, frame);
      InsertInitialEntries(pid);
    }

    method RefreshPageMap(index: nat, pid: nat)
      requires Valid() && Shaped(Abs()) && index < pageMap.Length && HasTable(Abs(), pid)
      modifies pageMap, words
      ensures Abs() == MapCode(old(Abs()), index, pid)
    {
      ghost var m := Abs();
      pageMap[index] := pageMap[index].(pid := pid, vaddr := procs[pid].entryPoint);
      assert Abs() == m.(pageMap := m.pageMap[index := m.pageMap[index].(pid := pid, vaddr := procs[pid].entryPoint)]);
      Bcopy(procs[pid].image, index);
      InsertPageTableEntry(pid, procs[pid].entryPoint, Paddr(index), 0x02);
    }

    method RefreshPageMapS(index: nat, vaddr: nat, pid: nat)
      requires Valid() && Shaped(Abs()) && index < pageMap.Length && HasTable(Abs(), pid) && Slot(vaddr) < WORDS
      modifies pageMap, words
      ensures Abs() == MapStack(old(Abs()), index, vaddr, pid)
    {
      ghost var m := Abs();
      pageMap[index] := pageMap[index].(pid := pid, vaddr := vaddr);
      assert Abs() == m.(pageMap := m.pageMap[index := m.pageMap[index].(pid := pid, vaddr := vaddr)]);
      InsertPageTableEntry(pid, vaddr, Paddr(index), 0x06);
    }

    /** refresh_page_q() while the frame it finds is not on the queue, where it would leave no queue. */
    method RefreshPageQ(badVaddr: nat)
      requires Valid() && Refill(Abs(), badVaddr).Some?
      modifies this`pageQueue
      ensures Abs() == Refill(old(Abs()), badVaddr).value
    {
      ghost var m := Abs();
      var i := 0;
      while i < pageMap.Length
        invariant i <= pageMap.Length && FirstAt(pageMap[..], badVaddr, i) == FirstAt(pageMap[..], badVaddr)
      {
        if pageMap[i].vaddr == badVaddr / 2 * 2 {
          pageQueue := pageQueue + [i];
          assert Abs().frames == m.frames;
          return;
        }
        i := i + 1;
      }
    }

    /** handle_tlb_c() for the running process pid; `beyond` is what a read past the page table would find. */
    method HandleTlbC(pid: nat, badVaddr: nat, beyond: nat)
      requires Valid() && Inv(Abs()) && Possible(Abs(), Fault(pid, badVaddr, beyond))
      requires After(Abs(), Fault(pid, badVaddr, beyond)).Some?
      modifies this`pageQueue, pageMap, words
      ensures Abs() == After(old(Abs()), Fault(pid, badVaddr, beyond)).value
      ensures Inv(Abs()) <==> Harmless(old(Abs()), Fault(pid, badVaddr, beyond))
      ensures Allocates(old(Abs()), Fault(pid, badVaddr, beyond)) ==>
                var g, t := Chosen(old(Abs())), procs[pid].pageTable.value;
                && g < words.Length0 && t < words.Length0 && HasTable(Abs(), pid)
                && (forall i :: 0 <= i < WORDS ==> words[g, i] == if badVaddr / 0x10_0000 == 3 then 0 else procs[pid].image[i])
                && (if badVaddr / 0x10_0000 == 3
                    then badVaddr / 4096 < WORDS && words[t, badVaddr / 4096] == (0xa090_8000 + g * 4096) / 4096 * 64 + 6
                    else words[t, procs[pid].entryPoint / 4096] == (0xa090_8000 + g * 4096) / 4096 * 64 + 2)
    {
      ghost var m := Abs();
      var slot := badVaddr / PAGE_SIZE;
      var pte := if slot < WORDS then words[procs[pid].pageTable.value, slot] else beyond;
      assert pte == PteRead(m, Fault(pid, badVaddr, beyond));
      KeptExactlyWhenHarmless(m, Fault(pid, badVaddr, beyond));
      if pte / 2 % 2 == 1 {
        RefreshPageQ(badVaddr);
      } else if badVaddr / 0x10_0000 != 3 {
        HandleCodeFault(pid);
      } else {
        HandleStackFault(pid, badVaddr);
      }
    }

    /** Its half for a page of code. */
    method HandleCodeFault(pid: nat)
      requires Valid() && Inv(Abs()) && HasTable(Abs(), pid) && CanAlloc(Abs())
      modifies this`pageQueue, pageMap, words
      ensures Abs() == LoadCode(old(Abs()), pid)
      ensures var g, t := Chosen(old(Abs())), procs[pid].pageTable.value;
        && g < words.Length0 && t < words.Length0 && HasTable(Abs(), pid) && Shaped(Abs())
        && (forall i :: 0 <= i < WORDS ==> words[g, i] == procs[pid].image[i])
        && words[t, procs[pid].entryPoint / 4096] == (0xa090_8000 + g * 4096) / 4096 * 64 + 2
    {
      CodeArrives(Abs(), pid);
      AllocAllocates(Abs(), false);
      var code := PageAlloc(false);
      RefreshPageMap(code, pid);
      WordsAre(code);
      WordsAre(procs[pid].pageTable.value);
    }

    /** And its half for a stack page. */
    method HandleStackFault(pid: nat, badVaddr: nat)
      requires Valid() && Inv(Abs()) && HasTable(Abs(), pid) && CanAlloc(Abs()) && IsStack(badVaddr)
      modifies this`pageQueue, pageMap, words
      ensures Abs() == LoadStack(old(Abs()), pid, badVaddr)
      ensures var g, t := Chosen(old(Abs())), procs[pid].pageTable.value;
        && g < words.Length0 && t < words.Length0 && HasTable(Abs(), pid) && Shaped(Abs()) && badVaddr / 4096 < WORDS
        && (forall i :: 0 <= i < WORDS ==> words[g, i] == 0)
        && words[t, badVaddr / 4096] == (0xa090_8000 + g * 4096) / 4096 * 64 + 6
    {
      StackArrives(Abs(), pid, badVaddr);
      AllocAllocates(Abs(), true);
      var stack := PageAlloc(true);
      RefreshPageMapS(stack, badVaddr, pid);
      WordsAre(stack);
      WordsAre(procs[pid].pageTable.value);
    }

    lemma WordsAre(f: nat)
      requires Valid() && f < pageMap.Length
      ensures forall i :: 0 <= i < WORDS ==> words[f, i] == Abs().frames[f][i]
    {
      assert Abs().frames[f] == Page(f);
    }
  }

  lemma SetUpPlan(m: Memory, pid: nat)
    requires Inv(m) && Enabled(m, NewProcess(pid))
    ensures var m1 := Alloc(m, true);
      && Allocated(m1, Chosen(m), true) && m1.frames[Chosen(m)] == Zeroes() && m1.procs == m.procs
      && Step(m, NewProcess(pid)) == Equip(m1, Chosen(m), pid) && Inv(Equip(m1, Chosen(m), pid))
  {
    AllocAllocates(m, true);
    SetUpKeeps(m, pid);
  }

  /** Writing the same entry again changes nothing. */
  lemma InsertTwice(m: Memory, pid: nat, vaddr: nat, flag: nat)
    requires Core(m) && HasTable(m, pid) && Slot(vaddr) < WORDS
    ensures var m' := Insert(m, pid, vaddr, 0, flag);
      && Shaped(m') && m'.procs == m.procs && Insert(m', pid, vaddr, 0, flag) == m'
  {
    InsertChangesOne(m, pid, vaddr, 0, flag);
    var t := m.procs[pid].pageTable.value;
    var page := m.frames[t];
    assert page[Slot(vaddr) := Pte(0, flag)][Slot(vaddr) := Pte(0, flag)] == page[Slot(vaddr) := Pte(0, flag)];
  }
}
