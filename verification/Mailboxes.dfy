/** One message box of mbox.c with any number of senders and receivers. A send or receive runs without a switch
    except where it blocks on a full or empty box: inside the kernel timer_irq() never preempts, so the box's lock
    is free whenever it is asked for. The counters are 32-bit and run freely. */
module Mailboxes {
  import opened Seqs

  type Byte = bv8

  const SLOTS: nat := 32    // MAX_MBOX_LENGTH
  const MESSAGE: nat := 32  // MAX_MESSAGE_LENGTH
  const U32: nat := 0x1_0000_0000

  /** The bytes a copy loop `for(i=0; i<nbytes && i<MAX_MESSAGE_LENGTH; i++)` goes over. */
  function Copied(nbytes: int): (n: nat)
    ensures n <= MESSAGE
  {
    if nbytes < 0 then 0 else if nbytes < MESSAGE then nbytes else MESSAGE
  }

  datatype Box = Box(slots: seq<seq<Byte>>, readNum: nat, writeNum: nat)

  predicate Shaped(b: Box) {
    && |b.slots| == SLOTS && (forall i :: 0 <= i < SLOTS ==> |b.slots[i]| == MESSAGE)
    && b.readNum < U32 && b.writeNum < U32
  }

  predicate IsFull(b: Box) { (b.readNum + SLOTS) % U32 == b.writeNum }
  predicate IsEmpty(b: Box) { b.readNum == b.writeNum }

  /** A message overwrites the front of its slot; the rest of the slot keeps older bytes. */
  function Put(b: Box, message: seq<Byte>): Box
    requires Shaped(b) && |message| <= MESSAGE
  {
    var at := b.writeNum % SLOTS;
    b.(slots := b.slots[at := message + b.slots[at][|message|..]], writeNum := (b.writeNum + 1) % U32)
  }

  function Front(b: Box, n: nat): seq<Byte>
    requires Shaped(b) && n <= MESSAGE
  {
    b.slots[b.readNum % SLOTS][..n]
  }

  function Advance(b: Box): Box { b.(readNum := (b.readNum + 1) % U32) }

  // ---------- senders and receivers ----------

  datatype Sender = SendIdle | SendBlocked(message: seq<Byte>) | SendWoken(message: seq<Byte>)
  datatype Receiver = RecvIdle | RecvBlocked(n: nat) | RecvWoken(n: nat)

  /** The box, everybody's position, all messages sent, and all buffers received with the lengths asked for. */
  datatype State = State(box: Box, senders: seq<Sender>, receivers: seq<Receiver>,
                         sent: seq<seq<Byte>>, got: seq<seq<Byte>>, wanted: seq<nat>)

  datatype Call =
    | Send(i: nat, message: seq<Byte>)
    | ResumeSend(i: nat)
    | Recv(i: nat, n: nat)
    | ResumeRecv(i: nat)

  predicate Enabled(s: State, c: Call) {
    match c
    case Send(i, message) => i < |s.senders| && s.senders[i] == SendIdle && |message| <= MESSAGE
    case ResumeSend(i) => i < |s.senders| && s.senders[i].SendWoken? && |s.senders[i].message| <= MESSAGE
    case Recv(i, n) => i < |s.receivers| && s.receivers[i] == RecvIdle && n <= MESSAGE
    case ResumeRecv(i) => i < |s.receivers| && s.receivers[i].RecvWoken? && s.receivers[i].n <= MESSAGE
  }

  /** The rest of do_mbox_send(): copy, count, wake every blocked receiver. */
  function FinishSend(s: State, i: nat, message: seq<Byte>): State
    requires Shaped(s.box) && i < |s.senders| && |message| <= MESSAGE
  {
    State(Put(s.box, message), s.senders[i := SendIdle],
          seq(|s.receivers|, j requires 0 <= j < |s.receivers| =>
            if s.receivers[j].RecvBlocked? then RecvWoken(s.receivers[j].n) else s.receivers[j]),
          s.sent + [message], s.got, s.wanted)
  }

  /** The rest of do_mbox_recv(): copy, count, wake every blocked sender. */
  function FinishRecv(s: State, i: nat, n: nat): State
    requires Shaped(s.box) && i < |s.receivers| && n <= MESSAGE
  {
    State(Advance(s.box),
          seq(|s.senders|, j requires 0 <= j < |s.senders| =>
            if s.senders[j].SendBlocked? then SendWoken(s.senders[j].message) else s.senders[j]),
          s.receivers[i := RecvIdle], s.sent, s.got + [Front(s.box, n)], s.wanted + [n])
  }

  function Step(s: State, c: Call): State
    requires Shaped(s.box) && Enabled(s, c)
  {
    match c
    case Send(i, message) =>
      if IsFull(s.box) then s.(senders := s.senders[i := SendBlocked(message)]) else FinishSend(s, i, message)
    case ResumeSend(i) => FinishSend(s, i, s.senders[i].message)
    case Recv(i, n) =>
      if IsEmpty(s.box) then s.(receivers := s.receivers[i := RecvBlocked(n)]) else FinishRecv(s, i, n)
    case ResumeRecv(i) => FinishRecv(s, i, s.receivers[i].n)
  }

  function Init(senders: nat, receivers: nat): State {
    State(Box(seq(SLOTS, _ => seq(MESSAGE, _ => 0)), 0, 0), seq(senders, _ => SendIdle), seq(receivers, _ => RecvIdle),
          [], [], [])
  }

  ghost predicate IsRun(ss: seq<State>, cs: seq<Call>, senders: nat, receivers: nat) {
    && |ss| == |cs| + 1 && ss[0] == Init(senders, receivers)
    && forall i :: 0 <= i < |cs| ==> Shaped(ss[i].box) && Enabled(ss[i], cs[i]) && ss[i + 1] == Step(ss[i], cs[i])
  }

  /** Messages sent and not yet received. */
  function Occupancy(s: State): int { |s.sent| - |s.got| }

  // ---------- the ring holds the right bytes ----------

  function Least(a: nat, b: nat): nat { if a < b then a else b }

  /** A buffer of the n bytes asked for, which agrees with the message on every byte that the message has. */
  predicate Delivered(message: seq<Byte>, n: nat, buffer: seq<Byte>) {
    var both := Least(|message|, n);
    |buffer| == n && buffer[..both] == message[..both]
  }

  /** Messages number `from` and up are in their slots. */
  ghost predicate InSlots(b: Box, sent: seq<seq<Byte>>, from: nat) {
    && Shaped(b)
    && forall k: nat :: from <= k < |sent| ==> sent[k] <= b.slots[k % SLOTS]
  }

  /** The counters are the totals modulo 2^32, waiting messages are in their slots, and what was received is what
      was sent, in order. */
  ghost predicate Refines(s: State) {
    && Shaped(s.box) && 0 <= Occupancy(s) <= SLOTS
    && s.box.readNum == |s.got| % U32 && s.box.writeNum == |s.sent| % U32
    && (forall k :: 0 <= k < |s.sent| ==> |s.sent[k]| <= MESSAGE)
    && InSlots(s.box, s.sent, |s.got|)
    && |s.wanted| == |s.got| && (forall k :: 0 <= k < |s.got| ==> Delivered(s.sent[k], s.wanted[k], s.got[k]))
  }

  /** The full and empty tests are right across the wrap of the counters. */
  lemma TestsAreExact(s: State)
    requires Refines(s)
    ensures IsFull(s.box) <==> Occupancy(s) == SLOTS
    ensures IsEmpty(s.box) <==> Occupancy(s) == 0
  {
  }

  lemma SlotOf(k: nat)
    ensures k % U32 % SLOTS == k % SLOTS
  {
  }

  lemma DistinctSlots(k: nat, w: nat)
    requires w - SLOTS < k < w
    ensures k % SLOTS != w % SLOTS
  {
  }

  lemma PutKeepsSlots(b: Box, sent: seq<seq<Byte>>, from: nat, message: seq<Byte>)
    requires InSlots(b, sent, from) && |message| <= MESSAGE && b.writeNum == |sent| % U32
    requires |sent| - from < SLOTS
    ensures InSlots(Put(b, message), sent + [message], from)
  {
    var w := |sent|;
    SlotOf(w);
    var at := w % SLOTS;
    var b' := Put(b, message);
    assert b'.slots == b.slots[at := message + b.slots[at][|message|..]];
    forall k: nat | from <= k < w + 1 ensures (sent + [message])[k] <= b'.slots[k % SLOTS] {
      if k < w { DistinctSlots(k, w); assert b'.slots[k % SLOTS] == b.slots[k % SLOTS]; }
    }
  }

  lemma SlotDelivers(m: seq<Byte>, slot: seq<Byte>, n: nat)
    requires m <= slot && n <= |slot|
    ensures Delivered(m, n, slot[..n])
  {
    var both := Least(|m|, n);
    assert slot[..n][..both] == slot[..both] == m[..both];
  }

  lemma NextCounter(n: nat)
    ensures (n % U32 + 1) % U32 == (n + 1) % U32
  {
  }

  lemma FinishSendRefines(s: State, i: nat, message: seq<Byte>)
    requires Refines(s) && i < |s.senders| && |message| <= MESSAGE && Occupancy(s) < SLOTS
    ensures Refines(FinishSend(s, i, message))
  {
    PutKeepsSlots(s.box, s.sent, |s.got|, message);
    NextCounter(|s.sent|);
  }

  lemma FinishRecvRefines(s: State, i: nat, n: nat)
    requires Refines(s) && i < |s.receivers| && n <= MESSAGE && 0 < Occupancy(s)
    ensures Refines(FinishRecv(s, i, n))
  {
    var g := |s.got|;
    SlotOf(g);
    NextCounter(g);
    var slot := s.box.slots[g % SLOTS];
    assert s.sent[g] <= slot;
    SlotDelivers(s.sent[g], slot, n);
    var s' := FinishRecv(s, i, n);
    assert s'.got[g] == slot[..n];
    assert s'.wanted[g] == n && forall k :: 0 <= k < g ==> s'.got[k] == s.got[k] && s'.wanted[k] == s.wanted[k];
    assert InSlots(s'.box, s.sent, g + 1);
  }

  // ---------- one sender and one receiver ----------

  /** Who can be where: somebody blocked means the box is full (empty); somebody woken has its slot for sure. */
  ghost predicate Positions(s: State) {
    && (forall i :: 0 <= i < |s.senders| && s.senders[i].SendBlocked? ==> Occupancy(s) == SLOTS && |s.senders[i].message| <= MESSAGE)
    && (forall i :: 0 <= i < |s.receivers| && s.receivers[i].RecvBlocked? ==> Occupancy(s) == 0 && s.receivers[i].n <= MESSAGE)
    && (forall i :: 0 <= i < |s.senders| && s.senders[i].SendWoken? ==>
          |s.senders| == 1 && Occupancy(s) < SLOTS && |s.senders[i].message| <= MESSAGE)
    && (forall i :: 0 <= i < |s.receivers| && s.receivers[i].RecvWoken? ==>
          |s.receivers| == 1 && 0 < Occupancy(s) && s.receivers[i].n <= MESSAGE)
  }

  /** The numbers of senders and receivers for which the `if` in send and recv is enough. */
  predicate FewEnough(senders: nat, receivers: nat) {
    senders == 0 || receivers == 0 || (senders == 1 && receivers == 1)
  }

  lemma SendKeeps(s: State, i: nat, message: seq<Byte>)
    requires Refines(s) && Positions(s) && FewEnough(|s.senders|, |s.receivers|) && Enabled(s, Send(i, message))
    ensures var s' := Step(s, Send(i, message)); Refines(s') && Positions(s')
  {
    TestsAreExact(s);
    if !IsFull(s.box) { FinishSendRefines(s, i, message); }
  }

  lemma ResumeSendKeeps(s: State, i: nat)
    requires Refines(s) && Positions(s) && FewEnough(|s.senders|, |s.receivers|) && Enabled(s, ResumeSend(i))
    ensures var s' := Step(s, ResumeSend(i)); Refines(s') && Positions(s')
  {
    FinishSendRefines(s, i, s.senders[i].message);
  }

  lemma RecvKeeps(s: State, i: nat, n: nat)
    requires Refines(s) && Positions(s) && FewEnough(|s.senders|, |s.receivers|) && Enabled(s, Recv(i, n))
    ensures var s' := Step(s, Recv(i, n)); Refines(s') && Positions(s')
  {
    TestsAreExact(s);
    if !IsEmpty(s.box) { FinishRecvRefines(s, i, n); }
  }

  lemma ResumeRecvKeeps(s: State, i: nat)
    requires Refines(s) && Positions(s) && FewEnough(|s.senders|, |s.receivers|) && Enabled(s, ResumeRecv(i))
    ensures var s' := Step(s, ResumeRecv(i)); Refines(s') && Positions(s')
  {
    FinishRecvRefines(s, i, s.receivers[i].n);
  }

  lemma StepKeeps(s: State, c: Call)
    requires Refines(s) && Positions(s) && Enabled(s, c) && FewEnough(|s.senders|, |s.receivers|)
    ensures Refines(Step(s, c)) && Positions(Step(s, c))
  {
    match c
    case Send(i, message) => SendKeeps(s, i, message);
    case ResumeSend(i) => ResumeSendKeeps(s, i);
    case Recv(i, n) => RecvKeeps(s, i, n);
    case ResumeRecv(i) => ResumeRecvKeeps(s, i);
  }

  lemma {:induction false} EveryRunRefines(ss: seq<State>, cs: seq<Call>, senders: nat, receivers: nat, i: nat)
    requires IsRun(ss, cs, senders, receivers) && i < |ss| && FewEnough(senders, receivers)
    ensures Refines(ss[i]) && Positions(ss[i]) && |ss[i].senders| == senders && |ss[i].receivers| == receivers
  {
    if i > 0 {
      EveryRunRefines(ss, cs, senders, receivers, i - 1);
      StepKeeps(ss[i - 1], cs[i - 1]);
    }
  }

  // ---------- what the calls asked for ----------

  /** The messages of all sends, and the lengths of all receives, in the order of the calls. */
  function SendsOf(cs: seq<Call>): seq<seq<Byte>> {
    if cs == [] then [] else SendsOf(cs[..|cs| - 1]) + if cs[|cs| - 1].Send? then [cs[|cs| - 1].message] else []
  }

  function LengthsOf(cs: seq<Call>): seq<nat> {
    if cs == [] then [] else LengthsOf(cs[..|cs| - 1]) + if cs[|cs| - 1].Recv? then [cs[|cs| - 1].n] else []
  }

  /** The call that has begun and not come through yet. */
  function PendingSend(x: Sender): seq<seq<Byte>> { if x.SendIdle? then [] else [x.message] }
  function PendingRecv(x: Receiver): seq<nat> { if x.RecvIdle? then [] else [x.n] }

  lemma StepSends(s: State, c: Call)
    requires Shaped(s.box) && Enabled(s, c) && |s.senders| == 1
    ensures var s' := Step(s, c);
      && |s'.senders| == 1
      && s'.sent + PendingSend(s'.senders[0]) == s.sent + PendingSend(s.senders[0]) + if c.Send? then [c.message] else []
  {
  }

  lemma StepLengths(s: State, c: Call)
    requires Shaped(s.box) && Enabled(s, c) && |s.receivers| == 1
    ensures var s' := Step(s, c);
      && |s'.receivers| == 1
      && s'.wanted + PendingRecv(s'.receivers[0]) == s.wanted + PendingRecv(s.receivers[0]) + if c.Recv? then [c.n] else []
  {
  }

  /** With one sender, what has gone into the box is what its calls brought, in order, but for one that is blocked or only
      just woken. */
  lemma {:induction false} SentIsOfCalls(ss: seq<State>, cs: seq<Call>, receivers: nat, i: nat)
    requires IsRun(ss, cs, 1, receivers) && i < |ss|
    ensures |ss[i].senders| == 1 && ss[i].sent + PendingSend(ss[i].senders[0]) == SendsOf(cs[..i])
  {
    if i > 0 {
      SentIsOfCalls(ss, cs, receivers, i - 1);
      StepSends(ss[i - 1], cs[i - 1]);
      assert cs[..i][..i - 1] == cs[..i - 1];
    }
  }

  /** With one receiver, the lengths of the receives that came through are those its calls asked for. */
  lemma {:induction false} WantedIsOfCalls(ss: seq<State>, cs: seq<Call>, senders: nat, i: nat)
    requires IsRun(ss, cs, senders, 1) && i < |ss|
    ensures |ss[i].receivers| == 1 && ss[i].wanted + PendingRecv(ss[i].receivers[0]) == LengthsOf(cs[..i])
  {
    if i > 0 {
      WantedIsOfCalls(ss, cs, senders, i - 1);
      StepLengths(ss[i - 1], cs[i - 1]);
      assert cs[..i][..i - 1] == cs[..i - 1];
    }
  }

  /** One sender and one receiver, any number of messages, with calls that go through at once or block and resume: at most
      32 messages wait, the k-th call of receive delivers the message of the k-th call of send, up to the length it asked
      for, all but a blocked last call have come through, and the two never wait for each other. */
  lemma BoxIsABoundedFifo(ss: seq<State>, cs: seq<Call>, i: nat)
    requires IsRun(ss, cs, 1, 1) && i < |ss|
    ensures 0 <= Occupancy(ss[i]) <= SLOTS
    ensures |ss[i].got| <= |SendsOf(cs[..i])| && |ss[i].got| <= |LengthsOf(cs[..i])|
    ensures forall k :: 0 <= k < |ss[i].got| ==> Delivered(SendsOf(cs[..i])[k], LengthsOf(cs[..i])[k], ss[i].got[k])
    ensures |ss[i].senders| == |ss[i].receivers| == 1
    ensures |ss[i].sent| + |PendingSend(ss[i].senders[0])| == |SendsOf(cs[..i])|
    ensures |ss[i].got| + |PendingRecv(ss[i].receivers[0])| == |LengthsOf(cs[..i])|
    ensures !(ss[i].senders[0].SendBlocked? && ss[i].receivers[0].RecvBlocked?)
  {
    EveryRunRefines(ss, cs, 1, 1, i);
    SentIsOfCalls(ss, cs, 1, i);
    WantedIsOfCalls(ss, cs, 1, i);
  }

  // ---------- with more of either, the bounds fail ----------

  lemma PutShaped(b: Box, message: seq<Byte>)
    requires Shaped(b) && |message| <= MESSAGE
    ensures Shaped(Put(b, message))
  {
  }

  lemma Extend(ss0: seq<State>, cs0: seq<Call>, senders: nat, receivers: nat, c: Call)
    returns (ss: seq<State>, cs: seq<Call>)
    requires IsRun(ss0, cs0, senders, receivers) && Shaped(ss0[|cs0|].box) && Enabled(ss0[|cs0|], c)
    ensures IsRun(ss, cs, senders, receivers) && |cs| == |cs0| + 1 && ss[|cs|] == Step(ss0[|cs0|], c)
  {
    ss, cs := ss0 + [Step(ss0[|cs0|], c)], cs0 + [c];
    forall i | 0 <= i < |cs| ensures Shaped(ss[i].box) && Enabled(ss[i], cs[i]) && ss[i + 1] == Step(ss[i], cs[i]) {
      if i < |cs0| { assert ss[i] == ss0[i] && ss[i + 1] == ss0[i + 1] && cs[i] == cs0[i]; }
    }
  }

  /** n messages from sender 0 into an untouched box. */
  lemma {:induction false} Fill(senders: nat, receivers: nat, n: nat) returns (ss: seq<State>, cs: seq<Call>)
    requires 1 <= senders && n <= SLOTS
    ensures IsRun(ss, cs, senders, receivers) && Refines(ss[|cs|]) && Occupancy(ss[|cs|]) == n
    ensures ss[|cs|].senders == Init(senders, receivers).senders && ss[|cs|].receivers == Init(senders, receivers).receivers
  {
    if n == 0 {
      ss, cs := [Init(senders, receivers)], [];
    } else {
      var ss0, cs0 := Fill(senders, receivers, n - 1);
      var s := ss0[|cs0|];
      TestsAreExact(s);
      FinishSendRefines(s, 0, []);
      ss, cs := Extend(ss0, cs0, senders, receivers, Send(0, []));
      assert ss[|cs|].senders == s.senders && ss[|cs|].receivers == s.receivers;
    }
  }

  /** Two senders blocked on a full box are both woken by one receive, and both put their message: 33 in the box. */
  lemma TwoSendersOverflow(senders: nat, receivers: nat) returns (ss: seq<State>, cs: seq<Call>)
    requires 2 <= senders && 1 <= receivers
    ensures IsRun(ss, cs, senders, receivers) && Occupancy(ss[|cs|]) == SLOTS + 1
  {
    ss, cs := Fill(senders, receivers, SLOTS);
    TestsAreExact(ss[|cs|]);
    ss, cs := Extend(ss, cs, senders, receivers, Send(0, []));
    ss, cs := Extend(ss, cs, senders, receivers, Send(1, []));
    ss, cs := Extend(ss, cs, senders, receivers, Recv(0, 0));
    ss, cs := Extend(ss, cs, senders, receivers, ResumeSend(0));
    PutShaped(ss[|cs| - 1].box, []);
    ss, cs := Extend(ss, cs, senders, receivers, ResumeSend(1));
  }

  /** Two receivers blocked on an empty box are both woken by one send, and both take a message: one too many. */
  lemma TwoReceiversUnderflow(senders: nat, receivers: nat) returns (ss: seq<State>, cs: seq<Call>)
    requires 1 <= senders && 2 <= receivers
    ensures IsRun(ss, cs, senders, receivers) && Occupancy(ss[|cs|]) == -1
  {
    ss, cs := Fill(senders, receivers, 0);
    TestsAreExact(ss[|cs|]);
    ss, cs := Extend(ss, cs, senders, receivers, Recv(0, 0));
    ss, cs := Extend(ss, cs, senders, receivers, Recv(1, 0));
    PutShaped(ss[|cs|].box, []);
    ss, cs := Extend(ss, cs, senders, receivers, Send(0, []));
    ss, cs := Extend(ss, cs, senders, receivers, ResumeRecv(0));
    ss, cs := Extend(ss, cs, senders, receivers, ResumeRecv(1));
  }

  ghost predicate AlwaysInBounds(senders: nat, receivers: nat) {
    forall ss, cs :: IsRun(ss, cs, senders, receivers) ==> 0 <= Occupancy(ss[|cs|]) <= SLOTS
  }

  /** The box stays within its bounds exactly when nobody shares an end of it with somebody at the other end. */
  lemma BoundsHoldExactlyFor(senders: nat, receivers: nat)
    ensures AlwaysInBounds(senders, receivers) <==> FewEnough(senders, receivers)
  {
    if FewEnough(senders, receivers) {
      forall ss, cs | IsRun(ss, cs, senders, receivers) ensures 0 <= Occupancy(ss[|cs|]) <= SLOTS {
        EveryRunRefines(ss, cs, senders, receivers, |cs|);
      }
    } else if senders >= 2 {
      var ss, cs := TwoSendersOverflow(senders, receivers);
    } else {
      var ss, cs := TwoReceiversUnderflow(senders, receivers);
    }
  }
}
