/** The storage half of mbox.c: the full and empty tests and the two copy loops, over the box's 32 x 32 bytes. */
module MessageBoxes {
  import opened Mailboxes

  class MessageBox {
    const content: array2<Byte>
    var readNum: nat
    var writeNum: nat

    ghost predicate Valid()
      reads this
    {
      content.Length0 == SLOTS && content.Length1 == MESSAGE && readNum < U32 && writeNum < U32
    }

    ghost function Row(i: nat): (r: seq<Byte>)
      requires Valid() && i < SLOTS
      reads this, content
      ensures |r| == MESSAGE
    {
      seq(MESSAGE, j requires 0 <= j < MESSAGE && content.Length1 == MESSAGE && i < content.Length0 reads content => content[i, j])
    }

    ghost function Abs(): (b: Box)
      requires Valid()
      reads this, content
      ensures Shaped(b)
    {
      Box(seq(SLOTS, i requires 0 <= i < SLOTS && Valid() reads this, content => Row(i)), readNum, writeNum)
    }

    /** init_mbox() for one box. */
    constructor ()
      ensures Valid() && fresh(content) && Abs() == Init(0, 0).box
    {
      content := new Byte[SLOTS, MESSAGE]((i, j) => 0);
      readNum, writeNum := 0, 0;
      new;
      forall i: nat | i < SLOTS ensures Row(i) == seq(MESSAGE, _ => 0 as Byte) { }
    }

    method DoMboxIsFull() returns (full: bool)
      requires Valid()
      ensures full == IsFull(Abs())
    {
      full := (readNum + SLOTS) % U32 == writeNum;
    }

    method DoMboxIsEmpty() returns (empty: bool)
      requires Valid()
      ensures empty == IsEmpty(Abs())
    {
      empty := readNum == writeNum;
    }

    /** The copy and count of do_mbox_send(), between lock_acquire() and lock_release(). */
    method Store(msg: array<Byte>, nbytes: int)
      requires Valid() && Copied(nbytes) <= msg.Length
      modifies this`writeNum, content
      ensures Valid() && Abs() == Put(old(Abs()), old(msg[..Copied(nbytes)]))
      ensures forall k, j :: 0 <= k < 32 && 0 <= j < 32 ==>
                content[k, j] == if k == old(writeNum) % 32 && j < nbytes then old(msg[j]) else old(content[k, j])
      ensures writeNum == (old(writeNum) + 1) % 0x1_0000_0000
    {
      ghost var before := Abs();
      var at := writeNum % SLOTS;
      var i := 0;
      while i < nbytes && i < MESSAGE
        invariant 0 <= i <= Copied(nbytes)
        invariant forall j :: 0 <= j < i ==> content[at, j] == msg[j]
        invariant forall k, j :: 0 <= k < SLOTS && 0 <= j < MESSAGE && (k != at || i <= j) ==> content[k, j] == old(content[k, j])
        modifies content
      {
        content[at, i] := msg[i];
        i := i + 1;
      }
      writeNum := (writeNum + 1) % U32;
      ghost var after := Put(before, msg[..i]);
      forall k: nat | k < SLOTS ensures Row(k) == after.slots[k] { }
    }

    /** The copy and count of do_mbox_recv(). */
    method Fetch(msg: array<Byte>, nbytes: int)
      requires Valid() && Copied(nbytes) <= msg.Length
      modifies this`readNum, msg
      ensures Valid() && Abs() == Advance(old(Abs()))
      ensures msg[..] == Front(old(Abs()), Copied(nbytes)) + old(msg[Copied(nbytes)..])
      ensures forall j :: 0 <= j < msg.Length ==>
                msg[j] == if j < nbytes && j < 32 then content[old(readNum) % 32, j] else old(msg[j])
      ensures readNum == (old(readNum) + 1) % 0x1_0000_0000
    {
      ghost var before := Abs();
      var at := readNum % SLOTS;
      var i := 0;
      while i < nbytes && i < MESSAGE
        invariant 0 <= i <= Copied(nbytes)
        invariant forall j :: 0 <= j < i ==> msg[j] == content[at, j]
        invariant forall j :: i <= j < msg.Length ==> msg[j] == old(msg[j])
        modifies msg
      {
        msg[i] := content[at, i];
        i := i + 1;
      }
      readNum := (readNum + 1) % U32;
      assert before.slots[at] == Row(at);
      assert msg[..] == msg[..i] + msg[i..];
      forall k: nat | k < SLOTS ensures Row(k) == before.slots[k] { }
    }
  }
}
