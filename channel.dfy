/** The receiver's bit queue (MainActivity's `bitQueue`, which the analyzer
    knows as `ext_queue`): the analyzer appends decoded bits at the tail and
    the interpreter polls them from the head or clears them. */
module Channel {
  import opened Common

  class BitQueue {
    /** The queued bits, oldest first. */
    var items: seq<Bit>

    constructor()
      ensures items == []
    {
      items := [];
    }

    /** `add`: appends at the tail. */
    method Add(b: Bit)
      modifies this
      ensures items == old(items) + [b]
    {
      items := items + [b];
    }

    /** `isEmpty`. */
    method IsEmpty() returns (empty: bool)
      ensures empty <==> items == []
    {
      empty := items == [];
    }

    /** `poll`: removes and returns the head, or nothing when the queue is
        empty. */
    method Poll() returns (head: Option<Bit>)
      modifies this
      ensures old(items) == [] ==> head == None && items == []
      ensures old(items) != [] ==> head == Some(old(items)[0]) && items == old(items)[1..]
    {
      if items == [] {
        head := None;
      } else {
        head := Some(items[0]);
        items := items[1..];
      }
    }

    /** `clear`. */
    method Clear()
      modifies this
      ensures items == []
    {
      items := [];
    }
  }
}
