/** The FIFO queues of the contract VM (vm/callstack.go): pushed at the front, removed at the back. */
module Queues {
  import opened Words

  function Reversed<T>(s: seq<T>): (r: seq<T>)
    ensures |r| == |s|
    ensures forall i :: 0 <= i < |s| ==> r[i] == s[|s| - 1 - i]
  {
    seq(|s|, i requires 0 <= i < |s| => s[|s| - 1 - i])
  }

  class Fifo<T> {
    var lst: seq<T>

    constructor ()
      ensures Contents() == []
    {
      lst := [];
    }

    /** What is queued, oldest first. */
    ghost function Contents(): seq<T>
      reads this
    {
      Reversed(lst)
    }

    method Offer(x: T)
      modifies this
      ensures Contents() == old(Contents()) + [x]
    {
      lst := [x] + lst;
    }

    method Poll() returns (x: Option<T>)
      modifies this
      ensures old(Contents()) == [] ==> x == None && Contents() == []
      ensures old(Contents()) != [] ==> x == Some(old(Contents())[0]) && Contents() == old(Contents())[1..]
    {
      if lst == [] { return None; }
      x := Some(lst[|lst| - 1]);
      lst := lst[..|lst| - 1];
    }
  }
}
