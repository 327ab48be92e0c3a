/** The per-service id counter. Each service owns one, so users and pets are
    numbered independently. */
module IdManagement {

  class IdManager {
    var idCounter: int
    /** The ids handed out so far, in order. */
    ghost var issued: seq<int>

    /** The counter equals the number of ids issued, and those are 1, 2, 3, ... */
    ghost predicate Valid()
      reads this
    {
      && |issued| == idCounter
      && forall k :: 0 <= k < |issued| ==> issued[k] == k + 1
    }

    /** A fresh manager starts at 0 and has issued nothing. */
    constructor ()
      ensures Valid()
      ensures idCounter == 0 && issued == []
    {
      idCounter := 0;
      issued := [];
    }

    /** `++idCounter`: the next id is one more than the last, so it was never
        issued before and exceeds every earlier id. */
    method GetNextId() returns (id: int)
      requires Valid()
      modifies this
      ensures Valid()
      ensures id == old(idCounter) + 1 && idCounter == id
      ensures issued == old(issued) + [id]
      ensures forall j :: j in old(issued) ==> j < id
    {
      idCounter := idCounter + 1;
      id := idCounter;
      issued := issued + [id];
    }
  }
}
