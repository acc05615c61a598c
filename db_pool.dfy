/**
 * The game socket server's `DbPool`: connection slots with an in-use flag
 * each. A connection is named by a number; each new connection gets the
 * next unused number, so two slots never share one. Whether a connection
 * is still open is a parameter, and so is whether opening a new one
 * throws.
 */
module DbPool {
  import opened Wrappers

  /** The lowest free slot. */
  function FirstFree(inUse: seq<bool>): (r: Option<nat>)
    ensures r.Some? ==> r.value < |inUse| && !inUse[r.value] && forall j :: 0 <= j < r.value ==> inUse[j]
    ensures r.None? ==> forall j :: 0 <= j < |inUse| ==> inUse[j]
  {
    if |inUse| == 0 then None
    else if !inUse[0] then Some(0)
    else
      var r := FirstFree(inUse[1..]);
      if r.None? then None else Some(r.value + 1)
  }

  /** The first slot holding connection `c`. */
  function SlotOf(connections: seq<nat>, c: nat): (r: Option<nat>)
    ensures r.Some? ==> r.value < |connections| && connections[r.value] == c && forall j :: 0 <= j < r.value ==> connections[j] != c
    ensures r.None? ==> c !in connections
  {
    if |connections| == 0 then None
    else if connections[0] == c then Some(0)
    else
      var r := SlotOf(connections[1..], c);
      if r.None? then None else Some(r.value + 1)
  }

  predicate Distinct(connections: seq<nat>)
  {
    forall i, j :: 0 <= i < j < |connections| ==> connections[i] != connections[j]
  }

  /** A connection that occurs in a slot is found in that slot. */
  lemma SlotOfDistinct(connections: seq<nat>, i: nat)
    requires Distinct(connections) && i < |connections|
    ensures SlotOf(connections, connections[i]) == Some(i)
  {
  }

  class Pool {
    var connections: seq<nat>
    var inUse: seq<bool>
    var nextConnection: nat

    /** One flag per slot, and every connection a different one, numbered below `nextConnection`. */
    predicate Valid()
      reads this
    {
      |connections| == |inUse| && Distinct(connections) &&
      forall i :: 0 <= i < |connections| ==> connections[i] < nextConnection
    }

    /** The constructor: `poolSize` new connections, all free (none when `poolSize` is not positive). */
    constructor(poolSize: int)
      ensures Valid()
      ensures |connections| == (if poolSize > 0 then poolSize else 0)
      ensures forall i :: 0 <= i < |inUse| ==> !inUse[i]
    {
      connections := [];
      inUse := [];
      nextConnection := 0;
      new;
      var i := 0;
      while i < poolSize
        invariant 0 <= i == |connections| == |inUse| == nextConnection
        invariant i <= poolSize || i == 0
        invariant forall k :: 0 <= k < i ==> connections[k] == k && !inUse[k]
      {
        connections := connections + [nextConnection];
        inUse := inUse + [false];
        nextConnection := nextConnection + 1;
        i := i + 1;
      }
    }

    /**
     * `get_connection`: the lowest free slot is taken; a closed connection
     * there is replaced by a new one, and when that fails the slot is free
     * again and the error goes to the caller. With every slot in use the
     * pool grows by one slot, taken at once.
     */
    method GetConnection(isOpen: nat -> bool, connectFails: bool) returns (r: Result<nat>)
      requires Valid()
      modifies this
      ensures Valid()
      ensures var free := FirstFree(old(inUse));
        if free.Some? then
          var i := free.value;
          if isOpen(old(connections)[i]) then
            r == Ok(old(connections)[i]) && connections == old(connections) && inUse == old(inUse)[i := true] &&
            nextConnection == old(nextConnection)
          else if connectFails then
            r.Err? && connections == old(connections) && inUse == old(inUse) && nextConnection == old(nextConnection)
          else
            r == Ok(old(nextConnection)) && connections == old(connections)[i := old(nextConnection)] &&
            inUse == old(inUse)[i := true] && nextConnection == old(nextConnection) + 1
        else if connectFails then
          r.Err? && connections == old(connections) && inUse == old(inUse) && nextConnection == old(nextConnection)
        else
          r == Ok(old(nextConnection)) && connections == old(connections) + [old(nextConnection)] &&
          inUse == old(inUse) + [true] && nextConnection == old(nextConnection) + 1
    {
      var i := 0;
      while i < |connections|
        invariant 0 <= i <= |connections|
        invariant forall j :: 0 <= j < i ==> inUse[j]
      {
        if !inUse[i] {
          assert FirstFree(inUse) == Some(i);
          inUse := inUse[i := true];
          if !isOpen(connections[i]) {
            if connectFails {
              inUse := inUse[i := false];
              return Err("Failed to reconnect");
            }
            connections := connections[i := nextConnection];
            nextConnection := nextConnection + 1;
          }
          return Ok(connections[i]);
        }
        i := i + 1;
      }
      assert FirstFree(inUse).None?;
      if connectFails {
        return Err("Failed to create new connection");
      }
      connections := connections + [nextConnection];
      inUse := inUse + [true];
      r := Ok(nextConnection);
      nextConnection := nextConnection + 1;
    }

    /** `return_connection`: the first slot holding `c` is free again; an unknown `c` changes nothing. */
    method ReturnConnection(c: nat)
      requires Valid()
      modifies this
      ensures Valid()
      ensures connections == old(connections) && nextConnection == old(nextConnection)
      ensures var slot := SlotOf(old(connections), c);
        inUse == if slot.Some? then old(inUse)[slot.value := false] else old(inUse)
    {
      var i := 0;
      while i < |connections|
        invariant 0 <= i <= |connections|
        invariant forall j :: 0 <= j < i ==> connections[j] != c
      {
        if connections[i] == c {
          assert SlotOf(connections, c) == Some(i);
          inUse := inUse[i := false];
          return;
        }
        i := i + 1;
      }
    }
  }

  /**
   * Taking the lowest free slot marks exactly that slot, and the next
   * request looks further on.
   */
  lemma TakeFirstFree(inUse: seq<bool>)
    requires FirstFree(inUse).Some?
    ensures var i := FirstFree(inUse).value;
      var next := FirstFree(inUse[i := true]);
      (next.None? || next.value > i) &&
      forall j :: 0 <= j < |inUse| && j != i ==> inUse[i := true][j] == inUse[j]
  {
  }

  /** Returning the connection just taken frees its slot and restores the flags. */
  lemma ReturnUndoesTake(connections: seq<nat>, inUse: seq<bool>)
    requires Distinct(connections) && |connections| == |inUse| && FirstFree(inUse).Some?
    ensures var i := FirstFree(inUse).value;
      SlotOf(connections, connections[i]) == Some(i) && inUse[i := true][i := false] == inUse
  {
    SlotOfDistinct(connections, FirstFree(inUse).value);
  }
}
