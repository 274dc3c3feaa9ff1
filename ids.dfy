/**
 * The two process-wide id counters (`WINDOW_ID`, `OBJECT_ID`): each hands out
 * its current value and advances by one, wrapping at 2^32 as an atomic
 * `fetch_add` does. The statics become the two fields of one `IdCounters`
 * object that every caller shares.
 */
module Ids {
  import opened Ints
  import opened Errors

  const WRAPPED_MESSAGE: string := "ommatidium window_id tracker wrapped u32::MAX. Failed State."

  /** `fetch_add(1)` on a 32-bit atomic: the successor modulo 2^32. */
  function FetchAdd(v: u32): (r: u32)
    ensures r as int == (v as int + 1) % U32_LIMIT
    ensures r == 0 <==> v == U32_LIMIT - 1
  {
    if v == U32_LIMIT - 1 then 0 else v + 1
  }

  /** The ids handed out by `n` successive calls when the counter starts at `start`. */
  function Issued(start: u32, n: nat): seq<u32>
    decreases n
  {
    if n == 0 then [] else [start] + Issued(FetchAdd(start), n - 1)
  }

  /** The i-th id handed out is start + i modulo 2^32: consecutive until the wrap, then from 0. */
  lemma {:induction false} IssuedModular(start: u32, n: nat)
    ensures |Issued(start, n)| == n
    ensures forall i :: 0 <= i < n ==> Issued(start, n)[i] as int == (start as int + i) % U32_LIMIT
    decreases n
  {
    if n > 0 {
      var next := FetchAdd(start);
      IssuedModular(next, n - 1);
      forall i | 0 <= i < n
        ensures Issued(start, n)[i] as int == (start as int + i) % U32_LIMIT
      {
        if i > 0 {
          assert Issued(start, n)[i] == Issued(next, n - 1)[i - 1];
          ModSucc(start as int, i - 1);
        }
      }
    }
  }

  /** From a fresh counter, ids are 0, 1, 2, ... with no repeat, for the first 2^32 calls. */
  lemma FromZeroConsecutive(n: nat)
    requires n <= U32_LIMIT
    ensures |Issued(0, n)| == n
    ensures forall i :: 0 <= i < n ==> Issued(0, n)[i] == i
  {
    IssuedModular(0, n);
  }

  /** Call 2^32 + 1 hands out 0 again: the counter wraps silently. */
  lemma WrapRepeatsZero()
    ensures |Issued(0, U32_LIMIT + 1)| == U32_LIMIT + 1
    ensures Issued(0, U32_LIMIT + 1)[U32_LIMIT] == 0
  {
    IssuedModular(0, U32_LIMIT + 1);
  }

  lemma ModSucc(s: int, j: int)
    ensures (((s + 1) % U32_LIMIT) + j) % U32_LIMIT == (s + j + 1) % U32_LIMIT
  {
  }

  class IdCounters {
    var windowId: u32
    var objectId: u32

    /** Both statics start at 0. */
    constructor ()
      ensures windowId == 0 && objectId == 0
    {
      windowId, objectId := 0, 0;
    }

    /**
     * `next_window_id`: the value read before the increment. The wrap guard
     * compares the loaded value with the value `fetch_add` returns; run
     * sequentially they are the same, so the guard never fires and the call
     * always succeeds, even at u32::MAX.
     */
    method NextWindowId() returns (r: Result<u32>)
      modifies this`windowId
      ensures r == Ok(old(windowId))
      ensures windowId == FetchAdd(old(windowId))
    {
      var currentId := windowId;
      var id := windowId;
      windowId := FetchAdd(windowId);
      if currentId > id {
        return Err(WRAPPED_MESSAGE);
      }
      return Ok(id);
    }

    /** `current_window_id`: reads the counter. */
    function CurrentWindowId(): u32
      reads this
    {
      windowId
    }

    /** `next_object_id`: the same as `next_window_id` on the object counter (its message
        also names the window_id tracker). */
    method NextObjectId() returns (r: Result<u32>)
      modifies this`objectId
      ensures r == Ok(old(objectId))
      ensures objectId == FetchAdd(old(objectId))
    {
      var currentId := objectId;
      var id := objectId;
      objectId := FetchAdd(objectId);
      if currentId > id {
        return Err(WRAPPED_MESSAGE);
      }
      return Ok(id);
    }

    /** `current_object_id`: reads the counter. */
    function CurrentObjectId(): u32
      reads this
    {
      objectId
    }
  }
}
