/**
 The receiving side of an overflow: `MutexVecQueue` (src/mutex_vec_queue.rs), as one of the
 threads that share it sees it. Its queue of values is a sequence with append.

 The other threads append and take values whenever this thread does not hold the mutex. What
 this thread hands over in a call is shown to go in as one piece, once.
 */
module BatchReceiver {

  /** The queue is the end of everything ever appended. */
  ghost predicate IsEnd<T>(items: seq<T>, log: seq<T>) {
    |items| <= |log| && items == log[|log| - |items|..]
  }

  /** Each batch is in the log in one piece, at a place of its own. */
  ghost predicate InPieces<T>(log: seq<T>, given: seq<seq<T>>, places: seq<nat>) {
    && |places| == |given|
    && (forall k: nat {:trigger places[k]} {:trigger given[k]} :: k < |given| ==>
          places[k] + |given[k]| <= |log| && log[places[k]..places[k] + |given[k]|] == given[k])
    && (forall k: nat, l: nat {:trigger places[k], places[l]} :: k < l < |given| ==>
          places[k] + |given[k]| <= places[l])
  }

  lemma PiecesStay<T>(log: seq<T>, log': seq<T>, given: seq<seq<T>>, places: seq<nat>)
    requires InPieces(log, given, places) && log <= log'
    ensures InPieces(log', given, places)
  {
    forall k: nat | k < |given| ensures log'[places[k]..places[k] + |given[k]|] == given[k] {
      assert log'[places[k]..places[k] + |given[k]|] == log[places[k]..places[k] + |given[k]|];
    }
  }

  lemma OnePieceMore<T>(log: seq<T>, given: seq<seq<T>>, places: seq<nat>, batch: seq<T>)
    requires InPieces(log, given, places)
    ensures InPieces(log + batch, given + [batch], places + [|log|])
  {
    PiecesStay(log, log + batch, given, places);
  }

  lemma AppendedInPieces<T>(log: seq<T>, first: seq<T>, last: seq<T>, slice: seq<T>)
    ensures log + first + last + slice == log + (first + last + slice)
  {
  }

  class MutexVecQueue<T> {
    var items: seq<T>
    var locked: bool
    var mine: bool                    // this thread is the one that holds the mutex
    ghost var log: seq<T>             // everything ever appended, in order
    ghost var given: seq<seq<T>>      // the batches that this thread appended
    ghost var places: seq<nat>        // where in the log they start

    ghost predicate Valid()
      reads this
    {
      IsEnd(items, log) && InPieces(log, given, places) && (mine ==> locked)
    }

    constructor ()
      ensures Valid() && !mine && given == []
    {
      items, locked, mine := [], false, false;
      log, given, places := [], [], [];
    }

    /** Another thread appends values, takes values from the front, locks or unlocks. */
    method OtherMoves(vals: seq<T>, n: nat, busy: bool)
      requires Valid() && !mine
      modifies `items, `locked, `log
      ensures Valid() && old(log) <= log
    {
      PiecesStay(log, log + vals, given, places);
      items, log := items + vals, log + vals;
      if n <= |items| {
        items := items[n..];
      }
      locked := busy;
    }

    /** The other threads move, unless this thread holds the mutex. */
    method OthersMove()
      requires Valid()
      modifies `items, `locked, `log
      ensures Valid() && old(log) <= log
      ensures mine ==> items == old(items) && log == old(log)
    {
      if mine {
        return;
      }
      var moves: nat := *;
      while moves > 0
        invariant Valid() && old(log) <= log
      {
        var vals: seq<T>, n: nat, busy: bool := *, *, *;
        OtherMoves(vals, n, busy);
        moves := moves - 1;
      }
    }

    /** The answer is whether this thread got the mutex; if not, somebody else has it. */
    method TryLock() returns (ok: bool)
      requires Valid() && !mine
      modifies `items, `locked, `log, `mine
      ensures Valid() && old(log) <= log && locked && ok == mine
    {
      OthersMove();
      ok := !locked;
      if ok {
        locked, mine := true, true;
      }
    }

    /** Waits until whoever has the mutex releases it. */
    method Lock()
      requires Valid() && !mine
      modifies `items, `locked, `log, `mine
      ensures Valid() && old(log) <= log && mine
    {
      OthersMove();
      locked, mine := true, true;
    }

    method Unlock()
      requires Valid() && mine
      modifies `items, `locked, `log, `mine
      ensures Valid() && old(log) <= log && !mine
    {
      locked, mine := false, false;
      OthersMove();
    }

    method PushManyAndOneWithInner(first: seq<T>, last: seq<T>, value: T)
      requires Valid() && mine
      modifies `items, `log, `given, `places
      ensures Valid() && old(log) <= log && given == old(given) + [first + last + [value]]
    {
      OnePieceMore(log, given, places, first + last + [value]);
      AppendedInPieces(log, first, last, [value]);
      AppendedInPieces(items, first, last, [value]);
      items := items + first;
      items := items + last;
      items := items + [value];
      log, given, places := log + (first + last + [value]), given + [first + last + [value]], places + [|log|];
    }

    method PushManyAndSliceWithInner(first: seq<T>, last: seq<T>, slice: seq<T>)
      requires Valid() && mine
      modifies `items, `log, `given, `places
      ensures Valid() && old(log) <= log && given == old(given) + [first + last + slice]
    {
      OnePieceMore(log, given, places, first + last + slice);
      AppendedInPieces(log, first, last, slice);
      AppendedInPieces(items, first, last, slice);
      items := items + first;
      items := items + last;
      items := items + slice;
      log, given, places := log + (first + last + slice), given + [first + last + slice], places + [|log|];
    }

    /** The slices and the value go in as one piece, whatever other threads append meanwhile. */
    method PushManyAndOne(first: seq<T>, last: seq<T>, value: T)
      requires Valid() && !mine
      modifies this
      ensures Valid() && !mine && old(log) <= log && given == old(given) + [first + last + [value]]
    {
      Lock();
      PushManyAndOneWithInner(first, last, value);
      Unlock();
    }

    method PushManyAndSlice(first: seq<T>, last: seq<T>, slice: seq<T>)
      requires Valid() && !mine
      modifies this
      ensures Valid() && !mine && old(log) <= log && given == old(given) + [first + last + slice]
    {
      Lock();
      PushManyAndSliceWithInner(first, last, slice);
      Unlock();
    }
  }
}
