/**
 The sliding replay window over the 64-bit transport counter
 (crates/wg-core/src/replay.rs).

 The abstract state is the set of all counters ever accepted. The class keeps
 only the highest of them and a ring of 1024 bits, and is proved to take
 exactly the decisions the whole set would take.
 */
module Replay {
  import opened Common

  const WINDOW_BITS := 1024
  const WORD_BITS := 64
  const WINDOW_WORDS := 16
  const REJECT_AFTER_MESSAGES := 0xFFFF_FFFF_FFFF_FFFF - 0x2000

  /** The rule, stated on the full history: below the limit, never accepted, and
      less than a window behind everything accepted so far. */
  predicate Fresh(accepted: set<nat>, counter: nat) {
    && counter < REJECT_AFTER_MESSAGES
    && counter !in accepted
    && forall a :: a in accepted ==> a - counter < WINDOW_BITS
  }

  function Record(accepted: set<nat>, counter: nat): (after: set<nat>) {
    if Fresh(accepted, counter) then accepted + {counter} else accepted
  }

  /** The counters of `tries`, in order, that the rule lets through. */
  function Delivered(accepted: set<nat>, tries: seq<nat>): (out: seq<nat>)
    decreases |tries|
  {
    if tries == [] then []
    else
      (if Fresh(accepted, tries[0]) then [tries[0]] else [])
      + Delivered(Record(accepted, tries[0]), tries[1..])
  }

  /** Whatever order and however often counters arrive, each is let through at most once. */
  lemma {:induction false} DeliveredOnce(accepted: set<nat>, tries: seq<nat>)
    ensures forall i :: 0 <= i < |Delivered(accepted, tries)| ==> Delivered(accepted, tries)[i] !in accepted
    ensures forall i, j :: 0 <= i < j < |Delivered(accepted, tries)| ==>
              Delivered(accepted, tries)[i] != Delivered(accepted, tries)[j]
    decreases |tries|
  {
    if tries != [] {
      DeliveredOnce(Record(accepted, tries[0]), tries[1..]);
    }
  }

  /** In-order traffic is never dropped: a strictly increasing run below the limit all gets through. */
  lemma {:induction false} IncreasingAllDelivered(accepted: set<nat>, tries: seq<nat>)
    requires forall i, j :: 0 <= i < j < |tries| ==> tries[i] < tries[j]
    requires forall i :: 0 <= i < |tries| ==> tries[i] < REJECT_AFTER_MESSAGES
    requires forall a, i :: a in accepted && 0 <= i < |tries| ==> a < tries[i]
    ensures Delivered(accepted, tries) == tries
    decreases |tries|
  {
    if tries != [] {
      assert Fresh(accepted, tries[0]);
      IncreasingAllDelivered(accepted + {tries[0]}, tries[1..]);
    }
  }

  /** One `u64` of the bitmap, as its sixty-four bits. */
  type Word = w: seq<bool> | |w| == WORD_BITS witness seq(WORD_BITS, _ => false)

  const ZERO: Word := seq(WORD_BITS, _ => false)

  class ReplayWindow {
    var highest: Option<nat>
    var seen: seq<Word>
    /** Every counter accepted so far. */
    ghost var accepted: set<nat>

    static function Index(counter: nat): (r: (nat, nat))
      ensures r.0 < WINDOW_WORDS && r.1 < WORD_BITS
      ensures r.0 * WORD_BITS + r.1 == counter % WINDOW_BITS
    {
      var bit := counter % WINDOW_BITS;
      (bit / WORD_BITS, bit % WORD_BITS)
    }

    predicate IsSet(counter: nat)
      requires |seen| == WINDOW_WORDS
      reads this
    {
      var (word, bit) := Index(counter);
      seen[word][bit]
    }

    ghost predicate Valid()
      reads this
    {
      && |seen| == WINDOW_WORDS
      && (highest.None? ==> accepted == {})
      && (highest.Some? ==>
            && highest.value in accepted
            && (forall a :: a in accepted ==> a <= highest.value < REJECT_AFTER_MESSAGES)
            && forall c: nat :: highest.value - WINDOW_BITS < c <= highest.value ==> (IsSet(c) <==> c in accepted))
      && (highest.None? ==> forall c: nat :: !IsSet(c))
    }

    constructor ()
      ensures Valid() && accepted == {}
    {
      highest := None;
      seen := seq(WINDOW_WORDS, _ => ZERO);
      accepted := {};
    }

    /** Different counters less than a window apart never share a bit. */
    static lemma NearCountersDiffer(a: nat, b: nat)
      requires a < b && b - a < WINDOW_BITS
      ensures Index(a) != Index(b)
    {
    }

    method Put(counter: nat, value: bool)
      requires |seen| == WINDOW_WORDS
      modifies this`seen
      ensures |seen| == WINDOW_WORDS
      ensures forall c: nat :: IsSet(c) == if Index(c) == Index(counter) then value else old(IsSet(c))
    {
      var (word, bit) := Index(counter);
      seen := seen[word := seen[word][bit := value]];
    }

    /** Forget what the ring held for the counters in `from..to`. */
    method ClearRange(from: nat, to: nat)
      requires |seen| == WINDOW_WORDS
      requires from <= to && to - from < WINDOW_BITS
      modifies this`seen
      ensures |seen| == WINDOW_WORDS
      ensures forall k: nat :: from <= k < to ==> !IsSet(k)
      ensures forall k: nat :: to - WINDOW_BITS <= k < from ==> IsSet(k) == old(IsSet(k))
    {
      var c := from;
      while c < to
        invariant from <= c <= to
        invariant |seen| == WINDOW_WORDS
        invariant forall k: nat :: from <= k < c ==> !IsSet(k)
        invariant forall k: nat :: to - WINDOW_BITS <= k < from ==> IsSet(k) == old(IsSet(k))
      {
        forall k: nat | to - WINDOW_BITS <= k < c ensures Index(k) != Index(c) {
          NearCountersDiffer(k, c);
        }
        Put(c, false);
        c := c + 1;
      }
    }

    /** A counter above everything seen becomes the new high-water mark. */
    method Advance(counter: nat)
      requires Valid() && highest.Some? && highest.value < counter < REJECT_AFTER_MESSAGES
      modifies this
      ensures Valid() && accepted == old(accepted) + {counter}
    {
      var top := highest.value;
      if counter - top >= WINDOW_BITS {
        seen := seq(WINDOW_WORDS, _ => ZERO);
      } else {
        ClearRange(top + 1, counter);
      }
      assert forall k: nat :: counter - WINDOW_BITS < k < counter ==> (IsSet(k) <==> k in accepted);
      MarkNew(counter);
    }

    /** Set one bit and add its counter to the history. */
    method MarkNew(counter: nat)
      requires |seen| == WINDOW_WORDS && counter < REJECT_AFTER_MESSAGES
      requires forall a :: a in accepted ==> a < counter
      requires forall k: nat :: counter - WINDOW_BITS < k < counter ==> (IsSet(k) <==> k in accepted)
      modifies this
      ensures Valid() && accepted == old(accepted) + {counter}
    {
      forall k: nat | counter - WINDOW_BITS < k < counter ensures Index(k) != Index(counter) {
        NearCountersDiffer(k, counter);
      }
      Put(counter, true);
      highest := Some(counter);
      accepted := accepted + {counter};
    }

    /** Fill in an older counter still inside the window. */
    method MarkOld(counter: nat)
      requires Valid() && highest.Some? && highest.value - WINDOW_BITS < counter <= highest.value
      modifies this
      ensures Valid() && accepted == old(accepted) + {counter}
    {
      var top := highest.value;
      forall k: nat | top - WINDOW_BITS < k <= top && k != counter ensures Index(k) != Index(counter) {
        NearCountersDiffer(Min(k, counter), Max(k, counter));
      }
      Put(counter, true);
      accepted := accepted + {counter};
    }

    /** `accept`: decides as the full history would, and records exactly that. */
    method Accept(counter: nat) returns (ok: bool)
      requires Valid()
      modifies this
      ensures Valid()
      ensures ok == Fresh(old(accepted), counter)
      ensures accepted == Record(old(accepted), counter)
    {
      if counter >= REJECT_AFTER_MESSAGES {
        return false;
      }
      if highest.None? {
        MarkNew(counter);
        return true;
      }
      if counter > highest.value {
        Advance(counter);
        return true;
      }
      assert highest.value in accepted;
      if highest.value - counter >= WINDOW_BITS || IsSet(counter) {
        return false;
      }
      MarkOld(counter);
      return true;
    }
  }
}
