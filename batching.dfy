/**
 * How `MyCollection.insert` splits a document array into insert messages.
 * Each message starts with a reserved int32 and the namespace (`header`
 * bytes in all); documents are then encoded one after another while they
 * fit in the message's `capacity`.  The document that overflows is rewound
 * and starts the next message, unless it is the first of its message, in
 * which case the insert fails as too large.  A header that does not fit
 * fails with the buffer overflow itself.  The encoded size of a document is
 * a parameter, since the encoder is not part of this model; the module is
 * generic in the document type for the same reason.
 *
 * A plan records where each message ends: message `j` carries the documents
 * from `Start(cur, ends, j)` up to (not including) `ends[j]`, so consecutive
 * messages carry consecutive runs of the array.
 */
module Batching {
  import opened Bson

  /** The encoded size of the documents `docs[lo..hi]`. */
  function Total<T>(docs: seq<T>, lo: nat, hi: nat, sizeOf: T -> nat): nat
    requires lo <= hi <= |docs|
    decreases hi - lo
  {
    if lo == hi then 0 else sizeOf(docs[lo]) + Total(docs, lo + 1, hi, sizeOf)
  }

  /**
   * The inner loop: the index reached when documents, starting at `from`,
   * are encoded into `room` bytes until one overflows or the array ends.
   */
  function Fill<T>(docs: seq<T>, from: nat, room: int, sizeOf: T -> nat): (e: nat)
    requires from <= |docs|
    decreases |docs| - from
    ensures from <= e <= |docs|
  {
    if from == |docs| || sizeOf(docs[from]) > room then from
    else Fill(docs, from + 1, room - sizeOf(docs[from]), sizeOf)
  }

  /** Where each message sent ends, in order, and the error that ended the insert early, if any. */
  datatype Plan = Plan(ends: seq<nat>, failure: Option<Error>)

  /** The outer loop, from document `cur` on. */
  function PlanFrom<T>(docs: seq<T>, cur: nat, header: nat, capacity: nat, sizeOf: T -> nat): (p: Plan)
    requires cur <= |docs|
    decreases |docs| - cur
  {
    if cur == |docs| then Plan([], None)
    else if header > capacity then Plan([], Some(BufferOverflow))
    else
      var e := Fill(docs, cur, capacity - header, sizeOf);
      if e == cur then Plan([], Some(TooLarge))
      else
        var rest := PlanFrom(docs, e, header, capacity, sizeOf);
        Plan([e] + rest.ends, rest.failure)
  }

  /** The whole insert. */
  function PlanInsert<T>(docs: seq<T>, header: nat, capacity: nat, sizeOf: T -> nat): Plan
  {
    PlanFrom(docs, 0, header, capacity, sizeOf)
  }

  /** Where message `j` starts: where the one before it ended. */
  function Start(cur: nat, ends: seq<nat>, j: nat): nat
    requires j < |ends|
  {
    if j == 0 then cur else ends[j - 1]
  }

  /** Where the documents sent end: the end of the last message. */
  function Last(cur: nat, ends: seq<nat>): nat
  {
    if ends == [] then cur else ends[|ends| - 1]
  }

  /** Every message carries at least one document, and they stay within the array. */
  predicate Chain(cur: nat, ends: seq<nat>, limit: nat)
  {
    forall j {:trigger Start(cur, ends, j)} :: 0 <= j < |ends| ==> Start(cur, ends, j) < ends[j] <= limit
  }

  /** The documents of each message. */
  function Batches<T>(docs: seq<T>, cur: nat, ends: seq<nat>): (bs: seq<seq<T>>)
    requires cur <= |docs| && Chain(cur, ends, |docs|)
    ensures |bs| == |ends|
    ensures forall j :: 0 <= j < |ends| ==> bs[j] == docs[Start(cur, ends, j)..ends[j]]
  {
    seq(|ends|, j requires 0 <= j < |ends| => docs[Start(cur, ends, j)..ends[j]])
  }
}

/** What the plan of an insert promises. */
module BatchingFacts {
  import opened Bson
  import opened Batching

  /**
   * The documents taken fit in the room, and the next one, if any, would
   * not have fitted beside them.
   */
  lemma {:induction false} FillBounds<T>(docs: seq<T>, from: nat, room: int, sizeOf: T -> nat)
    requires from <= |docs|
    decreases |docs| - from
    ensures var e := Fill(docs, from, room, sizeOf);
      && (e > from ==> Total(docs, from, e, sizeOf) <= room)
      && (e < |docs| ==> Total(docs, from, e, sizeOf) + sizeOf(docs[e]) > room)
  {
    if from < |docs| && sizeOf(docs[from]) <= room {
      FillBounds(docs, from + 1, room - sizeOf(docs[from]), sizeOf);
    }
  }

  /** No document of a run is bigger than the run. */
  lemma {:induction false} TotalBounds<T>(docs: seq<T>, lo: nat, hi: nat, i: nat, sizeOf: T -> nat)
    requires lo <= i < hi <= |docs|
    decreases hi - lo
    ensures sizeOf(docs[i]) <= Total(docs, lo, hi, sizeOf)
  {
    if i > lo {
      TotalBounds(docs, lo + 1, hi, i, sizeOf);
    }
  }

  /** One round of the outer loop: a message ending at `Fill`, then the rest of the plan. */
  lemma PlanStep<T>(docs: seq<T>, cur: nat, header: nat, capacity: nat, sizeOf: T -> nat)
    requires cur < |docs| && header <= capacity
    requires Fill(docs, cur, capacity - header, sizeOf) > cur
    ensures var e := Fill(docs, cur, capacity - header, sizeOf);
      var rest := PlanFrom(docs, e, header, capacity, sizeOf);
      PlanFrom(docs, cur, header, capacity, sizeOf) == Plan([e] + rest.ends, rest.failure)
  {
  }

  /** Message `j + 1` of a plan is message `j` of the plan after its first message. */
  lemma StartCons(cur: nat, e: nat, rest: seq<nat>, j: nat)
    requires j < |rest|
    ensures Start(cur, [e] + rest, j + 1) == Start(e, rest, j) && ([e] + rest)[j + 1] == rest[j]
  {
  }

  lemma LastCons(cur: nat, e: nat, rest: seq<nat>)
    ensures Last(cur, [e] + rest) == Last(e, rest)
  {
  }

  /**
   * The messages carry consecutive non-empty runs of the array, in order;
   * all of it is sent exactly when nothing failed.
   */
  lemma {:induction false} PlanChain<T>(docs: seq<T>, cur: nat, header: nat, capacity: nat, sizeOf: T -> nat)
    requires cur <= |docs|
    ensures var p := PlanFrom(docs, cur, header, capacity, sizeOf);
      && Chain(cur, p.ends, |docs|) && cur <= Last(cur, p.ends) <= |docs|
      && (p.failure.None? <==> Last(cur, p.ends) == |docs|)
    decreases |docs| - cur
  {
    if cur < |docs| && header <= capacity {
      var e := Fill(docs, cur, capacity - header, sizeOf);
      if e > cur {
        var rest := PlanFrom(docs, e, header, capacity, sizeOf);
        PlanStep(docs, cur, header, capacity, sizeOf);
        PlanChain(docs, e, header, capacity, sizeOf);
        LastCons(cur, e, rest.ends);
        var ends := [e] + rest.ends;
        forall k | 1 <= k < |ends|
          ensures Start(cur, ends, k) < ends[k] <= |docs|
        {
          StartCons(cur, e, rest.ends, k - 1);
        }
      }
    }
  }

  /** The failures an insert can end with. */
  lemma {:induction false} PlanFailures<T>(docs: seq<T>, cur: nat, header: nat, capacity: nat, sizeOf: T -> nat)
    requires cur <= |docs|
    ensures var f := PlanFrom(docs, cur, header, capacity, sizeOf).failure;
      f == None || f == Some(TooLarge) || f == Some(BufferOverflow)
    ensures header > capacity && cur < |docs| ==> PlanFrom(docs, cur, header, capacity, sizeOf) == Plan([], Some(BufferOverflow))
    decreases |docs| - cur
  {
    if cur < |docs| && header <= capacity {
      var e := Fill(docs, cur, capacity - header, sizeOf);
      if e > cur {
        PlanFailures(docs, e, header, capacity, sizeOf);
      }
    }
  }

  /**
   * Message `j` is the longest run that fits: its documents fit in the
   * buffer after the header, and the next document, if any, would not have.
   */
  lemma {:induction false} BatchIsLongestFit<T>(docs: seq<T>, cur: nat, header: nat, capacity: nat, sizeOf: T -> nat, j: nat)
    requires cur <= |docs|
    requires j < |PlanFrom(docs, cur, header, capacity, sizeOf).ends|
    ensures var ends := PlanFrom(docs, cur, header, capacity, sizeOf).ends;
      var s := Start(cur, ends, j);
      && s < ends[j] <= |docs|
      && header + Total(docs, s, ends[j], sizeOf) <= capacity
      && (ends[j] < |docs| ==> header + Total(docs, s, ends[j], sizeOf) + sizeOf(docs[ends[j]]) > capacity)
    decreases |docs| - cur
  {
    var e := Fill(docs, cur, capacity - header, sizeOf);
    PlanStep(docs, cur, header, capacity, sizeOf);
    if j == 0 {
      FillBounds(docs, cur, capacity - header, sizeOf);
    } else {
      var rest := PlanFrom(docs, e, header, capacity, sizeOf).ends;
      BatchIsLongestFit(docs, e, header, capacity, sizeOf, j - 1);
      StartCons(cur, e, rest, j - 1);
    }
  }

  /** With room for the header, every document sent fits in a message on its own. */
  lemma {:induction false} SentDocsFit<T>(docs: seq<T>, cur: nat, header: nat, capacity: nat, sizeOf: T -> nat)
    requires cur <= |docs| && header <= capacity
    ensures var last := Last(cur, PlanFrom(docs, cur, header, capacity, sizeOf).ends);
      forall i :: cur <= i < last && i < |docs| ==> header + sizeOf(docs[i]) <= capacity
    decreases |docs| - cur
  {
    if cur < |docs| {
      var e := Fill(docs, cur, capacity - header, sizeOf);
      if e > cur {
        var rest := PlanFrom(docs, e, header, capacity, sizeOf);
        PlanStep(docs, cur, header, capacity, sizeOf);
        LastCons(cur, e, rest.ends);
        SentDocsFit(docs, e, header, capacity, sizeOf);
        FillBounds(docs, cur, capacity - header, sizeOf);
        forall i | cur <= i < e
          ensures header + sizeOf(docs[i]) <= capacity
        {
          TotalBounds(docs, cur, e, i, sizeOf);
        }
      }
    }
  }

  /**
   * With room for the header, the insert fails only as too large, at the
   * first document not sent, which does not fit in a message on its own.
   */
  lemma {:induction false} FailsAtOversized<T>(docs: seq<T>, cur: nat, header: nat, capacity: nat, sizeOf: T -> nat)
    requires cur <= |docs| && header <= capacity
    ensures var p := PlanFrom(docs, cur, header, capacity, sizeOf);
      var last := Last(cur, p.ends);
      p.failure.Some? ==> p.failure == Some(TooLarge) && last < |docs| && header + sizeOf(docs[last]) > capacity
    decreases |docs| - cur
  {
    if cur < |docs| {
      var e := Fill(docs, cur, capacity - header, sizeOf);
      if e > cur {
        var rest := PlanFrom(docs, e, header, capacity, sizeOf);
        PlanStep(docs, cur, header, capacity, sizeOf);
        LastCons(cur, e, rest.ends);
        FailsAtOversized(docs, e, header, capacity, sizeOf);
      } else {
        FillBounds(docs, cur, capacity - header, sizeOf);
      }
    }
  }

  /** Hence, with room for the header, everything is sent exactly when every document fits in a message on its own. */
  lemma AllSentIffAllFit<T>(docs: seq<T>, header: nat, capacity: nat, sizeOf: T -> nat)
    requires header <= capacity
    ensures PlanInsert(docs, header, capacity, sizeOf).failure.None? <==>
            forall i :: 0 <= i < |docs| ==> header + sizeOf(docs[i]) <= capacity
  {
    SentDocsFit(docs, 0, header, capacity, sizeOf);
    FailsAtOversized(docs, 0, header, capacity, sizeOf);
    PlanChain(docs, 0, header, capacity, sizeOf);
  }
}
