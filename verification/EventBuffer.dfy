/** The firewall event buffer (waf/server.go): adds interleaved with one flush in
    flight, which may fail. */
module EventBuffer {
  import opened Bounded

  datatype Outcome = Delivered | ShipFailed | Malformed

  /** A delivered batch: the events [lo, hi) of all events added, taken when those
      before from were already delivered or given up. */
  datatype Slice = Slice(from: nat, lo: nat, hi: nat)

  /** Batches are delivered in order, none twice, and older events are missing from
      a batch only when the batch is full. */
  ghost predicate InOrder(max: nat, slices: seq<Slice>, settled: nat) {
    (forall k :: 0 <= k < |slices| ==>
       slices[k].from <= slices[k].lo < slices[k].hi <= settled
       && slices[k].lo == if slices[k].hi - slices[k].from > max then slices[k].hi - max else slices[k].from)
    && (forall j, k :: 0 <= j < k < |slices| ==> slices[j].hi <= slices[k].from)
  }

  class EventBuffer<E> {
    const max: nat
    var buf: seq<E>
    ghost var added: seq<E>
    ghost var settled: nat
    ghost var inFlight: bool
    ghost var taken: nat
    ghost var delivered: seq<Slice>

    /** The buffer holds the newest max events added since the events that are
        settled, or, while a flush is in flight, since the batch was taken. */
    ghost predicate Valid()
      reads this
    {
      max > 0 && settled <= taken <= |added| && (!inFlight ==> settled == taken)
      && buf == Newest(max, added[taken..])
      && InOrder(max, delivered, settled)
    }

    /** What the flush in flight carries. */
    ghost function Batch(): seq<E>
      reads this
      requires Valid()
    {
      Newest(max, added[settled..taken])
    }

    constructor (max: nat)
      requires max > 0
      ensures Valid() && this.max == max && added == [] && delivered == [] && !inFlight
    {
      this.max := max;
      buf, added, settled, inFlight, taken, delivered := [], [], 0, false, 0, [];
    }

    method Add(ev: E)
      requires Valid()
      modifies this`buf, this`added
      ensures Valid() && added == old(added) + [ev]
      ensures inFlight ==> Batch() == old(Batch())
    {
      hide Newest, InOrder;
      NewestConcat(max, added[taken..], [ev]);
      NewestIs(max, buf + [ev]);
      assert (added + [ev])[taken..] == added[taken..] + [ev];
      assert (added + [ev])[settled..taken] == added[settled..taken];
      added := added + [ev];
      buf := buf + [ev];
      if |buf| > max {
        buf := buf[|buf| - max..];
      }
    }

    /** Takes the whole buffer for shipping; nothing when it is empty. */
    method Take() returns (batch: seq<E>)
      requires Valid() && !inFlight
      modifies this`buf, this`inFlight, this`taken
      ensures Valid() && inFlight == (batch != [])
      ensures inFlight ==> batch == Batch() && buf == [] && taken == |added|
      ensures !inFlight ==> buf == old(buf) && taken == old(taken)
    {
      if |buf| == 0 {
        return [];
      }
      batch := buf;
      assert added[settled..|added|] == added[settled..];
      buf, inFlight, taken := [], true, |added|;
    }

    /** Ends the flush. After a failed ship the buffer is what it would be had no
        flush been tried: the newest max events since the last settled ones. */
    method Finish(batch: seq<E>, outcome: Outcome)
      requires Valid() && inFlight && batch == Batch() && batch != []
      modifies this`buf, this`inFlight, this`taken, this`settled, this`delivered
      ensures Valid() && !inFlight
      ensures outcome.ShipFailed? ==> settled == old(settled) && delivered == old(delivered) && buf == Newest(max, added[settled..])
      ensures !outcome.ShipFailed? ==> settled == old(taken) && buf == old(buf)
      ensures outcome.Malformed? ==> delivered == old(delivered)
      ensures outcome.Delivered? ==>
                |delivered| == |old(delivered)| + 1 && delivered[..|old(delivered)|] == old(delivered)
                && var s := delivered[|old(delivered)|]; s.hi == old(taken) && s.from == old(settled) && batch == added[s.lo..s.hi]
    {
      hide InOrder, Newest;
      Requeued(max, added, settled, taken, batch, buf);
      DeliverInOrder(max, delivered, settled, taken, |batch|);
      match outcome {
        case Delivered =>
          delivered := delivered + [Slice(settled, taken - |batch|, taken)];
          settled := taken;
        case Malformed =>
          settled := taken;
        case ShipFailed =>
          NewestIs(max, batch + buf);
          buf := batch + buf;
          if |buf| > max {
            buf := buf[|buf| - max..];
          }
          taken := settled;
      }
      inFlight := false;
    }
  }

  lemma Requeued<E>(max: nat, added: seq<E>, settled: nat, taken: nat, batch: seq<E>, buf: seq<E>)
    requires settled <= taken <= |added| && batch == Newest(max, added[settled..taken]) && buf == Newest(max, added[taken..])
    ensures Newest(max, batch + buf) == Newest(max, added[settled..])
    ensures |batch| == (if taken - settled > max then max else taken - settled) && batch == added[taken - |batch|..taken]
  {
    hide Newest;
    NewestConcat(max, added[settled..taken], added[taken..]);
    NewestIsEnd(max, added, settled, taken);
    assert added[settled..taken] + added[taken..] == added[settled..];
  }

  lemma DeliverInOrder(max: nat, slices: seq<Slice>, settled: nat, taken: nat, n: nat)
    requires InOrder(max, slices, settled) && settled <= taken && n == (if taken - settled > max then max else taken - settled)
    ensures InOrder(max, slices, taken)
    ensures n > 0 ==> InOrder(max, slices + [Slice(settled, taken - n, taken)], taken)
  {
  }

  /** All that was ever delivered, batch after batch. */
  function Sent<E>(added: seq<E>, slices: seq<Slice>): seq<E>
    requires forall k :: 0 <= k < |slices| ==> slices[k].lo <= slices[k].hi <= |added|
  {
    if slices == [] then []
    else Sent(added, slices[..|slices| - 1]) + added[slices[|slices| - 1].lo..slices[|slices| - 1].hi]
  }

  /** The positions of what was delivered, in order of delivery. */
  function Positions(slices: seq<Slice>): seq<int> {
    if slices == [] then []
    else
      var s := slices[|slices| - 1];
      Positions(slices[..|slices| - 1]) + seq(if s.lo <= s.hi then s.hi - s.lo else 0, i => s.lo + i)
  }

  /** sent holds the elements of added at the positions ps, which rise and end before n. */
  ghost predicate PicksInOrder<E>(added: seq<E>, ps: seq<int>, sent: seq<E>, n: int) {
    n <= |added| && |sent| == |ps|
    && (forall i, j :: 0 <= i < j < |ps| ==> ps[i] < ps[j])
    && forall i :: 0 <= i < |ps| ==> 0 <= ps[i] < n && sent[i] == added[ps[i]]
  }

  /** Delivery keeps the order of adding and repeats nothing. */
  lemma {:induction false} SentInOrderOnce<E>(max: nat, added: seq<E>, slices: seq<Slice>, settled: nat)
    requires InOrder(max, slices, settled) && settled <= |added|
    ensures PicksInOrder(added, Positions(slices), Sent(added, slices), settled)
  {
    if slices == [] {
    } else {
      var front, s := slices[..|slices| - 1], slices[|slices| - 1];
      assert s.lo <= s.hi <= settled;
      SentInOrderOnce(max, added, front, s.from);
      hide InOrder, PicksInOrder;
      PicksMore(added, Positions(front), Sent(added, front), s.from, s.lo, s.hi, settled);
    }
  }

  lemma PicksMore<E>(added: seq<E>, ps: seq<int>, sent: seq<E>, from: int, lo: nat, hi: nat, n: int)
    requires PicksInOrder(added, ps, sent, from) && from <= lo <= hi <= n <= |added|
    ensures PicksInOrder(added, ps + seq(hi - lo, i => lo + i), sent + added[lo..hi], n)
  {
  }
}
