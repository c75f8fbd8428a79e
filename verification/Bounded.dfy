/** Drop-oldest buffers: the newest max elements of a sequence. */
module Bounded {

  function Newest<E>(max: nat, s: seq<E>): (r: seq<E>)
    ensures |r| == if |s| > max then max else |s|
  {
    if |s| > max then s[|s| - max..] else s
  }

  lemma NewestIs<E>(max: nat, s: seq<E>)
    ensures Newest(max, s) == if |s| > max then s[|s| - max..] else s
  {
  }

  /** The newest elements of a stretch are its end. */
  lemma NewestIsEnd<E>(max: nat, s: seq<E>, lo: nat, hi: nat)
    requires lo <= hi <= |s|
    ensures var n := |Newest(max, s[lo..hi])|; Newest(max, s[lo..hi]) == s[hi - n..hi]
  {
  }

  /** A full tail is all that counts. */
  lemma NewestOfFull<E>(max: nat, front: seq<E>, tail: seq<E>)
    requires |tail| >= max
    ensures Newest(max, front + tail) == Newest(max, tail)
  {
    var s := front + tail;
    assert |s| > max ==> s[|s| - max..] == tail[|tail| - max..];
    assert |s| == max ==> front == [] && s == tail;
  }

  lemma NewestAppend<E>(max: nat, a: seq<E>, b: seq<E>)
    ensures Newest(max, Newest(max, a) + b) == Newest(max, a + b)
  {
    if |a| > max {
      var front, tail := a[..|a| - max], a[|a| - max..];
      assert front + tail == a && a + b == front + (tail + b);
      hide Newest;
      NewestIs(max, a);
      NewestOfFull(max, front, tail + b);
    }
  }

  /** Dropping early loses nothing that would be kept in the end. */
  lemma NewestConcat<E>(max: nat, a: seq<E>, b: seq<E>)
    ensures Newest(max, Newest(max, a) + Newest(max, b)) == Newest(max, a + b)
    ensures Newest(max, Newest(max, a) + b) == Newest(max, a + b)
  {
    NewestAppend(max, a, b);
    if |b| > max {
      hide Newest;
      NewestIs(max, b);
      var front, tail := b[..|b| - max], b[|b| - max..];
      assert front + tail == b && a + b == (a + front) + tail;
      NewestOfFull(max, a + front, tail);
      NewestOfFull(max, Newest(max, a), tail);
    }
  }
}
