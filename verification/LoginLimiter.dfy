/** The login limiter (ratelimit.go) and the bound it puts on failed logins. */
module LoginLimiter {
  import opened Text

  /** No lock time stands for the zero time, which is before any other. */
  datatype FailState = FailState(count: int, first: int, lockedUntil: Option<int>)

  datatype Limits = Limits(max: int, window: int, lockout: int)

  predicate Free(s: Option<FailState>, now: int) {
    s.None? || s.value.lockedUntil.None? || now >= s.value.lockedUntil.value
  }

  /** The state a failure counts on: an empty one once the window has passed. */
  function Current(l: Limits, s: Option<FailState>, now: int): FailState {
    if s.None? || now - s.value.first > l.window then FailState(0, now, None) else s.value
  }

  function Failed(l: Limits, s: Option<FailState>, now: int): FailState {
    var cur := Current(l, s, now);
    var n := cur.count + 1;
    FailState(n, cur.first, if n >= l.max then Some(now + l.lockout) else cur.lockedUntil)
  }

  function Lookup(fails: map<string, FailState>, key: string): Option<FailState> {
    if key in fails then Some(fails[key]) else None
  }

  class LoginLimiter {
    const limits: Limits
    var fails: map<string, FailState>

    constructor (max: int, window: int, lockout: int)
      ensures limits == Limits(max, window, lockout) && fails == map[]
    {
      limits, fails := Limits(max, window, lockout), map[];
    }

    method Allowed(key: string, now: int) returns (ok: bool)
      ensures ok == Free(Lookup(fails, key), now)
    {
      if key !in fails {
        return true;
      }
      var until := fails[key].lockedUntil;
      return until.None? || now > until.value || now == until.value;
    }

    method Fail(key: string, now: int) returns (locked: bool)
      modifies this
      ensures fails == old(fails)[key := Failed(limits, Lookup(old(fails), key), now)]
      ensures locked == !Free(Lookup(fails, key), now)
    {
      var s: FailState;
      if key !in fails || now - fails[key].first > limits.window {
        s := FailState(0, now, None);
      } else {
        s := fails[key];
      }
      s := s.(count := s.count + 1);
      if s.count >= limits.max {
        s := s.(lockedUntil := Some(now + limits.lockout));
      }
      fails := fails[key := s];
      return s.lockedUntil.Some? && now < s.lockedUntil.value;
    }

    method Reset(key: string)
      modifies this
      ensures fails == old(fails) - {key}
    {
      fails := fails - {key};
    }
  }

  // ---------- runs of guarded attempts ----------

  /** Failing attempts in order of arrival, each made only if the limiter allows it. */
  datatype Attempt = Attempt(key: string, now: int)

  function AfterAll(l: Limits, trace: seq<Attempt>): map<string, FailState> {
    if trace == [] then map[]
    else
      var fails, a := AfterAll(l, trace[..|trace| - 1]), trace[|trace| - 1];
      if Free(Lookup(fails, a.key), a.now) then fails[a.key := Failed(l, Lookup(fails, a.key), a.now)] else fails
  }

  /** When the failures of key happened. */
  function FailTimes(l: Limits, trace: seq<Attempt>, key: string): seq<int> {
    if trace == [] then []
    else
      var before, a := trace[..|trace| - 1], trace[|trace| - 1];
      FailTimes(l, before, key) + if a.key == key && Free(Lookup(AfterAll(l, before), key), a.now) then [a.now] else []
  }

  ghost predicate Ordered(trace: seq<Attempt>) {
    forall i, j :: 0 <= i < j < |trace| ==> trace[i].now <= trace[j].now
  }

  /** The most failures that fit into one window. */
  function Bound(max: int): int {
    if max >= 2 then 2 * max - 2 else 1
  }

  ghost predicate Sorted(ft: seq<int>) {
    forall i, j :: 0 <= i < j < |ft| ==> ft[i] <= ft[j]
  }

  /** Bound(max) + 1 failures in a row span more than the window. */
  ghost predicate Spaced(l: Limits, ft: seq<int>) {
    forall i, j :: 0 <= i && j == i + Bound(l.max) && j < |ft| ==> ft[j] - ft[i] > l.window
  }

  /** The failures from some position b up to end are one counting episode: it was
      over when the next one began at time next. */
  ghost predicate EpisodeBefore(l: Limits, ft: seq<int>, end: int, next: int) {
    0 < end <= |ft|
    && exists b :: 0 <= b < end && end - b <= l.max && ft[end - 1] <= ft[b] + l.window < next && (end - b == l.max ==> ft[end - 1] + l.lockout <= next)
  }

  /** What the limiter's state says about the failures so far. */
  ghost predicate Fits(l: Limits, ft: seq<int>, s: Option<FailState>) {
    Sorted(ft) && Spaced(l, ft) &&
    if s.None? then ft == []
    else
      var c := s.value.count;
      1 <= c <= |ft| && c <= l.max && ft[|ft| - c] == s.value.first && ft[|ft| - 1] <= s.value.first + l.window
      && s.value.lockedUntil == (if c == l.max then Some(ft[|ft| - 1] + l.lockout) else None)
      && (c == |ft| || EpisodeBefore(l, ft, |ft| - c, s.value.first))
  }

  /** The failure Bound(max) places back is out of the window. */
  lemma FarBack(l: Limits, ft: seq<int>, s: FailState, now: int)
    requires l.max >= 1 && 0 <= l.window < l.lockout && Bound(l.max) <= |ft|
    requires Fits(l, ft, Some(s)) && Free(Some(s), now) && ft[|ft| - 1] <= now
    ensures now - ft[|ft| - Bound(l.max)] > l.window
  {
    var i, start := |ft| - Bound(l.max), |ft| - s.count;
    assert ft[i] <= ft[|ft| - 1];
    if now - s.first > l.window {
      assert ft[i] <= ft[start];
    } else {
      var e :| 0 <= e < start && start - e <= l.max && ft[start - 1] <= ft[e] + l.window < s.first
          && (start - e == l.max ==> ft[start - 1] + l.lockout <= s.first);
      if start - e == l.max {
        assert ft[i] <= ft[start - 1];
      } else {
        assert ft[i] <= ft[e];
      }
    }
  }

  lemma EpisodeStays(l: Limits, ft: seq<int>, s: FailState, now: int)
    requires l.max >= 1 && 0 <= l.window < l.lockout && Fits(l, ft, Some(s)) && Free(Some(s), now) && ft[|ft| - 1] <= now
    ensures now - s.first > l.window ==> EpisodeBefore(l, ft + [now], |ft|, now)
    ensures now - s.first <= l.window && s.count < |ft| ==> EpisodeBefore(l, ft + [now], |ft| - s.count, s.first)
  {
    var more, start := ft + [now], |ft| - s.count;
    if now - s.first > l.window {
      assert more[start] + l.window < now;
    } else if s.count < |ft| {
      var e :| 0 <= e < start && start - e <= l.max && ft[start - 1] <= ft[e] + l.window < s.first
          && (start - e == l.max ==> ft[start - 1] + l.lockout <= s.first);
      assert more[e] == ft[e] && more[start - 1] == ft[start - 1];
    }
  }

  lemma FailFits(l: Limits, ft: seq<int>, s: Option<FailState>, now: int)
    requires l.max >= 1 && 0 <= l.window < l.lockout
    requires Fits(l, ft, s) && Free(s, now) && forall i :: 0 <= i < |ft| ==> ft[i] <= now
    ensures Fits(l, ft + [now], Some(Failed(l, s, now)))
  {
    hide EpisodeBefore, Sorted, Spaced;
    assert (ft + [now])[|ft|] == now;
    if s.Some? {
      assert forall i :: 0 <= i < |ft| ==> (ft + [now])[i] == ft[i];
      EpisodeStays(l, ft, s.value, now);
      if Bound(l.max) <= |ft| { FarBack(l, ft, s.value, now); }
    }
    SnocKeeps(l, ft, now);
  }

  lemma SnocKeeps(l: Limits, ft: seq<int>, now: int)
    requires l.max >= 1 && Sorted(ft) && Spaced(l, ft) && forall i :: 0 <= i < |ft| ==> ft[i] <= now
    ensures Sorted(ft + [now])
    ensures (Bound(l.max) <= |ft| ==> now - ft[|ft| - Bound(l.max)] > l.window) ==> Spaced(l, ft + [now])
  {
    var more, b := ft + [now], Bound(l.max);
    if b <= |ft| ==> now - ft[|ft| - b] > l.window {
      forall i, j | 0 <= i && j == i + b && j < |more| ensures more[j] - more[i] > l.window {
        if j < |ft| { assert ft[j] - ft[i] > l.window; }
      }
    }
  }

  lemma {:induction false} TraceFits(l: Limits, trace: seq<Attempt>, key: string)
    requires l.max >= 1 && 0 <= l.window < l.lockout && Ordered(trace)
    ensures Fits(l, FailTimes(l, trace, key), Lookup(AfterAll(l, trace), key))
    ensures trace != [] ==> forall i :: 0 <= i < |FailTimes(l, trace, key)| ==> FailTimes(l, trace, key)[i] <= trace[|trace| - 1].now
  {
    hide Fits, Failed, Free;
    if trace == [] {
      assert Fits(l, [], None) by { NoFailuresFit(l); }
    } else {
      var before, a := trace[..|trace| - 1], trace[|trace| - 1];
      TraceFits(l, before, key);
      assert FailTimes(l, before, key) + [] == FailTimes(l, before, key);
      if a.key == key && Free(Lookup(AfterAll(l, before), key), a.now) {
        FailFits(l, FailTimes(l, before, key), Lookup(AfterAll(l, before), key), a.now);
      }
    }
  }

  lemma NoFailuresFit(l: Limits)
    ensures Fits(l, [], None)
  {
  }

  /** How many of the times lie in [from, to]. */
  function CountIn(ft: seq<int>, from: int, to: int): nat {
    if ft == [] then 0 else CountIn(ft[..|ft| - 1], from, to) + if from <= ft[|ft| - 1] <= to then 1 else 0
  }

  lemma Apart(l: Limits, ft: seq<int>, i: nat)
    requires Spaced(l, ft) && i + Bound(l.max) < |ft|
    ensures ft[i + Bound(l.max)] - ft[i] > l.window
  {
  }

  lemma {:induction false} SpacedCount(l: Limits, ft: seq<int>, from: int)
    requires l.max >= 1 && Sorted(ft) && Spaced(l, ft)
    ensures CountIn(ft, from, from + l.window) <= Bound(l.max)
  {
    if ft == [] {
    } else {
      var b, to := Bound(l.max), from + l.window;
      CountAtMost(ft, from, to);
      if ft[|ft| - 1] > to {
        SpacedCount(l, ft[..|ft| - 1], from);
      } else {
        InWindow(ft, from, to);
        if b < |ft| { Apart(l, ft, |ft| - 1 - b); }
      }
    }
  }

  lemma {:induction false} CountAtMost(ft: seq<int>, from: int, to: int)
    ensures CountIn(ft, from, to) <= |ft|
  {
    if ft == [] {
    } else {
      CountAtMost(ft[..|ft| - 1], from, to);
    }
  }

  lemma {:induction false} NoneIn(ft: seq<int>, from: int, to: int)
    requires forall i :: 0 <= i < |ft| ==> ft[i] < from
    ensures CountIn(ft, from, to) == 0
  {
    if ft == [] {
    } else {
      NoneIn(ft[..|ft| - 1], from, to);
    }
  }

  /** In a sorted list whose last entry is at most to, the entries of the interval
      are the last ones. */
  lemma {:induction false} InWindow(ft: seq<int>, from: int, to: int)
    requires Sorted(ft) && (ft != [] ==> ft[|ft| - 1] <= to)
    ensures CountIn(ft, from, to) <= |ft| && forall k :: |ft| - CountIn(ft, from, to) <= k < |ft| ==> ft[k] >= from
  {
    if ft == [] {
    } else {
      var front := ft[..|ft| - 1];
      InWindow(front, from, to);
      if ft[|ft| - 1] < from {
        NoneIn(front, from, to);
      }
    }
  }

  /** The bound: in any run of guarded attempts over any keys, every closed interval
      of the window's length holds at most max(1, 2*max - 2) failures of a key. */
  lemma LoginBound(l: Limits, trace: seq<Attempt>, key: string, from: int)
    requires l.max >= 1 && 0 <= l.window < l.lockout && Ordered(trace)
    ensures CountIn(FailTimes(l, trace, key), from, from + l.window) <= Bound(l.max)
  {
    TraceFits(l, trace, key);
    SpacedCount(l, FailTimes(l, trace, key), from);
  }

  // ---------- when a key is locked ----------

  /** A key is refused only after as many failures as the maximum within one window,
      and only for the lockout after the last of them: a lock always ends. */
  lemma LockEnds(l: Limits, trace: seq<Attempt>, key: string, now: int)
    requires l.max >= 1 && 0 <= l.window < l.lockout && Ordered(trace)
    requires !Free(Lookup(AfterAll(l, trace), key), now)
    ensures var ft := FailTimes(l, trace, key); var n := |ft|;
            n >= l.max && ft[n - 1] - ft[n - l.max] <= l.window && now < ft[n - 1] + l.lockout
  {
    TraceFits(l, trace, key);
  }

  lemma PreviousEpisode(l: Limits, ft: seq<int>, s: FailState) returns (b: nat)
    requires Fits(l, ft, Some(s)) && s.count < |ft|
    ensures 1 <= s.count && s.first == ft[|ft| - s.count] && Sorted(ft)
    ensures b < |ft| - s.count && ft[|ft| - s.count - 1] <= ft[b] + l.window < s.first
  {
    hide Sorted, Spaced;
    var start := |ft| - s.count;
    b :| 0 <= b < start && start - b <= l.max && ft[start - 1] <= ft[b] + l.window < s.first
        && (start - b == l.max ==> ft[start - 1] + l.lockout <= s.first);
  }

  /** If the counting episode is not yet full although the last failures would fill it,
      they follow closely on an earlier one. */
  lemma EarlierStart(l: Limits, ft: seq<int>, s: FailState)
    requires l.max >= 1 && 0 <= l.window && Fits(l, ft, Some(s)) && s.count < l.max <= |ft|
    requires ft[|ft| - 1] - ft[|ft| - l.max] <= l.window
    ensures |ft| > l.max && ft[|ft| - l.max] - ft[|ft| - l.max - 1] <= l.window
  {
    var n, start, m := |ft|, |ft| - s.count, |ft| - l.max;
    hide *;
    var b := PreviousEpisode(l, ft, s);
    InTurn(ft, m, start - 1);
    InTurn(ft, start, n - 1);
    InTurn(ft, m, if b >= m then b else m);
    if b < m { InTurn(ft, b, m - 1); }
  }

  lemma InTurn(ft: seq<int>, i: nat, j: nat)
    requires Sorted(ft) && i <= j < |ft|
    ensures ft[i] <= ft[j]
  {
  }

  lemma FullIsLocked(l: Limits, ft: seq<int>, s: Option<FailState>)
    requires l.max >= 1 && 0 <= l.window && Fits(l, ft, s) && |ft| >= l.max && ft[|ft| - 1] - ft[|ft| - l.max] <= l.window
    requires |ft| > l.max ==> ft[|ft| - l.max] - ft[|ft| - l.max - 1] > l.window
    ensures s.Some? && s.value.lockedUntil == Some(ft[|ft| - 1] + l.lockout)
  {
    assert s.Some? && s.value.count <= l.max && (s.value.count == l.max ==> s.value.lockedUntil == Some(ft[|ft| - 1] + l.lockout)) by { hide EpisodeBefore, Sorted, Spaced; }
    hide Fits;
    if s.value.count < l.max { EarlierStart(l, ft, s.value); }
  }

  /** And it is refused then: as many failures as the maximum within one window, more
      than a window after the one before, lock the key for the lockout after the last. */
  lemma LockHolds(l: Limits, trace: seq<Attempt>, key: string, ft: seq<int>, now: int)
    requires l.max >= 1 && 0 <= l.window < l.lockout && Ordered(trace) && ft == FailTimes(l, trace, key)
    requires |ft| >= l.max && ft[|ft| - 1] - ft[|ft| - l.max] <= l.window
    requires |ft| > l.max ==> ft[|ft| - l.max] - ft[|ft| - l.max - 1] > l.window
    ensures Free(Lookup(AfterAll(l, trace), key), now) <==> now >= ft[|ft| - 1] + l.lockout
  {
    hide Fits, FailTimes, AfterAll, Lookup, Ordered;
    TraceFits(l, trace, key);
    FullIsLocked(l, ft, Lookup(AfterAll(l, trace), key));
  }

  // ---------- the bound is reached ----------

  function Repeat(key: string, now: int, n: nat): seq<Attempt> {
    seq(n, i => Attempt(key, now))
  }

  lemma OneCounted(l: Limits, trace: seq<Attempt>, key: string, now: int)
    requires Free(Lookup(AfterAll(l, trace), key), now)
    ensures var next := trace + [Attempt(key, now)];
            Lookup(AfterAll(l, next), key) == Some(Failed(l, Lookup(AfterAll(l, trace), key), now))
            && FailTimes(l, next, key) == FailTimes(l, trace, key) + [now]
  {
    assert (trace + [Attempt(key, now)])[..|trace|] == trace;
  }

  /** n failures at one moment that do not go beyond the maximum are all let
      through and counted. */
  lemma {:induction false} AllCounted(l: Limits, trace: seq<Attempt>, key: string, now: int, n: nat)
    requires l.window >= 0 && n > 0 && Free(Lookup(AfterAll(l, trace), key), now)
    requires Current(l, Lookup(AfterAll(l, trace), key), now).lockedUntil.None?
    requires Current(l, Lookup(AfterAll(l, trace), key), now).count + n <= l.max
    ensures var cur := Current(l, Lookup(AfterAll(l, trace), key), now);
            Lookup(AfterAll(l, trace + Repeat(key, now, n)), key)
              == Some(FailState(cur.count + n, cur.first, if cur.count + n >= l.max then Some(now + l.lockout) else None))
    ensures FailTimes(l, trace + Repeat(key, now, n), key) == FailTimes(l, trace, key) + seq(n, i => now)
  {
    hide AfterAll, FailTimes, Repeat, Lookup;
    RepeatSnoc(trace, key, now, n - 1);
    assert seq(n, i => now) == seq(n - 1, i => now) + [now];
    if n == 1 {
      assert trace + [] == trace && seq(0, i => now) == [];
    } else {
      AllCounted(l, trace, key, now, n - 1);
    }
    OneCounted(l, trace + Repeat(key, now, n - 1), key, now);
  }

  lemma RepeatSnoc(trace: seq<Attempt>, key: string, now: int, n: nat)
    ensures trace + Repeat(key, now, n + 1) == trace + Repeat(key, now, n) + [Attempt(key, now)]
    ensures Repeat(key, now, 0) == []
  {
  }

  lemma OrderedRepeat(trace: seq<Attempt>, key: string, now: int, n: nat)
    requires Ordered(trace) && forall i :: 0 <= i < |trace| ==> trace[i].now <= now
    ensures Ordered(trace + Repeat(key, now, n))
    ensures forall i :: 0 <= i < |trace + Repeat(key, now, n)| ==> (trace + Repeat(key, now, n))[i].now <= now
  {
  }

  /** One failure, max - 2 more when the window is about to end, and max right
      after it: 2*max - 2 failures within one time unit. */
  lemma BoundIsReached(l: Limits, key: string)
    requires l.max >= 3 && 1 <= l.window < l.lockout
    ensures exists trace: seq<Attempt> :: Ordered(trace) && CountIn(FailTimes(l, trace, key), l.window, 2 * l.window) == Bound(l.max)
  {
    hide AfterAll, FailTimes, Ordered, Repeat, Lookup, CountIn;
    var w, m := l.window, l.max;
    var t1 := Repeat(key, 0, 1);
    var t2 := t1 + Repeat(key, w, m - 2);
    var t3 := t2 + Repeat(key, w + 1, m);
    assert Ordered([]) by { NoTimes(l, key); }
    assert [] + t1 == t1;
    OrderedRepeat([], key, 0, 1);
    OrderedRepeat(t1, key, w, m - 2);
    OrderedRepeat(t2, key, w + 1, m);
    NoTimes(l, key);
    AllCounted(l, [], key, 0, 1);
    AllCounted(l, t1, key, w, m - 2);
    AllCounted(l, t2, key, w + 1, m);
    var a, b, c := seq(1, i => 0), seq(m - 2, i => w), seq(m, i => w + 1);
    assert FailTimes(l, t3, key) == (a + b) + c;
    BothCounted(a, w, m);
    assert CountIn(FailTimes(l, t3, key), w, 2 * w) == Bound(m);
  }

  lemma BothCounted(a: seq<int>, w: int, m: nat)
    requires m >= 2 && w >= 1 && forall i :: 0 <= i < |a| ==> a[i] < w
    ensures CountIn(a + seq(m - 2, i => w) + seq(m, i => w + 1), w, 2 * w) == 2 * m - 2
  {
    hide CountIn;
    CountConst(a + seq(m - 2, i => w), w + 1, m, w, 2 * w);
    CountConst(a, w, m - 2, w, 2 * w);
    NoneIn(a, w, 2 * w);
  }

  lemma NoTimes(l: Limits, key: string)
    ensures Ordered([]) && FailTimes(l, [], key) == [] && Lookup(AfterAll(l, []), key) == None
  {
  }

  lemma {:induction false} CountConst(ft: seq<int>, x: int, n: nat, from: int, to: int)
    requires from <= x <= to
    ensures CountIn(ft + seq(n, i => x), from, to) == CountIn(ft, from, to) + n
  {
    var all := ft + seq(n, i => x);
    if n == 0 {
      assert all == ft;
    } else {
      assert all[..|all| - 1] == ft + seq(n - 1, i => x);
      CountConst(ft, x, n - 1, from, to);
    }
  }
}
