/** Load-feedback steering (loadsteer.go) over the reals: smoothing, ramp,
    deadband, and why it settles. */
module LoadSteer {
  import opened Text

  datatype SteerOpts = SteerOpts(alpha: real, low: real, high: real, min: real, deadband: real)

  datatype LoadState = LoadState(smoothed: real, factor: real, lastPressed: real)

  predicate OptsOK(o: SteerOpts) {
    0.0 < o.alpha <= 1.0 && 0.0 < o.low < o.high && 0.0 < o.min < 1.0 && 0.0 < o.deadband
  }

  /** Every setting becomes usable, and each usable one is kept; a high mark is usable
      when it is above the low mark in force. */
  function WithDefaults(o: SteerOpts): (d: SteerOpts)
    ensures OptsOK(d)
    ensures (0.0 < o.alpha <= 1.0 ==> d.alpha == o.alpha) && (0.0 < o.low ==> d.low == o.low) && (d.low < o.high ==> d.high == o.high)
    ensures (0.0 < o.min < 1.0 ==> d.min == o.min) && (0.0 < o.deadband ==> d.deadband == o.deadband)
  {
    var alpha := if o.alpha <= 0.0 || o.alpha > 1.0 then 0.4 else o.alpha;
    var low := if o.low <= 0.0 then 0.55 else o.low;
    var high := if o.high <= 0.0 || o.high <= low then 0.90 else o.high;
    var high' := if high <= low then low + 0.2 else high;
    var min := if o.min <= 0.0 || o.min >= 1.0 then 0.30 else o.min;
    SteerOpts(alpha, low, high', min, if o.deadband <= 0.0 then 0.07 else o.deadband)
  }

  lemma Defaults()
    ensures WithDefaults(SteerOpts(0.0, 0.0, 0.0, 0.0, 0.0)) == SteerOpts(0.4, 0.55, 0.9, 0.3, 0.07)
    ensures WithDefaults(SteerOpts(1.5, 0.95, 0.5, 1.0, -1.0)) == SteerOpts(0.4, 0.95, 1.15, 0.3, 0.07)
  {
  }

  function Abs(x: real): real {
    if x < 0.0 then -x else x
  }

  function AbsDiff(a: real, b: real): (d: real)
    ensures d == Abs(a - b)
  {
    if a > b then a - b else b - a
  }

  function FactorFor(o: SteerOpts, pressure: real): real
    requires OptsOK(o)
  {
    if pressure <= o.low then 1.0
    else if pressure >= o.high then o.min
    else 1.0 - (pressure - o.low) / (o.high - o.low) * (1.0 - o.min)
  }

  function Clamp(raw: real): real {
    if raw < 0.0 then 0.0 else if raw > 1.0 then 1.0 else raw
  }

  // ---------- one sample of one edge ----------

  function Mix(alpha: real, raw: real, s: real): real {
    alpha * raw + (1.0 - alpha) * s
  }

  function Smoothed(o: SteerOpts, st: Option<LoadState>, raw: real): real {
    if st.None? then raw else Mix(o.alpha, raw, st.value.smoothed)
  }

  /** Whether want replaces the published factor. */
  predicate Moves(o: SteerOpts, want: real, factor: real) {
    AbsDiff(want, factor) >= o.deadband || (want == 1.0 && factor != 1.0)
  }

  function FactorOf(st: Option<LoadState>): real {
    if st.None? then 1.0 else st.value.factor
  }

  function Sampled(o: SteerOpts, st: Option<LoadState>, raw: real): LoadState
    requires OptsOK(o)
  {
    var s := Smoothed(o, st, raw);
    var want := FactorFor(o, s);
    LoadState(s, if Moves(o, want, FactorOf(st)) then want else FactorOf(st), raw)
  }

  predicate Published(o: SteerOpts, st: Option<LoadState>, raw: real)
    requires OptsOK(o)
  {
    Moves(o, FactorFor(o, Smoothed(o, st, raw)), FactorOf(st))
  }

  // ---------- the controller ----------

  function Lookup(state: map<string, LoadState>, id: string): Option<LoadState> {
    if id in state then Some(state[id]) else None
  }

  class LoadController {
    const opts: SteerOpts
    var state: map<string, LoadState>

    ghost predicate Valid()
      reads this
    {
      OptsOK(opts) && forall id :: id in state ==> Steered(opts, state[id])
    }

    constructor (opts: SteerOpts)
      ensures Valid() && this.opts == WithDefaults(opts) && state == map[]
    {
      this.opts, state := WithDefaults(opts), map[];
    }

    /** The published weight multiplier: never below the floor, never above 1. */
    method Factor(edgeID: string) returns (f: real)
      requires Valid()
      ensures f == FactorOf(Lookup(state, edgeID)) && opts.min <= f <= 1.0
    {
      return if edgeID in state then state[edgeID].factor else 1.0;
    }

    /** One sample of one edge; tells whether its factor was published anew. */
    method SampleEdge(edgeID: string, pressure: real) returns (moved: bool)
      requires Valid()
      modifies this`state
      ensures Valid()
      ensures state == old(state)[edgeID := Sampled(opts, Lookup(old(state), edgeID), Clamp(pressure))]
      ensures moved == Published(opts, Lookup(old(state), edgeID), Clamp(pressure))
    {
      hide FactorFor, Mix, AbsDiff, Clamp;
      var raw := Clamp(pressure);
      SampleSteers(opts, Lookup(state, edgeID), raw);
      var smoothed, factor := raw, 1.0;
      if edgeID in state {
        smoothed := Mix(opts.alpha, raw, state[edgeID].smoothed);
        factor := state[edgeID].factor;
      }
      var want := FactorFor(opts, smoothed);
      moved := AbsDiff(want, factor) >= opts.deadband || (want == 1.0 && factor != 1.0);
      if moved {
        factor := want;
      }
      state := state[edgeID := LoadState(smoothed, factor, raw)];
    }

    /** One sample of every edge that has one, in any order; the other edges keep
        their state. A failed load changes nothing. */
    method Refresh(pressures: Option<map<string, real>>) returns (changed: bool)
      requires Valid()
      modifies this`state
      ensures Valid()
      ensures pressures.None? ==> state == old(state) && !changed
      ensures pressures.Some? ==> state == Refreshed(opts, old(state), pressures.value, pressures.value.Keys)
      ensures pressures.Some? ==>
                (changed <==> exists id :: id in pressures.value && Published(opts, Lookup(old(state), id), Clamp(pressures.value[id])))
    {
      hide FactorFor, Steered, Clamp, Sampled, Published, Refreshed;
      changed := false;
      if pressures.None? {
        return;
      }
      ghost var was := state;
      var todo := pressures.value.Keys;
      ghost var seen: set<string> := {};
      assert state == Refreshed(opts, was, pressures.value, {}) by { NoneRefreshed(opts, was, pressures.value); }
      while todo != {}
        invariant Valid() && todo + seen == pressures.value.Keys && todo !! seen
        invariant state == Refreshed(opts, was, pressures.value, seen)
        invariant changed ==> exists id :: id in seen && Published(opts, Lookup(was, id), Clamp(pressures.value[id]))
        invariant !changed ==> forall id :: id in seen ==> !Published(opts, Lookup(was, id), Clamp(pressures.value[id]))
        decreases |todo|
      {
        var edgeID :| edgeID in todo;
        OneRefreshed(opts, was, pressures.value, seen, edgeID);
        var moved := SampleEdge(edgeID, pressures.value[edgeID]);
        todo := todo - {edgeID};
        seen := seen + {edgeID};
        changed := changed || moved;
      }
      assert seen == pressures.value.Keys;
    }
  }

  /** The states once the edges of some set have been sampled. */
  function Refreshed(o: SteerOpts, state: map<string, LoadState>, pressures: map<string, real>, seen: set<string>): map<string, LoadState>
    requires OptsOK(o) && seen <= pressures.Keys
  {
    map id | id in state.Keys + seen ::
      if id in seen then Sampled(o, Lookup(state, id), Clamp(pressures[id])) else state[id]
  }

  lemma NoneRefreshed(o: SteerOpts, state: map<string, LoadState>, pressures: map<string, real>)
    requires OptsOK(o)
    ensures Refreshed(o, state, pressures, {}) == state
  {
    hide Sampled;
    assert state.Keys + {} == state.Keys;
  }

  lemma OneRefreshed(o: SteerOpts, state: map<string, LoadState>, pressures: map<string, real>, seen: set<string>, id: string)
    requires OptsOK(o) && seen <= pressures.Keys && id in pressures && id !in seen
    ensures var m := Refreshed(o, state, pressures, seen);
            Lookup(m, id) == Lookup(state, id)
            && m[id := Sampled(o, Lookup(state, id), Clamp(pressures[id]))] == Refreshed(o, state, pressures, seen + {id})
  {
    hide Sampled;
  }

  // ---------- what every sample keeps ----------

  /** The published factor is within bounds and closer than the deadband to the ramp
      value of the smoothed pressure; when the ramp says 1, it is 1. */
  ghost predicate Steered(o: SteerOpts, st: LoadState) {
    OptsOK(o) && o.min <= st.factor <= 1.0
    && Abs(FactorFor(o, st.smoothed) - st.factor) < o.deadband
    && (FactorFor(o, st.smoothed) == 1.0 ==> st.factor == 1.0)
  }

  lemma RampShare(a: real, b: real, c: real)
    requires 0.0 <= a <= b && 0.0 < b && 0.0 <= c
    ensures 0.0 <= a / b * c <= c
  {
    assert 0.0 <= a / b <= 1.0;
    MulUp(0.0, a / b, c);
    MulUp(a / b, 1.0, c);
  }

  lemma MulUp(a: real, b: real, c: real)
    requires a <= b && 0.0 <= c
    ensures a * c <= b * c
  {
    assert 0.0 <= (b - a) * c;
  }

  lemma FactorInRange(o: SteerOpts, p: real)
    requires OptsOK(o)
    ensures o.min <= FactorFor(o, p) <= 1.0
  {
    if o.low < p < o.high {
      RampShare(p - o.low, o.high - o.low, 1.0 - o.min);
    }
  }

  /** One sample from any in-range state, steered or not, ends steered. */
  lemma SampleSteers(o: SteerOpts, st: Option<LoadState>, raw: real)
    requires OptsOK(o) && o.min <= FactorOf(st) <= 1.0
    ensures Steered(o, Sampled(o, st, raw))
  {
    FactorInRange(o, Smoothed(o, st, raw));
    hide FactorFor;
  }

  // ---------- the sample ----------

  /** A reading outside 0 to 1 counts as the nearest value inside. */
  lemma ClampIsNearest(raw: real, x: real)
    ensures 0.0 <= Clamp(raw) <= 1.0
    ensures 0.0 <= x <= 1.0 ==> Abs(raw - Clamp(raw)) <= Abs(raw - x)
  {
  }

  /** The first sample counts in full, a later one by its share; the reading itself is
      kept for display. The published factor moves only by the deadband or more, or all
      the way back to 1, and then it moves to the ramp value. */
  lemma SampleMoves(o: SteerOpts, st: Option<LoadState>, raw: real)
    requires OptsOK(o)
    ensures var s := Sampled(o, st, raw);
            s.lastPressed == raw
            && (if st.None? then s.smoothed == raw else s.smoothed - st.value.smoothed == o.alpha * (raw - st.value.smoothed))
            && var was := if st.None? then 1.0 else st.value.factor;
               if Abs(FactorFor(o, s.smoothed) - was) < o.deadband && FactorFor(o, s.smoothed) != 1.0 then s.factor == was
               else s.factor == FactorFor(o, s.smoothed)
  {
    hide FactorFor;
    if st.Some? {
      assert (1.0 - o.alpha) * st.value.smoothed == st.value.smoothed - o.alpha * st.value.smoothed;
    }
  }

  /** A sample is reported as a change exactly when the published factor is another one. */
  lemma ChangeIsReported(o: SteerOpts, st: Option<LoadState>, raw: real)
    requires OptsOK(o)
    ensures Published(o, st, raw) <==> Sampled(o, st, raw).factor != if st.None? then 1.0 else st.value.factor
  {
    hide FactorFor, Smoothed;
  }

  // ---------- the ramp ----------

  lemma DivUp(a: real, b: real, c: real)
    requires a <= b && 0.0 < c
    ensures a / c <= b / c
  {
  }

  lemma FactorFalls(o: SteerOpts, p: real, q: real)
    requires OptsOK(o) && p <= q
    ensures FactorFor(o, q) <= FactorFor(o, p)
  {
    FactorInRange(o, p);
    FactorInRange(o, q);
    if o.low < p && q < o.high {
      DivUp(p - o.low, q - o.low, o.high - o.low);
      MulUp((p - o.low) / (o.high - o.low), (q - o.low) / (o.high - o.low), 1.0 - o.min);
    }
  }

  function Slope(o: SteerOpts): real
    requires OptsOK(o)
  {
    (1.0 - o.min) / (o.high - o.low)
  }

  lemma OnRamp(o: SteerOpts, p: real)
    requires OptsOK(o) && o.low <= p <= o.high
    ensures FactorFor(o, p) == 1.0 - Slope(o) * (p - o.low)
  {
    var c, d, x := 1.0 - o.min, o.high - o.low, p - o.low;
    assert x / d * c == c / d * x;
    if p == o.high {
      assert c / d * d == c;
    }
  }

  lemma ShareOf(a: real, d: real)
    requires 0.0 < a < d
    ensures 0.0 < a / d < 1.0
  {
    assert a / d * d == a;
    if a / d >= 1.0 { MulUp(1.0, a / d, d); }
  }

  /** Full weight up to the low mark and nowhere above it, the floor from the high mark
      on and nowhere below it. */
  lemma RampEnds(o: SteerOpts, p: real)
    requires OptsOK(o)
    ensures FactorFor(o, p) == 1.0 <==> p <= o.low
    ensures FactorFor(o, p) == o.min <==> p >= o.high
  {
    if o.low < p < o.high {
      var d, c := o.high - o.low, 1.0 - o.min;
      var share := (p - o.low) / d;
      ShareOf(p - o.low, d);
      assert 0.0 < share * c < c;
    }
  }

  /** In between each share of the way takes that share of the drop. */
  lemma RampIsStraight(o: SteerOpts, x: real)
    requires OptsOK(o) && 0.0 <= x <= 1.0
    ensures FactorFor(o, o.low + x * (o.high - o.low)) == 1.0 - x * (1.0 - o.min)
  {
    var d, c := o.high - o.low, 1.0 - o.min;
    MulUp(0.0, x, d);
    MulUp(x, 1.0, d);
    OnRamp(o, o.low + x * d);
    hide FactorFor;
    assert c / d * (x * d) == x * (c / d * d);
  }

  function Onto(o: SteerOpts, p: real): (q: real)
    requires OptsOK(o)
    ensures o.low <= q <= o.high
  {
    if p < o.low then o.low else if p > o.high then o.high else p
  }

  lemma OntoRamp(o: SteerOpts, p: real)
    requires OptsOK(o)
    ensures FactorFor(o, p) == 1.0 - Slope(o) * (Onto(o, p) - o.low)
  {
    OnRamp(o, Onto(o, p));
    hide Slope;
    assert FactorFor(o, Onto(o, p)) == FactorFor(o, p);
  }

  lemma OntoCloser(o: SteerOpts, p: real, q: real)
    requires OptsOK(o)
    ensures Abs(Onto(o, p) - Onto(o, q)) <= Abs(p - q)
  {
  }

  lemma SlopePositive(o: SteerOpts)
    requires OptsOK(o)
    ensures 0.0 <= Slope(o)
  {
  }

  /** The ramp never turns a pressure difference into more than Slope times it. */
  lemma FactorLipschitz(o: SteerOpts, p: real, q: real)
    requires OptsOK(o)
    ensures Abs(FactorFor(o, p) - FactorFor(o, q)) <= Slope(o) * Abs(p - q)
  {
    hide *;
    OntoRamp(o, p);
    OntoRamp(o, q);
    OntoCloser(o, p, q);
    SlopePositive(o);
    Scaled(Slope(o), Onto(o, p), Onto(o, q), o.low, Abs(p - q), FactorFor(o, p), FactorFor(o, q));
  }

  lemma Scaled(k: real, a: real, b: real, low: real, x: real, fa: real, fb: real)
    requires 0.0 <= k && Abs(a - b) <= x && fa == 1.0 - k * (a - low) && fb == 1.0 - k * (b - low)
    ensures Abs(fa - fb) <= k * x
  {
    assert k * (b - low) - k * (a - low) == k * (b - a);
    MulUp(b - a, x, k);
    MulUp(a - b, x, k);
    assert k * (a - b) == -(k * (b - a));
  }

  // ---------- constant pressure ----------

  function After(o: SteerOpts, st: LoadState, raw: real, n: nat): LoadState
    requires OptsOK(o)
  {
    if n == 0 then st else Sampled(o, Some(After(o, st, raw, n - 1)), raw)
  }

  function Pow(x: real, n: nat): real {
    if n == 0 then 1.0 else x * Pow(x, n - 1)
  }

  lemma MixShrinks(a: real, raw: real, s: real)
    ensures Mix(a, raw, s) - raw == (1.0 - a) * (s - raw)
  {
  }

  lemma Assoc(a: real, b: real, c: real)
    ensures a * (b * c) == (a * b) * c
  {
  }

  /** Under constant pressure the distance to it shrinks by 1 - alpha per sample. */
  lemma {:induction false} Contracts(o: SteerOpts, st: LoadState, raw: real, n: nat)
    requires OptsOK(o)
    ensures After(o, st, raw, n).smoothed - raw == Pow(1.0 - o.alpha, n) * (st.smoothed - raw)
  {
    hide FactorFor, Mix, Moves;
    if n == 0 {
    } else {
      Contracts(o, st, raw, n - 1);
      MixShrinks(o.alpha, raw, After(o, st, raw, n - 1).smoothed);
      Assoc(1.0 - o.alpha, Pow(1.0 - o.alpha, n - 1), st.smoothed - raw);
    }
  }

  lemma {:induction false} AfterSteered(o: SteerOpts, st: LoadState, raw: real, n: nat)
    requires OptsOK(o) && Steered(o, st)
    ensures Steered(o, After(o, st, raw, n))
  {
    hide Sampled, FactorFor;
    if n == 0 {
    } else {
      AfterSteered(o, st, raw, n - 1);
      SampleSteers(o, Some(After(o, st, raw, n - 1)), raw);
    }
  }

  /** It settles: after n samples of constant pressure the published factor is
      within the deadband, plus a geometrically vanishing rest, of what the ramp says
      for that pressure. */
  lemma Settles(o: SteerOpts, st: LoadState, raw: real, n: nat)
    requires OptsOK(o) && Steered(o, st)
    ensures Abs(After(o, st, raw, n).factor - FactorFor(o, raw)) < o.deadband + Slope(o) * Pow(1.0 - o.alpha, n) * Abs(st.smoothed - raw)
  {
    hide FactorFor, After, Slope, Pow;
    var end, k, p := After(o, st, raw, n), Slope(o), Pow(1.0 - o.alpha, n);
    AfterSteered(o, st, raw, n);
    Contracts(o, st, raw, n);
    FactorLipschitz(o, end.smoothed, raw);
    PowPositive(1.0 - o.alpha, n);
    AbsMul(p, st.smoothed - raw);
    Assoc(k, p, Abs(st.smoothed - raw));
    var x := k * p * Abs(st.smoothed - raw);
    assert Abs(FactorFor(o, end.smoothed) - FactorFor(o, raw)) <= x;
  }

  lemma AbsMul(p: real, x: real)
    requires 0.0 <= p
    ensures Abs(p * x) == p * Abs(x)
  {
    if x < 0.0 {
      MulUp(x, 0.0, p);
    } else {
      MulUp(0.0, x, p);
    }
  }

  lemma {:induction false} PowPositive(x: real, n: nat)
    requires 0.0 <= x
    ensures 0.0 <= Pow(x, n)
  {
    if n == 0 {
    } else {
      PowPositive(x, n - 1);
    }
  }

  /** How often the factor is published anew in n samples of constant pressure. */
  function Republished(o: SteerOpts, st: Option<LoadState>, raw: real, n: nat): nat
    requires OptsOK(o)
    decreases n
  {
    if n == 0 then 0
    else (if Published(o, st, raw) then 1 else 0) + Republished(o, Some(Sampled(o, st, raw)), raw, n - 1)
  }

  lemma TowardsRaw(a: real, s: real, raw: real)
    requires 0.0 < a <= 1.0
    ensures s <= raw ==> s <= Mix(a, raw, s) <= raw
    ensures raw <= s ==> raw <= Mix(a, raw, s) <= s
  {
    var x := raw - s;
    var u, v := a * x, (1.0 - a) * x;
    assert u + v == x;
    assert Mix(a, raw, s) == s + u;
    if s <= raw {
      Sign(a, x);
      Sign(1.0 - a, x);
    } else {
      Sign(a, -x);
      Sign(1.0 - a, -x);
      assert a * -x == -u && (1.0 - a) * -x == -v;
    }
  }

  lemma Sign(a: real, x: real)
    requires 0.0 <= a && 0.0 <= x
    ensures 0.0 <= a * x
  {
  }

  /** The deadband, once for every republication. */
  function Spent(o: SteerOpts, st: Option<LoadState>, raw: real, n: nat): real
    requires OptsOK(o)
  {
    Republished(o, st, raw, n) as real * o.deadband
  }

  lemma SpentStep(o: SteerOpts, st: Option<LoadState>, raw: real, n: nat)
    requires OptsOK(o)
    ensures Spent(o, st, raw, 0) == 0.0
    ensures n > 0 ==>
              Spent(o, st, raw, n) == (if Published(o, st, raw) then o.deadband else 0.0) + Spent(o, Some(Sampled(o, st, raw)), raw, n - 1)
  {
    hide Published, Sampled;
    if n > 0 {
      var k := Republished(o, Some(Sampled(o, st, raw)), raw, n - 1) as real;
      assert (1.0 + k) * o.deadband == o.deadband + k * o.deadband;
    }
  }

  /** Heating up, every new factor is lower by the deadband. */
  lemma {:induction false} HeatingBound(o: SteerOpts, st: LoadState, raw: real, n: nat)
    requires OptsOK(o) && Steered(o, st) && st.smoothed <= raw
    ensures Spent(o, Some(st), raw, n) <= st.factor - o.min
    decreases n
  {
    hide FactorFor, Spent, Mix;
    SpentStep(o, Some(st), raw, n);
    if n == 0 {
    } else {
      var next := Sampled(o, Some(st), raw);
      TowardsRaw(o.alpha, st.smoothed, raw);
      FactorFalls(o, st.smoothed, next.smoothed);
      FactorInRange(o, st.smoothed);
      SampleSteers(o, Some(st), raw);
      HeatingBound(o, next, raw, n - 1);
    }
  }

  /** Cooling down, every new factor is higher by the deadband, but for one last
      return to exactly 1. */
  lemma {:induction false} CoolingBound(o: SteerOpts, st: LoadState, raw: real, n: nat)
    requires OptsOK(o) && Steered(o, st) && raw <= st.smoothed
    ensures Spent(o, Some(st), raw, n) <= 1.0 - st.factor + if st.factor == 1.0 then 0.0 else o.deadband
    decreases n
  {
    hide FactorFor, Spent, Mix;
    SpentStep(o, Some(st), raw, n);
    if n == 0 {
    } else {
      var next := Sampled(o, Some(st), raw);
      TowardsRaw(o.alpha, st.smoothed, raw);
      FactorFalls(o, next.smoothed, st.smoothed);
      FactorInRange(o, next.smoothed);
      SampleSteers(o, Some(st), raw);
      CoolingBound(o, next, raw, n - 1);
    }
  }

  /** Under constant pressure an edge, known before or not, is republished at most
      2 + (1 - min)/deadband times, however many samples are taken. */
  lemma RepublishBound(o: SteerOpts, st: Option<LoadState>, raw: real, n: nat)
    requires OptsOK(o) && o.min <= FactorOf(st) <= 1.0
    ensures Republished(o, st, raw, n) as real <= 2.0 + (1.0 - o.min) / o.deadband
  {
    assert Spent(o, st, raw, n) <= 2.0 * o.deadband + (1.0 - o.min) by {
      hide FactorFor, Spent, Mix;
      SpentStep(o, st, raw, n);
      if n > 0 {
        var next := Sampled(o, st, raw);
        SampleSteers(o, st, raw);
        if next.smoothed <= raw {
          HeatingBound(o, next, raw, n - 1);
        } else {
          CoolingBound(o, next, raw, n - 1);
        }
      }
    }
    DivideOut(Republished(o, st, raw, n) as real, o.deadband, 1.0 - o.min);
  }

  lemma Cancel(k: real, c: real, d: real)
    requires 0.0 < d && k * d <= c * d
    ensures k <= c
  {
    assert (k - c) * d == k * d - c * d;
    if k > c {
      Positive(k - c, d);
    }
  }

  lemma Positive(x: real, d: real)
    requires 0.0 < x && 0.0 < d
    ensures 0.0 < x * d
  {
  }

  lemma DivideOut(k: real, d: real, m: real)
    requires 0.0 < d && k * d <= 2.0 * d + m
    ensures k <= 2.0 + m / d
  {
    var q := m / d;
    assert q * d == m;
    assert (2.0 + q) * d == 2.0 * d + q * d;
    Cancel(k, 2.0 + q, d);
  }
}
