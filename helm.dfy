/** An incremental PID controller: tuning parameters, two pieces of transient
    state, and the discrete step that turns a sample of the process into an
    increment of the control signal.  Arithmetic is over exact reals; an
    infinite time scale is an explicit tag, and the not-a-number sentinels of
    the C code are `None`. */
module Helm {

  datatype Option<T> = None | Some(value: T)

  /** A time scale.  `Infinite` stands for IEEE positive infinity, which the
      controller uses to switch a term off. */
  datatype TimeScale = Finite(t: real) | Infinite {
    predicate Positive() { Infinite? || t > 0.0 }
    predicate Nonzero() { Infinite? || t != 0.0 }
  }

  /** `x / ts`, where dividing a finite value by infinity gives exactly zero. */
  function Div(x: real, ts: TimeScale): (q: real)
    requires ts.Finite? ==> ts.t != 0.0
    ensures ts.Infinite? ==> q == 0.0
    ensures x == 0.0 ==> q == 0.0
  {
    match ts
    case Infinite => 0.0
    case Finite(t) => x / t
  }

  /** `ts + dt` for a finite `dt`: infinity absorbs it. */
  function Plus(ts: TimeScale, dt: real): (s: TimeScale)
    ensures s.Infinite? <==> ts.Infinite?
    ensures ts.Finite? ==> s.t - dt == ts.t
  {
    match ts
    case Infinite => Infinite
    case Finite(t) => Finite(t + dt)
  }

  /** The convex-combination parameter `dt / (Tf + dt)` of the low-pass filter. */
  function Alpha(dt: real, Tf: TimeScale): (a: real)
    requires Tf.Finite? ==> Tf.t + dt != 0.0
    ensures Tf.Infinite? ==> a == 0.0
  {
    Div(dt, Plus(Tf, dt))
  }

  /** For a nonnegative time step and a positive filter time scale the filter
      parameter lies in `[0, 1)`. */
  lemma AlphaInUnit(dt: real, Tf: TimeScale)
    requires dt >= 0.0 && Tf.Positive()
    ensures 0.0 <= Alpha(dt, Tf) < 1.0
  {
    if Tf.Finite? {
      AlphaTimes(dt, Tf);
      FractionBounds(Alpha(dt, Tf), Tf.t, dt);
    }
  }

  /** Any `a` with `a (t + dt) = dt`, for `t > 0` and `dt >= 0`, lies in `[0, 1)`. */
  lemma FractionBounds(a: real, t: real, dt: real)
    requires t > 0.0 && dt >= 0.0 && a * (t + dt) == dt
    ensures 0.0 <= a < 1.0
  {
    var s := t + dt;
    assert a < 0.0 ==> a * s < 0.0;
    assert a >= 1.0 ==> a * s >= s;
  }

  /** Dividing by a finite time scale and multiplying back gives the dividend. */
  lemma DivTimes(x: real, ts: TimeScale)
    requires ts.Finite? && ts.t != 0.0
    ensures Div(x, ts) * ts.t == x
  {
  }

  /** The defining equation of the filter parameter: `alpha (Tf + dt) = dt`. */
  lemma AlphaTimes(dt: real, Tf: TimeScale)
    requires Tf.Finite? && Tf.t + dt != 0.0
    ensures Alpha(dt, Tf) * (Tf.t + dt) == dt
  {
    DivTimes(dt, Plus(Tf, dt));
  }

  /** A product with a nonzero factor vanishes only when the other factor does. */
  lemma ZeroProduct(x: real, s: real)
    requires s != 0.0 && x * s == 0.0
    ensures x == 0.0
  {
    assert x > 0.0 && s > 0.0 ==> x * s > 0.0;
    assert x > 0.0 && s < 0.0 ==> x * s < 0.0;
    assert x < 0.0 && s > 0.0 ==> x * s < 0.0;
    assert x < 0.0 && s < 0.0 ==> x * s > 0.0;
  }

  /** A value that gives `n` when multiplied by `s` is the quotient `n / s`. */
  lemma QuotientUnique(g: real, n: real, s: real)
    requires s != 0.0 && g * s == n
    ensures g == n / s
  {
    var q := n / s;
    assert q * s == n;
    ZeroProduct(g - q, s);
  }

  /** An inequality between multiples of a positive value holds between the factors. */
  lemma CancelPositive(a: real, b: real, s: real)
    requires s > 0.0 && a * s <= b * s
    ensures a <= b
  {
    assert a > b ==> (a - b) * s > 0.0;
  }

  /** Multiplying by a nonnegative value preserves an inequality. */
  lemma ScaleNonnegative(a: real, b: real, c: real)
    requires c >= 0.0 && a <= b
    ensures a * c <= b * c
  {
    assert (b - a) * c >= 0.0;
  }

  /** The tuning parameters of `struct helm_state`. */
  datatype Tuning = Tuning(kp: real, Td: real, Tf: TimeScale, Ti: TimeScale, Tt: TimeScale) {
    /** The domain `helm_approach` asserts before automatic control starts;
        inside it no time scale that a step divides by is zero. */
    predicate Approachable()
      ensures Approachable() ==> Tf.Nonzero() && Ti.Nonzero() && Tt.Nonzero()
    {
      Td >= 0.0 && Tf.Positive() && Ti.Positive() && Tt.Positive()
    }

    /** Derivative action off, integral action and automatic reset disabled. */
    predicate Proportional() {
      Td == 0.0 && Ti == Infinite && Tt == Infinite
    }
  }

  /** The tuning `helm_reset` installs: unit gain, every other term off. */
  const Default: Tuning := Tuning(1.0, 0.0, Infinite, Infinite, Infinite)

  /** The transient state: the last observable `y` and the filtered observable
      `f`, which is `None` until the first valid sample after `helm_approach`. */
  datatype Track = Track(y: real, f: Option<real>)

  /** What one step returns: the increment and the transient state left behind. */
  datatype Response = Response(dv: real, next: Track)

  /** Whether every division of a step with time step `dt` is defined in exact
      arithmetic: nonzero time scales and a nonzero `Tf + dt`.  After
      `helm_approach` every step with a nonnegative time step is defined. */
  predicate StepDefined(p: Tuning, dt: real)
    ensures p.Approachable() && dt >= 0.0 ==> StepDefined(p, dt)
  {
    p.Tf.Nonzero() && p.Ti.Nonzero() && p.Tt.Nonzero() && (p.Tf.Finite? ==> p.Tf.t + dt != 0.0)
  }

  /** The transient state after the "avoid startup kick" branch: on the first
      valid sample both `y` and `f` start at the sample. */
  function Seed(s: Track, y: real): (s0: Track)
    ensures s0.f.Some?
    ensures s.f.None? ==> s0 == Track(y, Some(y))
    ensures s.f.Some? ==> s0 == s
  {
    if s.f.None? then Track(y, Some(y)) else s
  }

  /** The filtered observable after one step: the old value moved by the
      filtered difference `alpha (y_i - f_{i-1})`.  An infinite `Tf` freezes
      it, and a settled filter stays where it is. */
  function Filtered(dt: real, Tf: TimeScale, fPrev: real, y: real): (g: real)
    requires Tf.Finite? ==> Tf.t + dt != 0.0
    ensures Tf.Infinite? ==> g == fPrev
    ensures y == fPrev ==> g == fPrev
  {
    fPrev + Alpha(dt, Tf) * (y - fPrev)
  }

  /** The discrete evolution equation for the increment,
      `dv_i = kp [dt ((r - y)/Ti + (u - v)/Tt) + (Td/Tf)(df_i - dy_i) - dy_i]`
      with `df_i = alpha (y_i - f_{i-1})` and `dy_i = y_i - y_{i-1}`.
      At rest (on the reference, actuator matching request, a still and
      settled observable) it asks for nothing. */
  function Increment(p: Tuning, dt: real, r: real, u: real, v: real,
                     y: real, yPrev: real, fPrev: real): (e: real)
    requires StepDefined(p, dt)
    ensures r == y && u == v && y == yPrev && y == fPrev ==> e == 0.0
  {
    var df := Alpha(dt, p.Tf) * (y - fPrev);
    var dy := y - yPrev;
    p.kp * (dt * (Div(r - y, p.Ti) + Div(u - v, p.Tt)) + Div(p.Td, p.Tf) * (df - dy) - dy)
  }

  /** One step of the controller as a function of its inputs and the transient
      state before it.  An invalid sample changes nothing and asks for nothing;
      a valid one is left behind as `y`, with a defined filter.  The gain
      scales every term, so a zero gain asks for nothing. */
  function Step(p: Tuning, s: Track, dt: real, r: real, u: real, v: real,
                y: Option<real>): (o: Response)
    requires y.Some? ==> StepDefined(p, dt)
    ensures y.None? ==> o == Response(0.0, s)
    ensures y.Some? ==> o.next.y == y.value && o.next.f.Some?
    ensures p.kp == 0.0 ==> o.dv == 0.0
  {
    match y
    case None => Response(0.0, s)
    case Some(obs) =>
      var s0 := Seed(s, obs);
      Response(Increment(p, dt, r, u, v, obs, s0.y, s0.f.value),
               Track(obs, Some(Filtered(dt, p.Tf, s0.f.value, obs))))
  }

  /** One pass of a caller's loop: the time step, the reference, the actuator
      signal observed, and the (possibly invalid) process observable. */
  datatype Sample = Sample(dt: real, r: real, u: real, y: Option<real>)

  /** The caller's running control signal and the controller's transient state. */
  datatype Run = Run(v: real, track: Track)

  /** Every valid sample of the run has a time step the controller can take
      (an invalid one is skipped before any division, whatever its time step). */
  predicate AllDefined(p: Tuning, samples: seq<Sample>) {
    forall x :: x in samples && x.y.Some? ==> StepDefined(p, x.dt)
  }

  /** Every sample of the run carries a valid observable. */
  predicate AllValid(samples: seq<Sample>) {
    forall x :: x in samples ==> x.y.Some?
  }

  /** A step rule: what one sample asks of the running signal, and the
      transient state it leaves behind. */
  type StepRule = (Track, real, Sample) -> Response

  /** The caller's loop `v += step(...)` over a run of samples, for any step
      rule.  An empty run leaves the signal and the state alone. */
  function Fold(step: StepRule, s: Track, v: real, samples: seq<Sample>): (q: Run)
    ensures samples == [] ==> q == Run(v, s)
    decreases |samples|, 1
  {
    if samples == [] then Run(v, s) else Pass(step, s, v, samples)
  }

  /** The caller's loop over a nonempty run: the first pass, then the rest.
      A run of one sample is that sample's step added to the signal. */
  function Pass(step: StepRule, s: Track, v: real, samples: seq<Sample>): (q: Run)
    requires samples != []
    ensures |samples| == 1 ==>
              q == Run(v + step(s, v, samples[0]).dv, step(s, v, samples[0]).next)
    decreases |samples|, 0
  {
    var o := step(s, v, samples[0]);
    Fold(step, o.next, v + o.dv, samples[1..])
  }

  /** One pass of the caller's loop, unfolded. */
  lemma FoldCons(step: StepRule, s: Track, v: real, samples: seq<Sample>)
    requires samples != []
    ensures var o := step(s, v, samples[0]);
            Fold(step, s, v, samples) == Fold(step, o.next, v + o.dv, samples[1..])
  {
  }

  /** `helm_steady` under tuning `p` as a step rule, so that the caller's loop
      over a run is `Fold(Rule(p), ...)`.  The rule skips every invalid
      sample, whatever its time step.  A valid sample whose time step the
      controller cannot take (a zero time scale, or `Tf + dt = 0`) lies
      outside every run that `Drive` and the run lemmas accept; the rule
      leaves such a sample alone. */
  function Rule(p: Tuning): (step: StepRule)
    ensures SkipsInvalid(step)
  {
    (t: Track, w: real, x: Sample) =>
      if x.y.None? || StepDefined(p, x.dt) then Step(p, t, x.dt, x.r, x.u, w, x.y)
      else Response(0.0, t)
  }

  /** The samples of a run that carry a valid observable. */
  function ValidOnly(samples: seq<Sample>): (w: seq<Sample>)
    ensures |w| <= |samples|
    ensures AllValid(w)
    ensures forall x :: x in w <==> x in samples && x.y.Some?
  {
    if samples == [] then []
    else if samples[0].y.None? then ValidOnly(samples[1..])
    else [samples[0]] + ValidOnly(samples[1..])
  }

  // ---------------------------------------------------------------------
  // The controller object
  // ---------------------------------------------------------------------

  /** `struct helm_state`: the fields the three operations update in place. */
  class Controller {
    var kp: real
    var Td: real
    var Tf: TimeScale
    var Ti: TimeScale
    var Tt: TimeScale
    var y: real
    var f: Option<real>

    function Tuned(): Tuning
      reads this
    {
      Tuning(kp, Td, Tf, Ti, Tt)
    }

    function Transient(): Track
      reads this
    {
      Track(y, f)
    }

    /** A controller whose fields start as the given values. */
    constructor (p: Tuning, s: Track)
      ensures Tuned() == p && Transient() == s
    {
      kp, Td, Tf, Ti, Tt := p.kp, p.Td, p.Tf, p.Ti, p.Tt;
      y, f := s.y, s.f;
    }

    /** `helm_reset`: reset all tuning parameters but not the transient state. */
    method Reset()
      modifies this`kp, this`Td, this`Tf, this`Ti, this`Tt
      ensures Tuned() == Default
      ensures Tuned().Approachable()
      ensures Transient() == old(Transient())
    {
      kp := 1.0;
      Td := 0.0;
      Tf := Infinite;
      Ti := Infinite;
      Tt := Infinite;
    }

    /** `helm_approach`: reset the transient state but not the tuning. */
    method Approach()
      requires Tuned().Approachable()
      modifies this`f
      ensures f == None
      ensures Tuned() == old(Tuned())
      ensures y == old(y)
    {
      f := None;
    }

    /** `helm_steady`: the increment to add to the requested control signal `v`. */
    method Steady(dt: real, r: real, u: real, v: real, y: Option<real>) returns (dv: real)
      requires y.Some? ==> StepDefined(Tuned(), dt)
      modifies this`y, this`f
      ensures Response(dv, Transient()) == Step(Tuned(), old(Transient()), dt, r, u, v, y)
      ensures Tuned() == old(Tuned())
      ensures y.None? ==> dv == 0.0 && Transient() == old(Transient())
      ensures y.Some? ==> this.y == y.value && f.Some?
    {
      dv := 0.0;
      if y.Some? {
        var obs := y.value;
        if f.None? {
          this.y := obs;
          f := Some(obs);
        }
        ghost var s0 := Transient();
        var a := Alpha(dt, Tf);
        var df := a * (obs - f.value);
        var dy := obs - this.y;
        dv := dv + Div(r - obs, Ti);
        ghost var d1 := dv;
        dv := dv + Div(u - v, Tt);
        ghost var d2 := dv;
        dv := dv * dt;
        ghost var d3 := dv;
        dv := dv + Div(Td, Tf) * (df - dy);
        ghost var d4 := dv;
        dv := dv - dy;
        ghost var d5 := dv;
        dv := dv * kp;
        this.y := obs;
        f := Some(f.value + df);
        AccumulatesStep(Tuned(), old(Transient()), dt, r, u, v, obs, s0,
                        df, dy, d1, d2, d3, d4, d5, dv, f.value);
      }
    }
  }

  /** What the body of `helm_steady` accumulates, in the order it does, is the
      increment of the discrete evolution equation. */
  lemma AccumulatesIncrement(p: Tuning, dt: real, r: real, u: real, v: real,
                             y: real, yPrev: real, fPrev: real, df: real, dy: real,
                             d1: real, d2: real, d3: real, d4: real, d5: real, dv: real)
    requires StepDefined(p, dt)
    requires df == Alpha(dt, p.Tf) * (y - fPrev) && dy == y - yPrev
    requires d1 == 0.0 + Div(r - y, p.Ti) && d2 == d1 + Div(u - v, p.Tt) && d3 == d2 * dt
    requires d4 == d3 + Div(p.Td, p.Tf) * (df - dy) && d5 == d4 - dy && dv == d5 * p.kp
    ensures dv == Increment(p, dt, r, u, v, y, yPrev, fPrev)
  {
    Regrouped(p.kp, dt, Div(r - y, p.Ti), Div(u - v, p.Tt), Div(p.Td, p.Tf), df, dy,
              d1, d2, d3, d4, d5, dv);
    IncrementTerms(p, dt, r, u, v, y, yPrev, fPrev, df, dy);
  }

  /** What the body of `helm_steady` leaves behind on a valid sample, from the
      transient state `s0` after the startup branch, is one step of the model. */
  lemma AccumulatesStep(p: Tuning, s: Track, dt: real, r: real, u: real, v: real, y: real,
                        s0: Track, df: real, dy: real, d1: real, d2: real, d3: real,
                        d4: real, d5: real, dv: real, f: real)
    requires StepDefined(p, dt) && s0 == Seed(s, y)
    requires df == Alpha(dt, p.Tf) * (y - s0.f.value) && dy == y - s0.y
    requires d1 == 0.0 + Div(r - y, p.Ti) && d2 == d1 + Div(u - v, p.Tt) && d3 == d2 * dt
    requires d4 == d3 + Div(p.Td, p.Tf) * (df - dy) && d5 == d4 - dy && dv == d5 * p.kp
    requires f == s0.f.value + df
    ensures Step(p, s, dt, r, u, v, Some(y)) == Response(dv, Track(y, Some(f)))
  {
    AccumulatesIncrement(p, dt, r, u, v, y, s0.y, s0.f.value, df, dy, d1, d2, d3, d4, d5, dv);
    ValidStep(p, s, dt, r, u, v, y);
    assert Filtered(dt, p.Tf, s0.f.value, y) == f;
  }

  /** A valid step asks for the increment of the evolution equation and leaves
      the sample and the new filter value behind. */
  lemma ValidStep(p: Tuning, s: Track, dt: real, r: real, u: real, v: real, y: real)
    requires StepDefined(p, dt)
    ensures (var s0 := Seed(s, y);
             Step(p, s, dt, r, u, v, Some(y))
             == Response(Increment(p, dt, r, u, v, y, s0.y, s0.f.value),
                         Track(y, Some(Filtered(dt, p.Tf, s0.f.value, y)))))
  {
  }

  /** The order in which `helm_steady` accumulates the increment, from the
      integral and automatic-reset rates `i` and `t` and the derivative ratio
      `d`, regroups into the discrete evolution equation. */
  lemma Regrouped(kp: real, dt: real, i: real, t: real, d: real, df: real, dy: real,
                  d1: real, d2: real, d3: real, d4: real, d5: real, dv: real)
    requires d1 == 0.0 + i && d2 == d1 + t && d3 == d2 * dt
    requires d4 == d3 + d * (df - dy) && d5 == d4 - dy && dv == d5 * kp
    ensures dv == kp * (dt * (i + t) + d * (df - dy) - dy)
  {
  }

  /** The increment in terms of the filtered and the raw backward differences. */
  lemma IncrementTerms(p: Tuning, dt: real, r: real, u: real, v: real,
                       y: real, yPrev: real, fPrev: real, df: real, dy: real)
    requires StepDefined(p, dt)
    requires df == Alpha(dt, p.Tf) * (y - fPrev) && dy == y - yPrev
    ensures Increment(p, dt, r, u, v, y, yPrev, fPrev)
         == p.kp * (dt * (Div(r - y, p.Ti) + Div(u - v, p.Tt)) + Div(p.Td, p.Tf) * (df - dy) - dy)
  {
  }

  /** The increment with no integral, automatic-reset or derivative rate. */
  lemma ProportionalTerms(kp: real, dt: real, i: real, t: real, d: real, df: real, dy: real, e: real)
    requires i == 0.0 && t == 0.0 && d == 0.0
    requires e == kp * (dt * (i + t) + d * (df - dy) - dy)
    ensures e == -kp * dy
  {
  }

  /** The increment with no integral or derivative rate and a still observable. */
  lemma ResetTerms(kp: real, dt: real, i: real, t: real, d: real, df: real, dy: real, e: real)
    requires i == 0.0 && d == 0.0 && dy == 0.0
    requires e == kp * (dt * (i + t) + d * (df - dy) - dy)
    ensures e == kp * dt * t
  {
    assert e == kp * (dt * t);
  }

  /** The increment when the observable equals both the previous one and the filter. */
  lemma StartTerms(kp: real, dt: real, i: real, t: real, d: real, a: real,
                    y: real, yPrev: real, fPrev: real, e: real)
    requires yPrev == y && fPrev == y
    requires e == kp * (dt * (i + t) + d * (a * (y - fPrev) - (y - yPrev)) - (y - yPrev))
    ensures e == kp * dt * (i + t)
  {
    assert y - yPrev == 0.0 && y - fPrev == 0.0;
    assert e == kp * (dt * (i + t));
  }

  /** Moving a value by a fraction of its distance to itself leaves it in place. */
  lemma SettledFilter(a: real, y: real, fPrev: real, g: real)
    requires fPrev == y && g == fPrev + a * (y - fPrev)
    ensures g == y
  {
    assert y - fPrev == 0.0;
  }

  /** A factor of a nonzero product is nonzero. */
  lemma NonzeroFactor(q: real, t: real, x: real)
    requires x != 0.0 && q * t == x
    ensures q != 0.0
  {
  }

  /** A product of three nonzero factors is nonzero. */
  lemma NonzeroProduct(x: real, z: real, w: real, e: real)
    requires x != 0.0 && z != 0.0 && w != 0.0 && e == x * z * w
    ensures e != 0.0
  {
    assert x * z != 0.0 by { assert x * z == 0.0 ==> x == 0.0 || z == 0.0; }
    assert (x * z) * w == 0.0 ==> x * z == 0.0 || w == 0.0;
  }

  /** With no rate, there is no increment. */
  lemma ZeroRate(g: real, i: real, t: real, e: real)
    requires i == 0.0 && t == 0.0 && e == g * (i + t)
    ensures e == 0.0
  {
  }

  /** Two proportional increments in a row add up to one over the whole change. */
  lemma Telescope(kp: real, v: real, a: real, b: real, c: real, d: real, w: real,
                   b2: real, c2: real)
    requires d == -kp * (b - a)
    requires b2 == b && c2 == c && w == (v + d) - kp * (c2 - b2)
    ensures w == v - kp * (c - a)
  {
    assert kp * (b - a) + kp * (c - b) == kp * (c - a);
  }

  /** Adding the filtered difference is the convex combination. */
  lemma Blended(a: real, y: real, f: real)
    ensures f + a * (y - f) == a * y + (1.0 - a) * f
  {
  }

  /** The usage loop of the header's documentation: with automatic control on,
      each pass adds the controller's increment to the running signal `v`.
      The plant and the actuator are outside the model, so the observables and
      the actuator signals come in as the samples. */
  method Drive(h: Controller, v0: real, samples: seq<Sample>) returns (v: real)
    requires AllDefined(h.Tuned(), samples)
    modifies h`y, h`f
    ensures Run(v, h.Transient()) == Fold(Rule(old(h.Tuned())), old(h.Transient()), v0, samples)
    ensures h.Tuned() == old(h.Tuned())
  {
    v := v0;
    var i := 0;
    while i < |samples|
      invariant 0 <= i <= |samples|
      invariant h.Tuned() == old(h.Tuned())
      invariant Fold(Rule(h.Tuned()), h.Transient(), v, samples[i..])
             == Fold(Rule(old(h.Tuned())), old(h.Transient()), v0, samples)
    {
      var x := samples[i];
      assert samples[i..][1..] == samples[i + 1..];
      var dv := h.Steady(x.dt, x.r, x.u, v, x.y);
      v := v + dv;
      i := i + 1;
    }
  }

  // ---------------------------------------------------------------------
  // Properties of a step
  // ---------------------------------------------------------------------

  /** An invalid sample is invisible: a step skipped on it leaves the next
      valid step exactly as it would have been. */
  lemma SkippedSampleInvisible(p: Tuning, s: Track, dt0: real, r0: real, u0: real, v0: real,
                               dt: real, r: real, u: real, v: real, y: Option<real>)
    requires y.Some? ==> StepDefined(p, dt)
    ensures Step(p, s, dt0, r0, u0, v0, None) == Response(0.0, s)
    ensures Step(p, Step(p, s, dt0, r0, u0, v0, None).next, dt, r, u, v, y)
         == Step(p, s, dt, r, u, v, y)
  {
  }

  /** No startup kick: on the first valid sample after `helm_approach` the
      derivative and proportional terms vanish, the filter starts at the
      sample, and only the integral and automatic-reset terms act. */
  lemma FirstSampleNoKick(p: Tuning, s: Track, dt: real, r: real, u: real, v: real, y: real)
    requires StepDefined(p, dt)
    requires s.f.None?
    ensures Step(p, s, dt, r, u, v, Some(y))
         == Response(p.kp * dt * (Div(r - y, p.Ti) + Div(u - v, p.Tt)), Track(y, Some(y)))
  {
    ValidStep(p, s, dt, r, u, v, y);
    IncrementAtStart(p, dt, r, u, v, y);
    SettledFilter(Alpha(dt, p.Tf), y, y, Filtered(dt, p.Tf, y, y));
  }

  /** The increment when the observable equals both the previous one and the filter. */
  lemma IncrementAtStart(p: Tuning, dt: real, r: real, u: real, v: real, y: real)
    requires StepDefined(p, dt)
    ensures Increment(p, dt, r, u, v, y, y, y) == p.kp * dt * (Div(r - y, p.Ti) + Div(u - v, p.Tt))
  {
    IncrementTerms(p, dt, r, u, v, y, y, y, Alpha(dt, p.Tf) * (y - y), y - y);
    StartTerms(p.kp, dt, Div(r - y, p.Ti), Div(u - v, p.Tt), Div(p.Td, p.Tf), Alpha(dt, p.Tf),
               y, y, y, Increment(p, dt, r, u, v, y, y, y));
  }

  /** At rest (the observable on the reference, the actuator on the request)
      the first valid sample after `helm_approach` asks for no change at all. */
  lemma FirstSampleAtRest(p: Tuning, s: Track, dt: real, r: real, u: real, v: real, y: real)
    requires StepDefined(p, dt)
    requires s.f.None? && r == y && u == v
    ensures Step(p, s, dt, r, u, v, Some(y)).dv == 0.0
  {
    FirstSampleNoKick(p, s, dt, r, u, v, y);
    ZeroRate(p.kp * dt, Div(r - y, p.Ti), Div(u - v, p.Tt), Step(p, s, dt, r, u, v, Some(y)).dv);
  }

  /** The filter is an exponential moving average: for `dt >= 0` the new value
      lies between the old one and the sample. */
  lemma FilterIsConvex(dt: real, Tf: TimeScale, fPrev: real, y: real)
    requires dt >= 0.0 && Tf.Positive()
    ensures fPrev <= y ==> fPrev <= Filtered(dt, Tf, fPrev, y) <= y
    ensures y <= fPrev ==> y <= Filtered(dt, Tf, fPrev, y) <= fPrev
  {
    AlphaInUnit(dt, Tf);
    FilterBlend(dt, Tf, fPrev, y);
    BlendBetween(Alpha(dt, Tf), fPrev, y, Filtered(dt, Tf, fPrev, y));
  }

  /** The filter update is the convex combination
      `f_i = alpha y_i + (1 - alpha) f_{i-1}` of the sample and the old value. */
  lemma FilterBlend(dt: real, Tf: TimeScale, fPrev: real, y: real)
    requires Tf.Finite? ==> Tf.t + dt != 0.0
    ensures Filtered(dt, Tf, fPrev, y) == Alpha(dt, Tf) * y + (1.0 - Alpha(dt, Tf)) * fPrev
  {
    Blended(Alpha(dt, Tf), y, fPrev);
  }

  /** For a finite `Tf` the new filter value is the weighted average
      `(dt y + Tf f) / (Tf + dt)` of the sample and the old value; for an
      infinite `Tf` it never moves. */
  lemma FilterAverage(dt: real, Tf: TimeScale, fPrev: real, y: real)
    requires Tf.Finite? ==> Tf.t + dt != 0.0
    ensures Tf.Finite? ==> Filtered(dt, Tf, fPrev, y) == (dt * y + Tf.t * fPrev) / (Tf.t + dt)
    ensures Tf.Infinite? ==> Filtered(dt, Tf, fPrev, y) == fPrev
  {
    if Tf.Finite? {
      AlphaTimes(dt, Tf);
      FilterBlend(dt, Tf, fPrev, y);
      WeightedAverage(Alpha(dt, Tf), Tf.t, dt, fPrev, y);
    }
  }

  /** A convex combination of `f` and `y` lies between them. */
  lemma BlendBetween(a: real, f: real, y: real, g: real)
    requires 0.0 <= a <= 1.0 && g == a * y + (1.0 - a) * f
    ensures f <= y ==> f <= g <= y
    ensures y <= f ==> y <= g <= f
  {
    if f <= y { BlendUp(a, f, y, g); }
    if y <= f { BlendDown(a, f, y, g); }
  }

  /** A convex combination of `f <= y` lies between them. */
  lemma BlendUp(a: real, f: real, y: real, g: real)
    requires 0.0 <= a <= 1.0 && f <= y && g == a * y + (1.0 - a) * f
    ensures f <= g <= y
  {
    assert g - f == a * (y - f);
    assert y - g == (1.0 - a) * (y - f);
    NonnegativeProduct(a, y - f);
    NonnegativeProduct(1.0 - a, y - f);
  }

  /** A convex combination of `y <= f` lies between them. */
  lemma BlendDown(a: real, f: real, y: real, g: real)
    requires 0.0 <= a <= 1.0 && y <= f && g == a * y + (1.0 - a) * f
    ensures y <= g <= f
  {
    assert g - y == (1.0 - a) * (f - y);
    assert f - g == a * (f - y);
    NonnegativeProduct(a, f - y);
    NonnegativeProduct(1.0 - a, f - y);
  }

  /** A product of nonnegative factors is nonnegative. */
  lemma NonnegativeProduct(x: real, z: real)
    requires x >= 0.0 && z >= 0.0
    ensures x * z >= 0.0
  {
  }

  /** With `a (t + dt) = dt`, the blend `a y + (1 - a) f` is the weighted
      average `(dt y + t f) / (t + dt)`. */
  lemma WeightedAverage(a: real, t: real, dt: real, f: real, y: real)
    requires t + dt != 0.0 && a * (t + dt) == dt
    ensures a * y + (1.0 - a) * f == (dt * y + t * f) / (t + dt)
  {
    var s, c, g := t + dt, 1.0 - a, a * y + (1.0 - a) * f;
    assert c * s == t;
    assert g * s == (a * s) * y + (c * s) * f;
    QuotientUnique(g, dt * y + t * f, s);
  }

  /** The filter parameter vanishes with the time step and approaches one as
      the time step grows: `alpha <= eps` once `dt <= eps Tf`, and
      `alpha >= 1 - eps` once `dt >= Tf / eps`. */
  lemma AlphaLimits(Tf: real, dt: real, eps: real)
    requires Tf > 0.0 && dt >= 0.0 && eps > 0.0
    ensures Alpha(0.0, Finite(Tf)) == 0.0
    ensures dt <= eps * Tf ==> Alpha(dt, Finite(Tf)) <= eps
    ensures dt * eps >= Tf ==> Alpha(dt, Finite(Tf)) >= 1.0 - eps
  {
    AlphaTimes(dt, Finite(Tf));
    if dt <= eps * Tf {
      FractionSmall(Alpha(dt, Finite(Tf)), Tf, dt, eps);
    }
    if dt * eps >= Tf {
      FractionLarge(Alpha(dt, Finite(Tf)), Tf, dt, eps);
    }
  }

  /** The small-step half of `AlphaLimits`, for any `a` with `a (Tf + dt) = dt`. */
  lemma FractionSmall(a: real, Tf: real, dt: real, eps: real)
    requires Tf > 0.0 && dt >= 0.0 && eps > 0.0 && a * (Tf + dt) == dt
    requires dt <= eps * Tf
    ensures a <= eps
  {
    var s := Tf + dt;
    ScaleNonnegative(Tf, s, eps);
    CancelPositive(a, eps, s);
  }

  /** The large-step half of `AlphaLimits`, for any `a` with `a (Tf + dt) = dt`. */
  lemma FractionLarge(a: real, Tf: real, dt: real, eps: real)
    requires Tf > 0.0 && dt >= 0.0 && eps > 0.0 && a * (Tf + dt) == dt
    requires dt * eps >= Tf
    ensures a >= 1.0 - eps
  {
    var s := Tf + dt;
    var c := 1.0 - a;
    assert c * s == Tf;
    ScaleNonnegative(dt, s, eps);
    CancelPositive(c, eps, s);
  }

  /** A growing time step never decreases the filter parameter. */
  lemma AlphaMonotone(Tf: TimeScale, dt1: real, dt2: real)
    requires Tf.Positive() && 0.0 <= dt1 <= dt2
    ensures Alpha(dt1, Tf) <= Alpha(dt2, Tf)
  {
    if Tf.Finite? {
      AlphaTimes(dt1, Tf);
      AlphaTimes(dt2, Tf);
      FractionMonotone(Alpha(dt1, Tf), Alpha(dt2, Tf), Tf.t, dt1, dt2);
    }
  }

  /** The arithmetic of `AlphaMonotone`, for any `a1`, `a2` with
      `a1 (t + dt1) = dt1` and `a2 (t + dt2) = dt2`. */
  lemma FractionMonotone(a1: real, a2: real, t: real, dt1: real, dt2: real)
    requires t > 0.0 && 0.0 <= dt1 <= dt2
    requires a1 * (t + dt1) == dt1 && a2 * (t + dt2) == dt2
    ensures a1 <= a2
  {
    var c1, c2 := 1.0 - a1, 1.0 - a2;
    assert c1 * (t + dt1) == t;
    assert c2 * (t + dt2) == t;
    assert c2 >= 0.0 by {
      assert c2 < 0.0 ==> c2 * (t + dt2) < 0.0;
    }
    ScaleNonnegative(t + dt1, t + dt2, c2);
    CancelPositive(c2, c1, t + dt1);
  }

  /** With derivative action off and integral action and automatic reset
      disabled, the increment is pure proportional action on the observable. */
  lemma ProportionalOnly(p: Tuning, s: Track, dt: real, r: real, u: real, v: real, y: real)
    requires StepDefined(p, dt)
    requires p.Proportional()
    ensures Step(p, s, dt, r, u, v, Some(y)).dv == -p.kp * (y - Seed(s, y).y)
  {
    ValidStep(p, s, dt, r, u, v, y);
    IncrementProportional(p, dt, r, u, v, y, Seed(s, y).y, Seed(s, y).f.value);
  }

  /** The increment with derivative action off and integral action and
      automatic reset disabled. */
  lemma IncrementProportional(p: Tuning, dt: real, r: real, u: real, v: real,
                              y: real, yPrev: real, fPrev: real)
    requires StepDefined(p, dt)
    requires p.Proportional()
    ensures Increment(p, dt, r, u, v, y, yPrev, fPrev) == -p.kp * (y - yPrev)
  {
    IncrementTerms(p, dt, r, u, v, y, yPrev, fPrev, Alpha(dt, p.Tf) * (y - fPrev), y - yPrev);
    ProportionalTerms(p.kp, dt, Div(r - y, p.Ti), Div(u - v, p.Tt), Div(p.Td, p.Tf),
                      Alpha(dt, p.Tf) * (y - fPrev), y - yPrev,
                      Increment(p, dt, r, u, v, y, yPrev, fPrev));
  }

  /** Automatic reset: with the other terms held at zero (no integral action,
      no derivative action, an unchanged observable), what remains is the pull
      `kp dt (u - v) / Tt`, nonzero whenever the actuator lags the request
      under a nonzero gain and time step and a finite `Tt`.
      This holds as well for the first sample after `helm_approach`. */
  lemma AutomaticResetPull(p: Tuning, s: Track, dt: real, r: real, u: real, v: real)
    requires StepDefined(p, dt)
    requires p.Td == 0.0 && p.Ti == Infinite
    ensures Step(p, s, dt, r, u, v, Some(s.y)).dv == p.kp * dt * Div(u - v, p.Tt)
    ensures p.Tt.Finite? && p.kp != 0.0 && dt != 0.0 && u != v ==>
              Step(p, s, dt, r, u, v, Some(s.y)).dv != 0.0
  {
    ValidStep(p, s, dt, r, u, v, s.y);
    IncrementReset(p, dt, r, u, v, s.y, Seed(s, s.y).f.value);
    if p.Tt.Finite? && p.kp != 0.0 && dt != 0.0 && u != v {
      ResetPullNonzero(p.kp, dt, p.Tt, u - v);
    }
  }

  /** The increment with no integral or derivative action and a still observable. */
  lemma IncrementReset(p: Tuning, dt: real, r: real, u: real, v: real, y: real, fPrev: real)
    requires StepDefined(p, dt)
    requires p.Td == 0.0 && p.Ti == Infinite
    ensures Increment(p, dt, r, u, v, y, y, fPrev) == p.kp * dt * Div(u - v, p.Tt)
  {
    IncrementTerms(p, dt, r, u, v, y, y, fPrev, Alpha(dt, p.Tf) * (y - fPrev), y - y);
    ResetTerms(p.kp, dt, Div(r - y, p.Ti), Div(u - v, p.Tt), Div(p.Td, p.Tf),
               Alpha(dt, p.Tf) * (y - fPrev), y - y, Increment(p, dt, r, u, v, y, y, fPrev));
  }

  /** The automatic-reset pull `kp dt x / Tt` vanishes only when a factor does. */
  lemma ResetPullNonzero(kp: real, dt: real, Tt: TimeScale, x: real)
    requires Tt.Finite? && Tt.t != 0.0
    requires kp != 0.0 && dt != 0.0 && x != 0.0
    ensures kp * dt * Div(x, Tt) != 0.0
  {
    DivTimes(x, Tt);
    NonzeroFactor(Div(x, Tt), Tt.t, x);
    NonzeroProduct(kp, dt, Div(x, Tt), kp * dt * Div(x, Tt));
  }

  /** An infinite filter time scale turns derivative action off entirely: the
      step is the same whatever `Td` is. */
  lemma InfiniteFilterDisablesDerivative(p: Tuning, s: Track, dt: real, r: real, u: real,
                                         v: real, y: Option<real>)
    requires StepDefined(p, dt)
    requires p.Tf == Infinite
    ensures Step(p, s, dt, r, u, v, y) == Step(p.(Td := 0.0), s, dt, r, u, v, y)
  {
  }

  // ---------------------------------------------------------------------
  // Properties of a run
  // ---------------------------------------------------------------------

  /** A rule that asks for nothing and changes nothing on an invalid sample. */
  ghost predicate SkipsInvalid(step: StepRule) {
    forall t: Track, w: real, x: Sample :: x.y.None? ==> step(t, w, x) == Response(0.0, t)
  }

  /** A rule that, on the valid samples of a run, tracks the sample it was given. */
  ghost predicate TracksValid(step: StepRule, samples: seq<Sample>) {
    forall t: Track, w: real, x: Sample :: x in samples && x.y.Some? ==>
      step(t, w, x).next.y == x.y.value && step(t, w, x).next.f.Some?
  }

  /** A rule that, on the valid samples of a run, is pure proportional action. */
  ghost predicate ProportionalOn(step: StepRule, kp: real, samples: seq<Sample>) {
    forall t: Track, w: real, x: Sample :: x in samples && x.y.Some? ==>
      step(t, w, x).dv == -kp * (x.y.value - Seed(t, x.y.value).y)
  }


  lemma RuleTracksValid(p: Tuning, samples: seq<Sample>)
    requires AllDefined(p, samples)
    ensures TracksValid(Rule(p), samples)
  {
    forall t: Track, w: real, x: Sample | x in samples && x.y.Some?
      ensures Rule(p)(t, w, x).next.y == x.y.value && Rule(p)(t, w, x).next.f.Some?
    {
      ValidStep(p, t, x.dt, x.r, x.u, w, x.y.value);
    }
  }

  lemma RuleProportional(p: Tuning, samples: seq<Sample>)
    requires AllDefined(p, samples)
    requires p.Proportional()
    ensures ProportionalOn(Rule(p), p.kp, samples)
    ensures TracksValid(Rule(p), samples)
  {
    forall t: Track, w: real, x: Sample | x in samples && x.y.Some?
      ensures Rule(p)(t, w, x).dv == -p.kp * (x.y.value - Seed(t, x.y.value).y)
    {
      ProportionalOnly(p, t, x.dt, x.r, x.u, w, x.y.value);
    }
    RuleTracksValid(p, samples);
  }

  /** A rule that skips invalid samples runs as if they had never come. */
  lemma {:induction false} FoldSkips(step: StepRule, s: Track, v: real, samples: seq<Sample>)
    requires SkipsInvalid(step)
    ensures Fold(step, s, v, samples) == Fold(step, s, v, ValidOnly(samples))
    decreases |samples|
  {
    if samples != [] {
      var x := samples[0];
      var rest := samples[1..];
      var o := step(s, v, x);
      FoldSkips(step, s, v, rest);
      FoldSkips(step, o.next, v + o.dv, rest);
      if x.y.Some? {
        var w := [x] + ValidOnly(rest);
        assert w[0] == x && w[1..] == ValidOnly(rest);
        FoldCons(step, s, v, w);
      }
    }
  }

  /** A rule that tracks its samples leaves the last one of a valid run behind. */
  lemma {:induction false} FoldTracksLast(step: StepRule, s: Track, v: real, samples: seq<Sample>)
    requires TracksValid(step, samples) && AllValid(samples) && samples != []
    ensures Fold(step, s, v, samples).track.y == samples[|samples| - 1].y.value
    ensures Fold(step, s, v, samples).track.f.Some?
    decreases |samples|
  {
    var x := samples[0];
    var o := step(s, v, x);
    var rest := samples[1..];
    FoldCons(step, s, v, samples);
    assert x in samples;
    if rest != [] {
      assert forall z :: z in rest ==> z in samples;
      FoldTracksLast(step, o.next, v + o.dv, rest);
      assert rest[|rest| - 1] == samples[|samples| - 1];
    }
  }

  /** Proportional action telescopes over a valid run, for any rule that is
      proportional and tracks its samples. */
  lemma {:induction false} FoldTelescopes(step: StepRule, kp: real, s: Track, v: real,
                                          samples: seq<Sample>)
    requires ProportionalOn(step, kp, samples) && TracksValid(step, samples)
    requires AllValid(samples) && samples != []
    ensures Fold(step, s, v, samples).v
         == v - kp * (samples[|samples| - 1].y.value - Seed(s, samples[0].y.value).y)
    decreases |samples|
  {
    var x := samples[0];
    var o := step(s, v, x);
    var rest := samples[1..];
    FoldCons(step, s, v, samples);
    assert x in samples;
    if rest != [] {
      assert forall z :: z in rest ==> z in samples;
      assert rest[|rest| - 1] == samples[|samples| - 1];
      FoldTelescopes(step, kp, o.next, v + o.dv, rest);
      Telescope(kp, v, Seed(s, x.y.value).y, x.y.value, samples[|samples| - 1].y.value, o.dv,
                Fold(step, o.next, v + o.dv, rest).v, Seed(o.next, rest[0].y.value).y,
                rest[|rest| - 1].y.value);
    }
  }

  /** Dropped samples do not matter: a run equals the run of its valid samples. */
  lemma SkippedSamplesVanish(p: Tuning, s: Track, v: real, samples: seq<Sample>)
    ensures AllDefined(p, samples) <==> AllDefined(p, ValidOnly(samples))
    ensures Fold(Rule(p), s, v, samples) == Fold(Rule(p), s, v, ValidOnly(samples))
  {
    FoldSkips(Rule(p), s, v, samples);
  }

  /** A run of valid samples leaves its last sample in the state. */
  lemma RunTracksLastSample(p: Tuning, s: Track, v: real, samples: seq<Sample>)
    requires AllDefined(p, samples) && AllValid(samples) && samples != []
    ensures Fold(Rule(p), s, v, samples).track.y == samples[|samples| - 1].y.value
    ensures Fold(Rule(p), s, v, samples).track.f.Some?
  {
    RuleTracksValid(p, samples);
    FoldTracksLast(Rule(p), s, v, samples);
  }

  /** Pure proportional action telescopes: over a run of valid samples the
      running signal changes by `-kp (y_last - y_first)`, as the positional
      form `v = kp (r - y)` does for a constant reference, where `y_first` is
      the last observable tracked (or the first sample right after
      `helm_approach`). */
  lemma ProportionalRunTelescopes(p: Tuning, s: Track, v: real, samples: seq<Sample>)
    requires AllDefined(p, samples) && AllValid(samples) && samples != []
    requires p.Proportional()
    ensures Fold(Rule(p), s, v, samples).v
         == v - p.kp * (samples[|samples| - 1].y.value - Seed(s, samples[0].y.value).y)
  {
    RuleProportional(p, samples);
    FoldTelescopes(Rule(p), p.kp, s, v, samples);
  }

  /** Under the tuning `helm_reset` installs, after `helm_approach`, with the
      reference at `1` and the running signal starting at `0`: a first sample
      at `0` leaves the signal at `0`, and a second sample at `0.5` one time
      unit later brings it to `-0.5`, proportional action against the rise of
      the observable. */
  lemma ResetTuningScenario(y0: real)
    ensures Fold(Rule(Default), Track(y0, None), 0.0, [Sample(1.0, 1.0, 0.0, Some(0.0))]).v == 0.0
    ensures Fold(Rule(Default), Track(y0, None), 0.0,
                 [Sample(1.0, 1.0, 0.0, Some(0.0)), Sample(1.0, 1.0, 0.0, Some(0.5))]).v == -0.5
  {
    ProportionalRunTelescopes(Default, Track(y0, None), 0.0, [Sample(1.0, 1.0, 0.0, Some(0.0))]);
    ProportionalRunTelescopes(Default, Track(y0, None), 0.0,
                              [Sample(1.0, 1.0, 0.0, Some(0.0)), Sample(1.0, 1.0, 0.0, Some(0.5))]);
  }

  /** `helm_steady` on a controller tuned for pure proportional action: the
      increment is `-kp (y - y_prev)`, the sample becomes the last observable,
      the filter takes its next value and the tuning stays put. */
  method ProportionalSteady(h: Controller, dt: real, r: real, u: real, v: real, y: real)
      returns (dv: real)
    requires StepDefined(h.Tuned(), dt) && h.Tuned().Proportional()
    modifies h`y, h`f
    ensures dv == -h.kp * (y - Seed(old(h.Transient()), y).y)
    ensures h.Tuned() == old(h.Tuned()) && h.y == y
    ensures h.f == Some(Filtered(dt, h.Tf, Seed(old(h.Transient()), y).f.value, y))
  {
    ProportionalOnly(h.Tuned(), h.Transient(), dt, r, u, v, y);
    dv := h.Steady(dt, r, u, v, Some(y));
  }

  /** The same session on a controller object, whatever it held before:
      `helm_reset`, `helm_approach`, then three calls of `helm_steady` with the
      reference at `1`.  The sample `0` asks for nothing, the sample `0.5`
      asks for `-0.5`, and a NaN sample asks for nothing and keeps `0.5` as
      the last observable. */
  method ResetTuningSession(p: Tuning, s: Track) returns (dv0: real, dv1: real, dv2: real, last: real)
    ensures dv0 == 0.0 && dv1 == -0.5 && dv2 == 0.0 && last == 0.5
  {
    var h := new Controller(p, s);
    h.Reset();
    h.Approach();
    dv0 := ProportionalSteady(h, 1.0, 1.0, 0.0, 0.0, 0.0);
    dv1 := ProportionalSteady(h, 1.0, 1.0, 0.0, dv0, 0.5);
    dv2 := h.Steady(1.0, 1.0, 0.0, dv0 + dv1, None);
    last := h.y;
  }
}
