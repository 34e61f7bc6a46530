# helm: an incremental PID controller, modelled in Dafny

`helm.h` is a header-only incremental PID controller. A caller keeps a running
control signal `v`. On each pass of its loop it asks `helm_steady` for an
increment `dv` and adds it to `v`. The controller's `struct helm_state` holds
two kinds of field:

- the tuning: gain `kp`, derivative time `Td`, filter time `Tf`, integral time
  `Ti` and automatic-reset time `Tt`;
- the transient state: the last observable `y` and a low-pass filtered
  observable `f`.

A time scale set to infinity switches its term off. A NaN in `f` marks a filter
that has not seen a sample since `helm_approach`. A NaN observable marks a
sample to skip.

The model is the single module `Helm` in `helm.dfy`:

- **Values.** `TimeScale = Finite(t) | Infinite` stands for a double that may be
  `+INFINITY`. `Div(x, Infinite) = 0` is the rule the C code relies on. The NaN
  sentinels of `f` and of the observable are `Option<real>`. All arithmetic is
  over exact reals.
- **Pure specification.** `Tuning` and `Track` hold the two halves of the
  struct. `Alpha`, `Filtered`, `Increment` and `Step` state the header's
  discrete evolution equations, and `Step` is one call of `helm_steady` as a
  function.
- **The object.** `Controller` is a class with the seven fields of
  `struct helm_state`. Its methods `Reset`, `Approach` and `Steady` update those
  fields in place, as the C functions do through `h`. `Steady` builds `dv` with
  the same sequence of `+=` and `*=` as the source. It is proved to equal `Step`
  and to change nothing but `y` and `f`. `ResetTuningSession` drives one
  object through `Reset`, `Approach` and three `Steady` calls.
- **Runs.** `Fold(step, s, v, samples)` is the caller's loop `v += step(...)` for
  any step rule. `Rule(p)` is `helm_steady` under tuning `p`. `Drive` is the
  documentation's usage loop, written as an imperative loop over a `Controller`
  and proved equal to `Fold(Rule(p), ...)`. The properties of a run are proved
  once for any rule that has the needed per-step property
  (`FoldSkips`, `FoldTracksLast`, `FoldTelescopes`), then instantiated for
  `Rule(p)`.

Where the header's comments and its code differ, the model follows the code.
The comment on `Tf` says "set to infinity to disable observable filtering".
In the code, `Tf = INFINITY` gives `alpha = 0`, so the filter value never moves.
It also gives `Td / Tf = 0`, so derivative action is off whatever `Td` is.
`FilterAverage` and `InfiniteFilterDisablesDerivative` state this.

## Model

| member | source | states |
|---|---|---|
| Helm.Div | helm.h:268-271 | dividing by an infinite time scale gives exactly zero, and so does dividing zero |
| Helm.Plus | helm.h:265 | `Tf + dt` stays infinite for an infinite `Tf`, and is the finite sum otherwise (a case split on the body; what it guarantees for the filter is proved in `AlphaInUnit` and `FilterIsConvex`) |
| Helm.Alpha | helm.h:265 | the filter parameter `dt / (Tf + dt)` is zero when `Tf` is infinite |
| Helm.AlphaInUnit | helm.h:104 | for `dt >= 0` and a positive `Tf` the filter parameter lies in `[0, 1)` |
| Helm.AlphaLimits | helm.h:104 | `alpha = 0` at `dt = 0`; `alpha <= eps` once `dt <= eps Tf`; `alpha >= 1 - eps` once `dt >= Tf / eps` |
| Helm.AlphaMonotone | helm.h:104 | a larger nonnegative time step never gives a smaller filter parameter |
| Helm.Tuning.Approachable | helm.h:225-228 | inside the domain `helm_approach` asserts, none of `Tf`, `Ti`, `Tt` is zero |
| Helm.StepDefined | helm.h:225-228 | a tuning that passes the asserts of `helm_approach` makes every division of a step with `dt >= 0` defined |
| Helm.Seed | helm.h:259-262 | the startup branch sets both `y` and `f` to the sample when `f` is undefined, and leaves a defined state alone (a case split on the body; the absence of a startup kick it gives is proved in `FirstSampleNoKick` and `FirstSampleAtRest`) |
| Helm.Filtered | helm.h:264-276 | the new filter value `f + alpha (y - f)` never moves for an infinite `Tf`, and stays put once it equals the sample |
| Helm.Increment | helm.h:264-273 | the evolution-equation increment asks for nothing at rest: `r = y`, `u = v` and an observable equal to both its previous value and the filter |
| Helm.Step | helm.h:255-279 | an invalid sample returns 0 and leaves the state alone, for any time step and tuning; a valid one leaves the sample as `y` with a defined filter; a zero gain asks for nothing |
| Helm.ValidOnly | helm.h:257 | the samples kept are exactly those with a valid observable, so every kept sample is valid; the contract states membership only, and `SkippedSamplesVanish` relies on the body for their order |
| Helm.Controller.constructor | helm.h:175-188 | a controller holds exactly the given tuning and transient state |
| Helm.Controller.Reset | helm.h:199-209 | sets `kp = 1`, `Td = 0` and `Tf = Ti = Tt = infinity`, leaving `y` and `f` untouched |
| Helm.Controller.Approach | helm.h:221-231 | requires `Td >= 0` and positive `Tf`, `Ti`, `Tt`; marks `f` undefined and changes neither the tuning nor `y` |
| Helm.Controller.Steady | helm.h:246-280 | the returned increment and new `y`, `f` are one `Step`; the tuning never changes; an invalid sample returns 0 and changes nothing, for any time step and tuning; a valid one leaves `y` at the sample |
| Helm.AccumulatesIncrement | helm.h:255-273 | the order in which the body accumulates `dv` gives the increment of the discrete evolution equation |
| Helm.AccumulatesStep | helm.h:259-276 | what the body leaves behind on a valid sample (`dv`, `h->y = y`, `h->f += df`) is one step of the model |
| Helm.Drive | helm.h:142-148 | the documented loop `v += helm_steady(h, dt, r, u, v, y)` gives the run `Fold(Rule(p), ...)` and leaves the tuning unchanged; only the valid samples need a defined time step |
| Helm.SkippedSampleInvisible | helm.h:255-257 | an invalid sample returns 0 and changes nothing whatever its time step, so the next step is exactly what it would have been without it |
| Helm.FirstSampleNoKick | helm.h:259-273 | the first valid sample after `helm_approach` asks only for `kp dt ((r - y)/Ti + (u - v)/Tt)` and leaves `y = f =` the sample |
| Helm.IncrementAtStart | helm.h:259-273 | with `y` equal to the previous observable and to the filter, the derivative and proportional terms vanish |
| Helm.FirstSampleAtRest | helm.h:259-273 | with `r = y` and `u = v`, the first valid sample after `helm_approach` asks for no change |
| Helm.FilterIsConvex | helm.h:276 | for `dt >= 0` and a positive `Tf` the new filter value lies between the old value and the sample |
| Helm.FilterBlend | helm.h:100-108 | `f + alpha (y - f)` is the convex combination `alpha y + (1 - alpha) f` |
| Helm.FilterAverage | helm.h:100-105 | for a finite `Tf` the new filter value is `(dt y + Tf f) / (Tf + dt)`; for an infinite `Tf` it never moves |
| Helm.ProportionalOnly | helm.h:268-273 | with `Td = 0` and `Ti = Tt = infinity` the increment is exactly `-kp (y - y_prev)` |
| Helm.IncrementProportional | helm.h:268-273 | the same statement, for the evolution-equation increment |
| Helm.AutomaticResetPull | helm.h:268-273 | with no integral or derivative action and a still observable the increment is `kp dt (u - v)/Tt`, nonzero whenever the actuator lags the request, `kp` and `dt` are nonzero and `Tt` is finite (with `Tt` infinite the pull is 0) |
| Helm.IncrementReset | helm.h:268-273 | the evolution-equation increment with no integral or derivative action and `dy = 0` is `kp dt (u - v)/Tt` |
| Helm.ResetPullNonzero | helm.h:269-273 | `kp dt (u - v)/Tt` vanishes only when a factor does |
| Helm.InfiniteFilterDisablesDerivative | helm.h:180-181 | with `Tf` infinite, every step is the same as with `Td = 0` |
| Helm.Fold | helm.h:144-148 | the caller's loop over an empty run leaves the signal and the controller's state as they were (the base case; the properties of a run are proved in `Drive`, `FoldSkips`, `FoldTracksLast` and `FoldTelescopes`) |
| Helm.Pass | helm.h:144-148 | the caller's loop over one sample adds that sample's increment to the signal and keeps the state it leaves (the one-sample case; longer runs are handled by the same lemmas as `Fold`) |
| Helm.Rule | helm.h:255-257 | `helm_steady` as a step rule returns 0 and changes nothing on every invalid sample |
| Helm.RuleTracksValid | helm.h:275 | on a valid sample the step rule leaves the sample as `y` and a defined filter |
| Helm.RuleProportional | helm.h:268-273 | under the proportional-only tuning the step rule is `-kp (y - y_prev)` on every valid sample of a run |
| Helm.FoldSkips | helm.h:144-148 | for any rule that skips invalid samples, a run equals the run of its valid samples |
| Helm.FoldTracksLast | helm.h:144-148 | for any rule that tracks valid samples, a valid run leaves its last sample in the state |
| Helm.FoldTelescopes | helm.h:144-148 | for any proportional rule, a valid run changes `v` by `-kp (y_last - y_first)` |
| Helm.SkippedSamplesVanish | helm.h:255-257 | every run of `helm_steady` equals the run over its valid samples only, and dropping the invalid samples does not change whether the run is defined |
| Helm.RunTracksLastSample | helm.h:275 | after a run of valid samples the controller holds the last one as `y`, with a defined filter |
| Helm.ProportionalRunTelescopes | helm.h:49-68 | with `Td = 0` and `Ti = Tt = infinity`, a run changes `v` by `-kp (y_last - y_first)`, like the positional form `v = kp (r - y)` |
| Helm.ProportionalSteady | helm.h:268-276 | on a controller object tuned for pure proportional action, `helm_steady` returns `-kp (y - y_prev)`, records the sample, moves the filter to its next value `f + alpha (y - f)` from the seeded state, and keeps the tuning |
| Helm.ResetTuningScenario | helm.h:199-280 | after `helm_reset` and `helm_approach`, the samples `0` then `0.5` against the reference `1` move `v` from `0` to `0`, then to `-0.5` |
| Helm.ResetTuningSession | helm.h:199-280 | the same session on a controller object, whatever it held before: increments `0` and `-0.5`, then `0` for a NaN sample, which keeps `0.5` as the last observable |

## Left out

- IEEE-754 rounding: the model computes over exact reals.
- ValidOnly: its contract states which samples are kept, not that they keep their order; the order follows from its body, which `SkippedSamplesVanish` uses.
- NaN propagation from inputs other than the observable: only `y` and `f` may be NaN in the model.
- Infinite inputs other than the time scales: `kp`, `Td`, `dt`, `r`, `u`, `v` and the observable are finite reals. Only `Tf`, `Ti` and `Tt` may be infinite, and only `+INFINITY`. `helm_steady` does not check its time scales; its divisions at helm.h:265, 268-269 and 271 treat `-INFINITY` like `+INFINITY`, and the asserts of `helm_approach` reject it. The model has no `-INFINITY`.
- A `Tf + dt` of exactly zero on a valid sample: `Controller.Steady` requires it nonzero for a valid sample (`StepDefined`), because the quotient `dt / (Tf + dt)` then computed does not exist over the reals. An invalid sample is accepted at any time step.
- Zero time scales with a valid sample: also excluded by `StepDefined`. In C these give an infinite or NaN increment. With an invalid sample nothing is divided, and the model accepts any tuning.
- The `assert`/abort mechanism of `helm_approach`: it becomes the precondition of `Controller.Approach`.
- The returned pointer that lets callers chain calls: `Reset` and `Approach` return nothing.
- An uninitialised `struct helm_state`: the constructor takes every field's starting value.
- The plant and the actuator of the usage loop (`process`, `actuate`): `Drive` takes the observables and actuator signals as samples.
- The loop with the controller disabled (helm.h:151-154): it never calls the controller.
- helm.c: it only re-declares the inline functions `extern`. helm.c is not part of this model.
- step3.c: a demonstration that integrates a third-order plant in floating point, calling an `advance` that is never defined. step3.c is not part of this model.
- Runs with a valid sample that the controller cannot take (see `StepDefined`): `Rule` gives such a sample a no-op, but `Drive` and the run lemmas require every valid sample to be defined. Invalid samples may have any time step.
