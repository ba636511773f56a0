# Mass-spring-damper explorer: solver and trace store

This project models the decision-making core of a Streamlit app. The app plots the displacement of a damped harmonic oscillator `m x'' + b x' + k x = 0` and lets the user freeze curves ("traces") to compare them. Everything is modelled over exact `real` arithmetic instead of floats.

- `damping.dfy`, module `Damping`: numpy's `isclose` and its default tolerances (`atol = 1e-8`, `rtol = 1e-5`). The discriminant `b^2 - 4mk`. The two damping classifiers the app applies to it: the sidebar's exact comparison and the frozen trace's `> 0`-then-`isclose(delta, 0)` test.
- `solver.dfy`, module `Solver`: `solve_damped_oscillator`. It picks a branch by comparing `gamma = b/(2m)` with `omega0 = sqrt(k/m)` and computes the closed-form coefficients. The square roots come in as witnesses: a value `r >= 0` with `r * r` equal to the radicand. A solution is the `Curve` of its closed-form coefficients. `InitialPosition` and `InitialVelocity` give `x(0)` and `x'(0)`, using `e^0 = 1`, `cos 0 = 1` and `sin 0 = 0`.
- `traces.dfy`, module `Traces`: the session trace list as the class `TraceStore`, with `AddTrace` and `Clear`. It also holds the label builder (`fmt_param` and the label assembly). A label is a structured `Label`: damping type, discriminant, and five `(key, value, changed)` entries in the order b, m, k, x0, v0.

The store's invariant `Chained` says that every stored curve is `Solve` of its own record's parameters, and that every stored label was built against the trace just before it, the first against none. Appending at the end and clearing everything keep this true.

The solver tests critical damping with an exact `gamma == omega0`, and the model keeps that exact test. A tolerance would be more robust near the critical boundary, but the code does not use one. The lemma `Solver.SolverAgreesWithTraceOutsideBand` shows the effect in exact arithmetic: the solver's type and the frozen label's type differ exactly when the discriminant lies in `[-1e-8, 0)`. The sliders move b, m and k in steps of 0.1 (harmonic_oscillators_app.py:18-20), so the exact discriminant of any slider setting is a multiple of 0.01 and never lies in that band. Within the app the two types can therefore differ only through floating-point rounding, which the model does not capture.

## Model

| member | source | states |
|---|---|---|
| `Damping.SidebarDampingType` | harmonic_oscillators_app.py:25-30 | Total and exclusive: Overdamped iff the discriminant is > 0, Critically Damped iff it is exactly 0, Underdamped iff it is < 0 |
| `Damping.TraceDampingType` | harmonic_oscillators_app.py:86-91 | Overdamped iff delta > 0, even a tiny one; Critically Damped iff -atol <= delta <= 0; Underdamped iff delta < -atol |
| `Damping.IsCloseToZero` | harmonic_oscillators_app.py:89 | `isclose(d, 0)` holds iff d lies within atol of 0 |
| `Damping.IsCloseReflexive` | harmonic_oscillators_app.py:103 | Every value is isclose to itself |
| `Damping.IsCloseNotSymmetric` | harmonic_oscillators_app.py:103 | isclose depends on argument order: 0 is close to 1.000005e-8, but 1.000005e-8 is not close to 0 |
| `Damping.ClassifiersDisagreeOnlyInBand` | harmonic_oscillators_app.py:86-91 | The sidebar and trace classifiers differ iff -atol <= delta < 0; there the trace says Critically Damped and the sidebar says Underdamped |
| `Damping.ClassifiersAgreeOnOverdampedAndExactCritical` | harmonic_oscillators_app.py:25-30 | Both classifiers give Overdamped for the same deltas; an exactly critical delta is critical for both; trace-Underdamped implies sidebar-Underdamped |
| `Solver.OverdampedCoefficients` | harmonic_oscillators_app.py:56-62 | When gamma > omega0: r1 - r2 = 2 delta > 0, so the division is defined; r1 and r2 are roots of m r^2 + b r + k with r2 < r1 < 0; A + B = x0 and r1 A + r2 B = v0 |
| `Solver.CriticalCoefficients` | harmonic_oscillators_app.py:64-65 | When gamma == omega0: gamma = b/(2m) > 0, -gamma is a root of m r^2 + b r + k, x(0) = x0 and x'(0) = -gamma x0 + (v0 + gamma x0) = v0 |
| `Solver.UnderdampedCoefficients` | harmonic_oscillators_app.py:67-71 | When gamma < omega0: omega_d > 0, gamma = b/(2m) >= 0 and > 0 when b > 0, gamma^2 + omega_d^2 = k/m, C = x0 and -gamma C + omega_d D = v0 |
| `Solver.TwoByTwoSolution` | harmonic_oscillators_app.py:60-61 | The formulas for A and B solve the 2x2 initial-condition system whenever r1 != r2 |
| `Solver.Solve` | harmonic_oscillators_app.py:52-74 | For m, k > 0 and b >= 0: x(0) = x0 and x'(0) = v0 on every branch; the damping type equals the sidebar's classification of b^2 - 4mk. Overdamped: r1 > r2 are both negative roots of m r^2 + b r + k. Critical: gamma = b/(2m) > 0 and -gamma is a root. Underdamped: omega_d > 0, gamma = b/(2m) >= 0, gamma > 0 when b > 0, and gamma^2 + omega_d^2 = k/m. So each closed form solves m x'' + b x' + k x = 0. It decays when b > 0; for b = 0 the underdamped curve is an undamped oscillation |
| `Solver.OverdampedRoots` | harmonic_oscillators_app.py:57-59 | With b = 2 m gamma, k = m w, w > 0 and delta^2 = gamma^2 - w: -gamma + delta and -gamma - delta are roots of m r^2 + b r + k, ordered and both negative |
| `Solver.ShiftedRoot` | harmonic_oscillators_app.py:57-59 | -gamma + d and -gamma - d are roots of m r^2 + b r + k whenever b = 2 m gamma, k = m w and d^2 = gamma^2 - w |
| `Solver.NaturalFrequency` | harmonic_oscillators_app.py:53-54 | For m, k > 0 and b >= 0: omega0 = sqrt(k/m) > 0 with m omega0^2 = k; gamma = b/(2m) >= 0 with 2 m gamma = b |
| `Solver.ScaledDiscriminant` | harmonic_oscillators_app.py:53-54 | (gamma^2 - omega0^2) * 4m^2 = b^2 - 4mk |
| `Solver.BranchMatchesDiscriminant` | harmonic_oscillators_app.py:56-64 | For m, k > 0 and b >= 0: gamma > omega0 iff b^2 - 4mk > 0; gamma == omega0 iff it is 0; gamma < omega0 iff it is < 0 |
| `Solver.SolverAgreesWithTraceOutsideBand` | harmonic_oscillators_app.py:56-72 | The solver's damping type equals the frozen trace's classification iff the discriminant is outside [-atol, 0) |
| `Solver.CriticalExample` | harmonic_oscillators_app.py:64-65 | m = 1, k = 4, b = 4, x0 = 1, v0 = 0 gives the critically damped curve with x(0) = 1 |
| `Solver.DiscriminantExamples` | harmonic_oscillators_app.py:25-30 | b = 10, m = 1, k = 4 gives 84 (Overdamped); b = 1 gives -15 (Underdamped) |
| `Traces.LabelEntriesInOrder` | harmonic_oscillators_app.py:106-115 | A label has five entries: keys b, m, k, x0, v0 in that order, each with the current value |
| `Traces.FirstLabelMarksNothing` | harmonic_oscillators_app.py:99-103 | With no previous trace, no entry is marked changed |
| `Traces.LabelMarksExactlyChanged` | harmonic_oscillators_app.py:102-104 | With a previous trace, an entry is changed iff the previous value is not isclose to the new one |
| `Traces.DuplicateFreezeMarksNothing` | harmonic_oscillators_app.py:103 | Freezing the same parameters as the last trace marks nothing changed |
| `Traces.LabelDescribesSnapshot` | harmonic_oscillators_app.py:86-93 | The record stores the current parameters; its label's delta is b^2 - 4mk, and its damping type is the trace classification of that delta |
| `Traces.ChainedAppend` | harmonic_oscillators_app.py:118 | Appending the record built against traces[-1], holding a curve solved for its own parameters, keeps the invariant: every curve solved for its record's parameters, every label built against its predecessor |
| `Traces.StoredCurveMatchesRecord` | harmonic_oscillators_app.py:118 | In a chained list every stored curve starts at its record's x0 with velocity v0, and its damping type is the sidebar's classification of its label's discriminant |
| `Traces.OnlyChangedPositionIsMarked` | harmonic_oscillators_app.py:102-115 | Freezing b=4, m=1, k=4, x0=1, v0=0 and then the same with x0=2: the first is Critically Damped, and the second label marks x0 and nothing else |
| `Traces.TraceStore.constructor` | harmonic_oscillators_app.py:80-81 | The session list starts empty and chained |
| `Traces.TraceStore.AddTrace` | harmonic_oscillators_app.py:85-118 | Appends exactly one record, whose curve is `Solve` of the same parameters and whose label is built against traces[-1]'s parameters, or against none when the list is empty; earlier records are unchanged; the new record becomes the last; the chain invariant is kept |
| `Traces.TraceStore.Clear` | harmonic_oscillators_app.py:120-121 | The list is empty afterwards, whatever its length before |

## Left out

- Widgets, page layout, markdown and LaTeX output (harmonic_oscillators_app.py:1-23, 32-35, 84-85): these are user interface. Slider ranges appear only as `Solver.ValidParams` (m > 0, k > 0, b >= 0).
- Plotly figures, legends, and HTML/PNG export (harmonic_oscillators_app.py:124-210): rendering and file I/O through foreign libraries.
- The `socket.gethostname()` cloud check (harmonic_oscillators_app.py:157): environment I/O.
- The `np.linspace` time grid and the sampled values of exp, cos and sin: transcendental floating-point numerics. A trace stores the grid by its duration `tMax` and the curve by its closed-form coefficients.
- Solve: the square roots are inputs that satisfy `IsSqrt`, not computed values. Floating-point rounding, NaN and infinity are not modelled. Solving the differential equation is stated through the exponents: roots of the characteristic polynomial, and rates that are negative when b > 0. For b = 0 the underdamped curve does not decay. The sampled values of exp, cos and sin are not modelled.
- AddTrace: the app computes the curve once per run (harmonic_oscillators_app.py:77). The model computes it inside `AddTrace` with `Solve` from the same parameters and the square roots passed in.
- The `:.2f` and `:.3f` number formatting (harmonic_oscillators_app.py:34, 104, 107): the label is the structured `Label`, with exact values.
- A per-record sequence index: the app does not store one.
- The commented-out animation code (harmonic_oscillators_app.py:37-46, 214-292): dead code.
