# Interactive type sketch — a Dafny model

The sketch draws one of three words ("inspiration", "curiosity",
"resiliency") as a cloud of points sampled from the glyph outlines. The points
are displaced by one of nine mouse-driven field effects. Behind the word is an
interactive grid backdrop whose resolution follows the cursor, and a fading
cursor trail is drawn over it.

This project models the parts of `sketch.js` that compute, and proves what they
guarantee:

- **Input** (`input.dfy`): the keyboard handler's mode state machine.
  - RIGHT and LEFT cycle the word index modulo 3.
  - ENTER cycles the effect index modulo 9.
  - UP and DOWN move the sample factor by 0.01, clamped to [0.05, 0.2].
  - Exactly the four arrow keys sample the points afresh.
  - The handler is modelled twice: as a pure transition function `Step`, and
    as the `Controller` class whose `KeyPressed` method updates the globals in
    place.
- **Trail** (`trail.dfy`): the cursor trail.
  - Every frame the cursor position is pushed with the current time.
  - Samples older than the 100 ms lifetime are filtered out.
  - Each survivor is drawn with opacity `1 - age/lifetime`.
  - `TrailBuffer.Tick` is the imperative frame step.
- **Background** (`background.dfy`): the backdrop arithmetic.
  - The column and row counts are `int(map(constrain(mouse, 0, extent), 0, extent, 1, max))`.
  - Each tile's colour-blend fractions `(idx % cols)/(cols-1)` and `y/(rows-1 || 1)` are modelled.
  - Each soft-grid cell's grey level `lerp(220, 255, t)` is modelled.
  - Which backdrop each word selects is modelled.
  - The two nested drawing loops are methods that build the per-cell values in
    drawing order.
- **Effects** (`effects.dfy`): the four distance-guarded effects.
  - Repulsion, Magnetic Pull, Swirl and Bubble Expansion act only below their
    cutoffs. Their strengths are linear `map`s of the cursor distance.
  - Effect 6's envelope, `map(d, 0, 200, 10, 0)`, is modelled too.
- **P5Math** (`p5_math.dfy`): exact-real models of the p5 built-ins the sketch
  uses:
  - `constrain`;
  - `map`, unclamped;
  - `lerp`;
  - `int(n)`, which is `n | 0`: truncate toward zero, then wrap to 32 bits.

Arithmetic is on exact reals. The sample factor is held as an integer number
of hundredths (5..20). The 0.01 steps of the source therefore land exactly on
the grid of values the source intends. `DensityMatchesConstrain` shows that
this agrees with `constrain(sampleFactor ∓ 0.01, 0.05, 0.2)` over the reals.

Effect 6's envelope uses `map` without clamping. Past 200 px it therefore
changes sign and grows without bound, rather than staying at zero
(`DistortionEnvelope`, `DistortionEnvelopeUnbounded`).

## Model

| member | source | states |
|---|---|---|
| Input.SampleFactor | sketch.js:12 | a density in [5, 20] hundredths is a sample factor in [0.05, 0.2] |
| Input.NextWord | sketch.js:207-208 | RIGHT gives the next word and wraps from the last word to the first; the result is always a valid index |
| Input.PreviousWord | sketch.js:209-210 | LEFT gives the previous word and wraps from the first word to the last; the result is always a valid index |
| Input.NextEffect | sketch.js:211-212 | ENTER gives the next effect and wraps from the ninth to the first |
| Input.AdjustDensity | sketch.js:213-216 | the density moves by the step when that stays within [5, 20], and otherwise sticks at the violated bound |
| Input.Step | sketch.js:206-218 | one key press keeps the mode valid; it regenerates points iff the key is an arrow; ENTER changes only the effect (and does change it); LEFT/RIGHT change only the word; UP/DOWN change only the density; any other key changes nothing |
| Input.RunStaysValid | sketch.js:206-218 | after any key sequence the word, effect and density are all in range |
| Input.RunAppend | sketch.js:206-218 | pressing keys in two batches is the same as pressing them all |
| Input.WordWraps | sketch.js:207-210 | RIGHT on the last word gives the first; LEFT on the first gives the last |
| Input.WordInverse | sketch.js:207-210 | LEFT undoes RIGHT and RIGHT undoes LEFT |
| Input.EnterAdvances | sketch.js:211-212 | n ENTER presses advance the effect by n modulo 9 and change nothing else |
| Input.NineEntersCycle | sketch.js:211-212 | nine ENTER presses return to the starting mode |
| Input.ThreeWordsCycle | sketch.js:207-210 | three RIGHT presses, or three LEFT presses, return to the starting mode |
| Input.DensitySteps | sketch.js:213-216 | UP lowers and DOWN raises the density by one step, except at the bound it would cross |
| Input.DensityMatchesConstrain | sketch.js:214-216 | the integer density step equals `constrain(sampleFactor ∓ 0.01, 0.05, 0.2)` evaluated on reals |
| Input.Controller.constructor | sketch.js:11-14 | the initial globals: word 0, effect 0, sample factor 0.1, no regeneration yet |
| Input.Controller.KeyPressed | sketch.js:206-218 | the handler updates the globals exactly as `Step` says and calls `generatePoints` exactly for the arrow keys |
| Input.Controller.WindowResized | sketch.js:220-223 | a resize regenerates the points once and leaves the mode alone |
| Input.RegenerationsCountArrows | sketch.js:206-218 | from any starting mode, a key sequence calls `generatePoints` exactly as many times as it contains arrow keys |
| Input.PressAll | sketch.js:206-218 | a whole key sequence leaves the globals at `Run` of the sequence, still valid, and advances the generation by the number of arrow keys in it |
| P5Math.Constrain | sketch.js:228-229 | `constrain` (also at 214-216 and 252-253) lands in [low, high], leaves in-range values alone and clamps to the violated bound |
| P5Math.Remap | sketch.js:230-231 | `map` (also at 71, 107, 115, 124, 134 and 254-255) takes the source range's start to the target's start and its stop to the target's stop |
| P5Math.Lerp | sketch.js:262 | `lerp` gives start at 0, stop at 1, and a value between them for an amount in [0, 1] |
| P5Math.Truncate | sketch.js:230-231 | the truncation inside `int` rounds toward zero: within one of its argument, on the argument's side of zero |
| P5Math.ToInt32 | sketch.js:230-231 | `int(n)`, which is `n \| 0` (also at 254-255), is a signed 32-bit value and equals truncation toward zero on the 32-bit range |
| P5Math.ToInt32Monotone | sketch.js:230-231 | on non-negative 32-bit values `int` is the floor and keeps order |
| P5Math.RemapBetween | sketch.js:230-231 | on an increasing range `map` stays within the target range, and only the stop reaches the target's stop |
| P5Math.RemapBetweenFalling | sketch.js:71 | on a decreasing target range `map` of [start, stop] runs from the target start down to the target stop, and stays strictly above the target stop before the source stop unless the target range is a single point |
| Trail.Prune | sketch.js:54 | the filter keeps exactly the samples at most one lifetime old: every kept sample is live and comes from the trail, and every live sample is kept |
| Trail.PruneAppend | sketch.js:54 | filtering a concatenation filters each part, in order |
| Trail.PruneKeepsLive | sketch.js:54 | a trail of live samples passes the filter unchanged |
| Trail.PruneIdempotent | sketch.js:54 | filtering twice is filtering once |
| Trail.PushThenPrune | sketch.js:53-54 | push-then-filter keeps the old survivors in order with the new sample last |
| Trail.PruneChronological | sketch.js:54 | the filter keeps recording order |
| Trail.PruneDropsPrefix | sketch.js:53-54 | on a chronological trail the filter drops a prefix of stale samples: the trail is a queue |
| Trail.Alpha | sketch.js:56 | opacity is in [0, 1] for a live sample, 1 for a sample taken now, and 0 for one exactly a lifetime old |
| Trail.AlphaFades | sketch.js:56 | an older sample is never more opaque than a newer one |
| Trail.FadeLevels | sketch.js:55-58 | the drawing loop yields one opacity per survivor, each `1 - age/lifetime` and within [0, 1], non-decreasing along a chronological trail |
| Trail.TrailBuffer.constructor | sketch.js:18 | the trail starts empty |
| Trail.TrailBuffer.Tick | sketch.js:52-58 | one frame leaves the trail as the filtered old trail plus the new sample; it stays chronological and every sample is live; the opacities are correct and the newest is fully opaque |
| Background.GridCount | sketch.js:228-231 | the column (row) count lies in [1, max]; it is 1 with the cursor at or left of (above) the canvas, max at or beyond the far edge, and below max anywhere short of it |
| Background.GridCountMonotone | sketch.js:228-231 | moving the cursor right (down) never reduces the count |
| Background.Fraction | sketch.js:237 | `i/(count-1)`, or 0 for a single cell, lies in [0, 1] with 0 at the first cell and 1 at the last |
| Background.ColumnBlend | sketch.js:237 | the tile's column blend lies in [0, 1]; it is 0 in the first column and with one column, and 1 in the last column when there are at least two columns |
| Background.RowBlend | sketch.js:240 | `y/(rows-1 \|\| 1)` is the same fraction as for columns and lies in [0, 1] |
| Background.SoftBlend | sketch.js:261 | the soft-grid blend lies in [0, 1], is 0 at the top-left cell, and is 1 at the bottom-right cell when there are at least two columns and two rows |
| Background.SoftShade | sketch.js:262 | every grey level lies in [220, 255], is 220 at the top-left cell, and is 255 at the bottom-right cell when there are at least two columns and two rows |
| Background.SoftShadeMonotone | sketch.js:261-262 | moving right or down never darkens a cell |
| Background.TileAt | sketch.js:234-240 | the cell with drawing index idx is in a valid column and row, and its blends lie in [0, 1] |
| Background.TileGrid | sketch.js:234-245 | the nested loops visit cols×rows tiles, the k-th being `TileAt(k)`, all blends in [0, 1] |
| Background.TileRow | sketch.js:236-244 | the inner loop appends one row of `cols` tiles in index order |
| Background.ShadeAt | sketch.js:258-262 | the grey of the cell with drawing index idx lies in [220, 255] |
| Background.SoftGrid | sketch.js:258-266 | the nested loops visit cols×rows cells, the k-th being `ShadeAt(k)`, all in [220, 255] |
| Background.SoftRow | sketch.js:259-265 | the inner loop appends one row of `cols` shades in index order |
| Background.BackdropFor | sketch.js:43-49 | word 2 selects the 30×15 soft grid, word 0 the 50×10 rectangle tiles with hues 290, 180, 60, and any other word the 60×12 ellipse tiles with hues 30, 200, 120 |
| Background.DrawBackground | sketch.js:43-49 | the backdrop of the current word has `GridCount` columns and rows, within its maxima; its k-th cell is `ShadeAt(k)` (soft grid, in [220, 255]) or `TileAt(k)` (tiles) |
| Effects.EffectOf | sketch.js:67 | the switch selects an effect exactly for modes 0..8, and each mode selects the effect of that name in the effect-name list |
| Effects.EveryModeHasEffect | sketch.js:67 | every mode the keyboard can reach selects an effect |
| Effects.RepulsionStrength | sketch.js:71 | the push `map(d,0,100,50,0)` is 50 at the cursor and positive, at most 50, inside the cutoff |
| Effects.RepulsionOffset | sketch.js:69-75 | effect 0 moves the point radially by that strength below 100 px, and not at all from 100 px on |
| Effects.RepulsionSamples | sketch.js:71 | the strength is 50, 25 and 0.5 at 0, 50 and 99 px |
| Effects.RepulsionDecreasing | sketch.js:71 | nearer points are pushed at least as hard (repulsion and bubble) |
| Effects.RadialLength | sketch.js:73-74 | with a unit direction a radial push of strength f moves the point exactly f |
| Effects.PullFraction | sketch.js:107 | the pull fraction `map(d,0,100,0.5,0)` lies in (0, 0.5], and is 0.5 at the cursor |
| Effects.PullComponent | sketch.js:108-109 | each axis of the pull moves the point toward the cursor by at most half the way, so it never overshoots |
| Effects.PullOffset | sketch.js:105-110 | effect 5 pulls on both axes by that fraction below 100 px, and not at all from 100 px on |
| Effects.SwirlAngle | sketch.js:124 | the extra turn `map(d,0,150,PI/3,0)` lies in (0, π/3], and is π/3 at the cursor |
| Effects.SwirlOffset | sketch.js:122-128 | effect 7 moves the point half-way toward its turned position below 150 px, and not at all from 150 px on |
| Effects.SwirlMidpoint | sketch.js:126-127 | the drawn point is the midpoint of the glyph point and its turned position about the cursor |
| Effects.BubbleStrength | sketch.js:134 | the push `map(d,0,100,15,0)` lies in (0, 15], and is 15 at the cursor |
| Effects.BubbleOffset | sketch.js:132-138 | effect 8 moves the point radially by that strength below 100 px, and not at all from 100 px on |
| Effects.CutoffRadius | sketch.js:67-141 | exactly effects 0, 5, 7 and 8 have a cutoff, and each cutoff is positive |
| Effects.GuardedOffset | sketch.js:67-141 | an offset is computed exactly for the guarded effects |
| Effects.ZeroBeyondCutoff | sketch.js:67-141 | at or beyond its cutoff a guarded effect leaves the point exactly in place |
| Effects.DistortionEnvelope | sketch.js:115 | effect 6's envelope lies in [0, 10] up to 200 px, is 0 at 200 px, and is negative beyond |
| Effects.DistortionEnvelopeUnbounded | sketch.js:115 | beyond 200 px the unclamped envelope exceeds any bound in size |

## Left out

- Font loading, `textBounds` and `textToPoints` are not modelled. `generatePoints` is represented only by the `generation` counter of `Controller`. The number of points a sample factor yields, and the centring of the word, are not modelled.
- Drawing is not modelled: `lerpColor` and HSB colours, `drawGradient`, the glyph fill colours (including the `get` pixel inversion for "curiosity"), `drawUI`, `drawQuote` and the custom cursor. The tile grid yields the two blend fractions, not the final colour.
- `dist`, `atan2`, `sin`, `cos` and `noise` are outside the model. The guarded effects take the distance, the direction cosines and the swirled cosines as inputs (`Probe`). Effects 1 to 4, and effect 6's sine factor, are left out because their offsets are built from sines, cosines and noise. They also use the cursor and the canvas size: effect 1 adds `map(mouseX, 0, width, -15, 15)`, and effect 2 scales its noise by `mouseX * 0.03` and `mouseY * 0.03`. Of effect 6, only its envelope is modelled.
- Effects.SwirlOffset: the swirled cosine and sine are inputs. They are not shown to be the cosine and sine of the original angle plus `SwirlAngle(d)`.
- Floating point is not modelled: all arithmetic is on exact reals. `Math.PI` is the decimal 3.141592653589793.
- Input.SampleFactor: the sample factor is stored as integer hundredths. The accumulated binary rounding of repeated `± 0.01` steps is not modelled.
- The p5 frame loop, event dispatch, `millis()`, `mouseX`/`mouseY` and the canvas size become parameters of the operations.
- Trail.TrailBuffer.Tick: requires that no stored sample is newer than `now`, since `millis()` never runs backwards.
- Background.GridCount: requires a canvas extent above zero (a zero-size canvas divides by zero and yields NaN). It also requires a maximum count below 2^31; the sketch passes 10 to 60.
- `resizeCanvas` itself is not modelled, only the regeneration `windowResized` triggers.
