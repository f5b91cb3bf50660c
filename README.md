# Light rays and gooey text, modelled in Dafny

This project models two animated components of a portfolio site.

The light-rays background (`light-rays-background/index.tsx`):

- `hexToRgb` turns the colour prop into three channel intensities.
- `getAnchorAndDir` places the rays' anchor and direction for one of five
  named origins.
- The props reach the shader's `uniforms` record through `value || default`.
  This happens once when the program is built, and again in the effect that
  re-applies changed props.
- `updatePlacement` caps the pixel ratio at 2, sizes the drawing buffer and
  re-anchors the rays.
- Each frame of `loop` advances the clock. When `followMouse` is set and
  `mouseInfluence > 0`, it also moves the smoothed pointer 8% of the way
  towards the raw pointer.
- The container's class list includes a placement class chosen from
  `isBackground` and `fixedLightSource`.

The gooey text morph (`gooey-text-morphing.tsx`):

- `animate` is a two-phase machine, morph then cooldown, driven once per
  animation frame. Finishing a cooldown moves to the next text and writes
  the current text and the following one into the two spans.
- The effect's setup starts the machine at index 0 and writes the first
  two texts.

Modules:

- `HexColor` (`hex_color.dfy`) is pure. The colour pattern
  `^#?([a-f\d]{2}){3}$` with the `i` flag is written as a reference predicate
  (`MatchesColorPattern`). A small parser (`ParseChannels`) is proved to
  accept exactly the strings that predicate accepts. Each colour has an
  inverse (`FormatHex`) and a round trip.
- `RayGeometry` (`ray_geometry.dfy`) is pure. It holds the origins, the
  anchor and direction, and the pixel-ratio cap.
- `PointerSmoothing` (`pointer_smoothing.dfy`) is pure. It holds one
  smoothing step and its iteration. The lemmas prove exponential decay of
  the distance, approach without overshoot, and convergence within a stated
  number of frames.
- `RayUniforms` (`ray_uniforms.dfy`) holds:
  - the prop-to-uniform mapping and the placement class;
  - the functions `Placed` and `Updated`, which say what `updatePlacement`
    and the update effect write;
  - the class `LightRays`. Its fields are the `uniforms` record, the
    renderer's pixel ratio and the two pointer refs. Its methods update
    those fields in place and are proved against `Placed`, `Updated` and
    `SmoothPoint`.
- `GooeyText` (`gooey_text.dfy`) holds:
  - the pure step function `Step` of the phase machine, with lemmas over
    whole runs of frames;
  - the class `GooeyAnimation`. It holds the closure variables and span
    texts, which `Animate` updates in place. `Animate` is proved to perform
    `Step`.

How JavaScript values are represented:

- Props are taken with their destructuring defaults already applied, as the
  `Config` datatype. `DefaultConfig` is what a caller passing no props gets.
- Numbers are reals. The only falsy number modelled is 0.
- A string is falsy when empty.
- The gooey index is a whole number or NaN. NaN is what `(i + 1) % 0` gives
  for an empty list of texts.
- Reading outside the list shows as an empty span: `textContent` set to
  `undefined` is treated as null.
- A `setMorph` call with morph time 0 gets `Infinity`, capped to 1, or NaN
  or `-Infinity` (`NonFinite`).

Two behaviours of the code that are easy to misread:

- A mouse influence of 0 is treated differently in two places. The frame
  loop tests the raw prop, `mouseInfluence > 0` at `index.tsx:354`, so it
  stops smoothing. The uniform gets `mouseInfluence || 0.1` at
  `index.tsx:314` and `index.tsx:453`, so the shader receives 0.1.
  `ZeroInfluenceStillReachesShader` states both halves.
- The cleanup function at `index.tsx:383-410` is the return value of the
  `async` function `initializeWebGL`. Its promise is dropped at
  `index.tsx:413`, so that cleanup is never called. The model therefore
  makes no claim about teardown.

## Model

| member | source | states |
|---|---|---|
| HexColor.DigitValue | portfolio/src/components/ui/shadcn-io/light-rays-background/index.tsx:56-58 | a hex digit's value (what `parseInt(_, 16)` reads per digit) is below 16, and writing it back as a digit gives the lower-cased input |
| HexColor.ParsePair | portfolio/src/components/ui/shadcn-io/light-rays-background/index.tsx:53 | one `([a-f\d]{2})` group is read exactly when the string starts with two hex digits; its value is below 256 and the rest of the string is left over |
| HexColor.ParseChannels | portfolio/src/components/ui/shadcn-io/light-rays-background/index.tsx:53 | the parser succeeds if and only if the string matches the colour pattern (six hex digits, optionally after one '#'), and then yields the three pair values |
| HexColor.HexToRgb | portfolio/src/components/ui/shadcn-io/light-rays-background/index.tsx:52-61 | every result is a colour with all channels in [0, 1] |
| HexColor.HexToRgbMeaning | portfolio/src/components/ui/shadcn-io/light-rays-background/index.tsx:54-60 | a matching string gives each pair's value over 255; every other string gives white `[1, 1, 1]` |
| HexColor.ColorUniform | portfolio/src/components/ui/shadcn-io/light-rays-background/index.tsx:306 | the colour uniform, `hexToRgb` of the prop or else of `DEFAULT_COLOR`, is the same as `hexToRgb` of the prop, since the empty string and the default both come out white |
| HexColor.DefaultColorIsWhite | portfolio/src/components/ui/shadcn-io/light-rays-background/index.tsx:50 | the default colour "#ffffff" and the empty string both parse to white |
| HexColor.FormatHex | portfolio/src/components/ui/shadcn-io/light-rays-background/index.tsx:53 | the formatted colour is seven characters beginning with '#' |
| HexColor.HexToRgbOfFormatHex | portfolio/src/components/ui/shadcn-io/light-rays-background/index.tsx:52-61 | round trip: formatting three bytes as "#rrggbb" and parsing gives each byte over 255 |
| HexColor.HexToRgbIgnoresCase | portfolio/src/components/ui/shadcn-io/light-rays-background/index.tsx:53 | the `i` flag: upper-casing the colour string never changes the result |
| HexColor.HexToRgbHashOptional | portfolio/src/components/ui/shadcn-io/light-rays-background/index.tsx:53 | the `#?`: prefixing '#' to a string that has none never changes the result |
| HexColor.WrongLengthIsWhite | portfolio/src/components/ui/shadcn-io/light-rays-background/index.tsx:60 | any string whose length is neither 6 nor 7, three-digit shorthand included, gives white |
| HexColor.ShorthandIsWhite | portfolio/src/components/ui/shadcn-io/light-rays-background/index.tsx:53-60 | "#fff", "" and "#ffffff0" all give white |
| RayGeometry.ParseOrigin | portfolio/src/components/ui/shadcn-io/light-rays-background/index.tsx:69-82 | an origin name selects its case; any other string, the empty one included, gives the `default` branch, which is top-center |
| RayGeometry.ParseOriginOfName | portfolio/src/components/ui/shadcn-io/light-rays-background/index.tsx:69-79 | each origin's name selects that origin |
| RayGeometry.GetAnchorAndDir | portfolio/src/components/ui/shadcn-io/light-rays-background/index.tsx:63-83 | the direction is always one of the four unit axis vectors |
| RayGeometry.AnchorBeyondEdgePointingInward | portfolio/src/components/ui/shadcn-io/light-rays-background/index.tsx:68-79 | for a non-empty viewport and an edge origin, the anchor lies strictly outside that edge, 0.2 of the viewport out and midway along it, and the direction points towards the centre |
| RayGeometry.CenterAnchor | portfolio/src/components/ui/shadcn-io/light-rays-background/index.tsx:72-73 | `center` anchors at the middle of the viewport and points the same way as `top-center` |
| RayGeometry.GetAnchorAndDirScales | portfolio/src/components/ui/shadcn-io/light-rays-background/index.tsx:336-342 | scaling the size by k scales the anchor by k and keeps the direction |
| RayGeometry.GetAnchorAndDirExample | portfolio/src/components/ui/shadcn-io/light-rays-background/index.tsx:70-77 | a 1000 by 800 viewport: top-center anchors at (500, -160) pointing down, left-center at (-200, 400) pointing right |
| RayGeometry.CappedDpr | portfolio/src/components/ui/shadcn-io/light-rays-background/index.tsx:331 | `Math.min(devicePixelRatio, 2)`: at most 2, at most the device's ratio, and equal to one of them |
| PointerSmoothing.SmoothStep | portfolio/src/components/ui/shadcn-io/light-rays-background/index.tsx:355-359 | one frame on one axis lands between the old smoothed value and the raw value, at 0.92 of the old distance from the raw value |
| PointerSmoothing.SmoothPoint | portfolio/src/components/ui/shadcn-io/light-rays-background/index.tsx:357-362 | each axis is smoothed independently with the same guarantees |
| PointerSmoothing.SmoothIterOffset | portfolio/src/components/ui/shadcn-io/light-rays-background/index.tsx:354-362 | with the raw pointer held still, after n frames the signed offset is 0.92^n times the starting offset |
| PointerSmoothing.SmoothIterDistance | portfolio/src/components/ui/shadcn-io/light-rays-background/index.tsx:354-362 | after n frames the distance to the raw pointer is 0.92^n times the starting distance |
| PointerSmoothing.SmoothIterMonotone | portfolio/src/components/ui/shadcn-io/light-rays-background/index.tsx:354-362 | the smoothed value moves monotonically towards the raw value and never overshoots it |
| PointerSmoothing.PowDecay | portfolio/src/components/ui/shadcn-io/light-rays-background/index.tsx:355 | 0.92^n (1 + 0.08 n) never exceeds 1 |
| PointerSmoothing.FramesWithin | portfolio/src/components/ui/shadcn-io/light-rays-background/index.tsx:355 | a frame count n with 0.08 eps n above the starting distance |
| PointerSmoothing.SmoothIterConverges | portfolio/src/components/ui/shadcn-io/light-rays-background/index.tsx:354-367 | from `FramesWithin(distance, eps)` frames on, the smoothed pointer is within eps of the raw pointer |
| RayUniforms.UniformValues | portfolio/src/components/ui/shadcn-io/light-rays-background/index.tsx:306-316 | every truthy prop reaches its uniform unchanged, every zero takes its fixed default (mouse influence 0 included, which becomes 0.1), pulsating is 1 exactly when the prop is true, and the colour lies in the unit cube |
| RayUniforms.ZeroInfluenceStillReachesShader | portfolio/src/components/ui/shadcn-io/light-rays-background/index.tsx:354 | a mouse influence of 0 switches the smoothing off while the shader still receives 0.1 |
| RayUniforms.DefaultsAreFixedPoint | portfolio/src/components/ui/shadcn-io/light-rays-background/index.tsx:92-101 | falsy props produce the same uniforms as the destructuring defaults |
| RayUniforms.PlacementClass | portfolio/src/components/ui/shadcn-io/light-rays-background/index.tsx:485-489 | the conditional argument passed to `cn`: it starts "fixed " and holds "w-screen h-screen" for a background with a fixed light source; it starts "absolute " and holds "w-full h-full" for a background without one; it ends in `z-[-1]` exactly for a background; otherwise it is exactly "z-[3]" |
| RayUniforms.Placed | portfolio/src/components/ui/shadcn-io/light-rays-background/index.tsx:333-344 | the resolution becomes the CSS size times the pixel ratio, the ray is placed for exactly that resolution, and clock, shader parameters and pointer are left alone |
| RayUniforms.PlacedScales | portfolio/src/components/ui/shadcn-io/light-rays-background/index.tsx:336-342 | the placed anchor is the pixel ratio times the CSS-size anchor, with the CSS-size direction |
| RayUniforms.Updated | portfolio/src/components/ui/shadcn-io/light-rays-background/index.tsx:446-461 | the shader parameters become the props' uniforms; the ray is re-anchored for the current size in device pixels; clock, resolution and pointer are untouched; when the resolution is still the current size in device pixels, the ray agrees with it |
| RayUniforms.UpdatedIdempotent | portfolio/src/components/ui/shadcn-io/light-rays-background/index.tsx:439-461 | running the update effect twice with the same props equals running it once |
| RayUniforms.UpdateAfterPlacementChangesNothing | portfolio/src/components/ui/shadcn-io/light-rays-background/index.tsx:439-461 | right after building and placing, the update effect with unchanged props, size and ratio changes nothing |
| RayUniforms.LightRays.constructor | portfolio/src/components/ui/shadcn-io/light-rays-background/index.tsx:299-317 | the renderer gets the capped pixel ratio, the uniforms take their initial values, and both pointer refs start at (0.5, 0.5) |
| RayUniforms.LightRays.SetPointer | portfolio/src/components/ui/shadcn-io/light-rays-background/index.tsx:120 | a pointer handler stores the new raw sample and nothing else |
| RayUniforms.LightRays.UpdatePlacement | portfolio/src/components/ui/shadcn-io/light-rays-background/index.tsx:328-345 | without a container nothing changes; otherwise the pixel ratio is capped and the uniforms become `Placed` of the old ones; the invariant (ratio at most 2, well-formed parameters, unit-axis direction) is kept |
| RayUniforms.LightRays.LoopStep | portfolio/src/components/ui/shadcn-io/light-rays-background/index.tsx:347-377 | without renderer and uniforms it stops and changes nothing; otherwise the clock becomes t times 0.001, and, when the pointer is followed (`followMouse` and `mouseInfluence > 0`), the smoothed pointer takes one `SmoothPoint` step that the pointer uniform copies, while otherwise both stay as they were; the next frame is requested exactly when rendering succeeds |
| RayUniforms.LightRays.ApplyConfig | portfolio/src/components/ui/shadcn-io/light-rays-background/index.tsx:439-461 | without a container nothing changes; otherwise the uniforms become `Updated` of the old ones at the renderer's pixel ratio, keeping the invariant |
| GooeyText.Element | portfolio/src/components/ui/gooey-text-morphing.tsx:70-71 | an in-range index shows that text; any other index shows nothing |
| GooeyText.NextIndex | portfolio/src/components/ui/gooey-text-morphing.tsx:66 | for a non-empty list the next index is `(i + 1) % length`, in range; for an empty list, or from NaN, it is NaN |
| GooeyText.InitialShows | portfolio/src/components/ui/gooey-text-morphing.tsx:79-85 | the initial span texts agree with the cooldown's current-and-next rule exactly when there are fewer than two texts, the second text is non-empty, or the first is empty |
| GooeyText.InitialState | portfolio/src/components/ui/gooey-text-morphing.tsx:25-29 | the machine starts morphing, with no progress, at index 0, with the clock read at setup; index 0 is in range for a non-empty list |
| GooeyText.InitialSpans | portfolio/src/components/ui/gooey-text-morphing.tsx:79-82 | with both spans present, the first shows `texts[0]` and the second `texts[1] || texts[0]`; without them no text is written |
| GooeyText.MorphFraction | portfolio/src/components/ui/gooey-text-morphing.tsx:51 | `Math.min(progress / morphTime, 1)`: never above 1; exactly 1 once the morph time is reached; the share of the morph time before that; no finite number only for morph time 0 and no positive progress |
| GooeyText.Step | portfolio/src/components/ui/gooey-text-morphing.tsx:44-77 | the clock is recorded; progress grows by the elapsed seconds and resets on a phase change; the morph phase ends when progress reaches the morph time and the cooldown at the cooldown time; only a finished cooldown advances the index; with both spans present it then shows the new current and next text, and without them the texts stay as they were; the index stays in range |
| GooeyText.AppliedMorph | portfolio/src/components/ui/gooey-text-morphing.tsx:49-52 | `setMorph` is called exactly in the morph phase, with a fraction of at most 1 |
| GooeyText.StepIndex | portfolio/src/components/ui/gooey-text-morphing.tsx:63-66 | one frame adds 1 to the index modulo the length when it finishes a cooldown and 0 otherwise |
| GooeyText.RunIndex | portfolio/src/components/ui/gooey-text-morphing.tsx:44-77 | over any sequence of frames the index advances by exactly the number of finished cooldowns, modulo the number of texts, and stays in range |
| GooeyText.RunKeepsShowing | portfolio/src/components/ui/gooey-text-morphing.tsx:69-72 | with the spans present, once they show the current and next text they keep doing so on every later frame |
| GooeyText.IndexAlwaysInRange | portfolio/src/components/ui/gooey-text-morphing.tsx:25-77 | for a non-empty list the index is in range after every frame from the start |
| GooeyText.GooeyAnimation.constructor | portfolio/src/components/ui/gooey-text-morphing.tsx:24-85 | the closure state and span texts start as `Initial` says |
| GooeyText.GooeyAnimation.Animate | portfolio/src/components/ui/gooey-text-morphing.tsx:44-77 | one frame updates the state in place to exactly `Step` of the old state, and returns what `setMorph` received (`AppliedMorph`) |

## Left out

- Shaders: the vertex and fragment shader sources and everything they
  compute (`index.tsx:197-297`). They run on the GPU and are not modelled.
- The ogl renderer, program, mesh and WebGL context, the canvas in the DOM,
  `renderer.setSize` and the draw call. Only the draw call's success or
  failure is modelled, as a parameter of `LoopStep`.
- React: hooks, refs, re-renders and effect dependency lists. The guards on
  missing refs are modelled as parameters: an optional container and an
  `attached` flag.
- The `IntersectionObserver`, the 10 ms `setTimeout`, `requestAnimationFrame`
  scheduling and the `resize` listener. The caller drives each modelled
  method instead. Loops left running by earlier effect runs are not
  modelled.
- Teardown (`index.tsx:383-410`). It is never invoked, because the promise
  of `initializeWebGL` is dropped at `index.tsx:413`. The outer cleanup's
  `cancelAnimationFrame` is scheduling and is left out too.
- The pointer handlers' normalisation by the container's bounding box
  (`index.tsx:113-143`). Only storing the new sample is modelled
  (`SetPointer`).
- `setMorph`'s blur and opacity styles (`gooey-text-morphing.tsx:31-42`),
  the SVG filter and the JSX layout of the gooey text. Only the argument
  `setMorph` receives is modelled.
- RayUniforms.PlacementClass: the `cn(...)` call that merges the base
  classes, the placement class and the `className` prop
  (`index.tsx:483-491`) is not modelled. Only the placement argument is.
- The `console.warn` on the render-error path (`index.tsx:374`). It is
  output, so only the fact that no next frame is requested is modelled.
- RayUniforms.LightRays.constructor: it models the first run of the
  initialisation effect only. The pointer refs (`index.tsx:106-108`)
  outlive the effect, so a later run builds new uniforms but keeps the
  current raw and smoothed pointer. That re-run is not modelled.
- The initial opacities set at `gooey-text-morphing.tsx:83-84`. They are
  styles, not state of the machine.
- Floating point: numbers are exact reals. `1 - 0.92` is taken as exactly
  0.08, and rounding, NaN and infinities from arithmetic on numeric props
  are not modelled. The single exception is the NaN gooey index.
- Props that are NaN, -0, `null` or of the wrong type. Props are taken with
  their destructuring defaults already applied.
- RayGeometry.GetAnchorAndDir: its own contract states only the unit-axis
  direction. The placement of the anchor is stated by the lemmas
  `AnchorBeyondEdgePointingInward`, `CenterAnchor` and
  `GetAnchorAndDirScales`, which keeps the proofs that use the function
  small.
- HexColor.HexToRgb: its own contract states only the unit cube. What the
  result is comes from the lemma `HexToRgbMeaning`, for the same reason.
- The other files of the repository: pages, layout and the glass card. They
  only use these components.
