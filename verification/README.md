# Hearts for girlfriend: a Dafny model of the particle heart

Two Python scripts, `Heart_for_girlfriend.py` and `Heart_2_for_girlfriend.py`,
draw a pulsing heart out of particles. This project models the parts of
them that can be stated exactly:

- `lerp_color` (second script only). It parses two `#rrggbb` strings into
  byte channels, blends each channel with `int()` truncation, and prints the
  result as `#` plus two lowercase hex digits per channel (module `HexColor`).
- The `Heart` class of both scripts (module `HeartModel`). Construction
  builds three deduplicated point sets: the outline, the edge diffusion and
  the centre diffusion. It then caches one particle list per frame index in
  `all_points`, and the second script also draws 120 background particles.
  Playback looks frames up modulo the frame count.

The second script is the first with other constants, plus three additions:
it tags each particle with its layer's kind number, it defines `lerp_color`,
and it draws 120 background particles. One class therefore takes a
`Variant`:

| constant | `First` (Heart_for_girlfriend.py) | `Second` (Heart_2_for_girlfriend.py) |
|---|---|---|
| outline samples | 2000 | 2200 |
| centre samples | 4000 | 4500 |
| halo curve scale | 11.6 | 11.7 |
| halo number | `int(3000 + 4000 c^2)` | `int(2800 + 4200 c^2)` |
| halo jitter | ±14 | ±10 |
| halo size tuple | `(1, 2, 2)` | `(1, 1, 2)` |
| particles | `(x, y, size)` | `(x, y, size, kind)` |
| background particles | 0 | 120 |

Modules:

- `Wrappers`: `Result`, `Option`, and the Python exceptions the code can raise.
- `PyNum`: `int()` of a float (truncation toward zero) and Python's `%`.
- `Randomness`: the random source, passed in as a value. It is an endless
  stream of raw words plus a read position. `randint`, `random`, `uniform`
  and `choice` are derived from it and promise only the ranges Python
  documents.
- `HexColor`: `lerp_color`.
- `Particles`: points, particles and the `Variant`s. It also holds the
  opaque float geometry, as the function fields of a `Geometry` value, and
  the per-frame halo and body loops of `calc`. The predicates here describe
  a well-formed cached frame.
- `HeartModel`: the class `Heart`, with `Build`, `Calc` and the `render`
  lookup.

The coordinates are `real`s. `heart_function` returns integers, so outline
points have integral coordinates. Those integer points are what make the
outline set deduplicate.

Three things the source does that a reader might not expect:

- `lerp_color(c, c, t)` does not give back `c` itself. It gives `#` followed
  by each parsed channel printed as two lowercase digits. A colour with six
  hex digits therefore comes back lowercased. A shorter last slice is padded
  rather than cut: `lerp_color("#abcde", "#abcde", t)` is `"#abcd0e"`.
- The static sets are only bounded by the sample counts, not equal to them.
- Nothing guards the division by zero at the centre point.

## Model

| member | source | states |
|---|---|---|
| PyNum.Trunc | Heart_2_for_girlfriend.py:44-46 | `int()` of a float truncates toward zero. The result is within one of the argument, no larger in magnitude, and has the same sign. |
| PyNum.Mod | Heart_2_for_girlfriend.py:119 | Python's `%` lies in `[0, b)` for a positive divisor and in `(b, 0]` for a negative one. A dividend already in that range is its own remainder. |
| PyNum.ModCharacterised | Heart_2_for_girlfriend.py:119 | Python's `%` is the unique `r` with `a == b·q + r` that lies in the divisor's range and takes the divisor's sign. |
| PyNum.ModPeriodic | Heart_for_girlfriend.py:174 | Adding the divisor to the dividend leaves Python's remainder unchanged. |
| Randomness.Rng.RandInt | Heart_2_for_girlfriend.py:62-64 | `random.randint(a, b)` lies in `[a, b]` and consumes one draw. |
| Randomness.Rng.Random | Heart_2_for_girlfriend.py:23-25 | `random.random()` lies in `[0, 1)`. |
| Randomness.Rng.Uniform | Heart_2_for_girlfriend.py:68 | `random.uniform(a, b)` lies in `[a, b]`. |
| Randomness.Rng.Choice | Heart_2_for_girlfriend.py:77 | `random.choice(xs)` returns an element of the non-empty `xs`. |
| HexColor.ParseHex | Heart_2_for_girlfriend.py:42-43 | `int(s, 16)` succeeds exactly on a non-empty run of hex digits. One digit gives a value below 16, two digits a value below 256. |
| HexColor.HexDigits | Heart_2_for_girlfriend.py:47 | Hex printing gives lowercase digits, and a positive number never starts with `0`. One digit means the value is below 16. Reading the digits back gives the number. |
| HexColor.Format02x | Heart_2_for_girlfriend.py:47 | `f"{n:02x}"` is two lowercase digits for 0..255 that read back as `n`. A negative `n` gets a leading `-`, and 256 or more gets at least three digits. |
| HexColor.ParsePair | Heart_2_for_girlfriend.py:42-43 | Two hex digits read as 16 times the first digit's value plus the second's. |
| HexColor.FormatPair | Heart_2_for_girlfriend.py:47 | A byte `16·hi + lo` prints as the lowercase digits of `hi` and `lo`, keeping a leading zero. |
| HexColor.FormatParsedPair | Heart_2_for_girlfriend.py:42-47 | Two hex digits, parsed and then printed, come back lowercased. |
| HexColor.LStrip | Heart_2_for_girlfriend.py:40-41 | `lstrip("#")` removes a prefix made only of `#`. What is left does not start with `#`. |
| HexColor.Slice | Heart_2_for_girlfriend.py:42-43 | A Python slice `s[i:j]` has length `min(j, |s|) - min(i, |s|)`, and its `k`-th character is `s[i + k]`. It equals the Dafny slice when `j <= |s|`. |
| HexColor.ParseColor | Heart_2_for_girlfriend.py:40-43 | A parsed colour has every channel in 0..255. |
| HexColor.LerpColor | Heart_2_for_girlfriend.py:39-47 | `lerp_color` returns a value exactly when both colours parse. Otherwise it raises ValueError. |
| HexColor.MixSame | Heart_2_for_girlfriend.py:44-46 | Blending a channel with itself gives the channel, for every `t`. |
| HexColor.MixEnds | Heart_2_for_girlfriend.py:44-46 | A blended channel is the first input at `t = 0` and the second at `t = 1`. |
| HexColor.LerpWithin | Heart_2_for_girlfriend.py:44-46 | Before `int()`, the float `a + (b - a) * t` lies between the two channels for `0 <= t <= 1`. |
| HexColor.MixBetween | Heart_2_for_girlfriend.py:44-46 | For `0 <= t <= 1` the blended channel lies between the two input channels, in either order. |
| HexColor.FormatThenParse | Heart_2_for_girlfriend.py:42-47 | A byte colour prints as canonical `#rrggbb` text that parses back to the same colour. |
| HexColor.ParseThenFormat | Heart_2_for_girlfriend.py:40-47 | A colour whose stripped text starts with six hex digits parses. Printed again, it is `#` plus those six digits lowercased. |
| HexColor.LerpSelf | Heart_2_for_girlfriend.py:39-47 | `lerp_color(c, c, t)` prints the channels of `c`, for every `t`. |
| HexColor.LerpSelfText | Heart_2_for_girlfriend.py:39-47 | For a six-digit colour, `lerp_color(c, c, t)` is `c` with its leading `#`s stripped, one `#` put back, and the digits lowercased. |
| HexColor.LerpFiveDigits | Heart_2_for_girlfriend.py:40-47 | `lerp_color("#abcde", "#abcde", t)` is `"#abcd0e"` for every `t`: the one-digit last slice parses as 14 and prints padded. |
| HexColor.ParseFiveDigits | Heart_2_for_girlfriend.py:40-43 | `"#abcde"` parses to the channels 171, 205 and 14: the last slice is the single digit `e`. |
| HexColor.PrintPadded | Heart_2_for_girlfriend.py:47 | The channels 171, 205 and 14 print as `"#abcd0e"`: `{:02x}` pads 14 to `0e`. |
| HexColor.LerpEnds | Heart_2_for_girlfriend.py:42-46 | `lerp_color(c1, c2, 0)` prints the channels of `c1`, and `lerp_color(c1, c2, 1)` those of `c2`. |
| HexColor.LerpStaysCanonical | Heart_2_for_girlfriend.py:44-47 | For `0 <= t <= 1` every output channel lies between the input channels. The output is canonical `#rrggbb` that parses back to the blend. |
| HexColor.LerpChains | Heart_2_for_girlfriend.py:129-131 | Feeding a blend back in as the first colour of another blend, as the renderer does, cannot raise. |
| Particles.Layer.Code | Heart_2_for_girlfriend.py:103-115 | The kind tags of the halo, outline, edge and centre entries are the numbers 0 to 3. |
| Particles.CodesDistinct | Heart_2_for_girlfriend.py:103-115 | Two layers have the same kind number exactly when they are the same layer, so the tag identifies the layer. |
| Particles.HaloNumber | Heart_2_for_girlfriend.py:91 | `halo_number` is never below its base: 2800 here, 3000 in Heart_for_girlfriend.py:133. This holds because `abs(c**2) >= 0`. |
| Particles.ScriptVariants | Heart_for_girlfriend.py:150 | Both variants are well formed, and every size in either halo size tuple is 1 or 2. |
| Particles.Enumerate | Heart_2_for_girlfriend.py:71-75 | Iterating over a set (`list(s)`) lists each element exactly once. |
| Particles.HaloLayer | Heart_2_for_girlfriend.py:93-103 | The halo loop makes exactly `halo_number` draws, each a shrunk curve point, and keeps one entry for each distinct drawn point: a point is kept exactly when it was drawn, and no kept point repeats. So there are at most `halo_number` entries. Each entry lies within the variant's jitter of its point, takes its size from the variant's tuple and carries the halo tag. |
| Particles.BodyLayer | Heart_2_for_girlfriend.py:104-115 | A body loop makes one entry per listed point, in order. Each entry is within one unit of `calc_position`'s pull on its point, has a size in 1..3 (outline) or 1..2 (diffusion), and carries the layer's tag. |
| Particles.FrameLayout | Heart_2_for_girlfriend.py:92-116 | A cached frame is `h <= halo_number` halo entries, then one entry each per outline, edge and centre point. Its length is `h + |points| + |edge| + |center|`, and each section has its own tag and size range. |
| HeartModel.DrawSparks | Heart_2_for_girlfriend.py:61-64 | The background loop appends exactly `count` particles, each with x in [0, 980], y in [0, 640] and size 1 or 2. |
| HeartModel.Heart.CalcFrames | Heart_2_for_girlfriend.py:59-60 | Calling `calc` for every frame of `range(generate_frame)` leaves `all_points` with exactly those keys, each holding a well-formed frame. |
| HeartModel.Heart.constructor | Heart_2_for_girlfriend.py:50-64 | After construction `all_points` has exactly the keys `0 .. generate_frame - 1`, and every cached frame is well formed. The outline set is non-empty with at most the sample count of points. The edge set is non-empty, has at most 3·outline points, and holds a scatter of every outline point. The centre set has at most the centre sample count of points and is non-empty when that count is positive. There are exactly `sparks` background particles (120 in the second script), each with x in [0, 980], y in [0, 640] and size 1 or 2. |
| HeartModel.Heart.Build | Heart_2_for_girlfriend.py:66-79 | `build(n)` adds at most `n` curve points to the outline set. It adds at most 3·outline points to the edge set, each a light scatter of an outline point, and every outline point has at least one of its scatters in the edge set. It adds at most the centre sample count of points to the centre set, each a strong scatter of an outline point chosen from the list. The sets only grow. A non-empty outline gives a non-empty edge set, and a positive centre count a non-empty centre set. Run once from empty sets with `0 < n` at most the outline sample count, it produces sets with all these properties. |
| HeartModel.Heart.SampleOutline | Heart_2_for_girlfriend.py:67-70 | The first loop of `build` adds at most `n` points to the outline set, each a curve point, and at least one when `n > 0`. |
| HeartModel.Heart.DiffuseEdge | Heart_2_for_girlfriend.py:71-74 | The edge loop adds at most three points per outline point, each a light scatter of an outline point. Every outline point has a scatter in the edge set afterwards, so a non-empty outline leaves the edge set non-empty. |
| HeartModel.Heart.DiffuseCenter | Heart_2_for_girlfriend.py:75-79 | The centre loop adds at most the centre sample count of points, each a strong scatter of an outline point, and at least one when that count is positive. |
| HeartModel.Heart.Calc | Heart_2_for_girlfriend.py:88-116 | `calc(f)` stores a well-formed frame under key `f` and leaves every other key and the three sets unchanged. |
| HeartModel.Heart.Lookup | Heart_2_for_girlfriend.py:119 | The lookup reads `all_points[render_frame % generate_frame]`. With keys `0 .. generate_frame - 1` it finds a frame for every integer exactly when `generate_frame > 0`, frame `k` in that range is the list cached under `k`, and every frame found is well formed. A frame count of zero raises ZeroDivisionError. |
| HeartModel.Heart.LookupPeriodic | Heart_for_girlfriend.py:174 | Frames `k` and `k + generate_frame` show the same cached list. |

`Mix`, `Blend`, `FormatColor`, `Ratio`, `HaloRadius` and `ToPoint` are
definitions with no contract of their own. The lemma rows above state
what they do: `MixSame`, `MixEnds`, `MixBetween`, `LerpWithin` and
`LerpStaysCanonical` for the blend, `FormatThenParse` and `PrintPadded` for
the printing, and `HaloLayer`, `BodyLayer` and `FrameLayout` for the
per-frame quantities.

Heart_for_girlfriend.py is the `First` variant of the same members: its
`__init__` is at lines 82-94, `build` at 97-115, `calc` at 129-170 (halo
loop 140-151, body loops 154-168) and the lookup at 174.

## Left out

- The tkinter plumbing is not modelled: `draw`, `main`, the canvas drawing
  calls, the `after` timer, the per-kind colour choice and the `pulse`/`tw`
  colour phases in `render`. All of it is GUI and I/O. The second script
  also runs `main()` at import.
- The float geometry is opaque: `heart_function`, `scatter_inside`, `shrink`,
  the force term of `calc_position`, and `curve(f / 10 * pi)`. These are
  function fields of `Geometry`, so no claim is made about where points land
  or how far they move.
- The division by zero at the exact centre in `shrink` and `calc_position`
  is not modelled, nor is `log(0.0)` when `random()` returns 0. Both lie
  inside the opaque float functions.
- Floating-point rounding is not modelled. `t` and all coordinates are exact
  reals.
- Randomness is modelled only through the ranges it returns. Each draw
  reads one word of an injected stream. Python's rejection sampling and the
  shapes of its distributions are not modelled.
- `self.random_halo` is never read, so it is left out.
- HexColor.ParseHex: Python's `int(s, 16)` also accepts surrounding
  whitespace, a sign and non-ASCII digits. The model rejects these as
  ValueError. A negative channel from a sign is therefore not modelled.
- HeartModel.Heart.Build: the contract states the `3·|outline|` bound and
  where each edge point comes from. It does not count the exactly three
  scatter calls made per outline point.
- HeartModel.Heart.Build: the source crashes with IndexError when the
  outline list is empty and centre samples are drawn. The model requires the
  outline to be non-empty, `n > 0`, or no centre samples, as every call site
  guarantees.
- Particles.Enumerate: Python iterates an unchanged set in the same order on
  every `calc`. The model lets each call list the set in its own order.
- Particles.HaloLayer and Particles.BodyLayer: the contracts bound the
  jitter. They do not state that the jitter is a whole number.
