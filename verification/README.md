# Input toggles and bouncing shapes, in Dafny

This project models the two pieces of logic in a pair of small OpenGL demo
programs that can be stated without a GPU.

- **`Controls`** (`controls.dfy`, from `zad1/main.cpp`): the textured-shapes
  demo keeps two visibility flags, `showSquare` and `showTriangle`, and a
  texture/colour `mixFactor`. The key callback reacts only to key presses:
  Q toggles the square, T toggles the triangle, and B hides both if both are
  shown and shows both otherwise. The scroll callback adds `yoffset * 0.05`
  to the mix factor and clamps it to [0, 1]. Here the globals are one
  immutable `State`, each callback invocation is an `Event`
  (`Key(key, action)` or `Scroll(yoffset)`), and `Step` is the transition.
  `Run` folds `Step` over a sequence of events.
- **`Bounce`** (`bounce.dfy`, from `zad2/main.cpp`): Figure 1 (a triangle,
  collision half-extent 0.3) and Figure 4 (a rotating, pulsing rectangle,
  collision half-extent 0.25) move in a straight line with a time step of
  0.01 per frame. After each move, each axis on its own checks whether the
  collision box (centre ± half-extent) has left the [-1, 1] window; if it
  has, that velocity component is negated.
  `AxisStep` is the rule for one axis, `Step` applies it to both axes of a
  `Figure`, and `Tick` advances both figures of the `Scene`.
- **`RealMath`** (`realmath.dfy`): the absolute value shared by both modules.

The demo's header comment claims that collision detection keeps Figures 1
and 4 inside the window. The model proves a weaker form of this for the
collision box: the box never leaves the window by more than one frame's
travel `e = |v| * 0.01` (`NoEscape`). The claim as written fails even for
the box, because the check uses the position after the move.
`BoxOvershoots` gives an example: a triangle at 0.699 moving right at 0.5
satisfies the invariant, yet after one frame its box's right edge is at
1.004. For Figure 1 the box is exact: the triangle is not rotated, and its
vertices are ±0.5 scaled by 0.6. So the drawn triangle overshoots too.
Figure 4 overshoots further (see "## Left out").
`AxisInv` says three things:

- the centre lies in `[-1+h-e, 1-h+e]`;
- above the band, the velocity is negative;
- below the band, the velocity is positive.

This invariant holds at the initial positions and is preserved by every
frame, for any speed and any half-extent. `NoEscape` turns it into a bound
on the collision box: it never leaves the window by more than `e`.

Floating-point `float` values are modelled as `real`, so no rounding
happens. The GLFW constants are the values from GLFW's public header:
`GLFW_PRESS = 1`, `GLFW_KEY_B = 66`, `GLFW_KEY_Q = 81`, `GLFW_KEY_T = 84`.
That header is not part of this model. Key codes and action codes stay plain
`int`s, as in the C callback, so every other key and every other action
(release, repeat) is covered.

The velocity test uses the position after the move. So a shape whose edge
is already past the window before a frame is not necessarily flipped. A
shape past an edge and moving back inward keeps its velocity when two things
hold (`InwardKeepsVelocity`). First, `AxisInv` holds, so its edge is at most
one frame's travel past the window. Second, one frame's travel `|v| * 0.01`
is at most `2 - 2h`, so the move cannot carry the box across the whole
window to the opposite edge. `AxisInv` holds from the initial scene for any
velocity. The speed bound holds for the demo's speeds, 0.5 for Figure 1 and
0.4 for Figure 4 (`DemoSpeedsKeepInwardVelocity`). Without the speed bound
the claim fails: `FastShapeCrossesWindow` gives a shape moving left at
speed 150 that bounces off the left edge. Outside the invariant the rule can
also turn a shape outward: `FarOvershootTurnsOutward` gives an example, a
box 0.8 past the right edge that is moving left.

## Model

| member | source | states |
|---|---|---|
| Controls.Clamp | zad1/main.cpp:46 | the result lies in [lo, hi], equals v when v is already there, is lo when v is below and hi when v is above |
| Controls.ClampIsNearest | zad1/main.cpp:46 | no point of [lo, hi] is closer to v than the clamped value |
| Controls.ClampMonotone | zad1/main.cpp:46 | clamping preserves order |
| Controls.ScrollMix | zad1/main.cpp:43-46 | after any scroll the mix factor is in [0, 1], whatever the previous value and offset; if the moved value did not need clamping, it is exactly the old value plus yoffset * 0.05; a moved value below 0 saturates to 0 and one above 1 to 1 |
| Controls.OnKey | zad1/main.cpp:54-70 | a key event never changes the mix factor; an action other than PRESS leaves the whole state unchanged |
| Controls.Step | zad1/main.cpp:43-70 | key events keep the mix factor; scroll events keep both visibility flags and leave the mix factor in [0, 1]; the [0, 1] range of the mix factor is preserved by every event |
| Controls.Run | zad1/main.cpp:43-70 | over any sequence of callbacks the mix factor stays in [0, 1] if it started there, and ends in [0, 1] whenever at least one scroll occurred |
| Controls.InitialState | zad1/main.cpp:38-52 | both shapes start hidden and the mix factor starts at 0, inside [0, 1] |
| Controls.IgnoredKeys | zad1/main.cpp:57-69 | a non-PRESS action, or a PRESS of any key other than Q, T or B, leaves the state unchanged |
| Controls.ToggleSquare | zad1/main.cpp:58-59 | Q negates showSquare, keeps showTriangle, and pressing Q twice is the identity |
| Controls.ToggleTriangle | zad1/main.cpp:61-62 | T negates showTriangle, keeps showSquare, and pressing T twice is the identity |
| Controls.ToggleBoth | zad1/main.cpp:64-67 | after B both flags are equal; they are false exactly when both were true before; on a state whose flags agree, pressing B twice is the identity |
| Controls.ScrollMonotone | zad1/main.cpp:45-46 | from a mix factor in [0, 1], a non-negative offset never lowers it and a non-positive offset never raises it |
| Controls.ScrollUndo | zad1/main.cpp:45-46 | a scroll that does not hit either bound is undone by the opposite scroll |
| Controls.ToggleParity | zad1/main.cpp:54-70 | over a sequence with no B press, showSquare is flipped once per Q press and showTriangle once per T press, so each ends as its start value XOR the parity of its key's presses |
| Controls.KeysKeepMix | zad1/main.cpp:43-70 | a sequence of key events alone never changes the mix factor |
| Bounce.AxisStep | zad2/main.cpp:143-148 | the position advances by v * 0.01; the velocity is kept when the moved shape lies inside the window on this axis and negated otherwise; the speed is unchanged |
| Bounce.Step | zad2/main.cpp:143-148 | both coordinates advance by velocity * 0.01, the speed on each axis is preserved, and the half-extent is unchanged |
| Bounce.AxesIndependent | zad2/main.cpp:146-148 | the x update depends only on x data and the y update only on y data |
| Bounce.ReflectsExactlyOnCrossing | zad2/main.cpp:146-148 | each velocity component is negated exactly when the moved shape's box crosses that axis's window edge, and is unchanged otherwise |
| Bounce.FarOvershootTurnsOutward | zad2/main.cpp:144-146 | outside the invariant (a box 0.8 past the right edge moving left), the rule turns the velocity outward |
| Bounce.BoxOvershoots | zad2/main.cpp:10 | the header's claim fails even for the collision box: a state within the invariant (centre 0.699, velocity 0.5, h 0.3) moves the box's right edge past 1 in one frame |
| Bounce.InwardKeepsVelocity | zad2/main.cpp:144-148 | within the invariant, and when one frame's travel is at most 2 - 2h, a shape past either edge and moving inward keeps its velocity |
| Bounce.FastShapeCrossesWindow | zad2/main.cpp:144-146 | without that speed bound the invariant does not keep the velocity: a shape at 0.75 moving left at speed 150 crosses the window and is turned right |
| Bounce.DemoSpeedsKeepInwardVelocity | zad2/main.cpp:122-131 | for Figure 1 (h 0.3, speed 0.5) and Figure 4 (h 0.25, speed 0.4), any velocity component within the figure's speed keeps its direction while the shape, within the invariant, is past an edge moving inward |
| Bounce.AxisInvPreserved | zad2/main.cpp:144-148 | one axis step keeps the no-escape invariant: centre within one frame's travel of [-1+h, 1-h], and moving inward whenever outside that band |
| Bounce.StepPreservesInv | zad2/main.cpp:144-148 | one frame of a figure keeps the no-escape invariant on both axes |
| Bounce.Run | zad2/main.cpp:134-148 | after any number of frames the half-extent and per-axis speeds are unchanged and the no-escape invariant still holds |
| Bounce.NoEscape | zad2/main.cpp:10 | from a state satisfying the invariant, the collision box (centre ± half-extent) never leaves the window by more than one frame's travel on either axis, however many frames pass |
| Bounce.CentreStaysOnScreen | zad2/main.cpp:10 | when one frame's travel is at most the half-extent, the centre never leaves [-1, 1] |
| Bounce.Initial | zad2/main.cpp:122-131 | the triangle starts at (-0.6, 0.6) with collision half-extent 0.3 and the rectangle at (0.6, -0.6) with 0.25; the given initial velocities are used unchanged; the start state satisfies the invariant for any initial velocities |
| Bounce.Tick | zad2/main.cpp:142-187 | both figures advance by the same rule with their own half-extents, and the scene invariant is preserved |
| Bounce.RunScene | zad2/main.cpp:134-187 | the scene invariant is preserved over any number of frames |
| Bounce.InitialSceneStaysInside | zad2/main.cpp:121-187 | started from the initial scene, with any initial velocities, both figures keep the no-escape invariant forever |

## Left out

- All GLFW, GLAD and OpenGL calls are left out: window creation, callback registration, shader compile and link, buffer upload, uniform upload (`glUniform*`), draw calls and buffer swapping. They are side effects on foreign APIs. The flags only choose which draw calls run.
- Texture loading through `stb_image` is left out. It is file I/O through a library that is not part of this model.
- The glm model matrices are left out: translate, rotate and scale for all four figures. glm is not part of this model, and the matrices only feed the renderer.
- The drawn outline of Figure 4 is left out; only its collision box is modelled. So the header claim at `zad2/main.cpp:10` is not proved for the drawn rectangle, and it fails for it. `halfRec = 0.25` is a collision constant, not the drawn half-size. The rectangle is the ±0.5 square scaled by `sc = 0.4 + cos(t)*0.1` and rotated by `t`. At cos t = 0.8 and sin t = 0.6, a corner lies 0.5 · 0.48 · 1.4 = 0.336 from the centre on y. That corner can cross the window edge by about 0.086 more than the one-frame overshoot.
- The `sin`/`cos` scale pulses and the time-dependent rotation of Figures 2, 3 and 4 are left out. They are transcendental functions of wall-clock time.
- The initial velocities `normalize((1, 0.5)) * 0.5` and `normalize((-1, 0.3)) * 0.4` are left out because they need a square root. `Bounce.Initial` takes the velocities as parameters. The invariant holds for every velocity, so no speed bound is assumed.
- IEEE single-precision rounding is left out; `float` is modelled as `real`. For example, `0.5f * 0.6f` is taken to be exactly 0.3. The `static_cast<float>` of the scroll offset is also treated as exact.
- A NaN scroll offset is left out, because `real` has no NaN.
- The scroll callback's unused `xoffset` is left out. So are the key callback's unused `scancode` and `mods`.
