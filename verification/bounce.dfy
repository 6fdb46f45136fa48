/**
 The bouncing shapes of the transform demo (Figure 1, a triangle, and
 Figure 4, a rotating, pulsing rectangle). Each frame the centre advances by
 velocity times a fixed time step; then each axis on its own checks whether
 the collision box, of half-extent `half` around the centre, has left the
 [-1, 1] window, and if so negates that velocity component. The check uses
 the position after the move, so a shape may overshoot the window edge by up
 to one step before it turns back. Floating-point values are modelled as
 `real`.
 */
module Bounce {

  import opened RealMath

  /** The fixed time step of one frame. */
  const Dt: real := 0.01

  /** Half-extent of Figure 1, the unrotated triangle drawn at scale 0.6. */
  const HalfTri: real := 0.5 * 0.6

  /**
   Collision half-extent used for Figure 4. The rectangle is drawn rotated
   and scaled over time, so its drawn corners can reach further from the
   centre than this; the model bounds only the collision box.
   */
  const HalfRec: real := 0.5 * (0.4 + 0.1)

  datatype Vec2 = Vec2(x: real, y: real)

  /** One coordinate of a moving shape: position and velocity along one axis. */
  datatype Axis = Axis(p: real, v: real)

  /** A bouncing shape: centre, velocity and collision half-extent. */
  datatype Figure = Figure(pos: Vec2, vel: Vec2, half: real)

  /** Both animated shapes of the scene. */
  datatype Scene = Scene(tri: Figure, rect: Figure)

  /** The collision box centred at p with half-extent h lies within the window on this axis. */
  predicate InWindow(p: real, h: real) {
    -1.0 <= p - h && p + h <= 1.0
  }

  /** One frame along one axis: move, then bounce off an edge that was crossed. */
  function AxisStep(a: Axis, h: real): (r: Axis)
    ensures r.p == a.p + a.v * Dt
    ensures InWindow(r.p, h) ==> r.v == a.v
    ensures !InWindow(r.p, h) ==> r.v == -a.v
    ensures Abs(r.v) == Abs(a.v)
  {
    var p := a.p + a.v * Dt;
    Axis(p, if p + h > 1.0 || p - h < -1.0 then -a.v else a.v)
  }

  function X(f: Figure): Axis {
    Axis(f.pos.x, f.vel.x)
  }

  function Y(f: Figure): Axis {
    Axis(f.pos.y, f.vel.y)
  }

  /** One frame of a figure: two independent axis steps with its half-extent. */
  function Step(f: Figure): (r: Figure)
    ensures r.half == f.half
    ensures r.pos == Vec2(f.pos.x + f.vel.x * Dt, f.pos.y + f.vel.y * Dt)
    ensures Abs(r.vel.x) == Abs(f.vel.x) && Abs(r.vel.y) == Abs(f.vel.y)
  {
    var x := AxisStep(X(f), f.half);
    var y := AxisStep(Y(f), f.half);
    Figure(Vec2(x.p, y.p), Vec2(x.v, y.v), f.half)
  }

  /**
   The no-escape invariant along one axis. The centre stays within one
   step's travel `e` of the band [-1+h, 1-h] where the whole shape is inside
   the window, and whenever it is outside that band it is moving back in.
   */
  predicate AxisInv(a: Axis, h: real) {
    var e := Abs(a.v) * Dt;
    && -1.0 + h - e <= a.p <= 1.0 - h + e
    && (a.p > 1.0 - h ==> a.v < 0.0)
    && (a.p < -1.0 + h ==> a.v > 0.0)
  }

  predicate Inv(f: Figure) {
    AxisInv(X(f), f.half) && AxisInv(Y(f), f.half)
  }

  predicate SceneInv(s: Scene) {
    Inv(s.tri) && Inv(s.rect)
  }

  /** One axis step keeps the no-escape invariant, for every speed and half-extent. */
  lemma AxisInvPreserved(a: Axis, h: real)
    requires AxisInv(a, h)
    ensures AxisInv(AxisStep(a, h), h)
  {
  }

  /** The x update never looks at y, and the y update never looks at x. */
  lemma AxesIndependent(f: Figure, g: Figure)
    requires f.half == g.half
    ensures X(f) == X(g) ==> X(Step(f)) == X(Step(g))
    ensures Y(f) == Y(g) ==> Y(Step(f)) == Y(Step(g))
  {
  }

  /** A velocity component changes only by a reflection off a crossed edge. */
  lemma ReflectsExactlyOnCrossing(f: Figure)
    ensures Step(f).vel.x == (if InWindow(Step(f).pos.x, f.half) then f.vel.x else -f.vel.x)
    ensures Step(f).vel.y == (if InWindow(Step(f).pos.y, f.half) then f.vel.y else -f.vel.y)
  {
  }

  /**
   Outside the invariant the rule can push a shape outward: a box already
   more than one frame's travel past the right edge, moving left, is still
   past the edge after the move, so its velocity is turned to the right.
   */
  lemma FarOvershootTurnsOutward()
    ensures !AxisInv(Axis(1.5, -1.0), HalfTri)
    ensures AxisStep(Axis(1.5, -1.0), HalfTri).v == 1.0
  {
  }

  /**
   The collision box does leave the window: a triangle just inside the band,
   moving right at the demo's speed, stays within the invariant while its
   box's right edge moves past 1 (to 1.004) before the velocity flips.
   */
  lemma BoxOvershoots()
    ensures AxisInv(Axis(0.699, 0.5), HalfTri)
    ensures AxisStep(Axis(0.699, 0.5), HalfTri).p + HalfTri > 1.0
  {
  }

  /**
   Within the invariant, a shape already past an edge and moving back in
   keeps its velocity, provided one frame's travel does not carry its box
   across the whole window to the opposite edge.
   */
  lemma InwardKeepsVelocity(a: Axis, h: real)
    requires AxisInv(a, h)
    requires Abs(a.v) * Dt <= 2.0 - 2.0 * h
    ensures a.p > 1.0 - h ==> AxisStep(a, h).v == a.v
    ensures a.p < -1.0 + h ==> AxisStep(a, h).v == a.v
  {
  }

  /**
   Without that speed bound the invariant alone does not keep the velocity:
   a shape moving left fast enough crosses the window in one frame and
   bounces off the left edge.
   */
  lemma FastShapeCrossesWindow()
    ensures AxisInv(Axis(0.75, -150.0), HalfTri)
    ensures 0.75 > 1.0 - HalfTri
    ensures AxisStep(Axis(0.75, -150.0), HalfTri).v == 150.0
  {
  }

  /**
   The demo's speeds, 0.5 for Figure 1 and 0.4 for Figure 4, bound each
   velocity component, so the speed bound holds for both figures.
   */
  lemma DemoSpeedsKeepInwardVelocity(a: Axis, h: real)
    requires (h == HalfTri && Abs(a.v) <= 0.5) || (h == HalfRec && Abs(a.v) <= 0.4)
    requires AxisInv(a, h)
    ensures a.p > 1.0 - h ==> AxisStep(a, h).v == a.v
    ensures a.p < -1.0 + h ==> AxisStep(a, h).v == a.v
  {
    InwardKeepsVelocity(a, h);
  }

  lemma StepPreservesInv(f: Figure)
    requires Inv(f)
    ensures Inv(Step(f))
  {
  }

  /** The figure after n frames. */
  function Run(f: Figure, n: nat): (r: Figure)
    ensures r.half == f.half
    ensures Abs(r.vel.x) == Abs(f.vel.x) && Abs(r.vel.y) == Abs(f.vel.y)
    ensures Inv(f) ==> Inv(r)
    decreases n
  {
    if n == 0 then f
    else
      Run(Step(f), n - 1)
  }

  /**
   However many frames pass, the collision box (centre plus or minus the
   half-extent) overshoots the window by at most the distance it travels in
   one frame.
   */
  lemma NoEscape(f: Figure, n: nat)
    requires Inv(f)
    ensures -1.0 - Abs(f.vel.x) * Dt <= Run(f, n).pos.x - f.half
    ensures Run(f, n).pos.x + f.half <= 1.0 + Abs(f.vel.x) * Dt
    ensures -1.0 - Abs(f.vel.y) * Dt <= Run(f, n).pos.y - f.half
    ensures Run(f, n).pos.y + f.half <= 1.0 + Abs(f.vel.y) * Dt
  {
  }

  /** When one frame's travel is at most the half-extent, the centre never leaves the window. */
  lemma CentreStaysOnScreen(f: Figure, n: nat)
    requires Inv(f)
    requires Abs(f.vel.x) * Dt <= f.half && Abs(f.vel.y) * Dt <= f.half
    ensures -1.0 <= Run(f, n).pos.x <= 1.0
    ensures -1.0 <= Run(f, n).pos.y <= 1.0
  {
  }

  /**
   The scene at start-up. The initial velocities are normalised direction
   vectors scaled by a speed, which needs a square root; they are taken as
   parameters instead.
   */
  function Initial(v1: Vec2, v4: Vec2): (s: Scene)
    ensures s.tri.pos == Vec2(-0.6, 0.6) && s.rect.pos == Vec2(0.6, -0.6)
    ensures s.tri.vel == v1 && s.rect.vel == v4
    ensures s.tri.half == HalfTri && s.rect.half == HalfRec
    ensures SceneInv(s)
  {
    Scene(Figure(Vec2(-0.6, 0.6), v1, HalfTri), Figure(Vec2(0.6, -0.6), v4, HalfRec))
  }

  /** One frame of the scene: both figures follow the same rule with their own half-extents. */
  function Tick(s: Scene): (r: Scene)
    ensures r.tri.half == s.tri.half && r.rect.half == s.rect.half
    ensures SceneInv(s) ==> SceneInv(r)
  {
    Scene(Step(s.tri), Step(s.rect))
  }

  /** The scene after n frames. */
  function RunScene(s: Scene, n: nat): (r: Scene)
    ensures SceneInv(s) ==> SceneInv(r)
    decreases n
  {
    if n == 0 then s else RunScene(Tick(s), n - 1)
  }

  /** Started from its initial positions, the scene keeps the invariant forever. */
  lemma InitialSceneStaysInside(v1: Vec2, v4: Vec2, n: nat)
    ensures SceneInv(RunScene(Initial(v1, v4), n))
  {
  }
}
