/**
 The input handling of the textured-shapes demo: two visibility flags toggled
 by key presses and a texture/colour mix factor driven by the scroll wheel.
 The callbacks mutate globals in the program; here the globals form one
 immutable `State` and each callback invocation is one `Event` fed to `Step`.
 Floating-point values are modelled as `real`.
 */
module Controls {

  import opened RealMath

  /** GLFW's action code for a key that has just been pressed. */
  const Press: int := 1

  /** GLFW key codes (equal to the upper-case ASCII letters). */
  const KeyB: int := 66
  const KeyQ: int := 81
  const KeyT: int := 84

  /** Change of the mix factor per unit of vertical scroll. */
  const ScrollStep: real := 0.05

  /** One callback invocation: a key event or a vertical scroll. */
  datatype Event = Key(key: int, action: int) | Scroll(yoffset: real)

  /** The program's globals: which shapes are drawn, and the mix factor. */
  datatype State = State(showSquare: bool, showTriangle: bool, mix: real)

  /** The values the globals start with. */
  const Initial: State := State(false, false, 0.0)

  predicate MixInRange(s: State) {
    0.0 <= s.mix <= 1.0
  }

  /** `std::clamp`: the point of [lo, hi] closest to v. */
  function Clamp(v: real, lo: real, hi: real): (r: real)
    requires lo <= hi
    ensures lo <= r <= hi
    ensures lo <= v <= hi ==> r == v
    ensures v < lo ==> r == lo
    ensures hi < v ==> r == hi
  {
    if v < lo then lo else if hi < v then hi else v
  }

  /** No point of [lo, hi] is closer to v than its clamp. */
  lemma ClampIsNearest(v: real, lo: real, hi: real, y: real)
    requires lo <= y <= hi
    ensures Abs(Clamp(v, lo, hi) - v) <= Abs(y - v)
  {
  }

  lemma ClampMonotone(u: real, v: real, lo: real, hi: real)
    requires lo <= hi
    requires u <= v
    ensures Clamp(u, lo, hi) <= Clamp(v, lo, hi)
  {
  }

  /** The scroll callback: move the mix factor and clamp it into [0, 1]. */
  function ScrollMix(mix: real, yoffset: real): (r: real)
    ensures 0.0 <= r <= 1.0
    ensures 0.0 <= mix + yoffset * ScrollStep <= 1.0 ==> r == mix + yoffset * ScrollStep
    ensures mix + yoffset * ScrollStep < 0.0 ==> r == 0.0
    ensures 1.0 < mix + yoffset * ScrollStep ==> r == 1.0
  {
    Clamp(mix + yoffset * ScrollStep, 0.0, 1.0)
  }

  /** The key callback. */
  function OnKey(s: State, key: int, action: int): (r: State)
    ensures r.mix == s.mix
    ensures action != Press ==> r == s
  {
    if action != Press then s
    else if key == KeyQ then s.(showSquare := !s.showSquare)
    else if key == KeyT then s.(showTriangle := !s.showTriangle)
    else if key == KeyB then
      var both := s.showSquare && s.showTriangle;
      s.(showSquare := !both, showTriangle := !both)
    else s
  }

  /** The effect of one callback invocation on the globals. */
  function Step(s: State, e: Event): (r: State)
    ensures e.Key? ==> r.mix == s.mix
    ensures e.Scroll? ==> r.showSquare == s.showSquare && r.showTriangle == s.showTriangle
    ensures e.Scroll? ==> MixInRange(r)
    ensures MixInRange(s) ==> MixInRange(r)
  {
    match e
    case Key(key, action) => OnKey(s, key, action)
    case Scroll(y) => s.(mix := ScrollMix(s.mix, y))
  }

  /** The globals after a sequence of callback invocations, in order. */
  function Run(s: State, events: seq<Event>): (r: State)
    ensures MixInRange(s) ==> MixInRange(r)
    ensures (exists i :: 0 <= i < |events| && events[i].Scroll?) ==> MixInRange(r)
    decreases |events|
  {
    if |events| == 0 then s else Run(Step(s, events[0]), events[1..])
  }

  lemma InitialState()
    ensures !Initial.showSquare && !Initial.showTriangle
    ensures Initial.mix == 0.0
    ensures MixInRange(Initial)
  {
  }

  /** Releases, repeats and presses of keys other than Q, T and B change nothing. */
  lemma IgnoredKeys(s: State, key: int, action: int)
    requires action != Press || (key != KeyQ && key != KeyT && key != KeyB)
    ensures Step(s, Key(key, action)) == s
  {
  }

  lemma ToggleSquare(s: State)
    ensures Step(s, Key(KeyQ, Press)).showSquare == !s.showSquare
    ensures Step(s, Key(KeyQ, Press)).showTriangle == s.showTriangle
    ensures Step(Step(s, Key(KeyQ, Press)), Key(KeyQ, Press)) == s
  {
  }

  lemma ToggleTriangle(s: State)
    ensures Step(s, Key(KeyT, Press)).showTriangle == !s.showTriangle
    ensures Step(s, Key(KeyT, Press)).showSquare == s.showSquare
    ensures Step(Step(s, Key(KeyT, Press)), Key(KeyT, Press)) == s
  {
  }

  /** B hides both shapes when both are shown and shows both otherwise. */
  lemma ToggleBoth(s: State)
    ensures Step(s, Key(KeyB, Press)).showSquare == Step(s, Key(KeyB, Press)).showTriangle
    ensures !Step(s, Key(KeyB, Press)).showSquare <==> s.showSquare && s.showTriangle
    ensures s.showSquare == s.showTriangle ==>
              Step(Step(s, Key(KeyB, Press)), Key(KeyB, Press)) == s
  {
  }

  /** Scrolling up never lowers the mix factor, scrolling down never raises it. */
  lemma ScrollMonotone(s: State, yoffset: real)
    requires MixInRange(s)
    ensures yoffset >= 0.0 ==> Step(s, Scroll(yoffset)).mix >= s.mix
    ensures yoffset <= 0.0 ==> Step(s, Scroll(yoffset)).mix <= s.mix
  {
  }

  /** A scroll that does not hit either bound is undone by the opposite scroll. */
  lemma ScrollUndo(s: State, yoffset: real)
    requires MixInRange(s)
    requires 0.0 <= s.mix + yoffset * ScrollStep <= 1.0
    ensures Step(Step(s, Scroll(yoffset)), Scroll(-yoffset)) == s
  {
  }

  /** The number of presses of `key` among the events. */
  function Presses(events: seq<Event>, key: int): nat
    decreases |events|
  {
    if |events| == 0 then 0
    else (if events[0] == Key(key, Press) then 1 else 0) + Presses(events[1..], key)
  }

  predicate Odd(n: nat) {
    n % 2 == 1
  }

  /**
   Without B, each flag is its initial value flipped once per press of its
   own key: the square's flag follows the parity of the Q presses and the
   triangle's the parity of the T presses.
   */
  lemma {:induction false} ToggleParity(s: State, events: seq<Event>)
    requires Presses(events, KeyB) == 0
    ensures Run(s, events).showSquare == (s.showSquare != Odd(Presses(events, KeyQ)))
    ensures Run(s, events).showTriangle == (s.showTriangle != Odd(Presses(events, KeyT)))
    decreases |events|
  {
    if |events| > 0 {
      var s' := Step(s, events[0]);
      ToggleParity(s', events[1..]);
    }
  }

  /** Key events alone never change the mix factor. */
  lemma {:induction false} KeysKeepMix(s: State, events: seq<Event>)
    requires forall i :: 0 <= i < |events| ==> events[i].Key?
    ensures Run(s, events).mix == s.mix
    decreases |events|
  {
    if |events| > 0 {
      KeysKeepMix(Step(s, events[0]), events[1..]);
    }
  }
}
