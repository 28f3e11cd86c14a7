/** Playback of the animation: the `paused` flag and the index of the frame
    being shown, over a time axis of `n` frames.

    A key-down event runs the key handler, which looks at which keys are
    held: Space toggles pause; while paused, Left and Right step the index
    back and forth, each wrapping in its own way. Every frame in which the
    animation is not paused shows the current index and then advances it,
    wrapping from the end back to 1 (not 0). */
module Playback {
  import Timestep

  datatype State = State(paused: bool, curr: int)

  /** Which of the three keys the keyboard reports as held at the moment a
      key-down event is handled. */
  datatype Keys = Keys(space: bool, left: bool, right: bool)

  /** Left while paused, as written: one frame back; the wrap to the last
      frame fires only when the result is exactly 0, so from frame 0 the
      index becomes -1. The script does not survive that state: the redraw
      it triggers at once slices the plotted series from -1, gets an empty
      array, and the plot reads its first element (IndexError). */
  function LeftIndex(k: int, n: int): (r: int)
    ensures 1 <= k < n ==> 1 <= r < n
    ensures k < 1 ==> r == k - 1
  {
    if k - 1 == 0 then n - 1 else k - 1
  }

  /** Right while paused: one frame forward, from the last frame to 0. */
  function RightIndex(k: int, n: int): (r: int)
    ensures 0 <= k < n ==> 0 <= r < n
  {
    if k + 1 == n then 0 else k + 1
  }

  /** The unpaused frame step: one frame forward, from the last frame to 1. */
  function TickIndex(k: int, n: int): (r: int)
    ensures 0 <= k < n && 2 <= n ==> 1 <= r < n
  {
    if k + 1 == n then 1 else k + 1
  }

  /** The key handler's `if`/`elif` chain: Space first, then Left, then Right,
      the arrows only while paused. */
  function KeyStep(s: State, keys: Keys, n: int): State {
    if keys.space then State(!s.paused, s.curr)
    else if keys.left && s.paused then State(s.paused, LeftIndex(s.curr, n))
    else if keys.right && s.paused then State(s.paused, RightIndex(s.curr, n))
    else s
  }

  /** The end of a frame: advance the index unless paused. */
  function TickStep(s: State, n: int): State {
    if s.paused then s else State(s.paused, TickIndex(s.curr, n))
  }

  /** The key handler run once per key-down event, in order. */
  function ApplyKeys(s: State, events: seq<Keys>, n: int): State {
    if events == [] then s
    else KeyStep(ApplyKeys(s, events[..|events| - 1], n), events[|events| - 1], n)
  }

  /** One pass of the main loop: the key-down events of the frame, then the step. */
  function FrameStep(s: State, events: seq<Keys>, n: int): State {
    TickStep(ApplyKeys(s, events, n), n)
  }

  // ---------------------------------------------------------------------
  // Properties of the key handler and the frame step
  // ---------------------------------------------------------------------

  /** Space toggles pause and leaves the index alone, whatever else is held. */
  lemma SpaceToggles(s: State, keys: Keys, n: int)
    requires keys.space
    ensures KeyStep(s, keys, n) == State(!s.paused, s.curr)
  {
  }

  /** While the animation runs, the arrows change nothing; only Space acts. */
  lemma ArrowsIgnoredWhileRunning(s: State, keys: Keys, n: int)
    requires !s.paused
    ensures KeyStep(s, keys, n) == if keys.space then State(true, s.curr) else s
  {
  }

  /** While paused, the arrows never change the flag, and Left wins over Right. */
  lemma ArrowsWhilePaused(s: State, keys: Keys, n: int)
    requires s.paused && !keys.space
    ensures KeyStep(s, keys, n).paused
    ensures keys.left ==> KeyStep(s, keys, n).curr == LeftIndex(s.curr, n)
    ensures !keys.left && keys.right ==> KeyStep(s, keys, n).curr == RightIndex(s.curr, n)
    ensures !keys.left && !keys.right ==> KeyStep(s, keys, n) == s
  {
  }

  /** Right and Left undo each other away from the two wrap points. */
  lemma ArrowsUndoEachOther(k: int, n: int)
    requires 1 <= k && k + 1 < n
    ensures LeftIndex(RightIndex(k, n), n) == k
    ensures RightIndex(LeftIndex(k + 1, n), n) == k + 1
  {
  }

  /** At the wrap points they do not: Right then Left from the last frame
      lands on -1, and Left then Right from frame 1 lands on 0. */
  lemma ArrowsAtTheWraps(n: int)
    requires 2 <= n
    ensures LeftIndex(RightIndex(n - 1, n), n) == -1
    ensures RightIndex(LeftIndex(1, n), n) == 0
    ensures LeftIndex(RightIndex(0, n), n) == n - 1
  {
  }

  /** The frame step never lands on 0. */
  lemma TickSkipsZero(k: int, n: int)
    requires 0 <= k
    ensures TickIndex(k, n) != 0
  {
  }

  /** The index never reaches `n`: every step keeps it below the length. */
  lemma {:induction false} StaysBelowLength(s: State, events: seq<Keys>, n: int)
    requires 2 <= n && s.curr < n
    ensures ApplyKeys(s, events, n).curr < n
    ensures FrameStep(s, events, n).curr < n
  {
    if events != [] {
      StaysBelowLength(s, events[..|events| - 1], n);
    }
  }

  /** Starting inside [0, n), a paused viewer who presses Right at the last
      frame and then Left reaches index -1, the state in which the script
      raises IndexError while redrawing. */
  lemma LeavesRange(n: int)
    requires 2 <= n
    ensures ApplyKeys(State(true, n - 1), [Keys(false, false, true), Keys(false, true, false)], n)
            == State(true, -1)
  {
    var s := State(true, n - 1);
    var events := [Keys(false, false, true), Keys(false, true, false)];
    assert events[..1][..0] == [];
    assert ApplyKeys(s, events[..1][..0], n) == s;
    assert events[..1] == [Keys(false, false, true)];
    assert ApplyKeys(s, events[..1], n) == State(true, 0);
  }

  /** Left with the wrap guard widened from `== 0` to `<= 0`: it agrees with
      the code on [1, n) and also sends frame 0 to the last frame. */
  function WrappedLeftIndex(k: int, n: int): (r: int)
    ensures 0 <= k < n ==> 0 <= r < n
    ensures 1 <= k ==> r == LeftIndex(k, n)
  {
    if k - 1 <= 0 then n - 1 else k - 1
  }

  /** With the widened guard, Left undoes Right at every frame of [1, n),
      including the wrap from the last frame to 0. */
  lemma WrappedLeftUndoesRight(k: int, n: int)
    requires 1 <= k < n
    ensures WrappedLeftIndex(RightIndex(k, n), n) == k
  {
  }

  /** The key handler with the corrected Left. */
  function WrappedKeyStep(s: State, keys: Keys, n: int): State {
    if keys.space then State(!s.paused, s.curr)
    else if keys.left && s.paused then State(s.paused, WrappedLeftIndex(s.curr, n))
    else if keys.right && s.paused then State(s.paused, RightIndex(s.curr, n))
    else s
  }

  function WrappedApplyKeys(s: State, events: seq<Keys>, n: int): State {
    if events == [] then s
    else WrappedKeyStep(WrappedApplyKeys(s, events[..|events| - 1], n), events[|events| - 1], n)
  }

  /** With the corrected Left, no sequence of key events and frame steps
      takes the index out of [0, n), so every redraw gets a valid frame. */
  lemma {:induction false} WrappedStaysInRange(s: State, events: seq<Keys>, n: int)
    requires 2 <= n && 0 <= s.curr < n
    ensures 0 <= WrappedApplyKeys(s, events, n).curr < n
    ensures 0 <= TickStep(WrappedApplyKeys(s, events, n), n).curr < n
  {
    if events != [] {
      WrappedStaysInRange(s, events[..|events| - 1], n);
    }
  }

  // ---------------------------------------------------------------------
  // Repeated steps: the cycles the index goes through
  // ---------------------------------------------------------------------

  datatype Move = LeftMove | RightMove | TickMove

  function Step(mv: Move, k: int, n: int): int {
    match mv
    case LeftMove => LeftIndex(k, n)
    case RightMove => RightIndex(k, n)
    case TickMove => TickIndex(k, n)
  }

  /** The index after `m` applications of the same move. */
  function Repeat(mv: Move, k: int, m: nat, n: int): int {
    if m == 0 then k else Step(mv, Repeat(mv, k, m - 1, n), n)
  }

  /** A remainder is determined by any decomposition with a remainder in range. */
  lemma ModUnique(x: int, d: int, q: int, r: int)
    requires d > 0 && 0 <= r < d && x == d * q + r
    ensures x % d == r
  {
    var q0, r0 := x / d, x % d;
    assert d * (q0 - q) == r - r0 by {
      assert d * q0 + r0 == d * q + r;
      assert d * (q0 - q) == d * q0 - d * q;
    }
    MulSign(d, q0 - q);
  }

  lemma MulSign(d: int, k: int)
    requires d > 0
    ensures k >= 1 ==> d * k >= d
    ensures k <= -1 ==> d * k <= -d
  {
  }

  lemma ModSucc(a: int, d: int)
    requires d > 0
    ensures (a + 1) % d == if a % d + 1 == d then 0 else a % d + 1
  {
    var q, r := a / d, a % d;
    if r + 1 == d {
      ModUnique(a + 1, d, q + 1, 0);
    } else {
      ModUnique(a + 1, d, q, r + 1);
    }
  }

  lemma ModPred(a: int, d: int)
    requires d > 0
    ensures (a - 1) % d == if a % d == 0 then d - 1 else a % d - 1
  {
    var q, r := a / d, a % d;
    if r == 0 {
      ModUnique(a - 1, d, q - 1, d - 1);
    } else {
      ModUnique(a - 1, d, q, r - 1);
    }
  }

  /** Holding the animation running: starting from any frame in [1, n), the
      index runs through 1 .. n-1 in order and repeats with period n - 1. */
  lemma {:induction false} TickCycle(k: int, m: nat, n: int)
    requires 1 <= k < n
    ensures Repeat(TickMove, k, m, n) == 1 + (k - 1 + m) % (n - 1)
  {
    if m > 0 {
      TickCycle(k, m - 1, n);
      var a := k - 1 + (m - 1);
      assert a + 1 == k - 1 + m;
      assert Repeat(TickMove, k, m, n) == TickIndex(1 + a % (n - 1), n);
      ModSucc(a, n - 1);
    }
  }

  /** Pressing Right repeatedly from a frame in [0, n) cycles through all n
      frames with period n. */
  lemma {:induction false} RightCycle(k: int, m: nat, n: int)
    requires 0 <= k < n
    ensures Repeat(RightMove, k, m, n) == (k + m) % n
  {
    if m > 0 {
      RightCycle(k, m - 1, n);
      var a := k + (m - 1);
      assert a + 1 == k + m;
      assert Repeat(RightMove, k, m, n) == RightIndex(a % n, n);
      ModSucc(a, n);
    }
  }

  /** Pressing Left repeatedly from a frame in [1, n) cycles backwards through
      1 .. n-1 with period n - 1; frame 0 is never shown. */
  lemma {:induction false} LeftCycle(k: int, m: nat, n: int)
    requires 1 <= k < n
    ensures Repeat(LeftMove, k, m, n) == 1 + (k - 1 - m) % (n - 1)
  {
    if m > 0 {
      LeftCycle(k, m - 1, n);
      var a := k - 1 - (m - 1);
      assert a - 1 == k - 1 - m;
      var r := a % (n - 1);
      assert Repeat(LeftMove, k, m, n) == LeftIndex(1 + r, n);
      assert LeftIndex(1 + r, n) == if r == 0 then n - 1 else r;
      ModPred(a, n - 1);
    }
  }

  // ---------------------------------------------------------------------
  // The global state of the script, updated in place
  // ---------------------------------------------------------------------

  class Player {
    var paused: bool
    var curr: int
    /** The number of frames, `len(time_interp)`. */
    const n: int

    function Current(): State
      reads this
    {
      State(paused, curr)
    }

    ghost predicate Valid()
      reads this
    {
      2 <= n && curr < n
    }

    /** Start-up: not paused, at frame 0, over the time axis of the timestep. */
    constructor (timestep: int)
      requires Timestep.MinTimestep <= timestep <= Timestep.MaxTimestep
      ensures Valid()
      ensures n == Timestep.SeriesLength(timestep)
      ensures Current() == State(false, 0)
    {
      Timestep.SeriesLengthBounds(timestep);
      n := Timestep.SeriesLength(timestep);
      paused := false;
      curr := 0;
    }

    method Space()
      requires Valid()
      modifies this
      ensures Valid()
      ensures Current() == State(!old(paused), old(curr))
    {
      if paused {
        paused := false;
      } else {
        paused := true;
      }
    }

    method Left()
      requires Valid() && paused
      modifies this
      ensures Valid()
      ensures Current() == State(true, LeftIndex(old(curr), n))
    {
      curr := curr - 1;
      if curr == 0 {
        curr := n - 1;
      }
    }

    method Right()
      requires Valid() && paused
      modifies this
      ensures Valid()
      ensures Current() == State(true, RightIndex(old(curr), n))
    {
      curr := curr + 1;
      if curr == n {
        curr := 0;
      }
    }

    /** The key handler, run on a key-down event with the keys then held. */
    method KeyHandler(keys: Keys)
      requires Valid()
      modifies this
      ensures Valid()
      ensures Current() == KeyStep(old(Current()), keys, n)
    {
      if keys.space {
        Space();
      } else if keys.left && paused {
        Left();
      } else if keys.right && paused {
        Right();
      }
    }

    /** The end of an unpaused frame: advance, wrapping to 1. */
    method Tick()
      requires Valid()
      modifies this
      ensures Valid()
      ensures Current() == TickStep(old(Current()), n)
    {
      if !paused {
        curr := curr + 1;
        if curr == n {
          curr := 1;
        }
      }
    }

    /** One pass of the main loop: handle each key-down event, then step. */
    method Frame(events: seq<Keys>)
      requires Valid()
      modifies this
      ensures Valid()
      ensures Current() == FrameStep(old(Current()), events, n)
    {
      for i := 0 to |events|
        invariant Valid()
        invariant Current() == ApplyKeys(old(Current()), events[..i], n)
      {
        assert events[..i + 1][..i] == events[..i];
        KeyHandler(events[i]);
      }
      assert events[..|events|] == events;
      Tick();
    }
  }
}
