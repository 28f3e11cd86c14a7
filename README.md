# Milankovitch cycles animation — the discrete core

`milankovitch/milankovitch.py` is a pygame animation of the Milankovitch
orbital cycles (eccentricity, obliquity, precession) over the last 20 million
years. Most of it draws, or computes with floating-point trigonometry. This
project models the four parts of it that are discrete logic and proves what
they do:

- **`timestep.dfy`, module `Timestep`**: the command-line check. The program
  takes one argument, the number of years between two frames. It is accepted
  only when it is present, consists of digits and lies in [100, 5000].
  Otherwise the script prints an error and exits. `ParseTimestep` returns
  `Ok(v)` or the reason for refusal. The module also gives the length of the
  time axis, `len(np.arange(0, 20000000, timestep))`, as `SeriesLength`.
- **`playback.dfy`, module `Playback`**: the key handler and the main loop's
  frame step. They act on the two globals `paused` and `curr_timestep`.
  These live in the class `Player`, whose methods update them in place. Each
  method's new state is given by a pure step function (`KeyStep`,
  `TickStep`, `FrameStep`), and the lemmas are about those functions.
  - Space toggles pause.
  - While paused, Left and Right step the index. Right wraps from the last
    frame to 0. Left wraps to the last frame only when its result is exactly
    0.
  - An unpaused frame advances the index and wraps from the end to 1.
  - The model keeps these behaviours as written. One consequence is proved
    in `LeavesRange`: Right at the last frame and then Left take the index
    to -1. That is the state in which the script crashes. The Left branch
    redraws at once (line 269), and the redraw slices the plotted series
    from -1 to 274 (line 305). For n ≥ 4000 that slice is empty, so
    `plot_handler` raises IndexError when it reads its first element
    (line 239). See "## Findings".
  - `WrappedLeftIndex` is Left with the guard widened from `== 0` to
    `<= 0`. `WrappedStaysInRange` proves that the index then never leaves
    [0, n). The class `Player` still follows the code as written, so that
    its methods state what the script does.
- **`precession.dfy`, module `PrecessionDisplay`**: `convert_180_360`. It
  turns the precession tilt series, with values in [0, 180], into a display
  series over [0, 360]. The method fills a fresh array in one loop and
  carries the previous input element.
- **`text.dfy`, module `TextOverlay`**: two paddings in `text_handler`:
  - the trailing zeros added to the elapsed-time string;
  - the leading space added to a positive precession value.

The series length `n` is the number of frames. `SeriesLengthBounds` shows
that an accepted timestep gives 4000 ≤ n ≤ 200000, so `n ≥ 2` holds wherever
the playback lemmas need it. The `Player` constructor takes the timestep and
sets `n` from it.

## Model

| member | source | states |
|---|---|---|
| `Timestep.ParseTimestep` | milankovitch/milankovitch.py:7-17 | accepted iff an argument exists, is all digits and its value is in [100, 5000]; the result is that value; no argument gives MissingArgument, a non-digit argument gives NotNumeric, anything else refused is OutOfRange |
| `Timestep.DigitsValue` | milankovitch/milankovitch.py:14 | `int()` of a string of ASCII digits, leading zeros allowed; tied to an independent decimal rendering by DecimalRoundTrip and LeadingZeroIgnored |
| `Timestep.DecimalRoundTrip` | milankovitch/milankovitch.py:11-14 | reading back the decimal rendering of any natural number gives that number |
| `Timestep.AcceptsExactlyTheRange` | milankovitch/milankovitch.py:11-17 | a natural number written in decimal is accepted as itself exactly when it is in [100, 5000], and refused as out of range otherwise |
| `Timestep.LeadingZeroIgnored` | milankovitch/milankovitch.py:14 | a leading '0' changes neither digit-ness nor value, so "0100" is accepted like "100" |
| `Timestep.ExtraArgumentsIgnored` | milankovitch/milankovitch.py:10 | only the first argument decides the outcome |
| `Timestep.SeriesLength` | milankovitch/milankovitch.py:279 | the number of frames n is the least n with n·timestep ≥ 20000000 |
| `Timestep.SeriesLengthBounds` | milankovitch/milankovitch.py:279 | an accepted timestep gives between 4000 and 200000 frames |
| `Playback.LeftIndex` | milankovitch/milankovitch.py:265-268 | Left keeps an index in [1, n) inside [1, n); from an index below 1 it just decrements (0 goes to -1) |
| `Playback.RightIndex` | milankovitch/milankovitch.py:271-274 | Right keeps an index in [0, n) inside [0, n) |
| `Playback.TickIndex` | milankovitch/milankovitch.py:317-321 | the frame step sends any index in [0, n) into [1, n) |
| `Playback.SpaceToggles` | milankovitch/milankovitch.py:260-264 | with Space held, pause flips and the index is unchanged, whatever arrows are also held |
| `Playback.ArrowsIgnoredWhileRunning` | milankovitch/milankovitch.py:257-275 | while not paused, a key event only pauses (on Space) and never moves the index |
| `Playback.ArrowsWhilePaused` | milankovitch/milankovitch.py:265-274 | while paused and without Space: the flag stays set, Left takes precedence over Right, and no arrow means no change |
| `Playback.ArrowsUndoEachOther` | milankovitch/milankovitch.py:265-274 | away from the wrap points, Left undoes Right and Right undoes Left |
| `Playback.ArrowsAtTheWraps` | milankovitch/milankovitch.py:265-274 | at the wrap points they do not undo each other: n-1 goes to -1, 1 goes to 0, and 0 goes to n-1 |
| `Playback.TickSkipsZero` | milankovitch/milankovitch.py:319-321 | the frame step never yields index 0 from a non-negative index |
| `Playback.StaysBelowLength` | milankovitch/milankovitch.py:310-321 | from an index below n, any sequence of key events and the frame step keep it below n |
| `Playback.LeavesRange` | milankovitch/milankovitch.py:265-274 | paused at the last frame, Right then Left gives index -1, outside [0, n): the state in which the redraw raises IndexError |
| `Playback.WrappedLeftIndex` | milankovitch/milankovitch.py:265-268 | corrected Left: keeps every index of [0, n) inside [0, n), and agrees with the code's Left on every index ≥ 1 |
| `Playback.WrappedLeftUndoesRight` | milankovitch/milankovitch.py:265-274 | with the corrected Left, Left undoes Right at every frame of [1, n), the wrap included |
| `Playback.WrappedStaysInRange` | milankovitch/milankovitch.py:257-275 | with the corrected Left, any sequence of key events and the frame step keep the index in [0, n) |
| `Playback.TickCycle` | milankovitch/milankovitch.py:317-321 | m unpaused frames from k in [1, n) reach 1 + (k-1+m) mod (n-1): the loop cycles through 1..n-1 with period n-1 |
| `Playback.RightCycle` | milankovitch/milankovitch.py:271-274 | m presses of Right from k in [0, n) reach (k+m) mod n |
| `Playback.LeftCycle` | milankovitch/milankovitch.py:265-268 | m presses of Left from k in [1, n) reach 1 + (k-1-m) mod (n-1) |
| `Playback.Player.constructor` | milankovitch/milankovitch.py:290 | start-up state: not paused, index 0, n frames for the given timestep |
| `Playback.Player.Space` | milankovitch/milankovitch.py:260-264 | flips `paused`, keeps the index |
| `Playback.Player.Left` | milankovitch/milankovitch.py:265-268 | moves the index as LeftIndex, keeps the flag |
| `Playback.Player.Right` | milankovitch/milankovitch.py:271-274 | moves the index as RightIndex, keeps the flag |
| `Playback.Player.KeyHandler` | milankovitch/milankovitch.py:257-275 | the new state is KeyStep of the old one: the if/elif chain on the held keys |
| `Playback.Player.Tick` | milankovitch/milankovitch.py:317-321 | the new state is TickStep of the old one |
| `Playback.Player.Frame` | milankovitch/milankovitch.py:310-321 | after one loop pass, the state is the key handler applied to each event in order and then the frame step |
| `PrecessionDisplay.Converted` | milankovitch/milankovitch.py:246 | the output has the length of the input |
| `PrecessionDisplay.Convert180To360` | milankovitch/milankovitch.py:245-255 | the array has the input's length; element i is 360 - x[i] when x[i] is below the previous INPUT element (-999 for i = 0) and x[i] otherwise |
| `PrecessionDisplay.FirstKept` | milankovitch/milankovitch.py:247-253 | the first element is kept whenever it is at least -999 |
| `PrecessionDisplay.Local` | milankovitch/milankovitch.py:248-254 | each output element depends only on the input element and the one before it |
| `PrecessionDisplay.ConvertedRange` | milankovitch/milankovitch.py:245-255 | on a series in [0, 180], the output is in [0, 360] and above 180 exactly at the converted elements |
| `PrecessionDisplay.RoundTrip` | milankovitch/milankovitch.py:245-255 | on a series in [0, 180], folding values above 180 back with 360 - y recovers the input |
| `TextOverlay.PadTime` | milankovitch/milankovitch.py:191-196 | only '0's are appended; a string of length 3 to 5 ends at length 5, or 6 in the second half of the time axis; any other length is unchanged |
| `TextOverlay.PadTimeIdempotent` | milankovitch/milankovitch.py:191-196 | padding a padded string changes nothing |
| `TextOverlay.ShortTimeInSecondHalf` | milankovitch/milankovitch.py:191-196 | because each step sees the previous one's result, a length-3 string gains "000" in the second half |
| `TextOverlay.PadPrecession` | milankovitch/milankovitch.py:197-198 | exactly one leading space is added when the value is positive; otherwise the string is unchanged |

## Left out

- Everything drawn with pygame is not modelled: the window, shapes, pixels, fonts, blitting, the event queue and the frame clock. `main_handler`, and its repeated calls from the key handler, change no playback state. With index -1, however, they raise IndexError (see "## Findings"). The crash is not modelled: the step functions and `Player` go on from -1 (Left then gives -2, and so on), states the script never reaches.
- The QUIT event, which ends the program, is not modelled. `Player.Frame` takes only the key-down events of a frame.
- Each key-down event runs the key handler against the keys held at that moment, whichever key raised the event. The model takes that snapshot as the `Keys` argument.
- The error messages printed before exiting are I/O. The model returns which check failed, and the three checks are made in the same order as the source.
- The exit status is not modelled. `sys.exit()` is called with no argument, so it is 0 even on an error.
- `ParseTimestep`: `isnumeric` is modelled for ASCII digits only. Other Unicode numeric characters are treated as non-numeric, so the model refuses some strings Python would accept or would fail on in `int`.
- `ParseTimestep`: has no digit limit. Since CPython 3.11 (and the 3.7-3.10 security releases), `int()` raises ValueError on a decimal string of more than 4300 digits, leading zeros included. On such an argument (for example 4298 zeros followed by "100") the script crashes with a traceback instead of accepting it or printing an error; the model returns `Ok` or `OutOfRange`.
- `DigitsValue`: gives a value for digit strings of every length, where CPython's `int()` raises ValueError beyond 4300 digits.
- `AcceptsExactlyTheRange`: for numbers of more than 4300 digits, the script crashes in `int()` rather than refusing them as out of range.
- The CSV loading (`read_csv`, `get_data`) is not modelled; it is file I/O.
- These float computations are not modelled: the interpolation onto the time axis, `normalize`, the arcsin tilt series, the insolation formula, the orbit and tilt geometry, and the precession ellipse.
- `round` and `str` on floats are not modelled. `PadTime` takes the rounded time string, and `PadPrecession` takes the precession string together with the number it denotes.
- `Convert180To360`: the arithmetic is on exact reals, while the source computes `360 - x` in 64-bit floating point, which rounds. The choice of branch is unaffected, because it compares input elements only.
- `RoundTrip`: holds only up to the rounding of `360 - x`. In floating point, folding a converted value back gives a value close to the input, not always the input itself.

## Findings

| source | as written | input that shows it | evidently intended | confidence | as-written member | corrected member |
|---|---|---|---|---|---|---|
| milankovitch/milankovitch.py:265-268 | Left wraps to the last frame only when the new index is exactly 0, so Left at frame 0 sets the index to -1; the redraw on line 269 then slices an empty series (line 305) and `plot_handler` reads `data[0]` (line 239), raising IndexError | paused at frame n-1, press Right (index 0), then Left | Left from frame 0 goes to the last frame (guard `<= 0`), keeping the index in [0, n) | high, not executed | `Playback.LeavesRange` | `Playback.WrappedStaysInRange` |
