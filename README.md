# SimonBP turn state machine in Dafny

SimonBP is a Simon memory game for Android. In each round the cpu appends one
random number from 1 to 6 to a series and plays the series back. The player then
taps the series back on six buttons. A wrong tap loses. Replaying the series
correctly in the last round wins. The number of rounds is 6, 9 or 12. A hidden
gesture shows the rest of the current round: long presses on 6, then 1, then 3.

All of this logic sits in the event handlers of `PlayActivity`. This project
models those handlers and proves properties about them.

- `simon_rules.dfy` (module `SimonRules`) holds the game fields as a `State`
  value. Each handler is a pure transition: `OnCreate`, `Cpu` (the cpu's
  append step), `Jugar` (one tap), `Truco` (the hint) and `OnLongClick` (the
  gesture). `Valid` is the invariant of every reachable state. It has three
  phases:
  - `AwaitingCpu`: the buttons are disabled and the next append is pending.
  - `PlayerTurn`: the buttons are enabled.
  - `Over`: `fin` is set.
- `play_activity.dfy` (module `SimonActivity`) holds the class
  `PlayActivity`. It has the source's mutable fields (`cpu`, `index`,
  `turnoActual`, `turnos`, `fin`, `paso1`, `paso2`), and its methods update
  them in place as the Java does. Each method is proved to perform the
  matching `SimonRules` transition on `Snapshot()` and to keep `Valid()`. The
  `for` loop of `truco()` is the method `CollectFrom`.
- `simon_runs.dfy` (module `SimonRuns`) holds whole games as event sequences:
  taps, the cpu's delayed appends and long presses. An event that the activity
  would not receive in the current state is ignored. Examples are a tap while
  the buttons are disabled or hidden by the end screen, and an append outside
  the pending phase. The lemmas here cover properties of whole games:
  - the invariant along any run;
  - `fin` and the series are monotone;
  - a perfect replay wins on its last tap and not before;
  - the hint needs the gesture, in order.

Modelling choices:

- The random number of `cpu()` is a parameter in [1, 6].
- The round target `TURNOS` comes from the intent extra, with default 6. It
  must be at least 1. The main screen only ever sends 6, 9 or 12.
- The pending new round between a completed round and the delayed `cpu()` call
  is not a separate flag. It is the state shape `|cpu| + 1 == turnoActual`
  with `index == 1`. The initial state has the same shape, because the first
  `cpu()` call comes only after the countdown.
- The hint is returned as the sequence of numbers, not as a Toast string.

The model follows the code literally:

- `index` is incremented even after a defeat or a victory. After the end it
  can therefore be `turnoActual + 1`.
- Victory compares `index` with `TURNOS`, not with `turnoActual`.
  `Jugar`'s contract proves that victory still happens only in the last round.
- The class comment (PlayActivity.java:36-37) and the comment on `truco()`
  (:605-607) say that the hint can be used only once in hard mode. The code
  does something else: `truco()` clears the gesture flags only when
  `TURNOS < 12`. So in hard mode the flags stay set, and each further long
  press on 3 shows the hint again. `SecondHintIffHard` states this behaviour.
  There is no "hint unavailable" error.
- `onCreate` leaves the series empty; the first number is added by `cpu()`
  after the countdown (PlayActivity.java:478-505). Round 1 therefore starts in
  the pending phase, not with one number already drawn.

## Model

| member | source | states |
|---|---|---|
| SimonRules.OnCreate | app/src/main/java/es/rbp/simonbp/PlayActivity.java:140-152 | The start state satisfies the invariant and waits for the cpu. The series is empty, `index` and `turnoActual` are 1, `fin` and both gesture flags are false. `turnos` is the intent extra, or 6 without one. |
| SimonRules.Cpu | app/src/main/java/es/rbp/simonbp/PlayActivity.java:583-586 | The series grows by exactly one element, the drawn number, at its end. Earlier elements and all other fields are unchanged. From a pending state it yields a valid player's-turn state at position 1. |
| SimonRules.Jugar | app/src/main/java/es/rbp/simonbp/PlayActivity.java:525-544 | `Defeat` iff the tap differs from `cpu[index-1]`. `Victory` iff it matches and `index == TURNOS`. Both set `fin`, keep the round and still advance `index`. `NextRound` iff it matches at `index == turnoActual < TURNOS` before the end: `turnoActual + 1`, `index == 1`, the next append pending. Otherwise `index + 1` only. `fin` never goes back to false and the series is unchanged. From a valid player's turn: the invariant holds afterwards, `fin` is set iff the outcome is victory or defeat, and victory happens only when `turnoActual == TURNOS`. |
| SimonRules.Truco | app/src/main/java/es/rbp/simonbp/PlayActivity.java:609-619 | The hint is the untyped remainder: typed prefix plus hint is the series, and its length is `|cpu| - index + 1`. The flags are cleared when `TURNOS < 12` and kept otherwise. No game field but the flags changes. |
| SimonRules.OnLongClick | app/src/main/java/es/rbp/simonbp/PlayActivity.java:200-217 | A hint is shown iff the press is on 3 with both steps set, and it is the remainder of the series. Step 1 is set only by a press on 6, step 2 only by a press on 1 after step 1. A press on 6 sets step 1 and keeps step 2. A press on 1 keeps step 1 and sets step 2 when step 1 is set. A press on 3 with both steps set leaves the state `Truco` leaves. Any other press changes nothing. `paso2 ==> paso1` is preserved. The game fields are unchanged. |
| SimonActivity.CollectFrom | app/src/main/java/es/rbp/simonbp/PlayActivity.java:610-613 | The loop collects exactly the numbers of the series from `index - 1` on, in order. |
| SimonActivity.PlayActivity.constructor | app/src/main/java/es/rbp/simonbp/PlayActivity.java:140-152 | The fields equal `OnCreate` of the intent extra; the invariant holds and the first append is pending. |
| SimonActivity.PlayActivity.Cpu | app/src/main/java/es/rbp/simonbp/PlayActivity.java:583-586 | `cpu == old(cpu) + [n]`, and the whole new state is `Cpu` of the old one. The invariant is kept and the buttons become enabled (player's turn). |
| SimonActivity.PlayActivity.Jugar | app/src/main/java/es/rbp/simonbp/PlayActivity.java:525-544 | The in-place update equals `Jugar` on the old snapshot. In the player's turn, `index - 1` is a valid position of `cpu`. The invariant is kept. `fin` iff victory or defeat. Victory only in the last round. `NextRound` iff the next append is pending. |
| SimonActivity.PlayActivity.Truco | app/src/main/java/es/rbp/simonbp/PlayActivity.java:609-619 | Returns `cpu[index-1..]` and updates the flags as `Truco` does; the invariant is kept. |
| SimonActivity.PlayActivity.OnLongClick | app/src/main/java/es/rbp/simonbp/PlayActivity.java:200-217 | The in-place update and the shown hint equal `OnLongClick` on the old snapshot; the invariant is kept. |
| SimonRuns.Step | app/src/main/java/es/rbp/simonbp/PlayActivity.java:166-217 | One event yields at most one outcome. It keeps `TURNOS` and the invariant, and the series only grows. From a running game, `fin` becomes set iff the event's outcome is victory or defeat. A gesture flag is set only by its own long press (6, or 1 after 6). Once `fin` is set, no event changes anything, because the end screen covers the buttons (:74-80, :552, :567). |
| SimonRuns.Run | app/src/main/java/es/rbp/simonbp/PlayActivity.java:525-544 | A run yields no more outcomes than it has events, and changes nothing once the game has ended. |
| SimonRuns.RunKeepsInvariant | app/src/main/java/es/rbp/simonbp/PlayActivity.java:525-586 | Along any run from a valid state, the invariant holds and `TURNOS` is kept. The series only grows by appending. `fin` stays set. The game ends iff the last outcome is victory or defeat, and no earlier outcome ends it. |
| SimonRuns.RunAppend | app/src/main/java/es/rbp/simonbp/PlayActivity.java:525-544 | Proof helper for `PerfectRounds`, not a rule of the activity: running two event sequences one after the other equals running their concatenation. |
| SimonRuns.FinAndSeriesMonotone | app/src/main/java/es/rbp/simonbp/PlayActivity.java:551-586 | Any later state is ended if an earlier one was, and its series extends the earlier one. After the end the state is frozen. |
| SimonRuns.ReplayRound | app/src/main/java/es/rbp/simonbp/PlayActivity.java:525-544 | Tapping correctly from position `index` to the end of the round gives `Continue` for every tap but the last. The last tap gives `NextRound` (with the next append pending) before the last round, and `Victory` in the last round. |
| SimonRuns.HintCompletesRound | app/src/main/java/es/rbp/simonbp/PlayActivity.java:605-619 | Tapping the numbers of the hint finishes the round: only `Continue`, then `NextRound`, or `Victory` in the last round. |
| SimonRuns.CpuTurnRun | app/src/main/java/es/rbp/simonbp/PlayActivity.java:583-586 | Proof helper for `PerfectRounds`: the cpu's event in the pending phase is exactly the `Cpu` step. |
| SimonRuns.PerfectRound | app/src/main/java/es/rbp/simonbp/PlayActivity.java:525-586 | One append followed by a correct replay of the whole series gives `Continue` for every tap but the last. The last tap gives `NextRound` before the last round and `Victory` in the last round. |
| SimonRuns.UndecidedThenRound | app/src/main/java/es/rbp/simonbp/PlayActivity.java:528-543 | Proof helper for `PerfectRounds`, a fact about outcome lists rather than a rule of the activity: appending a round's outcomes to undecided outcomes keeps everything but the last outcome undecided. |
| SimonRuns.PerfectRounds | app/src/main/java/es/rbp/simonbp/PlayActivity.java:31-33 | After perfectly replaying k < TURNOS rounds, the series is the drawn numbers, round k + 1 is pending and no tap ended the game. After TURNOS rounds, the game is won on the last tap and not before. |
| SimonRuns.PerfectReplayWins | app/src/main/java/es/rbp/simonbp/PlayActivity.java:525-544 | From a fresh game with any difficulty and any drawn numbers, replaying every round's series correctly ends in victory on the very last tap. Every earlier outcome is `Continue` or `NextRound`. |
| SimonRuns.GestureFlags | app/src/main/java/es/rbp/simonbp/PlayActivity.java:200-215 | In any later state, `paso1` set means a long press on 6 occurred (or the flag was already set). `paso2` set means a press on 6 was followed by a press on 1, allowing for flags already set. |
| SimonRuns.HintNeedsGesture | app/src/main/java/es/rbp/simonbp/PlayActivity.java:194-215 | From a fresh game, a long press on 3 shows the hint only if the events so far contain a long press on 6 followed later by a long press on 1. |
| SimonRuns.GestureShowsHint | app/src/main/java/es/rbp/simonbp/PlayActivity.java:200-215 | Conversely, long presses on 6, 1 and 3 show the hint from any state, and it is the remainder of the series. |
| SimonRuns.SecondHintIffHard | app/src/main/java/es/rbp/simonbp/PlayActivity.java:615-618 | Right after a hint, a second long press on 3 shows it again iff `TURNOS >= 12`. This is the code's behaviour, not the once-per-game rule of the comments. |
| SimonRuns.DefeatExample | app/src/main/java/es/rbp/simonbp/PlayActivity.java:528-531 | With the series 3 5 1 6 2 4 in the last round of a six-round game, the taps 3 5 2 give `Continue`, `Continue`, `Defeat`. The game ends with `index == 4`. |
| SimonRuns.HintExample | app/src/main/java/es/rbp/simonbp/PlayActivity.java:611-613 | At position 3 with the series 3 5 1 6 2, the hint is 1 6 2. |

## Left out

- Audio (`MediaPlayer`, asset loading, `play`): foreign I/O with no effect on the game state.
- Animations and pacing (`crecer`, `encoger`, `animate`, `cuentaAtras` and the `Handler.postDelayed` delays in `cpu()` and `jugar`): timing only. The delayed `cpu()` call and the disabled buttons are modelled as the `AwaitingCpu` phase, which allows only the cpu's append.
- The playback of the series after each append and `enableBotones`: view toggling. Only its effect is modelled: taps and long presses are accepted only in the player's turn. The model's player's turn begins at the cpu's append, whereas the buttons stay disabled until the playback ends, so the model also accepts taps and long presses during the playback that the activity ignores.
- `onClick` dispatch beyond "tap on button n", the exit dialog, the back press and `finish()` from the end screen: navigation.
- The Android behaviour that a long press, whose handler returns `false`, is also delivered as a click: platform dispatch. A long press and the tap it may cause are separate events in `SimonRuns`.
- Toast rendering of the hint (space-joined, trimmed string): the hint is the sequence of its numbers.
- `Math.random()`: floating point. The drawn number is a parameter in [1, 6].
- `Log` calls: no effect on the game.
- MainActivity: navigation, button sounds and the easter-egg link. Its only relevant content is the choice of 6, 9 or 12 rounds. The model accepts any round target of at least 1.
- SimonActivity.PlayActivity.Jugar: requires the player's turn. Taps after the end never reach `jugar`, because the end screen's opacity pane covers the buttons. Taps before the cpu's append never reach it either, because the buttons are disabled. The Java would otherwise read `cpu.get(index - 1)` out of range. The pure `SimonRules.Jugar` requires only that `index - 1` is a valid position.
