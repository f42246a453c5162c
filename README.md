# Rock-paper-scissors round engine

A Dafny model of the round engine of the desktop rock-paper-scissors game's
`GamePage` (`UI/pages/game_page/game_page.py`). The page keeps a human score
and a robot score, lets the player pick rock, paper or scissors with a button
or "capture" a gesture from the camera, plays a one-second reveal animation of
the robot's pick driven by a 100 ms timer, and then decides the round with a
fixed win table (rock beats scissors, paper beats rock, scissors beats paper).

The model has two modules:

- `Rounds` (`rounds.dfy`): the pure rules. `Choice`, the win table `Beats`,
  the decision `Resolve`, a `Scoreboard` with `Award` (one outcome) and
  `Tally` (a whole history of outcomes), and the demo gesture detector's
  counter (`NextDemo`, `DemoAfter`, `GestureAt`). The camera recognition is a
  stub in the Python code. It cycles through the choices, and so does the model.
- `Game` (`game.dfy`): the class `GamePage`. Its fields are the page's own:
  `humanScore`, `robotScore`, `humanChoice`, `demoCounter`,
  `animationCounter`, the result label (`message`) and the robot's picture
  (`robotDisplay`). There are two more fields. `busy` stands for the four
  buttons being disabled. `roundChoice` is the human choice bound into the
  reveal timer's callback. Each timer timeout is one call of `Tick`, and the
  random pick of the robot is `Tick`'s argument. `PlayRound` and
  `CaptureGesture` require `!busy`, because the buttons that call them are
  disabled while a round is in flight. Two ghost fields, the history of
  outcomes and the number of captures, tie the counters to the pure
  functions through the invariant `Valid()`. Under that invariant the scores
  are always the `Tally` of the rounds resolved so far.

The page does not ignore a click that arrives mid-round. It disables its
four buttons during the reveal (lines 238-239, 263-264), so `PlayRound` and
`CaptureGesture` require `!busy`. `closeEvent` stops only the camera timer,
not a pending reveal timer, and closing the page is not modelled.

## Model

| member | source | states |
|---|---|---|
| `Rounds.Beats` | UI/pages/game_page/game_page.py:275-279 | The win table maps each choice to the one it defeats, and never to itself. |
| `Rounds.BeatsIsThreeCycle` | UI/pages/game_page/game_page.py:275-279 | The win table is a 3-cycle: applying it twice never returns to the start, three times always does, and the orbit covers all three choices. |
| `Rounds.ExactlyOneSideWins` | UI/pages/game_page/game_page.py:275-288 | For two different choices, exactly one of "h beats r" and "r beats h" holds. |
| `Rounds.Resolve` | UI/pages/game_page/game_page.py:269-288 | A tie exactly when the choices are equal. The human wins exactly when the human's choice beats the robot's. The robot wins exactly when the robot's choice beats the human's. |
| `Rounds.ResolveMirror` | UI/pages/game_page/game_page.py:269-288 | Swapping the two choices swaps winner and loser and keeps a tie a tie. |
| `Rounds.Award` | UI/pages/game_page/game_page.py:281-288 | The winner's counter rises by exactly 1 and the other is unchanged. A tie is exactly the case that changes nothing. No counter decreases. |
| `Rounds.TallySnoc` | UI/pages/game_page/game_page.py:281-288 | Resolving one more round awards its outcome to the running scores and adds one decisive round unless it tied. |
| `Rounds.TallyCountsDecisive` | UI/pages/game_page/game_page.py:271-288 | After any history of rounds, the two scores add up to the number of rounds that were not ties, which is at most the number of rounds. |
| `Rounds.TallyMonotone` | UI/pages/game_page/game_page.py:281-288 | Neither score of any prefix of the history exceeds the score of the whole history: scores never decrease. |
| `Rounds.TallyExample` | UI/pages/game_page/game_page.py:127-128 | From 0 to 0, the outcomes win, tie, loss, win give 2 to 1. |
| `Rounds.NextDemo` | UI/pages/game_page/game_page.py:220-223 | The demo counter is created at 0 on first use and otherwise advanced by 1 modulo 3. It is always a valid index into the choices. |
| `Rounds.DemoAfterIsMod` | UI/pages/game_page/game_page.py:220-225 | After n >= 1 captures the demo counter is (n - 1) mod 3, so the lookup at line 225 is in bounds. |
| `Rounds.FirstGesture` | UI/pages/game_page/game_page.py:220-225 | The first capture creates the demo counter at 0 and detects rock. |
| `Rounds.GestureCycle` | UI/pages/game_page/game_page.py:220-225 | Every capture after the n-th detects the successor of the n-th in rock, paper, scissors, rock. |
| `Game.GamePage.constructor` | UI/pages/game_page/game_page.py:125-150 | A new page has scores 0 and 0, no captured gesture, no demo counter, enabled controls, the "make your choice" message (for a page whose camera was found) and the unknown robot picture. |
| `Game.GamePage.CaptureGesture` | UI/pages/game_page/game_page.py:212-226 | Only while the controls are enabled. Advances the demo counter, stores the detected choice (rock first, then the successor of the previous capture) and announces it. Nothing else changes, and the invariant is kept. |
| `Game.GamePage.PlayRound` | UI/pages/game_page/game_page.py:228-245 | Only while the controls are enabled. With neither a button choice nor a captured gesture it sets the "capture first" message and changes nothing else. Otherwise it locks the controls, resets the animation counter to 0 and binds the captured gesture, or failing that the button choice, as the round's human choice. Scores are untouched. |
| `Game.GamePage.Tick` | UI/pages/game_page/game_page.py:247-267 | Only while a round is in flight. Increments the animation counter, which never passes 10. Before tick 10 it only shows `choices[counter % 3]`: scores, history, message and captured gesture are unchanged. On tick 10 it shows the robot's pick and appends exactly one outcome to the history. The winner's score rises by 1 (neither on a tie) and the message announces the outcome. It unlocks the controls and clears the captured gesture. |
| `Game.GamePage.DetermineWinner` | UI/pages/game_page/game_page.py:269-288 | Appends the round's outcome to the history and keeps the scores equal to its tally. A tie changes neither score. If the human's choice beats the robot's, only the human score rises by 1, and otherwise only the robot score. The message matches the outcome. |
| `Game.PlayFullRound` | UI/pages/game_page/game_page.py:228-267 | Started from idle with some choice available, the reveal timer fires exactly 10 times. The round resolves exactly once, with the captured gesture taking precedence over the button. The winner's score rises by 1 (neither on a tie) and the message announces the outcome. The page ends idle, with no captured gesture and the robot's pick shown. The demo counter and the capture count are unchanged, and so are the fields the round does not touch. |
| `Game.CaptureAcrossRound` | UI/pages/game_page/game_page.py:212-267 | On a fresh page, a capture, a full round with the captured gesture and a second capture detect rock and then paper. A round does not disturb the demo cycle. |
| `Game.PaperBeatsRockFirstRound` | UI/pages/game_page/game_page.py:228-288 | On a fresh page, paper against a robot pick of rock leaves the scores at 1 to 0. |

## Left out

- Qt widget construction, stylesheets, fonts, layouts and icon drawing (`setup_ui`, `create_icon`, lines 20-123 and 152-168): presentation only. The label texts are modelled as the `Message` datatype and the robot picture as `robotDisplay`. The score labels only mirror the score fields.
- The camera (`setup_camera`, `update_camera`, `closeEvent`, lines 170-210 and 290-296): device I/O and placeholder drawing, with no recognition logic. The model describes a page whose camera was found. When none is found, `setup_camera` replaces the initial label with "No camera found!" (lines 173-175), and that label is not modelled.
- The `QTimer` scheduling and real time (lines 243-245): each timeout is an explicit `Tick` call, and `PlayFullRound` drives the timer to completion.
- `random.choice` (line 258): the robot's pick is the argument of `Tick`. Its distribution is not modelled.
- `animation_counter` does not exist on the page before the first round. The model starts it at 0. Only `Tick` reads it, and `Tick` runs only during a round, after `PlayRound` has set it to 0.
- Order within the last tick: the source shows the pick, decides the round, re-enables the buttons and clears the gesture, in that order. `Tick` re-enables and clears before it decides. Deciding reads and writes only the scores and the label, and nothing can run between these steps, so the state after the tick is the same.
- `UI/pages/home_page/home_page.py` is not part of this model: it is layout and navigation with no game logic.
