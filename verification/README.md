# Guessing game and dice roller of the pyprojects command-line tool

This project models the decision logic of two interactive commands of the
`pyprojects` command-line tool: `guess` and `dice`. Both are pure functions
of their arguments. The random source and the terminal are parameters.

- `guess` (module `Guess`, file `guess.dfy`) checks that `low < high`. It then
  takes the secret drawn from the inclusive range `[low, high]` and prints an
  introduction. Then it plays up to `attempts` turns. Each turn prompts
  "Attempt t" and reads one line. The user's lines are a sequence of
  `Option<int>`: `None` is a line the integer conversion rejects. An
  unparseable line gets a warning. An integer equal to the secret wins. Any
  other integer gets a "higher"/"lower" hint. When the turns run out, the
  game is lost and the secret is revealed. `Play` returns the transcript as a
  sequence of `Event`s, the number of prompts issued, and how the game ended:
  `Won`, `Lost`, or `InputClosed`. `InputClosed` means the lines ran out while
  the game was still prompting. The prompt then raises instead of returning.
- `dice` (module `Dice`, file `dice.dfy`) checks `count >= 1`, `sides >= 2`
  and `rolls >= 1`. It then makes `rolls` rolls of `count` dice. `draws` is
  the stream of values the random source returns for successive draws from
  `[1, sides]`. Each roll takes the next `count` of them. `RollDice` returns
  every roll's values and total. When `rolls > 1` it also returns the
  average line, as the exact quotient `Mean(sum, over)`.
- Both commands either pass their bounds check and run (`Ran`), or stop at
  that check (`Exit(1)`). A run may still raise after its check, for example
  the prompt at end of input (`InputClosed`), the float division at cli.py:73,
  or printing a total of more than 4300 digits at cli.py:71 (see
  "## Left out"). The model records every run that passed the check inside
  `Ran` and does not model its exit status. The shared types live in module
  `Command` (`command.dfy`).

Two facts of the code are worth stating directly:

- An unparseable line uses up its turn, because the `continue` (cli.py:51)
  sits inside the `for turn` loop (`MalformedLinesUseTurns`,
  `MalformedLineCostsTheOnlyAttempt`).
- The win message reveals only the secret (cli.py:53), so `Correct` carries
  only the secret.

## Model

| member | source | states |
|---|---|---|
| Guess.Play | pyprojects/pyprojects/cli.py:37-57 | `guess` is rejected with status 1 exactly when `low >= high`. Then only the error line is printed (not modelled as an event), and no prompt is issued. An accepted game opens with the introduction line. It issues at most `max(attempts, 0)` prompts, and at most one more than the lines supplied. Every message that reveals the secret reveals a number in `[low, high]` |
| Guess.Reply | pyprojects/pyprojects/cli.py:47-56 | The answer to a line is the warning exactly when the line is not an integer. It is the win exactly when the line is the secret. It is "higher" exactly when the guess is below the secret, and "lower" exactly when it is above |
| Guess.FirstHit | pyprojects/pyprojects/cli.py:52-54 | Reference definition: the position of the first line that equals the secret. Every earlier line differs from it. It is `\|lines\|` when no line matches |
| Guess.Turns | pyprojects/pyprojects/cli.py:45-57 | The turn loop ends with the input closed exactly when it prompted once more than there were lines. Otherwise it prompted at most once per line. It never prompts more often than the turns offered. A revealed number is always the secret |
| Guess.TurnsOutcome | pyprojects/pyprojects/cli.py:45-57 | The loop is won at the first line equal to the secret if that line comes within the turns offered, after exactly that many prompts. Otherwise it is lost after exactly the number of turns offered, if enough lines exist. Otherwise the lines run out first |
| Guess.TurnsLength | pyprojects/pyprojects/cli.py:45-57 | The loop prints two messages per prompt (prompt and answer), plus the loss message when lost, and minus the answer missing when the input closed |
| Guess.TurnsAsks | pyprojects/pyprojects/cli.py:45-46 | Message 2k of the loop is the prompt for turn number `turn + k` |
| Guess.TurnsReplies | pyprojects/pyprojects/cli.py:46-56 | Message 2k+1 of the loop is the answer to line k |
| Guess.TurnsFinal | pyprojects/pyprojects/cli.py:52-57 | Only the loop's last message can end the game. When won it is the win revealing the secret, when lost the loss revealing the secret, and when the input closed the unanswered prompt |
| Guess.GuessOutcome | pyprojects/pyprojects/cli.py:43-57 | An accepted game is won exactly when one of the first `attempts` lines is the secret. Then the last line read is the first such line, and no earlier line was the secret. With no such line and at least `attempts` lines, it is lost after exactly `attempts` prompts. It ends with the input closed exactly when there is no such line and fewer lines than attempts |
| Guess.GuessPrompts | pyprojects/pyprojects/cli.py:44-46 | After the introduction, the game prompts "Attempt 1", "Attempt 2", ... for each turn it plays |
| Guess.GuessReplies | pyprojects/pyprojects/cli.py:46-56 | The message after prompt k+1 answers line k. Every prompt is answered unless the input closed |
| Guess.GuessFinal | pyprojects/pyprojects/cli.py:52-57 | Only the last message of a game can reveal the secret. It is the win message exactly when the game was won, and the loss message exactly when it was lost |
| Guess.NoAttemptsNoPrompt | pyprojects/pyprojects/cli.py:44-57 | With `attempts <= 0` no prompt is issued. The introduction is followed at once by the loss revealing the secret |
| Guess.TurnsReadOnlyPrompted | pyprojects/pyprojects/cli.py:45-54 | A decided turn loop depends only on the lines it prompted for |
| Guess.LaterLinesUnread | pyprojects/pyprojects/cli.py:52-54 | Once a game is won or lost, replacing every line after the prompted ones leaves the whole result unchanged: no later input is read |
| Guess.MalformedLinesUseTurns | pyprojects/pyprojects/cli.py:45-51 | Unparseable lines use up turns. When the first `attempts` lines are all unparseable, the game is lost after `attempts` prompts |
| Guess.MalformedLineCostsTheOnlyAttempt | pyprojects/pyprojects/cli.py:45-51 | With one attempt, an unparseable line followed by the secret loses: the correct line is never read |
| Guess.ScenarioWin | pyprojects/pyprojects/cli.py:43-56 | Secret 7 and guesses 3, 9, 7 give "higher", "lower", then the win on the third prompt |
| Guess.ScenarioLoss | pyprojects/pyprojects/cli.py:43-57 | Secret 5, two attempts and guesses 1, 2 give two "higher" hints, then the loss revealing 5. The command still returns normally |
| Dice.RollDice | pyprojects/pyprojects/cli.py:61-74 | `dice` is rejected with status 1 exactly when `count < 1`, `sides < 2` or `rolls < 1`, and then nothing is rolled. Otherwise there are exactly `rolls` rolls. The average line appears exactly when `rolls > 1`, and it divides by the number of rolls |
| Dice.Totals | pyprojects/pyprojects/cli.py:66-70 | The totals list holds one total per roll, in roll order |
| Dice.RollAll | pyprojects/pyprojects/cli.py:67-70 | The loop makes exactly the requested number of rolls, each of exactly `count` values |
| Dice.SumBounds | pyprojects/pyprojects/cli.py:68-69 | The sum of `c` die faces lies between `c` and `c * sides` |
| Dice.RollAllConsumes | pyprojects/pyprojects/cli.py:67-68 | The rolls' values, read in order, are exactly the first `rolls * count` draws of the random source |
| Dice.RollAllBounds | pyprojects/pyprojects/cli.py:67-69 | Each roll's values are die faces. Its total is their sum, between `count` and `count * sides` |
| Dice.RollAllSum | pyprojects/pyprojects/cli.py:66-73 | The sum of the collected totals equals the sum of all draws consumed |
| Dice.DiceRolls | pyprojects/pyprojects/cli.py:63-71 | An accepted call prints the first `rolls * count` draws in order. Each roll has exactly `count` values, each in `[1, sides]`, and a total equal to their sum, between `count` and `count * sides` |
| Dice.DiceAverage | pyprojects/pyprojects/cli.py:72-74 | With several rolls, the average line divides the sum of the totals (the sum of all consumed draws) by `rolls`. That sum lies between `count * rolls` and `count * sides * rolls` |
| Dice.ScenarioSingleRoll | pyprojects/pyprojects/cli.py:61-74 | Two six-sided dice rolled once, drawing 3 and 5, print total 8 and no average line |
| Dice.ScenarioAverage | pyprojects/pyprojects/cli.py:66-74 | One six-sided die rolled three times, drawing 2, 4 and 6, averages 12 over 3 |
| Dice.ScenarioNoDice | pyprojects/pyprojects/cli.py:63-65 | Zero dice is rejected with status 1 |

## Left out

- `quote` (cli.py:14-33): an HTTP request to an external service plus JSON decoding, with no local decision logic.
- `ytdl` (cli.py:78-113): a directory creation and an option dictionary handed to an external download library. The download is a foreign call.
- Command registration and argument coercion by the command framework (cli.py:10, 13, 36, 60, 77, 116-119): there is no visible logic.
- `random.randint`: an input oracle. For `guess` it is the `secret` parameter, constrained to `[low, high]` only when the bounds are accepted. For `dice` it is the `draws` stream, constrained to `[1, sides]` and long enough for `rolls * count` draws.
- The integer conversion of an input line: its result is given, as `Some(n)` or `None`. Python's rules for whitespace, signs, underscores and non-ASCII digits are not modelled.
- Terminal output: prompts and messages are abstract events. Exact strings and colour markup are not modelled. The error line printed before a bounds rejection is folded into `Exit(1)`.
- What happens after the prompt raises at end of input: the model stops at `InputClosed`, still wrapped in `Ran`. That run does not return normally; its exit status, and how the framework reports the escaping exception, are not part of this model.
- Option defaults: `guess` defaults to `low=1`, `high=100`, `attempts=7` (cli.py:37) and `dice` to `count=2`, `sides=6`, `rolls=1` (cli.py:61). Every argument is an explicit parameter of the model.
- Dice.DiceAverage: states the exact quotient `sum / rolls` and its bounds, not the floating-point value or its two-decimal formatting (cli.py:73-74). The division at cli.py:73 produces a float and raises `OverflowError` when `sum(totals) / rolls` is beyond the float range, after the rolls were printed (for example one die with a 400-digit number of sides, rolled twice); the model still returns the exact `Mean` inside `Ran` there.
- Dice.DiceRolls: does not model the limit on integer-to-text conversion. Printing a roll (cli.py:71) converts its total to text, which raises `ValueError` on Python versions with that limit when the total has more than 4300 digits (for example ten dice whose number of sides has 4300 digits). The model still returns the roll inside `Ran` there.
