/**
  The number-guessing game of the `guess` command.

  The random draw and the terminal are parameters: `secret` is the value the
  random source returned for the inclusive range [low, high], and `lines` are
  the answers the user gives to successive prompts, each already read through
  the integer conversion (`None` when the conversion raised). When the lines
  run out while the game still prompts, reading the prompt raises; that
  ending is `InputClosed`.

  The concrete scenarios at the end take their input lines as a parameter
  fixed by their precondition, so that each proof steps through the turns
  one line at a time.
 */
module Guess {
  import opened Command

  datatype Direction = Higher | Lower

  /** What the game prints, in order. */
  datatype Event =
    | Intro(low: int, high: int, attempts: int)  // "Guess a number between ..."
    | Ask(turn: int)                              // the prompt "Attempt <turn>"
    | NotAnInteger                                // the warning for an unparseable line
    | Hint(direction: Direction)                  // "Try higher." / "Try lower."
    | Correct(secret: int)                        // "Correct! The number was <secret>."
    | OutOfAttempts(secret: int)                  // "Out of attempts! The number was <secret>."
  {
    /** A message that ends the game. */
    predicate Final() {
      Correct? || OutOfAttempts?
    }
  }

  datatype End = Won | Lost | InputClosed

  /** The transcript of one game and the number of prompts it issued. */
  datatype Game = Game(events: seq<Event>, prompts: nat, end: End)

  /** Number of turns the loop still offers from `turn` up to `attempts` inclusive. */
  function Budget(turn: int, attempts: int): nat
  {
    if turn <= attempts then attempts - turn + 1 else 0
  }

  /** Index of the first line that is the secret, or |lines| when none is. */
  function FirstHit(secret: int, lines: seq<Option<int>>): (h: nat)
    ensures h <= |lines|
    ensures h < |lines| ==> lines[h] == Some(secret)
    ensures forall i :: 0 <= i < h ==> lines[i] != Some(secret)
  {
    if |lines| == 0 then 0
    else if lines[0] == Some(secret) then 0
    else 1 + FirstHit(secret, lines[1..])
  }

  /** The message printed in answer to one line. */
  function Reply(secret: int, line: Option<int>): (e: Event)
    ensures e == NotAnInteger <==> line.None?
    ensures e == Correct(secret) <==> line == Some(secret)
    ensures e == Hint(Higher) <==> line.Some? && line.value < secret
    ensures e == Hint(Lower) <==> line.Some? && line.value > secret
  {
    match line
    case None => NotAnInteger
    case Some(n) =>
      if n == secret then Correct(secret)
      else if n < secret then Hint(Higher)
      else Hint(Lower)
  }

  /**
    The turn loop from turn number `turn` on: each turn prompts, reads one
    line and answers it; a line equal to the secret ends the game, any other
    line (parseable or not) uses the turn up.
   */
  function Turns(secret: int, turn: int, attempts: int, lines: seq<Option<int>>): (g: Game)
    ensures g.end != InputClosed ==> g.prompts <= |lines|
    ensures g.end == InputClosed <==> g.prompts == |lines| + 1
    ensures g.prompts <= Budget(turn, attempts)
    ensures forall j :: 0 <= j < |g.events| && g.events[j].Final() ==> g.events[j].secret == secret
    decreases |lines|
  {
    if turn > attempts then
      Game([OutOfAttempts(secret)], 0, Lost)
    else if |lines| == 0 then
      Game([Ask(turn)], 1, InputClosed)
    else
      var reply := Reply(secret, lines[0]);
      if reply == Correct(secret) then
        Game([Ask(turn), reply], 1, Won)
      else
        var rest := Turns(secret, turn + 1, attempts, lines[1..]);
        Game([Ask(turn), reply] + rest.events, rest.prompts + 1, rest.end)
  }

  /**
    The whole command: the bounds check, the draw, the introduction line and
    the turn loop starting at turn 1.
   */
  function Play(low: int, high: int, attempts: int, secret: int, lines: seq<Option<int>>): (r: Run<Game>)
    requires low < high ==> low <= secret <= high
    ensures r.Exit? <==> low >= high
    ensures r.Exit? ==> r.status == BadBounds
    ensures r.Ran? ==> |r.value.events| > 0 && r.value.events[0] == Intro(low, high, attempts)
    ensures r.Ran? ==> r.value.prompts <= Budget(1, attempts) && r.value.prompts <= |lines| + 1
    ensures r.Ran? ==> forall e :: e in r.value.events && e.Final() ==> low <= e.secret <= high
  {
    if low >= high then
      Exit(BadBounds)
    else
      var t := Turns(secret, 1, attempts, lines);
      Ran(Game([Intro(low, high, attempts)] + t.events, t.prompts, t.end))
  }

  /**
    How the turn loop ends and after how many prompts: at the first line
    equal to the secret if it comes within the turns offered, otherwise when
    the turns run out, otherwise when the lines do.
   */
  lemma {:induction false} TurnsOutcome(secret: int, turn: int, attempts: int, lines: seq<Option<int>>)
    ensures var g := Turns(secret, turn, attempts, lines);
            var h := FirstHit(secret, lines);
            var b := Budget(turn, attempts);
            if h < b && h < |lines| then g.end == Won && g.prompts == h + 1
            else if b <= |lines| then g.end == Lost && g.prompts == b
            else g.end == InputClosed && g.prompts == |lines| + 1
    decreases |lines|
  {
    if turn <= attempts && |lines| > 0 && lines[0] != Some(secret) {
      TurnsOutcome(secret, turn + 1, attempts, lines[1..]);
    }
  }

  /** The turn loop prints two messages per prompt, plus the loss message, minus the missing answer. */
  lemma {:induction false} TurnsLength(secret: int, turn: int, attempts: int, lines: seq<Option<int>>)
    ensures var g := Turns(secret, turn, attempts, lines);
            |g.events| == 2 * g.prompts + (if g.end == Lost then 1 else 0)
                                        - (if g.end == InputClosed then 1 else 0)
    decreases |lines|
  {
    if turn <= attempts && |lines| > 0 && lines[0] != Some(secret) {
      TurnsLength(secret, turn + 1, attempts, lines[1..]);
    }
  }

  /** Message 2k of the turn loop is the prompt for turn number `turn + k`. */
  lemma {:induction false} TurnsAsks(secret: int, turn: int, attempts: int, lines: seq<Option<int>>)
    ensures forall j :: 0 <= j < 2 * Turns(secret, turn, attempts, lines).prompts
                        && j < |Turns(secret, turn, attempts, lines).events| && j % 2 == 0 ==>
              Turns(secret, turn, attempts, lines).events[j] == Ask(turn + j / 2)
    decreases |lines|
  {
    if turn <= attempts && |lines| > 0 && lines[0] != Some(secret) {
      var g := Turns(secret, turn, attempts, lines);
      var rest := Turns(secret, turn + 1, attempts, lines[1..]);
      TurnsAsks(secret, turn + 1, attempts, lines[1..]);
      assert g.events == [Ask(turn), Reply(secret, lines[0])] + rest.events;
      assert g.prompts == rest.prompts + 1;
      forall j | 2 <= j < 2 * g.prompts && j < |g.events| && j % 2 == 0
        ensures g.events[j] == Ask(turn + j / 2)
      {
        assert g.events[j] == rest.events[j - 2];
        assert (j - 2) % 2 == 0 && turn + 1 + (j - 2) / 2 == turn + j / 2;
      }
    }
  }

  /** Message 2k+1 of the turn loop is the answer to line k. */
  lemma {:induction false} TurnsReplies(secret: int, turn: int, attempts: int, lines: seq<Option<int>>)
    ensures var g := Turns(secret, turn, attempts, lines);
            forall j :: 0 <= j < |g.events| && j % 2 == 1 ==>
              j / 2 < |lines| && g.events[j] == Reply(secret, lines[j / 2])
    decreases |lines|
  {
    if turn <= attempts && |lines| > 0 && lines[0] != Some(secret) {
      var g := Turns(secret, turn, attempts, lines);
      var rest := Turns(secret, turn + 1, attempts, lines[1..]);
      TurnsReplies(secret, turn + 1, attempts, lines[1..]);
      assert g.events == [Ask(turn), Reply(secret, lines[0])] + rest.events;
      forall j | 2 <= j < |g.events| && j % 2 == 1
        ensures j / 2 < |lines| && g.events[j] == Reply(secret, lines[j / 2])
      {
        assert g.events[j] == rest.events[j - 2];
        assert (j - 2) % 2 == 1 && (j - 2) / 2 == j / 2 - 1;
        assert lines[1..][j / 2 - 1] == lines[j / 2];
      }
    }
  }

  /** Only the last message of the turn loop can end the game, and which one it is. */
  lemma {:induction false} TurnsFinal(secret: int, turn: int, attempts: int, lines: seq<Option<int>>)
    ensures var g := Turns(secret, turn, attempts, lines);
            |g.events| > 0 && forall j :: 0 <= j < |g.events| - 1 ==> !g.events[j].Final()
    ensures var g := Turns(secret, turn, attempts, lines);
            g.end == Won ==> g.events[|g.events| - 1] == Correct(secret)
    ensures var g := Turns(secret, turn, attempts, lines);
            g.end == Lost ==> g.events[|g.events| - 1] == OutOfAttempts(secret)
    ensures var g := Turns(secret, turn, attempts, lines);
            g.end == InputClosed ==> g.events[|g.events| - 1] == Ask(turn + |lines|)
    decreases |lines|
  {
    if turn <= attempts && |lines| > 0 && lines[0] != Some(secret) {
      var g := Turns(secret, turn, attempts, lines);
      var rest := Turns(secret, turn + 1, attempts, lines[1..]);
      TurnsFinal(secret, turn + 1, attempts, lines[1..]);
      assert g.events == [Ask(turn), Reply(secret, lines[0])] + rest.events;
      assert |lines[1..]| + 1 == |lines|;
    }
  }

  /** Whether some line among the first `n` is exactly the secret. */
  predicate HitWithin(secret: int, lines: seq<Option<int>>, n: int)
  {
    exists k :: 0 <= k < n && k < |lines| && lines[k] == Some(secret)
  }

  /**
    The outcome of an accepted game: it is won exactly when one of the first
    `attempts` lines is the secret, and then the first such line is the last
    one read; otherwise it is lost after exactly `attempts` prompts, unless
    the lines ran out first.
   */
  lemma GuessOutcome(low: int, high: int, attempts: int, secret: int, lines: seq<Option<int>>)
    requires low < high && low <= secret <= high
    ensures var r := Play(low, high, attempts, secret, lines);
            r.Ran? && (r.value.end == Won <==> HitWithin(secret, lines, attempts))
    ensures var r := Play(low, high, attempts, secret, lines);
            r.Ran? && r.value.end == Won ==>
              0 < r.value.prompts <= attempts && lines[r.value.prompts - 1] == Some(secret)
              && forall k :: 0 <= k < r.value.prompts - 1 ==> lines[k] != Some(secret)
    ensures var r := Play(low, high, attempts, secret, lines);
            r.Ran? && !HitWithin(secret, lines, attempts) && Budget(1, attempts) <= |lines| ==>
              r.value.end == Lost && r.value.prompts == Budget(1, attempts)
    ensures var r := Play(low, high, attempts, secret, lines);
            r.Ran? && r.value.end == InputClosed <==>
              !HitWithin(secret, lines, attempts) && |lines| < attempts
  {
    var h := FirstHit(secret, lines);
    TurnsOutcome(secret, 1, attempts, lines);
    if HitWithin(secret, lines, attempts) {
      var k :| 0 <= k < attempts && k < |lines| && lines[k] == Some(secret);
      assert h <= k;
    }
    if h < Budget(1, attempts) && h < |lines| {
      assert lines[h] == Some(secret);
    }
  }

  /** Position of the prompt of turn k + 1 in a game's transcript (the introduction comes first). */
  function PromptAt(k: nat): nat
  {
    2 * k + 1
  }

  /** Position of the answer to line k in a game's transcript. */
  function ReplyAt(k: nat): nat
  {
    2 * k + 2
  }

  /**
    The prompts of an accepted game: after the introduction, the game
    prompts "Attempt 1", "Attempt 2", ... one per turn it plays.
   */
  lemma GuessPrompts(low: int, high: int, attempts: int, secret: int, lines: seq<Option<int>>)
    requires low < high && low <= secret <= high
    ensures Play(low, high, attempts, secret, lines).Ran?
    ensures var g := Play(low, high, attempts, secret, lines).value;
            forall k: nat :: k < g.prompts ==> PromptAt(k) < |g.events| && g.events[PromptAt(k)] == Ask(k + 1)
  {
    var g := Play(low, high, attempts, secret, lines).value;
    var t := Turns(secret, 1, attempts, lines);
    TurnsAsks(secret, 1, attempts, lines);
    TurnsLength(secret, 1, attempts, lines);
    assert g.events == [Intro(low, high, attempts)] + t.events;
    forall k: nat | k < g.prompts
      ensures PromptAt(k) < |g.events| && g.events[PromptAt(k)] == Ask(k + 1)
    {
      assert (2 * k) % 2 == 0 && (2 * k) / 2 == k;
      assert g.events[PromptAt(k)] == t.events[2 * k];
    }
  }

  /**
    The answers of an accepted game: the message after prompt k + 1 answers
    line k (a warning, a hint, or the win); only a prompt left unanswered
    because the lines ran out has none.
   */
  lemma GuessReplies(low: int, high: int, attempts: int, secret: int, lines: seq<Option<int>>)
    requires low < high && low <= secret <= high
    ensures Play(low, high, attempts, secret, lines).Ran?
    ensures var g := Play(low, high, attempts, secret, lines).value;
            forall k: nat :: k < g.prompts && ReplyAt(k) < |g.events| ==>
              k < |lines| && g.events[ReplyAt(k)] == Reply(secret, lines[k])
    ensures var g := Play(low, high, attempts, secret, lines).value;
            g.end != InputClosed && g.prompts > 0 ==> ReplyAt(g.prompts - 1) < |g.events|
  {
    var g := Play(low, high, attempts, secret, lines).value;
    var t := Turns(secret, 1, attempts, lines);
    TurnsReplies(secret, 1, attempts, lines);
    TurnsLength(secret, 1, attempts, lines);
    TurnsOutcome(secret, 1, attempts, lines);
    assert g.events == [Intro(low, high, attempts)] + t.events;
    forall k: nat | k < g.prompts && ReplyAt(k) < |g.events|
      ensures k < |lines| && g.events[ReplyAt(k)] == Reply(secret, lines[k])
    {
      assert (2 * k + 1) % 2 == 1 && (2 * k + 1) / 2 == k;
      assert g.events[ReplyAt(k)] == t.events[2 * k + 1];
    }
  }

  /**
    Only the last message of an accepted game can reveal the secret, and it
    does exactly when the game was won or lost.
   */
  lemma GuessFinal(low: int, high: int, attempts: int, secret: int, lines: seq<Option<int>>)
    requires low < high && low <= secret <= high
    ensures var r := Play(low, high, attempts, secret, lines);
            r.Ran? && forall j :: 0 <= j < |r.value.events| - 1 ==> !r.value.events[j].Final()
    ensures var r := Play(low, high, attempts, secret, lines);
            r.Ran? && (r.value.end == Won <==> r.value.events[|r.value.events| - 1] == Correct(secret))
    ensures var r := Play(low, high, attempts, secret, lines);
            r.Ran? && (r.value.end == Lost <==> r.value.events[|r.value.events| - 1] == OutOfAttempts(secret))
  {
    var r := Play(low, high, attempts, secret, lines);
    var t := Turns(secret, 1, attempts, lines);
    TurnsFinal(secret, 1, attempts, lines);
    assert r.value.events == [Intro(low, high, attempts)] + t.events;
    forall j | 1 <= j < |r.value.events|
      ensures r.value.events[j] == t.events[j - 1]
    {
    }
  }

  /** With no attempts to offer, the game prompts for nothing and is lost at once. */
  lemma NoAttemptsNoPrompt(low: int, high: int, attempts: int, secret: int, lines: seq<Option<int>>)
    requires low < high && low <= secret <= high
    requires attempts <= 0
    ensures Play(low, high, attempts, secret, lines)
         == Ran(Game([Intro(low, high, attempts), OutOfAttempts(secret)], 0, Lost))
  {
    assert [Intro(low, high, attempts)] + [OutOfAttempts(secret)]
        == [Intro(low, high, attempts), OutOfAttempts(secret)];
  }

  /** The turn loop never looks past the lines it prompted for. */
  lemma {:induction false} TurnsReadOnlyPrompted(secret: int, turn: int, attempts: int,
                                                 lines: seq<Option<int>>, more: seq<Option<int>>)
    requires Turns(secret, turn, attempts, lines).end != InputClosed
    ensures var g := Turns(secret, turn, attempts, lines);
            Turns(secret, turn, attempts, lines[..g.prompts] + more) == g
    decreases |lines|
  {
    var g := Turns(secret, turn, attempts, lines);
    var lines' := lines[..g.prompts] + more;
    if turn <= attempts && |lines| > 0 && lines[0] != Some(secret) {
      var rest := Turns(secret, turn + 1, attempts, lines[1..]);
      TurnsReadOnlyPrompted(secret, turn + 1, attempts, lines[1..], more);
      assert lines'[0] == lines[0];
      assert lines'[1..] == lines[1..][..rest.prompts] + more;
    } else if turn <= attempts && |lines| > 0 {
      assert lines'[0] == lines[0];
    }
  }

  /**
    Once the game is decided, no further line is read: replacing everything
    after the prompted lines changes nothing.
   */
  lemma LaterLinesUnread(low: int, high: int, attempts: int, secret: int,
                         lines: seq<Option<int>>, more: seq<Option<int>>)
    requires low < high && low <= secret <= high
    requires Play(low, high, attempts, secret, lines).value.end != InputClosed
    ensures var r := Play(low, high, attempts, secret, lines);
            Play(low, high, attempts, secret, lines[..r.value.prompts] + more) == r
  {
    TurnsReadOnlyPrompted(secret, 1, attempts, lines, more);
  }

  /**
    An unparseable line uses up its turn: when the first `attempts` lines
    are all unparseable the game is lost after `attempts` prompts, whatever
    follows.
   */
  lemma MalformedLinesUseTurns(low: int, high: int, attempts: int, secret: int, lines: seq<Option<int>>)
    requires low < high && low <= secret <= high
    requires 0 <= attempts <= |lines|
    requires forall k :: 0 <= k < attempts ==> lines[k].None?
    ensures var r := Play(low, high, attempts, secret, lines);
            r.Ran? && r.value.end == Lost && r.value.prompts == attempts
  {
    GuessOutcome(low, high, attempts, secret, lines);
  }

  /**
    One attempt and one unparseable line: the correct answer that follows
    comes too late.
   */
  lemma MalformedLineCostsTheOnlyAttempt(lines: seq<Option<int>>)
    requires lines == [None, Some(5)]
    ensures Play(1, 10, 1, 5, lines)
         == Ran(Game([Intro(1, 10, 1), Ask(1), NotAnInteger, OutOfAttempts(5)], 1, Lost))
  {
    var e2 := [OutOfAttempts(5)];
    var e1 := [Ask(1), NotAnInteger] + e2;
    assert [Intro(1, 10, 1)] + e1 == [Intro(1, 10, 1), Ask(1), NotAnInteger, OutOfAttempts(5)];
    assert Turns(5, 2, 1, lines[1..]) == Game(e2, 0, Lost);
    assert Turns(5, 1, 1, lines) == Game(e1, 1, Lost);
  }

  /** Secret 7, guesses 3, 9, 7: "higher", "lower", then the win on the third attempt. */
  lemma ScenarioWin(lines: seq<Option<int>>)
    requires lines == [Some(3), Some(9), Some(7)]
    ensures Play(1, 10, 3, 7, lines)
         == Ran(Game([Intro(1, 10, 3), Ask(1), Hint(Higher), Ask(2), Hint(Lower),
                      Ask(3), Correct(7)], 3, Won))
  {
    var e3 := [Ask(3), Correct(7)];
    var e2 := [Ask(2), Hint(Lower)] + e3;
    var e1 := [Ask(1), Hint(Higher)] + e2;
    assert [Intro(1, 10, 3)] + e1
        == [Intro(1, 10, 3), Ask(1), Hint(Higher), Ask(2), Hint(Lower), Ask(3), Correct(7)];
    assert Turns(7, 3, 3, lines[1..][1..]) == Game(e3, 1, Won);
    assert Turns(7, 2, 3, lines[1..]) == Game(e2, 2, Won);
    assert Turns(7, 1, 3, lines) == Game(e1, 3, Won);
  }

  /** Secret 5, guesses 1, 2 with two attempts: the loss reveals 5 and the command still returns normally. */
  lemma ScenarioLoss(lines: seq<Option<int>>)
    requires lines == [Some(1), Some(2)]
    ensures Play(1, 10, 2, 5, lines)
         == Ran(Game([Intro(1, 10, 2), Ask(1), Hint(Higher), Ask(2), Hint(Higher),
                      OutOfAttempts(5)], 2, Lost))
  {
    var e3 := [OutOfAttempts(5)];
    var e2 := [Ask(2), Hint(Higher)] + e3;
    var e1 := [Ask(1), Hint(Higher)] + e2;
    assert [Intro(1, 10, 2)] + e1
        == [Intro(1, 10, 2), Ask(1), Hint(Higher), Ask(2), Hint(Higher), OutOfAttempts(5)];
    assert Turns(5, 3, 2, lines[1..][1..]) == Game(e3, 0, Lost);
    assert Turns(5, 2, 2, lines[1..]) == Game(e2, 1, Lost);
    assert Turns(5, 1, 2, lines) == Game(e1, 2, Lost);
  }
}
