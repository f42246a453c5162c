/**
 * The round engine of the game page: the two scores, the demo gesture
 * capture, the start of a round, and the reveal animation driven by a
 * timer whose every timeout is one call of `Tick`.
 */
module Game {
  import opened Rounds

  /** The text of the page's result label. */
  datatype Message =
    | MakeYourChoice
    | CaptureFirst
    | Detected(gesture: Choice)
    | ItsATie
    | YouWin
    | RobotWinsRound

  /** The label text announcing a decided round. */
  function OutcomeMessage(o: Outcome): Message
  {
    match o
    case HumanWins => YouWin
    case RobotWins => RobotWinsRound
    case Tie => ItsATie
  }

  /** Ticks of the reveal timer up to and including the one that resolves the round. */
  const RevealTicks: int := 10

  class GamePage {
    var humanScore: int
    var robotScore: int
    /** The gesture captured since the last round, if any. */
    var humanChoice: Option<Choice>
    /** The demo detector's counter; absent until the first capture. */
    var demoCounter: Option<int>
    var animationCounter: int
    /** The human choice bound into the reveal timer's callback for the round in flight. */
    var roundChoice: Choice
    /** The choice buttons and the capture button are disabled (a round is in flight). */
    var busy: bool
    var message: Message
    /** The robot's picture: None is the "unknown" icon. */
    var robotDisplay: Option<Choice>

    /** Outcomes of all resolved rounds, oldest first. */
    ghost var results: seq<Outcome>
    /** Number of gesture captures so far. */
    ghost var captures: nat

    /** The scores are the tally of the resolved rounds. */
    ghost predicate Scored()
      reads this`humanScore, this`robotScore, this`results
    {
      humanScore == Tally(results).human && robotScore == Tally(results).robot
    }

    /** The demo counter is the one reached after the captures so far. */
    ghost predicate Counted()
      reads this`demoCounter, this`captures
    {
      && demoCounter == DemoAfter(captures)
      && (demoCounter.Some? ==> 0 <= demoCounter.value < |Choices|)
    }

    ghost predicate Valid()
      reads this
    {
      && Scored()
      && Counted()
      && (humanChoice.Some? ==> demoCounter.Some? && 0 <= demoCounter.value < |Choices|
                                && humanChoice.value == Choices[demoCounter.value])
      && (busy ==> 0 <= animationCounter < RevealTicks)
    }

    /** A fresh page: scores 0 to 0, nothing captured, controls enabled. */
    constructor ()
      ensures Valid()
      ensures humanScore == 0 && robotScore == 0
      ensures humanChoice == None && demoCounter == None
      ensures !busy && message == MakeYourChoice && robotDisplay == None
      ensures results == [] && captures == 0
    {
      humanScore, robotScore := 0, 0;
      humanChoice, demoCounter := None, None;
      animationCounter := 0;
      roundChoice := Rock;
      busy := false;
      message := MakeYourChoice;
      robotDisplay := None;
      results, captures := [], 0;
    }

    /**
     * The demo capture: reports rock first, then the next choice in the
     * cycle rock, paper, scissors on each later call.
     */
    method CaptureGesture()
      requires Valid() && !busy
      modifies this`demoCounter, this`humanChoice, this`message, this`captures
      ensures Valid()
      ensures captures == old(captures) + 1
      ensures demoCounter == Some(NextDemo(old(demoCounter)))
      ensures 0 <= demoCounter.value < |Choices|
      ensures humanChoice == Some(Choices[demoCounter.value])
      ensures humanChoice == Some(GestureAt(captures))
      ensures old(captures) == 0 ==> humanChoice == Some(Rock)
      ensures old(humanChoice).Some? ==> humanChoice == Some(Successor(old(humanChoice).value))
      ensures message == Detected(humanChoice.value)
    {
      DemoAfterIsMod(captures + 1);
      var d := if demoCounter.None? then 0 else (demoCounter.value + 1) % 3;
      demoCounter, humanChoice, message, captures := Some(d), Some(Choices[d]), Detected(Choices[d]), captures + 1;
    }

    /**
     * Starts a round with the button's choice, or with the captured gesture
     * when there is one; with neither, only asks for a capture.
     */
    method PlayRound(button: Option<Choice>)
      requires Valid() && !busy
      modifies this`busy, this`animationCounter, this`roundChoice, this`message
      ensures Valid()
      ensures button.None? && humanChoice.None? ==>
        && !busy && message == CaptureFirst
        && animationCounter == old(animationCounter) && roundChoice == old(roundChoice)
      ensures button.Some? || humanChoice.Some? ==>
        && busy && animationCounter == 0 && message == old(message)
        && roundChoice == (if humanChoice.Some? then humanChoice.value else button.value)
    {
      if button.None? && humanChoice.None? {
        message := CaptureFirst;
        return;
      }
      var choice := if humanChoice.Some? then humanChoice.value else button.value;
      busy := true;
      animationCounter := 0;
      roundChoice := choice;
    }

    /**
     * One timeout of the reveal timer. Before the last tick the robot's
     * picture only cycles through the choices; on the last one `robot`
     * (the random pick) is shown, the round is decided, the controls come
     * back and the captured gesture is forgotten.
     */
    method Tick(robot: Choice)
      requires Valid() && busy
      modifies this`animationCounter, this`robotDisplay, this`busy, this`humanChoice
      modifies this`humanScore, this`robotScore, this`message, this`results
      ensures Valid()
      ensures animationCounter == old(animationCounter) + 1 <= RevealTicks
      ensures animationCounter < RevealTicks ==>
        && busy && robotDisplay == Some(Choices[animationCounter % 3])
        && humanScore == old(humanScore) && robotScore == old(robotScore)
        && results == old(results) && humanChoice == old(humanChoice) && message == old(message)
      ensures animationCounter == RevealTicks ==>
        && !busy && humanChoice == None && robotDisplay == Some(robot)
        && results == old(results) + [Resolve(roundChoice, robot)]
        && message == OutcomeMessage(Resolve(roundChoice, robot))
        && humanScore == old(humanScore) + (if Resolve(roundChoice, robot) == HumanWins then 1 else 0)
        && robotScore == old(robotScore) + (if Resolve(roundChoice, robot) == RobotWins then 1 else 0)
    {
      var counter := animationCounter + 1;
      if counter < RevealTicks {
        animationCounter, robotDisplay := counter, Some(Choices[counter % 3]);
      } else {
        animationCounter, robotDisplay, busy, humanChoice := counter, Some(robot), false, None;
        DetermineWinner(roundChoice, robot);
      }
    }

    /**
     * Decides a round and updates the scores: a tie changes nothing, else
     * the winner's counter goes up by exactly one.
     */
    method DetermineWinner(h: Choice, r: Choice)
      requires Scored()
      modifies this`humanScore, this`robotScore, this`message, this`results
      ensures Scored()
      ensures results == old(results) + [Resolve(h, r)]
      ensures message == OutcomeMessage(Resolve(h, r))
      ensures humanScore == old(humanScore) + (if Resolve(h, r) == HumanWins then 1 else 0)
      ensures robotScore == old(robotScore) + (if Resolve(h, r) == RobotWins then 1 else 0)
      ensures h == r ==>
        humanScore == old(humanScore) && robotScore == old(robotScore) && message == ItsATie
      ensures h != r && Beats(h) == r ==>
        humanScore == old(humanScore) + 1 && robotScore == old(robotScore) && message == YouWin
      ensures h != r && Beats(r) == h ==>
        robotScore == old(robotScore) + 1 && humanScore == old(humanScore) && message == RobotWinsRound
    {
      TallySnoc(results, Resolve(h, r));
      results := results + [Resolve(h, r)];
      if h == r {
        message := ItsATie;
        return;
      }
      if Beats(h) == r {
        message := YouWin;
        humanScore := humanScore + 1;
      } else {
        message := RobotWinsRound;
        robotScore := robotScore + 1;
      }
    }
  }

  /**
   * A whole round as the event loop runs it: the round is started, the
   * reveal timer fires while the robot's picture cycles, and its
   * `RevealTicks`-th timeout resolves the round, exactly once, and stops it.
   */
  method PlayFullRound(page: GamePage, button: Option<Choice>, robot: Choice) returns (ticks: int)
    requires page.Valid() && !page.busy
    requires button.Some? || page.humanChoice.Some?
    modifies page`busy, page`animationCounter, page`roundChoice, page`robotDisplay, page`humanChoice
    modifies page`humanScore, page`robotScore, page`message, page`results
    ensures page.Valid() && !page.busy && page.humanChoice == None
    ensures ticks == RevealTicks
    ensures page.robotDisplay == Some(robot)
    ensures page.demoCounter == old(page.demoCounter) && page.captures == old(page.captures)
    ensures var o := Resolve(if old(page.humanChoice).Some? then old(page.humanChoice).value else button.value, robot);
      && page.results == old(page.results) + [o]
      && page.message == OutcomeMessage(o)
      && page.humanScore == old(page.humanScore) + (if o == HumanWins then 1 else 0)
      && page.robotScore == old(page.robotScore) + (if o == RobotWins then 1 else 0)
  {
    ghost var human := if page.humanChoice.Some? then page.humanChoice.value else button.value;
    ghost var o := Resolve(human, robot);
    ghost var results0, human0, robot0 := page.results, page.humanScore, page.robotScore;
    page.PlayRound(button);
    ticks := 0;
    while ticks < RevealTicks - 1
      invariant page.Valid() && page.busy
      invariant page.animationCounter == ticks <= RevealTicks - 1
      invariant page.roundChoice == human
      invariant page.results == results0 && page.humanScore == human0 && page.robotScore == robot0
    {
      page.Tick(robot);
      ticks := ticks + 1;
    }
    page.Tick(robot);
    ticks := ticks + 1;
    assert page.results == results0 + [o] && page.message == OutcomeMessage(o);
  }

  /** A first round on a fresh page: paper against rock leaves the board at 1 to 0. */
  method PaperBeatsRockFirstRound() returns (human: int, robot: int)
    ensures human == 1 && robot == 0
  {
    var page := new GamePage();
    var ticks := PlayFullRound(page, Some(Paper), Rock);
    TallySnoc([], HumanWins);
    assert [] + [HumanWins] == [HumanWins];
    human, robot := page.humanScore, page.robotScore;
  }

  /**
   * Capture, play the captured gesture, capture again: the second capture
   * continues the demo cycle, since a round leaves the demo counter alone.
   */
  method CaptureAcrossRound(robot: Choice) returns (first: Choice, second: Choice)
    ensures first == Rock && second == Paper
  {
    var page := new GamePage();
    page.CaptureGesture();
    first := page.humanChoice.value;
    var ticks := PlayFullRound(page, None, robot);
    page.CaptureGesture();
    second := page.humanChoice.value;
    GestureCycle(1);
  }
}
