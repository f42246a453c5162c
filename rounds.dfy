/**
 * The rules of one rock-paper-scissors round as played by the game page:
 * the three choices, the table of what each choice beats, the decision of
 * a round, the running scoreboard, and the demo "gesture detector" that
 * stands in for camera recognition.
 */
module Rounds {

  datatype Option<T> = None | Some(value: T)

  datatype Choice = Rock | Paper | Scissors

  /** The page's list of choices, in the order it indexes them. */
  const Choices: seq<Choice> := [Rock, Paper, Scissors]

  /** The win table: the single choice that `c` defeats. */
  function Beats(c: Choice): (d: Choice)
    ensures d != c
  {
    match c
    case Rock => Scissors
    case Paper => Rock
    case Scissors => Paper
  }

  /** The win table is a 3-cycle: following it three times comes back. */
  lemma BeatsIsThreeCycle(c: Choice)
    ensures Beats(Beats(c)) != c
    ensures Beats(Beats(Beats(c))) == c
    ensures {Beats(c), Beats(Beats(c)), c} == {Rock, Paper, Scissors}
  {
  }

  /** For two different choices exactly one of them beats the other. */
  lemma ExactlyOneSideWins(h: Choice, r: Choice)
    requires h != r
    ensures (Beats(h) == r) != (Beats(r) == h)
  {
  }

  datatype Outcome = HumanWins | RobotWins | Tie

  /** The outcome seen from the other side of the table. */
  function Mirror(o: Outcome): Outcome
  {
    match o
    case HumanWins => RobotWins
    case RobotWins => HumanWins
    case Tie => Tie
  }

  /**
   * The decision of a round: equal choices tie, otherwise the human wins
   * exactly when the win table maps the human's choice to the robot's.
   * The third case is, by the cycle, the robot's choice beating the human's.
   */
  function Resolve(h: Choice, r: Choice): (o: Outcome)
    ensures o == Tie <==> h == r
    ensures o == HumanWins <==> h != r && Beats(h) == r
    ensures o == RobotWins <==> h != r && Beats(r) == h
  {
    if h == r then Tie
    else if Beats(h) == r then HumanWins
    else RobotWins
  }

  /** Swapping the two sides swaps the winner and keeps a tie a tie. */
  lemma ResolveMirror(h: Choice, r: Choice)
    ensures Resolve(r, h) == Mirror(Resolve(h, r))
  {
  }

  /** The pair of running scores. */
  datatype Scoreboard = Scoreboard(human: nat, robot: nat)

  /** Applies one outcome: the winner's counter rises by one, a tie changes nothing. */
  function Award(s: Scoreboard, o: Outcome): (t: Scoreboard)
    ensures t.human >= s.human && t.robot >= s.robot
    ensures o == Tie <==> t == s
    ensures o == HumanWins ==> t.human == s.human + 1 && t.robot == s.robot
    ensures o == RobotWins ==> t.robot == s.robot + 1 && t.human == s.human
  {
    match o
    case HumanWins => Scoreboard(s.human + 1, s.robot)
    case RobotWins => Scoreboard(s.human, s.robot + 1)
    case Tie => s
  }

  /** The scoreboard after a history of outcomes, starting from 0 to 0. */
  function Tally(os: seq<Outcome>): Scoreboard
  {
    if os == [] then Scoreboard(0, 0)
    else Award(Tally(os[..|os| - 1]), os[|os| - 1])
  }

  /** The number of rounds in a history that were not ties. */
  function Decisive(os: seq<Outcome>): nat
  {
    if os == [] then 0
    else Decisive(os[..|os| - 1]) + (if os[|os| - 1] == Tie then 0 else 1)
  }

  /** Appending an outcome to the history awards it to the tally. */
  lemma TallySnoc(os: seq<Outcome>, o: Outcome)
    ensures Tally(os + [o]) == Award(Tally(os), o)
    ensures Decisive(os + [o]) == Decisive(os) + (if o == Tie then 0 else 1)
  {
  }

  /** The two scores together count exactly the rounds that were not ties. */
  lemma {:induction false} TallyCountsDecisive(os: seq<Outcome>)
    ensures Tally(os).human + Tally(os).robot == Decisive(os)
    ensures Decisive(os) <= |os|
  {
    if os != [] {
      TallyCountsDecisive(os[..|os| - 1]);
    }
  }

  /** Neither score ever decreases as the history grows. */
  lemma {:induction false} TallyMonotone(os: seq<Outcome>, k: nat)
    requires k <= |os|
    ensures Tally(os[..k]).human <= Tally(os).human
    ensures Tally(os[..k]).robot <= Tally(os).robot
  {
    if k < |os| {
      var init := os[..|os| - 1];
      assert os[..k] == init[..k];
      TallyMonotone(init, k);
    } else {
      assert os[..k] == os;
    }
  }

  /** Win, tie, loss, win from a fresh page leaves the board at 2 to 1. */
  lemma TallyExample()
    ensures Tally([HumanWins, Tie, RobotWins, HumanWins]) == Scoreboard(2, 1)
  {
    TallySnoc([], HumanWins);
    assert [] + [HumanWins] == [HumanWins];
    TallySnoc([HumanWins], Tie);
    assert [HumanWins] + [Tie] == [HumanWins, Tie];
    TallySnoc([HumanWins, Tie], RobotWins);
    assert [HumanWins, Tie] + [RobotWins] == [HumanWins, Tie, RobotWins];
    TallySnoc([HumanWins, Tie, RobotWins], HumanWins);
    assert [HumanWins, Tie, RobotWins] + [HumanWins] == [HumanWins, Tie, RobotWins, HumanWins];
  }

  /**
   * One step of the demo detector's counter: created at 0 on first use,
   * then advanced by one modulo 3.
   */
  function NextDemo(d: Option<int>): (n: int)
    ensures 0 <= n < |Choices|
    ensures d.None? ==> n == 0
    ensures d.Some? && 0 <= d.value < 2 ==> n == d.value + 1
    ensures d.Some? && d.value == 2 ==> n == 0
  {
    match d
    case None => 0
    case Some(k) => (k + 1) % 3
  }

  /** The demo counter after `n` captures (absent before the first). */
  function DemoAfter(n: nat): Option<int>
  {
    if n == 0 then None else Some(NextDemo(DemoAfter(n - 1)))
  }

  /** The choice the demo detector reports on capture number `n` (from 1). */
  function GestureAt(n: nat): Choice
    requires n >= 1
  {
    Choices[(n - 1) % 3]
  }

  /** The choice that follows `c` in the detector's cycle. */
  function Successor(c: Choice): Choice
  {
    match c
    case Rock => Paper
    case Paper => Scissors
    case Scissors => Rock
  }

  /** After `n` captures the counter is `(n - 1) mod 3`, always a valid index. */
  lemma {:induction false} DemoAfterIsMod(n: nat)
    requires n >= 1
    ensures DemoAfter(n) == Some((n - 1) % 3)
    ensures 0 <= DemoAfter(n).value < |Choices|
  {
    if n > 1 {
      DemoAfterIsMod(n - 1);
    }
  }

  /** The first capture creates the counter at 0 and reports rock. */
  lemma FirstGesture()
    ensures DemoAfter(1) == Some(0)
    ensures GestureAt(1) == Rock
  {
  }

  /** Each later capture reports the successor in the cycle rock, paper, scissors. */
  lemma GestureCycle(n: nat)
    requires n >= 1
    ensures GestureAt(n + 1) == Successor(GestureAt(n))
  {
  }
}
