/** The `Game` object: the engine as the source writes it, with its
    six-slot lists updated in place, its question queues popped from the
    front and the narration appended to an output log. Every command is
    proved to do exactly what the matching function of `Rules` says. */
module Trivia {
  import opened Decimal
  import opened Rules

  class Game {
    var players: seq<string>
    const places: array<int>
    const purses: array<nat>
    const inPenaltyBox: array<bool>

    var popQuestions: seq<string>
    var scienceQuestions: seq<string>
    var sportsQuestions: seq<string>
    var rockQuestions: seq<string>

    var currentPlayer: nat
    var isGettingOutOfPenaltyBox: bool

    /** Every line printed so far, oldest first. */
    var output: seq<string>

    /** The abstract value of the game. */
    ghost function State(): Rules.State
      reads this`players, this`popQuestions, this`scienceQuestions, this`sportsQuestions
      reads this`rockQuestions, this`currentPlayer, this`isGettingOutOfPenaltyBox
      reads places, purses, inPenaltyBox
    {
      Rules.State(players, places[..], purses[..], inPenaltyBox[..],
                  popQuestions, scienceQuestions, sportsQuestions, rockQuestions,
                  currentPlayer, isGettingOutOfPenaltyBox)
    }

    ghost predicate Valid()
      reads this`players, this`popQuestions, this`scienceQuestions, this`sportsQuestions
      reads this`rockQuestions, this`currentPlayer, this`isGettingOutOfPenaltyBox
      reads places, purses, inPenaltyBox
    {
      Wf(State()) && QueuesInOrder(State())
    }

    /** A new game: no players, every slot zero, and each queue holding the
        fifty questions of its category in order, built one index at a time. */
    constructor ()
      ensures Valid() && State() == Initial() && output == []
      ensures fresh(places) && fresh(purses) && fresh(inPenaltyBox)
    {
      players := [];
      places := new int[Slots](_ => 0);
      purses := new nat[Slots](_ => 0);
      inPenaltyBox := new bool[Slots](_ => false);
      popQuestions, scienceQuestions, sportsQuestions, rockQuestions := [], [], [], [];
      currentPlayer := 0;
      isGettingOutOfPenaltyBox := false;
      output := [];
      new;
      for i := 0 to QueueLength
        invariant popQuestions == InitialQueue(Pop)[..i]
        invariant scienceQuestions == InitialQueue(Science)[..i]
        invariant sportsQuestions == InitialQueue(Sports)[..i]
        invariant rockQuestions == InitialQueue(Rock)[..i]
        modifies this`popQuestions, this`scienceQuestions, this`sportsQuestions, this`rockQuestions
      {
        InitialQueueGrows(Pop, i);
        InitialQueueGrows(Science, i);
        InitialQueueGrows(Sports, i);
        InitialQueueGrows(Rock, i);
        popQuestions := popQuestions + [CreateQuestion(i, Pop)];
        scienceQuestions := scienceQuestions + [CreateQuestion(i, Science)];
        sportsQuestions := sportsQuestions + [CreateQuestion(i, Sports)];
        rockQuestions := rockQuestions + [CreateQuestion(i, Rock)];
      }
      assert places[..] == seq(Slots, _ => 0);
      assert purses[..] == seq(Slots, _ => 0);
      assert inPenaltyBox[..] == seq(Slots, _ => false);
      assert InitialQueue(Pop)[..QueueLength] == InitialQueue(Pop);
      assert InitialQueue(Science)[..QueueLength] == InitialQueue(Science);
      assert InitialQueue(Sports)[..QueueLength] == InitialQueue(Sports);
      assert InitialQueue(Rock)[..QueueLength] == InitialQueue(Rock);
    }

    /** `how_many_players`: never more than five, since a sixth `add`
        would write past the six-slot lists. */
    function HowManyPlayers(): (n: nat)
      reads this`players, this`popQuestions, this`scienceQuestions, this`sportsQuestions
      reads this`rockQuestions, this`currentPlayer, this`isGettingOutOfPenaltyBox
      reads places, purses, inPenaltyBox
      ensures Valid() ==> n < Slots
    {
      |players|
    }

    /** `is_playable`: true exactly when answering would pass the turn to
        somebody else. */
    function IsPlayable(): (b: bool)
      reads this`players, this`popQuestions, this`scienceQuestions, this`sportsQuestions
      reads this`rockQuestions, this`currentPlayer, this`isGettingOutOfPenaltyBox
      reads places, purses, inPenaltyBox
      requires Valid()
      ensures b <==> HowManyPlayers() > 0 && NextPlayer(currentPlayer, HowManyPlayers()) != currentPlayer
    {
      HowManyPlayers() >= 2
    }

    /** `add`. */
    method Add(playerName: string) returns (r: bool)
      requires Valid() && HowManyPlayers() + 1 < Slots
      modifies this, places, purses, inPenaltyBox
      ensures Valid()
      ensures var reply := Rules.Add(old(State()), playerName);
        State() == reply.next && r == reply.result && output == old(output) + reply.lines
    {
      players := players + [playerName];
      places[HowManyPlayers()] := 0;
      purses[HowManyPlayers()] := 0;
      inPenaltyBox[HowManyPlayers()] := false;

      output := output + [playerName + " was added",
                          "They are player number " + NatToString(|players|)];
      r := true;
    }

    /** `roll`. The lines of the call are collected and then appended to
        the log together. */
    method Roll(roll: int)
      requires Valid() && HowManyPlayers() > 0 && RollCanAsk(State(), roll)
      modifies this, places
      ensures Valid()
      ensures var turn := Rules.Roll(old(State()), roll);
        State() == turn.next && output == old(output) + turn.lines
    {
      ghost var s := State();
      RollKeepsOrder(s, roll);
      var lines := [players[currentPlayer] + " is the current player",
                    "They have rolled a " + IntToString(roll)];
      if inPenaltyBox[currentPlayer] {
        if roll % 2 != 0 {
          isGettingOutOfPenaltyBox := true;
          lines := lines + [players[currentPlayer] + " is getting out of the penalty box"];
          ghost var flagged := State();
          var moved := MoveCurrentPlayer(roll);
          assert Rules.Roll(s, roll) == Turn(Move(flagged, roll).next, lines + moved);
          lines := lines + moved;
        } else {
          lines := lines + [players[currentPlayer] + " is not getting out of the penalty box"];
          isGettingOutOfPenaltyBox := false;
          assert Rules.Roll(s, roll) == Turn(State(), lines);
        }
      } else {
        var moved := MoveCurrentPlayer(roll);
        assert Rules.Roll(s, roll) == Turn(Move(s, roll).next, lines + moved);
        lines := lines + moved;
      }
      output := output + lines;
    }

    /** The move, its location and category lines and the question it
        asks, which the source writes out in both moving branches of `roll`. */
    method MoveCurrentPlayer(roll: int) returns (lines: seq<string>)
      requires Valid() && HowManyPlayers() > 0
      requires |Questions(State(), CategoryAt(Landing(State(), roll)))| > 0
      modifies this`popQuestions, this`scienceQuestions, this`sportsQuestions, this`rockQuestions
      modifies places
      ensures Valid()
      ensures var turn := Move(old(State()), roll);
        State() == turn.next && lines == turn.lines
    {
      ghost var s := State();
      ghost var p := Advance(places[currentPlayer], roll);
      places[currentPlayer] := places[currentPlayer] + roll;
      if places[currentPlayer] > 11 {
        places[currentPlayer] := places[currentPlayer] - 12;
      }
      assert places[..] == s.places[currentPlayer := p];
      var location := players[currentPlayer] + "'s new location is " + IntToString(places[currentPlayer]);
      var category := "The category is " + CategoryName(CurrentCategory());
      var question := AskQuestion();
      lines := [location, category, question];
    }

    /** `_current_category`. */
    function CurrentCategory(): (c: Category)
      reads this`players, this`popQuestions, this`scienceQuestions, this`sportsQuestions
      reads this`rockQuestions, this`currentPlayer, this`isGettingOutOfPenaltyBox
      reads places, purses, inPenaltyBox
      requires Valid() && HowManyPlayers() > 0
      ensures 0 <= places[currentPlayer] <= 11 ==> c == [Pop, Science, Sports, Rock][places[currentPlayer] % 4]
      ensures places[currentPlayer] < 0 || 11 < places[currentPlayer] ==> c == Rock
    {
      CategoryAt(places[currentPlayer])
    }

    /** `_ask_question`: pops the front of the current category's queue;
        that question is the line it prints. */
    method AskQuestion() returns (question: string)
      requires Valid() && HowManyPlayers() > 0
      requires |Questions(State(), CurrentCategory())| > 0
      modifies this`popQuestions, this`scienceQuestions, this`sportsQuestions, this`rockQuestions
      ensures Valid()
      ensures var asked := Rules.AskQuestion(old(State()));
        State() == asked.0 && question == asked.1
    {
      ghost var s := State();
      var c := CurrentCategory();
      AskKeepsOrder(s);
      assert Rules.AskQuestion(s) == (WithQuestions(s, c, Questions(s, c)[1..]), Questions(s, c)[0]);
      match c
      case Pop =>
        question := popQuestions[0];
        popQuestions := popQuestions[1..];
      case Science =>
        question := scienceQuestions[0];
        scienceQuestions := scienceQuestions[1..];
      case Sports =>
        question := sportsQuestions[0];
        sportsQuestions := sportsQuestions[1..];
      case Rock =>
        question := rockQuestions[0];
        rockQuestions := rockQuestions[1..];
      assert State() == WithQuestions(s, c, Questions(s, c)[1..]);
    }

    /** `was_correctly_answered`: returns whether there is still no winner. */
    method WasCorrectlyAnswered() returns (thereIsNoWinner: bool)
      requires Valid() && HowManyPlayers() > 0
      modifies this, purses
      ensures Valid()
      ensures var reply := Rules.WasCorrectlyAnswered(old(State()));
        State() == reply.next && thereIsNoWinner == reply.result && output == old(output) + reply.lines
    {
      if inPenaltyBox[currentPlayer] {
        if isGettingOutOfPenaltyBox {
          purses[currentPlayer] := purses[currentPlayer] + 1;
          output := output + ["Answer was correct!!!!",
                              players[currentPlayer] + " now has " + NatToString(purses[currentPlayer]) + " Gold Coins."];
          thereIsNoWinner := !DidPlayerWin();
          PassTurn();
        } else {
          PassTurn();
          thereIsNoWinner := true;
        }
      } else {
        purses[currentPlayer] := purses[currentPlayer] + 1;
        output := output + ["Answer was corrent!!!!",
                            players[currentPlayer] + " now has " + NatToString(purses[currentPlayer]) + " Gold Coins."];
        thereIsNoWinner := !DidPlayerWin();
        PassTurn();
      }
    }

    /** `wrong_answer`: always returns true. */
    method WrongAnswer() returns (r: bool)
      requires Valid() && HowManyPlayers() > 0
      modifies this, inPenaltyBox
      ensures Valid()
      ensures var reply := Rules.WrongAnswer(old(State()));
        State() == reply.next && r == reply.result && output == old(output) + reply.lines
    {
      output := output + ["Question was incorrectly answered",
                          players[currentPlayer] + " was sent to the penalty box"];
      inPenaltyBox[currentPlayer] := true;
      PassTurn();
      r := true;
    }

    /** The turn passes: one up, back to the first player after the last. */
    method PassTurn()
      requires currentPlayer < |players|
      modifies this`currentPlayer
      ensures currentPlayer == NextPlayer(old(currentPlayer), |players|)
    {
      currentPlayer := currentPlayer + 1;
      if currentPlayer == |players| {
        currentPlayer := 0;
      }
    }

    /** `_did_player_win`. */
    function DidPlayerWin(): bool
      reads this`players, this`popQuestions, this`scienceQuestions, this`sportsQuestions
      reads this`rockQuestions, this`currentPlayer, this`isGettingOutOfPenaltyBox
      reads places, purses, inPenaltyBox
      requires places.Length == Slots && purses.Length == Slots && currentPlayer < Slots
    {
      purses[currentPlayer] == WinningPurse
    }

    /** The lines printed since the last call, clearing the log, as a
        line-collecting printer hands them back. */
    method TakeOutput() returns (lines: seq<string>)
      modifies this`output
      ensures lines == old(output) && output == []
    {
      lines := output;
      output := [];
    }
  }
}
