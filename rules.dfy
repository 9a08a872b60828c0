/** The turn engine of the trivia game as a pure state machine: one value
    `State` for everything the engine keeps, and one function per command
    giving the next state, the value the command returns and the narration
    lines it emits, in order. The class `Trivia.Game` is proved to do
    exactly what these functions say. */
module Rules {
  import opened Decimal

  /** Number of slots in the fixed per-player lists. */
  const Slots := 6
  /** Number of questions generated per category. */
  const QueueLength := 50
  /** The purse that wins the game. */
  const WinningPurse := 6

  datatype Category = Pop | Science | Sports | Rock

  function CategoryName(c: Category): string {
    match c
    case Pop => "Pop"
    case Science => "Science"
    case Sports => "Sports"
    case Rock => "Rock"
  }

  /** The category of a board position, by the source's chain of tests:
      on the board it is the position modulo 4, anywhere else it is Rock. */
  function CategoryAt(place: int): (c: Category)
    ensures 0 <= place <= 11 ==> c == [Pop, Science, Sports, Rock][place % 4]
    ensures place < 0 || 11 < place ==> c == Rock
  {
    if place == 0 then Pop
    else if place == 4 then Pop
    else if place == 8 then Pop
    else if place == 1 then Science
    else if place == 5 then Science
    else if place == 9 then Science
    else if place == 2 then Sports
    else if place == 6 then Sports
    else if place == 10 then Sports
    else Rock
  }

  /** Moving `roll` cells: past cell 11, twelve is subtracted once. */
  function Advance(place: int, roll: int): (p: int)
    ensures 0 <= place <= 11 && 0 <= roll <= 12 ==> 0 <= p <= 11 && p == (place + roll) % 12
    ensures p == place + roll || p == place + roll - 12
  {
    if place + roll > 11 then place + roll - 12 else place + roll
  }

  /** The player after `i` in a cyclic turn order of `n` players. */
  function NextPlayer(i: nat, n: nat): (j: nat)
    requires i < n
    ensures j < n && j == (i + 1) % n
  {
    if i + 1 == n then 0 else i + 1
  }

  function CreateQuestion(index: nat, c: Category): string {
    CategoryName(c) + " Question " + NatToString(index)
  }

  /** No two questions are alike: the text names both the category and the index. */
  lemma CreateQuestionInjective(i: nat, c: Category, j: nat, d: Category)
    requires CreateQuestion(i, c) == CreateQuestion(j, d)
    ensures i == j && c == d
  {
    var q := CreateQuestion(i, c);
    QuestionStart(i, c);
    QuestionStart(j, d);
    var k := |CategoryName(c) + " Question "|;
    assert q[k..] == NatToString(i);
    assert CreateQuestion(j, d)[k..] == NatToString(j);
    NatToStringInjective(i, j);
  }

  /** A question starts with the first two letters of its category's name,
      which already tell the four categories apart. */
  lemma QuestionStart(i: nat, c: Category)
    ensures var q := CreateQuestion(i, c);
      |q| >= 2 && q[0] == CategoryName(c)[0] && q[1] == CategoryName(c)[1]
  {
  }

  /** The number in a question's text reads back to the index it was
      generated with. */
  lemma QuestionNumber(index: nat, c: Category)
    ensures var q := CreateQuestion(index, c);
      var k := |CategoryName(c) + " Question "|;
      && |q| > k && q[..k] == CategoryName(c) + " Question "
      && AllDigits(q[k..]) && ParseNat(q[k..]) == index
  {
    var k := |CategoryName(c) + " Question "|;
    assert CreateQuestion(index, c)[k..] == NatToString(index);
    ParseNatToString(index);
  }

  /** The questions of one category as the engine generates them, in order. */
  function InitialQueue(c: Category): (q: seq<string>)
    ensures |q| == QueueLength && QueueWf(q, c)
  {
    seq(QueueLength, i requires 0 <= i < QueueLength => CreateQuestion(i, c))
  }

  /** Generating the questions one index at a time builds the initial queue. */
  lemma InitialQueueGrows(c: Category, i: nat)
    requires i < QueueLength
    ensures InitialQueue(c)[..i + 1] == InitialQueue(c)[..i] + [CreateQuestion(i, c)]
  {
  }

  datatype State = State(
    players: seq<string>,
    places: seq<int>,
    purses: seq<nat>,
    inPenaltyBox: seq<bool>,
    popQuestions: seq<string>,
    scienceQuestions: seq<string>,
    sportsQuestions: seq<string>,
    rockQuestions: seq<string>,
    currentPlayer: nat,
    isGettingOutOfPenaltyBox: bool)

  /** What a roll leaves behind, and the lines it emits. */
  datatype Turn = Turn(next: State, lines: seq<string>)

  /** What `add` and the two answer commands leave behind, return and emit. */
  datatype Reply = Reply(next: State, result: bool, lines: seq<string>)

  function Questions(s: State, c: Category): seq<string> {
    match c
    case Pop => s.popQuestions
    case Science => s.scienceQuestions
    case Sports => s.sportsQuestions
    case Rock => s.rockQuestions
  }

  function WithQuestions(s: State, c: Category, q: seq<string>): (t: State)
    ensures Questions(t, c) == q
    ensures forall d :: d != c ==> Questions(t, d) == Questions(s, d)
  {
    match c
    case Pop => s.(popQuestions := q)
    case Science => s.(scienceQuestions := q)
    case Sports => s.(sportsQuestions := q)
    case Rock => s.(rockQuestions := q)
  }

  /** A queue that has only ever been popped: what is left of the initial one. */
  predicate QueueWf(q: seq<string>, c: Category) {
    && |q| <= QueueLength
    && forall i :: 0 <= i < |q| ==> q[i] == CreateQuestion(QueueLength - |q| + i, c)
  }

  /** Every queue is what is left of its initial queue: the questions
      still to come, in the order they were generated. */
  predicate QueuesInOrder(s: State) {
    && QueueWf(s.popQuestions, Pop) && QueueWf(s.scienceQuestions, Science)
    && QueueWf(s.sportsQuestions, Sports) && QueueWf(s.rockQuestions, Rock)
  }

  /** How many questions of category `c` have been asked so far. */
  function Asked(s: State, c: Category): nat
    requires Wf(s)
  {
    QueueLength - |Questions(s, c)|
  }

  /** The invariant of the engine: six slots per list, at most five players
      (the sixth `add` writes past the lists), the current player is a
      player, slots no player owns are still zero, and no queue is longer
      than the fifty questions generated for it. */
  predicate Wf(s: State) {
    && |s.places| == Slots && |s.purses| == Slots && |s.inPenaltyBox| == Slots
    && |s.players| < Slots
    && (if |s.players| == 0 then s.currentPlayer == 0 else s.currentPlayer < |s.players|)
    && (forall i :: |s.players| <= i < Slots ==> s.places[i] == 0)
    && (forall i :: |s.players| <= i < Slots ==> s.purses[i] == 0)
    && (forall i :: |s.players| <= i < Slots ==> !s.inPenaltyBox[i])
    && |s.popQuestions| <= QueueLength && |s.scienceQuestions| <= QueueLength
    && |s.sportsQuestions| <= QueueLength && |s.rockQuestions| <= QueueLength
  }

  /** The state of a new game: no players, full queues. */
  function Initial(): (s: State)
    ensures Wf(s) && QueuesInOrder(s) && s.players == []
    ensures forall c :: Questions(s, c) == InitialQueue(c) && Asked(s, c) == 0
  {
    var zeros := seq(Slots, _ => 0);
    State([], zeros, zeros, seq(Slots, _ => false),
          InitialQueue(Pop), InitialQueue(Science), InitialQueue(Sports), InitialQueue(Rock),
          0, false)
  }

  /** Slot `i` holds the same place, purse and box flag in both states. */
  predicate SameSlot(s: State, t: State, i: nat)
    requires i < |s.places| && i < |t.places| && i < |s.purses| && i < |t.purses|
    requires i < |s.inPenaltyBox| && i < |t.inPenaltyBox|
  {
    s.places[i] == t.places[i] && s.purses[i] == t.purses[i] && s.inPenaltyBox[i] == t.inPenaltyBox[i]
  }

  predicate SameQueues(s: State, t: State) {
    forall c :: Questions(s, c) == Questions(t, c)
  }

  /** `add`: appends the name, then resets slot `|players|` -- the slot
      after the new player's -- and reports the new count. */
  function Add(s: State, name: string): (r: Reply)
    requires Wf(s) && |s.players| + 1 < Slots
    ensures Wf(r.next) && r.result
    ensures r.next.players == s.players + [name]
    ensures r.lines == [name + " was added", "They are player number " + NatToString(|s.players| + 1)]
    ensures forall i :: 0 <= i <= |s.players| ==> SameSlot(s, r.next, i)
    ensures r.next.places[|s.players|] == 0 && r.next.purses[|s.players|] == 0
    ensures !r.next.inPenaltyBox[|s.players|]
    ensures r.next.currentPlayer == s.currentPlayer
    ensures r.next.isGettingOutOfPenaltyBox == s.isGettingOutOfPenaltyBox
    ensures SameQueues(s, r.next)
  {
    var players := s.players + [name];
    var k := |players|;
    var next := s.(players := players, places := s.places[k := 0], purses := s.purses[k := 0],
                   inPenaltyBox := s.inPenaltyBox[k := false]);
    Reply(next, true, [name + " was added", "They are player number " + NatToString(|players|)])
  }

  /** Whether a roll moves the current player (and so asks a question). */
  predicate Moves(s: State, roll: int)
    requires Wf(s) && |s.players| > 0
  {
    !s.inPenaltyBox[s.currentPlayer] || roll % 2 != 0
  }

  /** The cell the current player lands on if the roll moves them. */
  function Landing(s: State, roll: int): int
    requires Wf(s) && |s.players| > 0
  {
    Advance(s.places[s.currentPlayer], roll)
  }

  /** A roll that moves the player needs a question left in the category landed on. */
  predicate RollCanAsk(s: State, roll: int)
    requires Wf(s) && |s.players| > 0
  {
    Moves(s, roll) ==> |Questions(s, CategoryAt(Landing(s, roll)))| > 0
  }

  /** `_ask_question`: pops the front of the current category's queue;
      the front is the question asked. */
  function AskQuestion(s: State): (r: (State, string))
    requires Wf(s) && |s.players| > 0
    requires |Questions(s, CategoryAt(s.places[s.currentPlayer]))| > 0
    ensures Wf(r.0)
    ensures var c := CategoryAt(s.places[s.currentPlayer]);
      && r.1 == Questions(s, c)[0]
      && Questions(r.0, c) == Questions(s, c)[1..]
      && (forall d :: d != c ==> Questions(r.0, d) == Questions(s, d))
    ensures r.0.(popQuestions := s.popQuestions, scienceQuestions := s.scienceQuestions,
                 sportsQuestions := s.sportsQuestions, rockQuestions := s.rockQuestions) == s
  {
    var c := CategoryAt(s.places[s.currentPlayer]);
    (WithQuestions(s, c, Questions(s, c)[1..]), Questions(s, c)[0])
  }

  /** Asking keeps every queue in order, and the question asked is the
      next one of the current category. */
  lemma AskKeepsOrder(s: State)
    requires Wf(s) && |s.players| > 0 && QueuesInOrder(s)
    requires |Questions(s, CategoryAt(s.places[s.currentPlayer]))| > 0
    ensures var c := CategoryAt(s.places[s.currentPlayer]);
      && QueuesInOrder(AskQuestion(s).0)
      && AskQuestion(s).1 == CreateQuestion(Asked(s, c), c)
  {
    var c := CategoryAt(s.places[s.currentPlayer]);
    NextQuestion(s, c);
    PopKeepsOrder(s, AskQuestion(s).0, c);
  }

  /** Popping the front of a queue that is what is left of its initial
      queue yields the next question in order and leaves the rest. */
  lemma QueuePop(q: seq<string>, c: Category)
    requires QueueWf(q, c) && |q| > 0
    ensures QueueWf(q[1..], c)
    ensures q[0] == CreateQuestion(QueueLength - |q|, c)
  {
    forall i | 0 <= i < |q[1..]|
      ensures q[1..][i] == CreateQuestion(QueueLength - |q[1..]| + i, c)
    {
      assert q[1..][i] == q[i + 1];
    }
  }

  /** The front of an in-order queue is the question whose index is the
      number already asked from that category. */
  lemma NextQuestion(s: State, c: Category)
    requires Wf(s) && QueuesInOrder(s) && |Questions(s, c)| > 0
    ensures Questions(s, c)[0] == CreateQuestion(Asked(s, c), c)
  {
    InOrderByCategory(s);
    QueuePop(Questions(s, c), c);
  }

  /** Taking the front off one queue and leaving the others alone keeps
      every queue in order. */
  lemma PopKeepsOrder(s: State, t: State, c: Category)
    requires QueuesInOrder(s) && |Questions(s, c)| > 0
    requires Questions(t, c) == Questions(s, c)[1..]
    requires forall d :: d != c ==> Questions(t, d) == Questions(s, d)
    ensures QueuesInOrder(t)
  {
    InOrderByCategory(s);
    InOrderByCategory(t);
    QueuePop(Questions(s, c), c);
  }

  /** The queues are in order exactly when each category's queue is. */
  lemma InOrderByCategory(s: State)
    ensures QueuesInOrder(s) <==> forall c :: QueueWf(Questions(s, c), c)
  {
    if QueuesInOrder(s) {
      forall c ensures QueueWf(Questions(s, c), c) {
        match c
        case Pop =>
        case Science =>
        case Sports =>
        case Rock =>
      }
    } else {
      assert !QueueWf(Questions(s, Pop), Pop) || !QueueWf(Questions(s, Science), Science)
          || !QueueWf(Questions(s, Sports), Sports) || !QueueWf(Questions(s, Rock), Rock);
    }
  }

  /** Moving the current player and asking them a question (the part of
      `roll` that the source writes out twice). */
  function Move(s: State, roll: int): (t: Turn)
    requires Wf(s) && |s.players| > 0
    requires |Questions(s, CategoryAt(Landing(s, roll)))| > 0
    ensures Wf(t.next)
    ensures var cp := s.currentPlayer;
      var p := Landing(s, roll);
      var c := CategoryAt(p);
      && t.next.places == s.places[cp := p]
      && t.next.(places := s.places, popQuestions := s.popQuestions,
                 scienceQuestions := s.scienceQuestions, sportsQuestions := s.sportsQuestions,
                 rockQuestions := s.rockQuestions) == s
      && t.lines == [s.players[cp] + "'s new location is " + IntToString(p),
                     "The category is " + CategoryName(c),
                     Questions(s, c)[0]]
      && Questions(t.next, c) == Questions(s, c)[1..]
      && (forall d :: d != c ==> Questions(t.next, d) == Questions(s, d))
  {
    var cp := s.currentPlayer;
    var name := s.players[cp];
    var p := Advance(s.places[cp], roll);
    var moved := s.(places := s.places[cp := p]);
    var asked := AskQuestion(moved);
    Turn(asked.0, [name + "'s new location is " + IntToString(p),
                   "The category is " + CategoryName(CategoryAt(p)),
                   asked.1])
  }

  /** `roll`. */
  function Roll(s: State, roll: int): (t: Turn)
    requires Wf(s) && |s.players| > 0 && RollCanAsk(s, roll)
    ensures Wf(t.next)
    ensures var cp := s.currentPlayer;
      && t.next.players == s.players
      && t.next.currentPlayer == cp
      && t.next.purses == s.purses
      && t.next.inPenaltyBox == s.inPenaltyBox
  {
    var cp := s.currentPlayer;
    var name := s.players[cp];
    var header := [name + " is the current player", "They have rolled a " + IntToString(roll)];
    if s.inPenaltyBox[cp] then
      if roll % 2 != 0 then
        var moved := Move(s.(isGettingOutOfPenaltyBox := true), roll);
        Turn(moved.next, header + [name + " is getting out of the penalty box"] + moved.lines)
      else
        Turn(s.(isGettingOutOfPenaltyBox := false),
             header + [name + " is not getting out of the penalty box"])
    else
      var moved := Move(s, roll);
      Turn(moved.next, header + moved.lines)
  }

  /** Every roll first names the current player and the number rolled. */
  lemma RollHeader(s: State, roll: int)
    requires Wf(s) && |s.players| > 0 && RollCanAsk(s, roll)
    ensures var t := Roll(s, roll);
      && |t.lines| >= 2
      && t.lines[0] == s.players[s.currentPlayer] + " is the current player"
      && t.lines[1] == "They have rolled a " + IntToString(roll)
  {
    var name := s.players[s.currentPlayer];
    var header := [name + " is the current player", "They have rolled a " + IntToString(roll)];
    if s.inPenaltyBox[s.currentPlayer] && roll % 2 != 0 {
      var moved := Move(s.(isGettingOutOfPenaltyBox := true), roll);
      assert Roll(s, roll).lines == header + ([name + " is getting out of the penalty box"] + moved.lines);
    } else if s.inPenaltyBox[s.currentPlayer] {
      assert Roll(s, roll).lines == header + [name + " is not getting out of the penalty box"];
    } else {
      assert Roll(s, roll).lines == header + Move(s, roll).lines;
    }
  }

  /** A boxed player who rolls even stays put: three lines, and only the
      getting-out flag changes (it is cleared). */
  lemma RollBoxedEven(s: State, roll: int)
    requires Wf(s) && |s.players| > 0
    requires s.inPenaltyBox[s.currentPlayer] && roll % 2 == 0
    ensures RollCanAsk(s, roll)
    ensures var t := Roll(s, roll);
      && t.next == s.(isGettingOutOfPenaltyBox := false)
      && |t.lines| == 3
      && t.lines[2] == s.players[s.currentPlayer] + " is not getting out of the penalty box"
  {
  }

  /** A boxed player who rolls odd sets the flag, stays marked as boxed,
      and moves and is asked a question in the same call: six lines. */
  lemma RollBoxedOdd(s: State, roll: int)
    requires Wf(s) && |s.players| > 0 && RollCanAsk(s, roll)
    requires s.inPenaltyBox[s.currentPlayer] && roll % 2 != 0
    ensures var t := Roll(s, roll);
      && Moves(s, roll)
      && t.next.isGettingOutOfPenaltyBox
      && t.next.inPenaltyBox[s.currentPlayer]
      && |t.lines| == 6
      && t.lines[2] == s.players[s.currentPlayer] + " is getting out of the penalty box"
  {
  }

  /** A player outside the box always moves: five lines, and the
      getting-out flag is left as it was. */
  lemma RollUnboxed(s: State, roll: int)
    requires Wf(s) && |s.players| > 0 && RollCanAsk(s, roll)
    requires !s.inPenaltyBox[s.currentPlayer]
    ensures var t := Roll(s, roll);
      && Moves(s, roll)
      && |t.lines| == 5
      && t.next.isGettingOutOfPenaltyBox == s.isGettingOutOfPenaltyBox
  {
  }

  /** A roll that moves the player: the new place, the category of that
      place, and the next question of that category, taken from that
      queue alone. */
  lemma RollMoves(s: State, roll: int)
    requires Wf(s) && |s.players| > 0 && RollCanAsk(s, roll) && Moves(s, roll)
    ensures var t := Roll(s, roll);
      var cp := s.currentPlayer;
      var p := Landing(s, roll);
      var c := CategoryAt(p);
      var n := |t.lines|;
      && n >= 3
      && t.next.places == s.places[cp := p]
      && t.lines[n - 3] == s.players[cp] + "'s new location is " + IntToString(p)
      && t.lines[n - 2] == "The category is " + CategoryName(c)
      && t.lines[n - 1] == Questions(s, c)[0]
      && Questions(t.next, c) == Questions(s, c)[1..]
      && (forall d :: d != c ==> Questions(t.next, d) == Questions(s, d))
  {
    var cp := s.currentPlayer;
    var name := s.players[cp];
    var header := [name + " is the current player", "They have rolled a " + IntToString(roll)];
    if s.inPenaltyBox[cp] {
      var flagged := s.(isGettingOutOfPenaltyBox := true);
      assert Landing(flagged, roll) == Landing(s, roll);
      assert Questions(flagged, CategoryAt(Landing(s, roll))) == Questions(s, CategoryAt(Landing(s, roll)));
      var moved := Move(flagged, roll);
      assert Roll(s, roll) == Turn(moved.next, header + [name + " is getting out of the penalty box"] + moved.lines);
    } else {
      var moved := Move(s, roll);
      assert Roll(s, roll) == Turn(moved.next, header + moved.lines);
    }
  }

  /** A roll keeps every queue in order, and a roll that moves the player
      asks the next question of the category landed on. */
  lemma RollKeepsOrder(s: State, roll: int)
    requires Wf(s) && |s.players| > 0 && RollCanAsk(s, roll) && QueuesInOrder(s)
    ensures var t := Roll(s, roll);
      && QueuesInOrder(t.next)
      && (Moves(s, roll) ==>
            var c := CategoryAt(Landing(s, roll));
            t.lines[|t.lines| - 1] == CreateQuestion(Asked(s, c), c))
  {
    if Moves(s, roll) {
      var c := CategoryAt(Landing(s, roll));
      RollMoves(s, roll);
      NextQuestion(s, c);
      PopKeepsOrder(s, Roll(s, roll).next, c);
    } else {
      RollBoxedEven(s, roll);
      assert SameQueues(s, Roll(s, roll).next);
    }
  }

  /** `_did_player_win`: the current purse is exactly six. */
  function DidPlayerWin(s: State): bool
    requires Wf(s) && |s.players| > 0
  {
    s.purses[s.currentPlayer] == WinningPurse
  }

  /** Paying the current player one coin and passing the turn; `message`
      is the success line, which the source spells two ways. */
  function Award(s: State, message: string): (r: Reply)
    requires Wf(s) && |s.players| > 0
    ensures Wf(r.next)
    ensures var cp := s.currentPlayer;
      && r.next == s.(purses := s.purses[cp := s.purses[cp] + 1],
                      currentPlayer := NextPlayer(cp, |s.players|))
      && r.lines == [message, s.players[cp] + " now has " + NatToString(s.purses[cp] + 1) + " Gold Coins."]
      && (r.result <==> s.purses[cp] + 1 != WinningPurse)
  {
    var cp := s.currentPlayer;
    var paid := s.(purses := s.purses[cp := s.purses[cp] + 1]);
    var thereIsNoWinner := !DidPlayerWin(paid);
    Reply(paid.(currentPlayer := NextPlayer(cp, |s.players|)), thereIsNoWinner,
          [message, s.players[cp] + " now has " + NatToString(paid.purses[cp]) + " Gold Coins."])
  }

  /** `was_correctly_answered`: returns whether there is still no winner. */
  function WasCorrectlyAnswered(s: State): (r: Reply)
    requires Wf(s) && |s.players| > 0
    ensures Wf(r.next)
    ensures r.next.currentPlayer == NextPlayer(s.currentPlayer, |s.players|)
    ensures r.next.players == s.players && r.next.places == s.places
    ensures r.next.inPenaltyBox == s.inPenaltyBox && SameQueues(s, r.next)
    ensures r.next.isGettingOutOfPenaltyBox == s.isGettingOutOfPenaltyBox
    // a boxed player who did not roll odd earns nothing and hears nothing
    ensures var cp := s.currentPlayer;
      s.inPenaltyBox[cp] && !s.isGettingOutOfPenaltyBox ==>
        r.result && r.lines == [] && r.next.purses == s.purses
    // everyone else earns exactly one coin; false exactly when that makes six
    ensures var cp := s.currentPlayer;
      !s.inPenaltyBox[cp] || s.isGettingOutOfPenaltyBox ==>
        && r.next.purses == s.purses[cp := s.purses[cp] + 1]
        && r.lines == [if s.inPenaltyBox[cp] then "Answer was correct!!!!" else "Answer was corrent!!!!",
                       s.players[cp] + " now has " + NatToString(s.purses[cp] + 1) + " Gold Coins."]
        && (r.result <==> s.purses[cp] + 1 != WinningPurse)
    ensures forall i :: 0 <= i < Slots ==> s.purses[i] <= r.next.purses[i]
    ensures !r.result <==> r.next.purses[s.currentPlayer] == WinningPurse
                           && r.next.purses != s.purses
  {
    var cp := s.currentPlayer;
    if s.inPenaltyBox[cp] then
      if s.isGettingOutOfPenaltyBox then
        Award(s, "Answer was correct!!!!")
      else
        Reply(s.(currentPlayer := NextPlayer(cp, |s.players|)), true, [])
    else
      Award(s, "Answer was corrent!!!!")
  }

  /** `wrong_answer`: boxes the current player and passes the turn. */
  function WrongAnswer(s: State): (r: Reply)
    requires Wf(s) && |s.players| > 0
    ensures Wf(r.next) && r.result
    ensures r.lines == ["Question was incorrectly answered",
                        s.players[s.currentPlayer] + " was sent to the penalty box"]
    ensures r.next == s.(inPenaltyBox := s.inPenaltyBox[s.currentPlayer := true],
                         currentPlayer := NextPlayer(s.currentPlayer, |s.players|))
  {
    var cp := s.currentPlayer;
    var boxed := s.(inPenaltyBox := s.inPenaltyBox[cp := true]);
    Reply(boxed.(currentPlayer := NextPlayer(cp, |s.players|)), true,
          ["Question was incorrectly answered", s.players[cp] + " was sent to the penalty box"])
  }
}
