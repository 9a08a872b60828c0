/** Properties of whole games: any sequence of commands the engine accepts,
    played from any well-formed state. */
module Properties {
  import opened Rules

  /** One call made on the engine by whoever drives the game. */
  datatype Call = AddCall(name: string) | RollCall(value: int) | CorrectCall | WrongCall

  /** The calls the engine is defined for in state `s`. */
  predicate Enabled(s: State, call: Call)
    requires Wf(s)
  {
    match call
    case AddCall(_) => |s.players| + 1 < Slots
    case RollCall(v) => |s.players| > 0 && RollCanAsk(s, v)
    case CorrectCall => |s.players| > 0
    case WrongCall => |s.players| > 0
  }

  function Apply(s: State, call: Call): (t: State)
    requires Wf(s) && Enabled(s, call)
    ensures Wf(t) && |s.players| <= |t.players|
  {
    match call
    case AddCall(name) => Add(s, name).next
    case RollCall(v) => Roll(s, v).next
    case CorrectCall => WasCorrectlyAnswered(s).next
    case WrongCall => WrongAnswer(s).next
  }

  /** Every call of `calls`, made in order from `s`, is one the engine is defined for. */
  predicate Runs(s: State, calls: seq<Call>)
    requires Wf(s)
    decreases |calls|
  {
    calls == [] || (Enabled(s, calls[0]) && Runs(Apply(s, calls[0]), calls[1..]))
  }

  function Final(s: State, calls: seq<Call>): (t: State)
    requires Wf(s) && Runs(s, calls)
    ensures Wf(t) && |s.players| <= |t.players|
    decreases |calls|
  {
    if calls == [] then s else Final(Apply(s, calls[0]), calls[1..])
  }

  predicate IsAnswer(call: Call) {
    call.CorrectCall? || call.WrongCall?
  }

  /** No call takes a coin away from anyone. */
  lemma {:induction false} PursesNeverDecrease(s: State, calls: seq<Call>)
    requires Wf(s) && Runs(s, calls)
    ensures forall i :: 0 <= i < Slots ==> s.purses[i] <= Final(s, calls).purses[i]
    decreases |calls|
  {
    if calls != [] {
      PursesNeverDecrease(Apply(s, calls[0]), calls[1..]);
    }
  }

  /** Once boxed, always boxed: no call clears a penalty-box flag. */
  lemma {:induction false} PenaltyBoxIsPermanent(s: State, calls: seq<Call>)
    requires Wf(s) && Runs(s, calls)
    ensures forall i :: 0 <= i < Slots && s.inPenaltyBox[i] ==> Final(s, calls).inPenaltyBox[i]
    decreases |calls|
  {
    if calls != [] {
      PenaltyBoxIsPermanent(Apply(s, calls[0]), calls[1..]);
    }
  }

  /** Every call keeps each queue what is left of its initial queue, so
      the questions of each category are asked in the order generated. */
  lemma {:induction false} QueuesStayInOrder(s: State, calls: seq<Call>)
    requires Wf(s) && Runs(s, calls) && QueuesInOrder(s)
    ensures QueuesInOrder(Final(s, calls))
    decreases |calls|
  {
    if calls != [] {
      StepInOrder(s, calls[0]);
      QueuesStayInOrder(Apply(s, calls[0]), calls[1..]);
    }
  }

  lemma StepInOrder(s: State, call: Call)
    requires Wf(s) && Enabled(s, call) && QueuesInOrder(s)
    ensures QueuesInOrder(Apply(s, call))
  {
    match call
    case AddCall(name) =>
      assert SameQueues(s, Add(s, name).next);
    case RollCall(v) =>
      RollKeepsOrder(s, v);
    case CorrectCall =>
      assert SameQueues(s, WasCorrectlyAnswered(s).next);
    case WrongCall =>
      assert SameQueues(s, WrongAnswer(s).next);
  }

  /** How many of `calls` are answers (right or wrong). */
  function Answers(calls: seq<Call>): (k: nat)
    ensures k <= |calls|
    ensures (forall j :: 0 <= j < |calls| ==> IsAnswer(calls[j])) ==> k == |calls|
  {
    if calls == [] then 0 else (if IsAnswer(calls[0]) then 1 else 0) + Answers(calls[1..])
  }

  /** The player who holds the turn after it has passed `k` times from `c`. */
  function Rotate(c: nat, k: nat, n: nat): (r: nat)
    requires c < n
    ensures r < n
    decreases k
  {
    if k == 0 then c else Rotate(NextPlayer(c, n), k - 1, n)
  }

  /** Every answer passes the turn to the next player, cyclically; rolls
      leave it where it is. */
  lemma {:induction false} TurnOrder(s: State, calls: seq<Call>)
    requires Wf(s) && Runs(s, calls) && |s.players| > 0
    requires forall k :: 0 <= k < |calls| ==> !calls[k].AddCall?
    ensures Final(s, calls).players == s.players
    ensures Final(s, calls).currentPlayer == Rotate(s.currentPlayer, Answers(calls), |s.players|)
    decreases |calls|
  {
    if calls != [] {
      FinalStep(s, calls);
      NoAddsInTail(calls);
      StepTurn(s, calls[0]);
      RotateStep(s.currentPlayer, calls, |s.players|);
      TurnOrder(Apply(s, calls[0]), calls[1..]);
    }
  }

  /** An answer passes the turn once; any other call does not. */
  lemma RotateStep(c: nat, calls: seq<Call>, n: nat)
    requires c < n && calls != []
    ensures Rotate(c, Answers(calls), n)
         == Rotate(if IsAnswer(calls[0]) then NextPlayer(c, n) else c, Answers(calls[1..]), n)
  {
  }

  /** A run is its first call followed by the run of the rest. */
  lemma FinalStep(s: State, calls: seq<Call>)
    requires Wf(s) && Runs(s, calls) && calls != []
    ensures Enabled(s, calls[0]) && Runs(Apply(s, calls[0]), calls[1..])
    ensures Final(s, calls) == Final(Apply(s, calls[0]), calls[1..])
  {
  }

  lemma NoAddsInTail(calls: seq<Call>)
    requires calls != [] && forall k :: 0 <= k < |calls| ==> !calls[k].AddCall?
    ensures forall k :: 0 <= k < |calls| - 1 ==> !calls[1..][k].AddCall?
  {
    forall k | 0 <= k < |calls| - 1 ensures !calls[1..][k].AddCall? {
      assert calls[1..][k] == calls[k + 1];
    }
  }

  /** What one call other than `add` does to the player list and the turn. */
  lemma StepTurn(s: State, call: Call)
    requires Wf(s) && Enabled(s, call) && !call.AddCall?
    ensures Apply(s, call).players == s.players
    ensures Apply(s, call).currentPlayer
         == if IsAnswer(call) then NextPlayer(s.currentPlayer, |s.players|) else s.currentPlayer
  {
  }

  /** Passing the turn `k` times counts up from `c` until the last player,
      then starts again from the first. */
  lemma {:induction false} RotateFrom(c: nat, k: nat, n: nat)
    requires c < n
    ensures Rotate(c, k, n) == if c + k < n then c + k else Rotate(0, c + k - n, n)
    decreases k
  {
    if k > 0 {
      RotateFrom(NextPlayer(c, n), k - 1, n);
    }
  }

  /** Passing the turn once per player comes back to where it started. */
  lemma RotateCycle(c: nat, n: nat)
    requires c < n
    ensures Rotate(c, n, n) == c
  {
    RotateFrom(c, n, n);
    RotateFrom(0, c, n);
  }

  /** After as many consecutive answers as there are players, the turn is
      back where it started. */
  lemma TurnCycle(s: State, calls: seq<Call>)
    requires Wf(s) && Runs(s, calls) && |s.players| > 0
    requires forall k :: 0 <= k < |calls| ==> IsAnswer(calls[k])
    requires |calls| == |s.players|
    ensures Final(s, calls).currentPlayer == s.currentPlayer
  {
    TurnOrder(s, calls);
    RotateCycle(s.currentPlayer, |s.players|);
  }

  /** Adding players never disturbs the players already there. */
  lemma {:induction false} AddsKeepEarlierPlayers(s: State, calls: seq<Call>)
    requires Wf(s) && Runs(s, calls)
    requires forall k :: 0 <= k < |calls| ==> calls[k].AddCall?
    ensures var t := Final(s, calls);
      && t.players == s.players + seq(|calls|, k requires 0 <= k < |calls| => calls[k].name)
      && t.currentPlayer == s.currentPlayer
      && (forall i :: 0 <= i < |s.players| ==> SameSlot(s, t, i))
    decreases |calls|
  {
    if calls != [] {
      var t := Apply(s, calls[0]);
      var rest := calls[1..];
      FinalStep(s, calls);
      AddsInTail(calls);
      assert t == Add(s, calls[0].name).next;
      AddsKeepEarlierPlayers(t, rest);
      forall i | 0 <= i < |s.players| ensures SameSlot(s, Final(s, calls), i) {
        assert SameSlot(s, t, i);
        assert SameSlot(t, Final(t, rest), i);
      }
    }
  }

  /** The rest of a sequence of adds is a sequence of adds, and its names
      are the names after the first. */
  lemma AddsInTail(calls: seq<Call>)
    requires calls != [] && forall k :: 0 <= k < |calls| ==> calls[k].AddCall?
    ensures forall k :: 0 <= k < |calls| - 1 ==> calls[1..][k].AddCall?
    ensures seq(|calls|, k requires 0 <= k < |calls| => calls[k].name)
         == [calls[0].name] + seq(|calls| - 1, k requires 0 <= k < |calls| - 1 => calls[1..][k].name)
  {
    forall k | 0 <= k < |calls| - 1 ensures calls[1..][k].AddCall? {
      assert calls[1..][k] == calls[k + 1];
    }
  }

  /** Every position is a cell of the 12-cell board. */
  predicate OnBoard(s: State) {
    forall i :: 0 <= i < |s.places| ==> 0 <= s.places[i] <= 11
  }

  /** Rolls of at most twelve cells (the game's driver rolls 1 to 5). */
  predicate ShortRolls(calls: seq<Call>) {
    forall k :: 0 <= k < |calls| && calls[k].RollCall? ==> 0 <= calls[k].value <= 12
  }

  /** With rolls of 0 to 12 cells, subtracting twelve once keeps every
      player on the board. */
  lemma {:induction false} PositionsStayOnBoard(s: State, calls: seq<Call>)
    requires Wf(s) && Runs(s, calls) && OnBoard(s) && ShortRolls(calls)
    ensures OnBoard(Final(s, calls))
    decreases |calls|
  {
    if calls != [] {
      var t := Apply(s, calls[0]);
      StepOnBoard(s, calls[0]);
      assert ShortRolls(calls[1..]) by {
        forall k | 0 <= k < |calls| - 1 && calls[1..][k].RollCall?
          ensures 0 <= calls[1..][k].value <= 12
        {
          assert calls[1..][k] == calls[k + 1];
        }
      }
      PositionsStayOnBoard(t, calls[1..]);
    }
  }

  lemma StepOnBoard(s: State, call: Call)
    requires Wf(s) && Enabled(s, call) && OnBoard(s)
    requires call.RollCall? ==> 0 <= call.value <= 12
    ensures OnBoard(Apply(s, call))
  {
    match call
    case AddCall(name) =>
    case RollCall(v) =>
      if Moves(s, v) {
        RollMoves(s, v);
      } else {
        RollBoxedEven(s, v);
      }
    case CorrectCall =>
    case WrongCall =>
  }

  /** A player sent to the box stays there; when the turn comes back to
      them, an odd roll gets them moving and asked a question in that same
      call, and an even roll asks nothing and moves nobody. */
  lemma PenaltyRoundTrip(s: State, calls: seq<Call>, roll: int)
    requires Wf(s) && QueuesInOrder(s) && |s.players| > 0
    requires Runs(WrongAnswer(s).next, calls)
    requires Final(WrongAnswer(s).next, calls).currentPlayer == s.currentPlayer
    requires RollCanAsk(Final(WrongAnswer(s).next, calls), roll)
    ensures var u := Final(WrongAnswer(s).next, calls);
      var t := Roll(u, roll);
      && u.inPenaltyBox[s.currentPlayer]
      && (roll % 2 != 0 ==>
            && Moves(u, roll) && t.next.isGettingOutOfPenaltyBox && |t.lines| == 6
            && t.next.places[s.currentPlayer] == Landing(u, roll)
            && t.lines[5] == CreateQuestion(Asked(u, CategoryAt(Landing(u, roll))), CategoryAt(Landing(u, roll))))
      && (roll % 2 == 0 ==>
            && t.next.places == u.places && t.next.inPenaltyBox == u.inPenaltyBox
            && SameQueues(u, t.next) && |t.lines| == 3)
  {
    var boxed := WrongAnswer(s).next;
    assert boxed.inPenaltyBox[s.currentPlayer];
    PenaltyBoxIsPermanent(boxed, calls);
    assert SameQueues(s, boxed);
    QueuesStayInOrder(boxed, calls);
    var u := Final(boxed, calls);
    if roll % 2 != 0 {
      RollBoxedOdd(u, roll);
      RollMoves(u, roll);
      RollKeepsOrder(u, roll);
    } else {
      RollBoxedEven(u, roll);
    }
  }
}
