# Trivia game engine

A Dafny model of the `Game` class of the trivia kata (`src/main.py`): the
turn engine that the replay harness drives with `add`, `roll`,
`was_correctly_answered` and `wrong_answer` calls. Every call changes the
engine's state in place and prints a fixed sequence of narration lines.

The model has four modules.

- `Decimal` (`decimal.dfy`): how the numbers in the narration lines are
  written. Player numbers, coin counts, rolls and locations print as
  Python's `str()` prints them. Parsing functions prove each rendering
  reads back to its number.
- `Rules` (`rules.dfy`). The engine's state is the value `State`. There is
  one function per command, giving:
  - the next state;
  - the value returned (the `Reply` datatype);
  - the lines printed, in order.

  `Wf` is the invariant every command keeps:
  - six slots per per-player list;
  - at most five players;
  - the current player is a player;
  - unowned slots are zero.

  `QueuesInOrder` says each queue is what is left of the fifty questions
  generated for its category. The lemmas give the source's promises, one
  case at a time.
- `Properties` (`properties.dfy`): whole games. A game is a sequence of
  `Call`s that the engine accepts (`Runs`), played from any well-formed
  state. Proved properties:
  - coins are never lost;
  - the penalty box is never left;
  - questions are always asked in order;
  - answers pass the turn cyclically and rolls never change it;
  - `add` leaves earlier players alone;
  - short rolls keep everyone on the board;
  - the round trip of a player sent to the box.
- `Trivia` (`game.dfy`): the class `Trivia.Game`, the engine as the source
  writes it:
  - the six-slot `places`, `purses` and `inPenaltyBox` arrays, written in
    place;
  - the four queues, popped from the front;
  - `currentPlayer`, counted up and wrapped;
  - the getting-out flag;
  - an `output` log the printer lines are appended to.

  The constructor builds the queues in the source's loop. Each command
  method states that the new abstract state, its return value and the
  lines it adds to `output` are exactly what the matching `Rules`
  function gives.

The source's quirks are kept as written:
- The wrap past cell 11 subtracts twelve once; it is not a modulus.
- A position off the board has category Rock.
- Success is spelled "correct" in the boxed branch and "corrent" otherwise.
- A player who gets out of the box stays marked as boxed, so every even
  roll they make later leaves them again without moving.
- The getting-out flag is left untouched while the roller is not boxed.
- `add` resets slot `len(players)` after appending, which is the slot after
  the new player. With six-slot lists, only five adds succeed.

The category is the position modulo 4 only on cells 0 to 11. Cell 12
would be Rock, not Pop (`src/main.py:130-150`).

## Model

| member | source | states |
|---|---|---|
| Decimal.NatToString | src/main.py:158 | a coin count prints as its shortest decimal numeral: at least one digit, all digits, no leading zero unless the count is zero |
| Decimal.IntToString | src/main.py:82 | a rolled number prints with a leading minus sign exactly when it is negative |
| Decimal.ParseNatToString | src/main.py:70 | the printed player number reads back to that number |
| Decimal.IntToStringRoundTrip | src/main.py:115 | a printed location or roll (signed) reads back to the same integer |
| Decimal.NatToStringInjective | src/main.py:177 | different coin counts print differently |
| Rules.CategoryAt | src/main.py:130-150 | 0, 4 and 8 are Pop, 1, 5 and 9 Science, 2, 6 and 10 Sports; on the board this is the position modulo 4; every position off the board is Rock |
| Rules.Advance | src/main.py:91-97 | the new position is the old position plus the roll, less twelve if it passed cell 11; from the board with a roll of 0..12 it stays on the board and equals (old + roll) mod 12 |
| Rules.NextPlayer | src/main.py:162-164 | passing the turn goes from i to (i + 1) mod n and stays below n |
| Rules.CreateQuestion | src/main.py:56-58 | no contract of its own; QuestionNumber and CreateQuestionInjective state what the text means |
| Rules.QuestionNumber | src/main.py:58 | a question is its category's name, then " Question ", then a numeral that reads back to the index it was made with |
| Rules.CreateQuestionInjective | src/main.py:56-58 | two generated questions are equal only if they have the same index and the same category |
| Rules.InitialQueue | src/main.py:45-49 | the fifty questions generated for a category, a full queue in order: entry i is "Cat Question i" |
| Rules.InitialQueueGrows | src/main.py:45-49 | appending question i to the first i questions gives the first i + 1 |
| Rules.WithQuestions | src/main.py:120-128 | replacing one category's queue leaves the other three queues as they were |
| Rules.Initial | src/main.py:31-49 | a new game has no players, zero places, purses and box flags, and each full queue holds "Cat Question 0" to "Cat Question 49" in order, none asked yet |
| Rules.Add | src/main.py:63-72 | returns true; appends the name; prints exactly "name was added" and "They are player number n"; every earlier player's slot is unchanged and the new player's slot is zero; turn, flag and queues untouched; the invariant is kept |
| Rules.AskQuestion | src/main.py:120-128 | the question printed is the front of the current category's queue; that queue loses its front; the other queues and every other field are unchanged |
| Rules.QueuePop | src/main.py:122 | popping an in-order queue leaves an in-order queue, and its front is question number 50 - length |
| Rules.NextQuestion | src/main.py:45-49 | the front of an in-order queue is "Cat Question k", where k is the number of questions already asked from it |
| Rules.PopKeepsOrder | src/main.py:120-128 | popping one queue and leaving the others alone keeps every queue in order |
| Rules.AskKeepsOrder | src/main.py:120-128 | asking keeps the queues in order, and the k-th question asked of a category is "Cat Question k" |
| Rules.Move | src/main.py:91-103 | the player's new place is Advance of the old one; the lines are the location, the category of the new place and the front of that category's queue, which is popped; nothing else changes |
| Rules.Roll | src/main.py:78-118 | a roll keeps the invariant and never changes the players, the turn, the purses or the box flags |
| Rules.RollHeader | src/main.py:79-82 | every roll first prints "name is the current player" and "They have rolled a r" |
| Rules.RollBoxedEven | src/main.py:104-108 | a boxed player rolling even: exactly three lines, the third "name is not getting out of the penalty box"; the flag is cleared and nothing else changes |
| Rules.RollBoxedOdd | src/main.py:84-103 | a boxed player rolling odd: the flag is set, the player moves and stays boxed, and exactly six lines are printed, the third "name is getting out of the penalty box" |
| Rules.RollUnboxed | src/main.py:109-118 | an unboxed player always moves, exactly five lines are printed and the flag is left as it was |
| Rules.RollMoves | src/main.py:91-118 | a roll that moves: the place becomes the landing cell, the last three lines are the location, the category and that category's popped front, and the other queues are unchanged |
| Rules.RollKeepsOrder | src/main.py:99-103 | a roll keeps the queues in order, and a roll that moves prints the next question of the category landed on |
| Rules.DidPlayerWin | src/main.py:199-200 | no contract of its own; Rules.WasCorrectlyAnswered and Rules.Award state that the answer returns false exactly when the new purse is six |
| Rules.Award | src/main.py:155-166 | the current player's purse grows by exactly one and nothing else of theirs changes; the turn passes; the lines are the success message and "name now has n Gold Coins." with the new count; the result is false exactly when that count is six |
| Rules.WasCorrectlyAnswered | src/main.py:152-185 | always passes the turn; a boxed player without the flag gets nothing, prints nothing and it returns true; anyone else gets exactly one coin, is told the new count after "correct" (boxed) or "corrent" (unboxed), and it returns false exactly when the purse reaches six; no purse decreases |
| Rules.WrongAnswer | src/main.py:187-197 | returns true, prints the two lines, boxes the current player and passes the turn; nothing else changes |
| Properties.Apply | src/main.py:63-197 | each command keeps the invariant and never removes a player |
| Properties.Final | src/main.py:63-197 | a run keeps the invariant and never removes a player |
| Properties.PursesNeverDecrease | src/main.py:156 | no sequence of calls takes a coin from anyone |
| Properties.PenaltyBoxIsPermanent | src/main.py:192 | once boxed, a player stays boxed for the rest of the game |
| Properties.QueuesStayInOrder | src/main.py:120-128 | every sequence of calls keeps each queue what is left of its initial queue |
| Properties.StepInOrder | src/main.py:120-128 | every single call keeps the queues in order |
| Properties.Answers | src/main.py:152-197 | the number of answers in a sequence is at most its length, and equal to it when every call is an answer |
| Properties.Rotate | src/main.py:162-164 | the turn after any number of passes is still one of the players |
| Properties.TurnOrder | src/main.py:194-196 | without adds, the players are unchanged, and the turn ends where k passes from the start lead, where k is the number of answers |
| Properties.StepTurn | src/main.py:181-183 | an answer passes the turn once; a roll leaves it and the players alone |
| Properties.RotateStep | src/main.py:168-170 | the first call of a sequence passes the turn once if it is an answer |
| Properties.RotateFrom | src/main.py:162-164 | passing the turn counts up until the last player, then restarts from the first |
| Properties.RotateCycle | src/main.py:162-164 | as many passes as there are players return the turn to where it was |
| Properties.TurnCycle | src/main.py:162-164 | after as many consecutive answers as there are players, the same player holds the turn |
| Properties.FinalStep | src/main.py:63-197 | a run is its first call followed by the run of the rest |
| Properties.AddsKeepEarlierPlayers | src/main.py:63-72 | a run of adds appends the names in order, keeps the turn, and leaves every earlier player's place, purse and box flag as they were |
| Properties.PositionsStayOnBoard | src/main.py:91-97 | with rolls of 0 to 12 cells, every player stays on cells 0 to 11 |
| Properties.StepOnBoard | src/main.py:110-112 | one call with such a roll keeps every player on the board |
| Properties.PenaltyRoundTrip | src/main.py:84-108 | a player sent to the box is still boxed when the turn comes back; an odd roll then sets the flag, moves them to the landing cell and prints six lines ending with the next question of that category; an even roll prints three lines and moves nobody |
| Trivia.Game.constructor | src/main.py:31-49 | the new object's state is the initial state: six zero slots per list, and each queue built by the loop holds its fifty questions in order |
| Trivia.Game.HowManyPlayers | src/main.py:74-76 | a well-formed game never has more than five players |
| Trivia.Game.IsPlayable | src/main.py:60-61 | the game is playable exactly when an answer would pass the turn to another player |
| Trivia.Game.Add | src/main.py:63-72 | the new state, the result and the appended lines are those of Rules.Add |
| Trivia.Game.Roll | src/main.py:78-118 | the new state and the appended lines are those of Rules.Roll |
| Trivia.Game.MoveCurrentPlayer | src/main.py:91-103 | the array write and the pop leave exactly the state of Rules.Move, and its three lines are returned |
| Trivia.Game.AskQuestion | src/main.py:120-128 | the pop leaves exactly the state of Rules.AskQuestion, and the question printed is its question |
| Trivia.Game.CurrentCategory | src/main.py:130-150 | the current player's category: on the board the place modulo 4 (Pop, Science, Sports, Rock), off the board Rock |
| Trivia.Game.DidPlayerWin | src/main.py:199-200 | no contract of its own; Trivia.Game.WasCorrectlyAnswered, through Rules.WasCorrectlyAnswered, states that the result is false exactly when the purse reaches six |
| Trivia.Game.WasCorrectlyAnswered | src/main.py:152-185 | the new state, the result and the appended lines are those of Rules.WasCorrectlyAnswered |
| Trivia.Game.WrongAnswer | src/main.py:187-197 | the new state, the result and the appended lines are those of Rules.WrongAnswer |
| Trivia.Game.PassTurn | src/main.py:194-196 | the turn goes to the next player, back to the first after the last |
| Trivia.Game.TakeOutput | src/main.py:19-22 | returns every line printed since the last call and empties the log |

## Left out

- `Printer` and `BufferPrinter` (`src/main.py:7-22`) write to stdout or a
  `StringIO`. The model replaces them with the `output` log: the class
  appends each call's lines in one go, and `TakeOutput` plays the part of
  `pop_printed_lines`.
- `capture_interaction` and the `__main__` block (`src/main.py:203-267`) are
  left out. They make random `randrange` choices and write JSON files, which
  is I/O and nondeterminism outside the engine.
- `src/tests.py` is not part of this model. It replays recorded JSON
  transcripts from disk. The model pins what those replays compare: each
  call's return value and printed lines.
- Calls the source does not guard are preconditions, not error results.
  Each of these raises an `IndexError` in the source:
  - a sixth `add`, which indexes slot 6 of the six-slot lists;
  - `roll` or an answer with no players;
  - a roll that moves the player to a category whose queue is empty.
- Rules.Roll: its own contract does not state the printed lines, the
  landing place, the getting-out flag or which queue is popped. The lemmas
  state them: RollHeader gives the first two lines, and RollBoxedEven,
  RollBoxedOdd, RollUnboxed and RollMoves give the rest, case by case.
- Trivia.Game.TakeOutput: assumes player names hold no line-break
  characters. `pop_printed_lines` splits the printed text with
  `splitlines()` (`src/main.py:20`), so such a name would come back as
  several lines, while the log keeps each printed line whole.
- Integers are unbounded, as in Python. Rolls are any integer. A negative
  roll can leave a position below zero; such a position prints with a minus
  sign and has category Rock.
- The initial `in_penalty_box` entries are the integer 0 in the source. The
  model uses `false`, which the source's truth tests treat the same way.
- Continuing after a win is not given any special meaning, as in the
  source. The win test is `_did_player_win` itself (the purse equals six).
