# TicTacToe over TCP: the game state machine in Dafny

Two console processes play three-in-a-row over one TCP connection. Each
process keeps its own copy of the game: a board of nine cells, a move
counter, whose turn it is, whether it plays X, and four outcome flags
(`playerWon`, `opponentWon`, `tied`, `continueGame`). A local move is
checked by `acceptableMove`, applied, and sent as the line the player typed.
The peer receives that line in `inputFromOtherUser` and applies it there.
Lines starting with `M:` are chat. After every move `checkForWinner` scans
the eight win lines and then tests for a tie.

The project models that state machine in four modules:

- `Protocol` (protocol.dfy): how a line is classified as chat or move text,
  and Java's `Integer.parseInt` for decimal text.
- `Board` (board.dfy): cells, the eight win lines, the count of marked
  cells, and the three-line text `paintBoard` builds.
- `Rules` (rules.dfy): the state of one process as a value (`Game`) and a
  pure function for each operation that changes it. These are `LocalMove`,
  `RemoteInput` and `Evaluate`. The module also holds the invariant
  `Consistent` and the lemmas about these functions, including `Mirrored`:
  the two processes stay in step.
- `TicTacToeGame` (tictactoe.dfy): the class `TicTacToe`. Its board is a
  `char` array of nine cells and its flags are fields. Its methods do what
  the Java methods do, step by step and with the same loops. Each method is
  proved to leave the fields exactly as the matching `Rules` function says.

Behaviour kept as the code has it:

- `acceptableMove` does not look at `yourTurn`. The turn check is made by
  the sending thread before it calls `acceptableMove`.
- A remote move is written without any occupancy check, so it may
  overwrite a marked cell.
- `checkForWinner` does not stop at the first filled line. It only ever
  sets flags to true, or `continueGame` to false.
- `controlPortAcceptance` runs before the constructor assigns the port.
  It therefore reads the field's default value 0 and never throws, so the
  class's own range check never fires. The JDK socket constructors still
  reject a port outside 0..65535: `new ServerSocket` in `establishServer`
  and `new Socket` in `connectToServer` throw an `IllegalArgumentException`
  that no catch clause handles. That socket step is not modelled (see
  "## Left out").
- A fresh board holds `'\0'` characters. Any character other than `'X'`
  or `'O'` counts as empty.

The code has no hardening beyond this, and the model adds none. There is
no turn check inside `acceptableMove`, no error when a remote move lands on
a taken cell, no working port range check of the class's own, and no lock
around the shared fields.

Errors become values: a remote line whose text is not a number
(`NumberFormatException`) or whose number is outside 0..8 (the array's
`ArrayIndexOutOfBoundsException`) gives `NumberFormatError` or
`IndexOutOfBounds`. In Java both are thrown before the state is touched,
and in the model the state is likewise unchanged. Neither exception is caught in the source, so the
listening thread stops after one such line; the model returns the error and
leaves what happens to the receiving loop out.

## Model

| member | source | states |
|---|---|---|
| `Protocol.Classify` | TicTacToe.java:156-157 | a line is chat exactly when it starts with `M:`, and the chat text is the line without those two characters; any other line is move text, passed on unchanged |
| `Protocol.ChatRoundTrip` | TicTacToe.java:156-158 | a chat message sent as `M:` + text is read back as that same text |
| `Protocol.ParseInt` | TicTacToe.java:160 | `Integer.parseInt`: a value is produced only for a non-empty string of digits, or a `-` or `+` followed by at least one digit. Every such string whose value fits in a Java int parses to exactly that value, negated after a `-`, and one that does not fit gives the format error |
| `Protocol.MoveRoundTrip` | SendingThread.java:44-56 | a cell index typed in decimal is not taken for chat, and the receiving side parses it back to the same index |
| `Board.MarkedCountWrite` | TicTacToe.java:162-166 | writing one cell changes the number of marked cells by that cell's change alone |
| `Board.RenderShape` | TicTacToe.java:276-294 | the painted board is 33 characters: three lines of eleven, each ending in its only line break, and column 4j of line q shows the glyph of cell 3q+j |
| `Board.RenderFaithful` | TicTacToe.java:281-287 | two boards paint the same text exactly when they agree cell by cell on `X`, `O` and blank |
| `Rules.StartsConsistent` | TicTacToe.java:17-25 | the server's and the client's starting states satisfy the invariant, and neither game is over |
| `Rules.Evaluate` | TicTacToe.java:301-323 | after the winner check a side has won exactly when it had already won or a line of its mark is filled; a tie is set exactly when it was set or nobody has won at move 9; the game stops exactly when it had stopped, a line is filled or that tie test fires |
| `Rules.LocalMove` | TicTacToe.java:251-270 | a local move is accepted exactly when it lies in 0..8 on a free cell; a rejected one returns the game unchanged; the board keeps nine cells and the symbol never changes |
| `Rules.RemoteInput` | TicTacToe.java:155-175 | a received line is chat exactly when it starts with `M:`, is ignored exactly when it is move text on this side's turn, and is a format error exactly when that text does not parse on the opponent's turn; every outcome but a played move leaves the game unchanged |
| `Board.Render` | TicTacToe.java:276-294 | the painted board is always 33 characters |
| `Rules.EvaluateMonotone` | TicTacToe.java:301-322 | the winner check only sets flags: a set win or tie flag stays set, a stopped game stays stopped, and a tie appears only at move 9 with no win |
| `Board.HasLineAmongWitness` | TicTacToe.java:302-303 | the line-by-line scan finds a filled line exactly when some triple among those scanned has all three cells equal to the mark |
| `Rules.WinAttributed` | TicTacToe.java:302-318 | any of the eight triples filled with X's or O's stops the game and sets `playerWon` for this side's mark or `opponentWon` for the other, without touching `tied` |
| `Rules.NoLineNoWin` | TicTacToe.java:319-322 | when no triple is filled the win flags are unchanged, and a tie is declared exactly when no side has won and moves is 9 |
| `Rules.NinthMoveWithoutLineTies` | TicTacToe.java:319-322 | a game in progress whose ninth move fills no line ends in a tie and in no win |
| `Rules.FullBoardCounted` | TicTacToe.java:319-322 | in a consistent state a board with all nine cells marked has a move counter of at least nine, so the tie test on the counter never lags behind a full board |
| `Rules.EvaluateConsistent` | TicTacToe.java:301-322 | after the winner check on a counter that stayed or went up by one, `continueGame` is false exactly when some outcome flag is set, a tie implies at least nine moves, and from nine moves on the game is stopped |
| `Rules.FullBoardOver` | TicTacToe.java:319-322 | in a consistent state a board with all nine cells marked means the game is over |
| `Rules.LocalMoveEffect` | TicTacToe.java:251-270 | a local move is accepted exactly when it lies in 0..8 on a cell holding neither `X` nor `O`, whatever the turn. A rejected move changes nothing. An accepted one writes this side's mark to that cell only, marks one more cell, adds one to the counter, passes the turn and sets the flags to the winner check on the new board |
| `Rules.LocalMovePreservesConsistent` | TicTacToe.java:251-270 | a local move keeps the invariant: no more marked cells than moves, flags that agree with `continueGame`, and a stopped game from the ninth move on |
| `Rules.RemoteInputIgnores` | TicTacToe.java:155-159 | a chat line leaves the game unchanged, as does a move line arriving on this side's turn or any line that does not end in a played move |
| `Rules.RemoteMoveEffect` | TicTacToe.java:159-170 | a remote move is played exactly when the line is not chat, it is not this side's turn and the text parses to 0..8. The opponent's mark is then written at that index, free or not, and no other cell changes. The counter goes up by one, the turn comes back, and the outcome is evaluated on the new board |
| `Rules.RemoteInputPreservesConsistent` | TicTacToe.java:155-175 | a received line keeps the invariant, even when a remote move overwrites a marked cell |
| `Rules.GameOverIsFinal` | TicTacToe.java:242-244 | once `gameIsOver` holds, no local move and no received line can make it false again |
| `Rules.StartsMirrored` | TicTacToe.java:55-59 | the server and client starting states are mirror images: same board, opposite turns and symbols |
| `Rules.MovePreservesMirror` | SendingThread.java:46-56 | when one side accepts a move on its turn and sends the line as typed, the peer plays that same cell. The two states stay mirror images: same board and counter, opposite turns, and each side's win is the other's loss |
| `Rules.ChatDelivered` | SendingThread.java:44-45 | a chat line sent by one side reaches the peer as the same text and changes nothing in the peer's game |
| `Rules.ServerOpening` | TicTacToe.java:251-267 | the server opening on cell 0 is accepted and leaves one X on cell 0, one move, the turn with the opponent and the game in progress |
| `Rules.TopRowServerScenario` | TicTacToe.java:301-318 | server X on 0, 1, 2 and client O on 3, 4: after the fifth move the server has won and the game has stopped |
| `Rules.TopRowClientOpening` | TicTacToe.java:155-170 | the client receives the line "0" as a played move and answers on 3, giving X on 0, O on 3, two moves, the opponent's turn |
| `Rules.TopRowClientScenario` | TicTacToe.java:301-318 | the same game on the client: after receiving "2" it records the opponent's win and stops |
| `Rules.TieOpening` | TicTacToe.java:251-270 | the first four moves of a drawn game, X on 0 and 2 and O on 1 and 4, leave the game in progress at move 4 |
| `Rules.TieEnding` | TicTacToe.java:319-322 | the remaining five moves fill the board with no line, the game in progress until the ninth move, and then a tie |
| `Rules.TieScenario` | TicTacToe.java:319-322 | nine alternating moves filling no line end in a tie at move 9 and in nothing earlier |
| `Rules.MalformedMoveScenario` | TicTacToe.java:159-160 | a non-numeric line arriving on the opponent's turn is a number-format error and leaves the game unchanged; in the source that exception also ends the receiving thread's loop, which the model leaves out |
| `Rules.EndMessage` | TicTacToe.java:194-203 | endGame announces this side's win if `playerWon`, otherwise the opponent's win if `opponentWon`, otherwise a tie if `tied`, otherwise an error |
| `Rules.OverMeansResult` | TicTacToe.java:242-244 | in a consistent state the game is over exactly when endGame has a result to announce |
| `TicTacToeGame.TicTacToe.Server` | TicTacToe.java:55-67 | the server starts with an empty board, no moves, its own turn, symbol X, the game in progress, and the given port. No range check of the class rejects any port; the socket step that would is left out |
| `TicTacToeGame.TicTacToe.Default` | TicTacToe.java:74-76 | the no-argument constructor is the server on port 2000 |
| `TicTacToeGame.TicTacToe.Client` | TicTacToe.java:37-47 | the client starts with an empty board, the opponent's turn, symbol O, and the given address and port. No range check of the class rejects any port; the socket step that would is left out |
| `TicTacToeGame.TicTacToe.ControlPortAcceptance` | TicTacToe.java:111-115 | the port field passes exactly when it lies in 0..65535. That it reads the default 0 and passes where the constructors call it is proved inside each constructor's body, by an assertion after the call, not by this method's contract |
| `TicTacToeGame.TicTacToe.IsYourTurn` | TicTacToe.java:234-236 | reports whose turn it is |
| `TicTacToeGame.TicTacToe.GameIsOver` | TicTacToe.java:242-244 | in a valid state the game is over exactly when a win or tie flag is set |
| `TicTacToeGame.TicTacToe.MakeSureSpaceIsFree` | TicTacToe.java:182-187 | a cell is free exactly when it holds neither `X` nor `O` |
| `TicTacToeGame.TicTacToe.AcceptableMove` | TicTacToe.java:251-270 | changes the board, counter, turn and flags exactly as `Rules.LocalMove` does, returns its verdict, and keeps the invariant |
| `TicTacToeGame.TicTacToe.InputFromOtherUser` | TicTacToe.java:155-175 | changes the state exactly as `Rules.RemoteInput` does, reports which branch was taken, and keeps the invariant |
| `TicTacToeGame.TicTacToe.CheckForWinner` | TicTacToe.java:301-323 | the loop over the eight win lines followed by the tie test sets the flags to `Rules.Evaluate` of the current board and counter |
| `TicTacToeGame.TicTacToe.PaintBoard` | TicTacToe.java:276-294 | the nested loops with the running cell index and the trimmed trailing `"| "` build exactly `Board.Render` of the board, 33 characters |

## Left out

- `TicTacToeGame.TicTacToe.Server`: accepts every port, where the source's constructor throws an uncaught `IllegalArgumentException` for a port outside 0..65535. The throw comes from `establishServer` (TicTacToe.java:60) at `new ServerSocket(port, 4)` (TicTacToe.java:84), whose catch clause takes only `IOException`. Socket creation is networking, which the model leaves out.
- `TicTacToeGame.TicTacToe.Client`: accepts every port, where the source's constructor throws an uncaught `IllegalArgumentException` for a port outside 0..65535. The throw comes from `connectToServer` (TicTacToe.java:41) at `new Socket(IP, port)` (TicTacToe.java:96), whose catch clauses take only `UnknownHostException` and `IOException`. Socket creation is networking, which the model leaves out.
- Networking: `establishServer`, `connectToServer`, `awaitOtherPlayer` and the socket fields. These are socket I/O; the constructors model only the state they set up.
- Console output: `introduceGame`, the board print in `paintBoard` (modelled as the string it prints) and the messages printed after each move and for chat.
- `endGame`: the sleep, stopping the threads, closing the socket and exiting the process. Only its choice of message is modelled, as `Rules.EndMessage`. The call to `endGame` after a remote move that ends the game is not modelled; the caller sees `MovePlayed` and `GameIsOver`.
- `main`: command-line argument handling.
- `SendingThread` and `ListeningThread`: the two threads, their blocking reads, their `run` flags and the data race on shared fields. The game methods are modelled as sequential calls. What the sending thread does around `acceptableMove` is stated by `Rules.MovePreservesMirror` and `Rules.ChatDelivered`.
- A `null` line from `readLine` at end of stream: it makes `inputFromOtherUser` throw `NullPointerException`. Lines are modelled as strings.
- `Protocol.ParseInt`: accepts only ASCII digits, where `Integer.parseInt` also accepts other Unicode decimal digits.
- `TicTacToeGame.TicTacToe.InputFromOtherUser`: the exceptions are returned as result values rather than thrown. In the source they are not caught: the receive loop (ListeningThread.java:38-46) catches only `IOException`, so a malformed or out-of-range move line ends the listening thread and nothing more is received. The model does not capture that end of the loop.
- The move counter is a `nat`: the Java `int` could only overflow after 2^31 remote moves.
