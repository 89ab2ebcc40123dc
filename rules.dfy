/** The game state one player's process keeps, as a value, and what each of
    the game's operations does to it. The class in module TicTacToeGame is
    proved to change its fields exactly as these functions say. */
module Rules {
  import opened Board
  import opened Protocol

  /** The outcome flags: playerWon, opponentWon, tied and continueGame. */
  datatype Flags = Flags(playerWon: bool, opponentWon: bool, tied: bool, continueGame: bool)

  /** One side's view of the match: the nine cells, the move counter, whose
      turn it is, whether this side plays X, and the outcome flags. */
  datatype Game = Game(board: seq<char>, moves: nat, yourTurn: bool, playsX: bool, flags: Flags)

  const InProgress: Flags := Flags(false, false, false, true)

  /** A fresh board holds nine '\0' characters. */
  const EmptyBoard: seq<char> := seq(9, _ => '\0')

  /** The server moves first and plays X. */
  const ServerStart: Game := Game(EmptyBoard, 0, true, true, InProgress)

  /** The client waits for the first move and plays O. */
  const ClientStart: Game := Game(EmptyBoard, 0, false, false, InProgress)

  /** The mark the other side places. */
  function OpponentMark(playsX: bool): char
  {
    Mark(!playsX)
  }

  /** The first k win lines of the scan in checkForWinner applied to flags
      f: a line of X's wins for whoever plays X, a line of O's for the other
      side, and either stops the game. */
  function ScanLines(board: seq<char>, playsX: bool, f: Flags, k: nat): Flags
    requires |board| == 9 && k <= |WinLines|
  {
    var xs, os := HasLineAmong(board, 'X', k), HasLineAmong(board, 'O', k);
    Flags(f.playerWon || (if playsX then xs else os),
          f.opponentWon || (if playsX then os else xs),
          f.tied,
          f.continueGame && !xs && !os)
  }

  /** checkForWinner: scan all eight lines, then declare a tie when neither
      side has won and nine moves have been made. */
  function Evaluate(board: seq<char>, moves: nat, playsX: bool, f: Flags): (r: Flags)
    requires |board| == 9
    ensures r.playerWon <==> f.playerWon || HasLine(board, Mark(playsX))
    ensures r.opponentWon <==> f.opponentWon || HasLine(board, OpponentMark(playsX))
    ensures r.tied <==> f.tied || (!r.playerWon && !r.opponentWon && moves == 9)
    ensures !r.continueGame <==> !f.continueGame || HasLine(board, 'X') || HasLine(board, 'O') || (!r.playerWon && !r.opponentWon && moves == 9)
  {
    var w := ScanLines(board, playsX, f, |WinLines|);
    if !w.playerWon && !w.opponentWon && moves == 9 then w.(tied := true, continueGame := false)
    else w
  }

  /** gameIsOver. */
  predicate GameIsOver(g: Game)
  {
    !g.flags.continueGame
  }

  /** acceptableMove: a move inside 0..8 onto a free cell places this side's
      mark, counts the move, passes the turn and evaluates the outcome; any
      other move changes nothing. Whose turn it is is not consulted. */
  function LocalMove(g: Game, move: int): (r: (Game, bool))
    requires |g.board| == 9
    ensures r.1 <==> 0 <= move < 9 && SpaceIsFree(g.board, move)
    ensures !r.1 ==> r.0 == g
    ensures |r.0.board| == 9 && r.0.playsX == g.playsX
  {
    if 0 <= move < 9 && SpaceIsFree(g.board, move) then
      var board := g.board[move := Mark(g.playsX)];
      var moves := g.moves + 1;
      (g.(board := board, moves := moves, yourTurn := false,
          flags := Evaluate(board, moves, g.playsX, g.flags)), true)
    else (g, false)
  }

  /** What inputFromOtherUser did with a received line. */
  datatype Received =
    | ChatReceived(text: string)
    | MoveIgnored                 // a move line arriving on this side's own turn
    | MovePlayed(cell: Cell)
    | NumberFormatError           // Integer.parseInt threw
    | IndexOutOfBounds(index: int) // spaces[move] threw

  /** inputFromOtherUser: chat changes nothing; a move line on this side's
      own turn is dropped; otherwise the opponent's mark is written at the
      parsed index, whatever the cell holds, the move is counted, the turn
      comes back and the outcome is evaluated. The two exceptions the Java code
      can throw leave the state as it was. */
  function RemoteInput(g: Game, line: string): (r: (Game, Received))
    requires |g.board| == 9
    ensures r.1.ChatReceived? <==> ChatPrefix <= line
    ensures r.1 == MoveIgnored <==> !(ChatPrefix <= line) && g.yourTurn
    ensures r.1 == NumberFormatError <==> !(ChatPrefix <= line) && !g.yourTurn && ParseInt(line).None?
    ensures !r.1.MovePlayed? ==> r.0 == g
    ensures |r.0.board| == 9 && r.0.playsX == g.playsX
  {
    match Classify(line)
    case Chat(text) => (g, ChatReceived(text))
    case MoveText(raw) =>
      if g.yourTurn then (g, MoveIgnored)
      else
        match ParseInt(raw)
        case None => (g, NumberFormatError)
        case Some(move) =>
          if !(0 <= move < 9) then (g, IndexOutOfBounds(move))
          else
            var board := g.board[move := OpponentMark(g.playsX)];
            var moves := g.moves + 1;
            (g.(board := board, moves := moves, yourTurn := true,
                flags := Evaluate(board, moves, g.playsX, g.flags)), MovePlayed(move))
  }

  /** What every reachable state satisfies: nine cells, no more marks than
      moves, the game continues exactly while no outcome flag is set, and a
      tie is only ever declared at the ninth move or later. */
  predicate Consistent(g: Game)
  {
    && |g.board| == 9
    && MarkedCount(g.board) <= g.moves
    && (g.flags.continueGame <==> !(g.flags.playerWon || g.flags.opponentWon || g.flags.tied))
    && (g.flags.tied ==> g.moves >= 9)
    && (g.moves >= 9 ==> !g.flags.continueGame)
  }

  lemma StartsConsistent()
    ensures Consistent(ServerStart) && Consistent(ClientStart)
    ensures !GameIsOver(ServerStart) && !GameIsOver(ClientStart)
  {
    MarkedCountBlank(9, '\0');
  }

  /** A full board in a consistent state has seen at least nine moves, so
      the counter cannot fall short of the board. */
  lemma FullBoardCounted(g: Game)
    requires Consistent(g)
    requires forall i :: 0 <= i < 9 ==> IsMarked(g.board[i])
    ensures g.moves >= 9
  {
    MarkedCountFull(g.board);
  }

  /** A full board in a consistent state means the game is over: the
      ninth move has been made, and the check after it stopped the game. */
  lemma FullBoardOver(g: Game)
    requires Consistent(g)
    requires forall i :: 0 <= i < 9 ==> IsMarked(g.board[i])
    ensures GameIsOver(g)
  {
    FullBoardCounted(g);
  }

  /** Flags only ever move towards game over: a set flag stays set, a stopped
      game stays stopped, and a tie is declared only when no side has won and
      the ninth move has been made. */
  lemma EvaluateMonotone(board: seq<char>, moves: nat, playsX: bool, f: Flags)
    requires |board| == 9
    ensures var r := Evaluate(board, moves, playsX, f);
      && (f.playerWon ==> r.playerWon)
      && (f.opponentWon ==> r.opponentWon)
      && (f.tied ==> r.tied)
      && (!f.continueGame ==> !r.continueGame)
      && (r.tied && !f.tied ==> !r.playerWon && !r.opponentWon && moves == 9)
  {
  }

  /** A win line filled with X's or O's wins for the side whose mark fills
      it and stops the game, whichever line of the scan it is. */
  lemma WinAttributed(board: seq<char>, moves: nat, playsX: bool, f: Flags, c: char, i: nat)
    requires |board| == 9 && (c == 'X' || c == 'O')
    requires i < |WinLines| && LineOf(board, WinLines[i], c)
    ensures var r := Evaluate(board, moves, playsX, f);
      && !r.continueGame
      && (c == Mark(playsX) ==> r.playerWon)
      && (c == OpponentMark(playsX) ==> r.opponentWon)
      && (r.tied == f.tied)
  {
    HasLineAmongWitness(board, c, |WinLines|);
  }

  /** When no win line is filled the win flags stay as they were, and the
      outcome depends only on the move count. */
  lemma NoLineNoWin(board: seq<char>, moves: nat, playsX: bool, f: Flags)
    requires |board| == 9
    requires forall i :: 0 <= i < |WinLines| ==> !LineOf(board, WinLines[i], 'X') && !LineOf(board, WinLines[i], 'O')
    ensures var r := Evaluate(board, moves, playsX, f);
      && r.playerWon == f.playerWon && r.opponentWon == f.opponentWon
      && (r.tied <==> f.tied || (!f.playerWon && !f.opponentWon && moves == 9))
      && (r.continueGame <==> f.continueGame && !(!f.playerWon && !f.opponentWon && moves == 9))
  {
    HasLineAmongWitness(board, 'X', |WinLines|);
    HasLineAmongWitness(board, 'O', |WinLines|);
  }

  /** A game still in progress whose ninth move fills no line ends in a tie
      and in nothing else. */
  lemma NinthMoveWithoutLineTies(board: seq<char>, playsX: bool)
    requires |board| == 9
    requires forall i :: 0 <= i < |WinLines| ==> !LineOf(board, WinLines[i], 'X') && !LineOf(board, WinLines[i], 'O')
    ensures Evaluate(board, 9, playsX, InProgress) == Flags(false, false, true, false)
  {
    NoLineNoWin(board, 9, playsX, InProgress);
  }

  lemma EvaluateConsistent(g: Game, board: seq<char>, moves: nat)
    requires Consistent(g) && |board| == 9 && g.moves <= moves <= g.moves + 1
    ensures var r := Evaluate(board, moves, g.playsX, g.flags);
      && (r.continueGame <==> !(r.playerWon || r.opponentWon || r.tied))
      && (r.tied ==> moves >= 9)
      && (moves >= 9 ==> !r.continueGame)
  {
  }

  /** An accepted local move changes exactly the chosen cell, from empty to
      this side's mark, so one more cell is marked; the counter goes up by
      one, the turn passes to the opponent and the outcome is evaluated on
      the new board. A rejected move changes nothing. */
  lemma {:induction false} LocalMoveEffect(g: Game, move: int)
    requires |g.board| == 9
    ensures var (h, accepted) := LocalMove(g, move);
      && (accepted <==> 0 <= move < 9 && !IsMarked(g.board[move]))
      && (!accepted ==> h == g)
      && (accepted ==>
            && |h.board| == 9
            && h.board[move] == Mark(g.playsX)
            && (forall i :: 0 <= i < 9 && i != move ==> h.board[i] == g.board[i])
            && MarkedCount(h.board) == MarkedCount(g.board) + 1
            && h.moves == g.moves + 1
            && !h.yourTurn
            && h.playsX == g.playsX
            && h.flags == Evaluate(h.board, h.moves, g.playsX, g.flags))
  {
    var (h, accepted) := LocalMove(g, move);
    if accepted {
      MarkedCountWrite(g.board, move, Mark(g.playsX));
    }
  }

  lemma LocalMovePreservesConsistent(g: Game, move: int)
    requires Consistent(g)
    ensures Consistent(LocalMove(g, move).0)
  {
    var (h, accepted) := LocalMove(g, move);
    if accepted {
      LocalMoveEffect(g, move);
      EvaluateConsistent(g, h.board, h.moves);
    }
  }

  /** A chat line, and a move line arriving on this side's own turn, leave
      the game untouched, as do unparsable text and an index outside 0..8. */
  lemma RemoteInputIgnores(g: Game, line: string)
    requires |g.board| == 9
    ensures var (h, r) := RemoteInput(g, line);
      && (ChatPrefix <= line ==> r == ChatReceived(line[2..]) && h == g)
      && (!(ChatPrefix <= line) && g.yourTurn ==> r == MoveIgnored && h == g)
      && (!r.MovePlayed? ==> h == g)
  {
  }

  /** A move played by the opponent writes the opponent's mark at the parsed
      index, whether or not the cell was free, leaves every other cell alone,
      counts the move and hands the turn back. */
  lemma {:induction false} RemoteMoveEffect(g: Game, line: string)
    requires |g.board| == 9
    ensures var (h, r) := RemoteInput(g, line);
      r.MovePlayed? <==> !(ChatPrefix <= line) && !g.yourTurn && ParseInt(line).Some? && 0 <= ParseInt(line).value < 9
    ensures var (h, r) := RemoteInput(g, line);
      r.MovePlayed? ==>
        && r.cell == ParseInt(line).value
        && |h.board| == 9
        && h.board[r.cell] == OpponentMark(g.playsX)
        && (forall i :: 0 <= i < 9 && i != r.cell ==> h.board[i] == g.board[i])
        && MarkedCount(h.board) <= MarkedCount(g.board) + 1
        && h.moves == g.moves + 1
        && h.yourTurn
        && h.playsX == g.playsX
        && h.flags == Evaluate(h.board, h.moves, g.playsX, g.flags)
  {
    var (h, r) := RemoteInput(g, line);
    if r.MovePlayed? {
      MarkedCountWrite(g.board, r.cell, OpponentMark(g.playsX));
    }
  }

  lemma RemoteInputPreservesConsistent(g: Game, line: string)
    requires Consistent(g)
    ensures Consistent(RemoteInput(g, line).0)
  {
    var (h, r) := RemoteInput(g, line);
    if r.MovePlayed? {
      RemoteMoveEffect(g, line);
      EvaluateConsistent(g, h.board, h.moves);
    }
  }

  /** Once the game is over it stays over, whatever either side does next. */
  lemma GameOverIsFinal(g: Game, move: int, line: string)
    requires |g.board| == 9 && GameIsOver(g)
    ensures GameIsOver(LocalMove(g, move).0)
    ensures GameIsOver(RemoteInput(g, line).0)
  {
  }

  /** The two processes of a match agree: same board and counter, opposite
      turns and symbols, and each one's win is the other's loss. */
  predicate Mirrored(a: Game, b: Game)
  {
    && a.board == b.board
    && a.moves == b.moves
    && a.yourTurn != b.yourTurn
    && a.playsX != b.playsX
    && a.flags.playerWon == b.flags.opponentWon
    && a.flags.opponentWon == b.flags.playerWon
    && a.flags.tied == b.flags.tied
    && a.flags.continueGame == b.flags.continueGame
  }

  lemma StartsMirrored()
    ensures Mirrored(ServerStart, ClientStart)
  {
  }

  /** A move this side accepts and sends as the line it was typed as keeps
      the two processes in step once the opponent has received that line. */
  lemma MovePreservesMirror(a: Game, b: Game, line: string)
    requires Mirrored(a, b) && |a.board| == 9 && a.yourTurn
    requires !(ChatPrefix <= line) && ParseInt(line).Some?
    requires LocalMove(a, ParseInt(line).value).1
    ensures RemoteInput(b, line).1 == MovePlayed(ParseInt(line).value)
    ensures Mirrored(LocalMove(a, ParseInt(line).value).0, RemoteInput(b, line).0)
  {
  }

  /** A chat message reaches the peer as the same text and leaves the peer's
      game untouched. */
  lemma ChatDelivered(b: Game, text: string)
    requires |b.board| == 9
    ensures RemoteInput(b, EncodeChat(text)) == (b, ChatReceived(text))
  {
  }

  /** The message endGame announces. */
  datatype Announcement = YouWin | OpponentWins | Tie | NoResult

  /** endGame's choice: a win of this side over a win of the opponent over a
      tie, and an error message when no flag is set. */
  function EndMessage(f: Flags): (m: Announcement)
    ensures m == YouWin <==> f.playerWon
    ensures m == OpponentWins <==> !f.playerWon && f.opponentWon
    ensures m == Tie <==> !f.playerWon && !f.opponentWon && f.tied
    ensures m == NoResult <==> !(f.playerWon || f.opponentWon || f.tied)
  {
    if f.playerWon then YouWin
    else if f.opponentWon then OpponentWins
    else if f.tied then Tie
    else NoResult
  }

  /** In a consistent state, the game is over exactly when endGame has a
      result to announce. */
  lemma OverMeansResult(g: Game)
    requires Consistent(g)
    ensures GameIsOver(g) <==> EndMessage(g.flags) != NoResult
  {
  }

  /** The server opens on cell 0: one X on the board, one move made, the
      turn passed, and the game still in progress. */
  lemma ServerOpening()
    ensures LocalMove(ServerStart, 0) == (Game(EmptyBoard[0 := 'X'], 1, false, true, InProgress), true)
  {
    var e := '\0';
    assert EmptyBoard == [e, e, e, e, e, e, e, e, e];
    var b := EmptyBoard[0 := 'X'];
    assert b == ['X', e, e, e, e, e, e, e, e];
    NoLineScanned(b, 'X');
    NoLineScanned(b, 'O');
  }

  /** A non-numeric line from the opponent is dropped and the game goes on
      unchanged. */
  lemma MalformedMoveScenario()
    ensures RemoteInput(ClientStart, "abc") == (ClientStart, NumberFormatError)
  {
    assert !IsDigit("abc"[0]);
  }

  /** The server, playing X, takes 0, 1 and 2 while the client answers with
      3 and 4: the top row wins for the server. */
  lemma TopRowServerScenario()
    ensures var s1 := LocalMove(ServerStart, 0).0;
            var s2 := RemoteInput(s1, "3").0;
            var s3 := LocalMove(s2, 1).0;
            var s4 := RemoteInput(s3, "4").0;
            var (s5, accepted) := LocalMove(s4, 2);
            accepted && s4.flags == InProgress && s5.moves == 5 && s5.flags == Flags(true, false, false, false)
  {
    var e := '\0';
    assert EmptyBoard == [e, e, e, e, e, e, e, e, e];
    assert ParseInt("3") == Some(3) && ParseInt("4") == Some(4);
    var s1 := LocalMove(ServerStart, 0).0;
    NoLineScanned(['X', e, e, e, e, e, e, e, e], 'X');
    NoLineScanned(['X', e, e, e, e, e, e, e, e], 'O');
    assert [e, e, e, e, e, e, e, e, e][0 := 'X'] == ['X', e, e, e, e, e, e, e, e];
    assert s1 == Game(['X', e, e, e, e, e, e, e, e], 1, false, true, InProgress);
    var s2 := RemoteInput(s1, "3").0;
    NoLineScanned(['X', e, e, 'O', e, e, e, e, e], 'X');
    NoLineScanned(['X', e, e, 'O', e, e, e, e, e], 'O');
    assert ['X', e, e, e, e, e, e, e, e][3 := 'O'] == ['X', e, e, 'O', e, e, e, e, e];
    assert s2 == Game(['X', e, e, 'O', e, e, e, e, e], 2, true, true, InProgress);
    var s3 := LocalMove(s2, 1).0;
    NoLineScanned(['X', 'X', e, 'O', e, e, e, e, e], 'X');
    NoLineScanned(['X', 'X', e, 'O', e, e, e, e, e], 'O');
    assert ['X', e, e, 'O', e, e, e, e, e][1 := 'X'] == ['X', 'X', e, 'O', e, e, e, e, e];
    assert s3 == Game(['X', 'X', e, 'O', e, e, e, e, e], 3, false, true, InProgress);
    var s4 := RemoteInput(s3, "4").0;
    NoLineScanned(['X', 'X', e, 'O', 'O', e, e, e, e], 'X');
    NoLineScanned(['X', 'X', e, 'O', 'O', e, e, e, e], 'O');
    assert ['X', 'X', e, 'O', e, e, e, e, e][4 := 'O'] == ['X', 'X', e, 'O', 'O', e, e, e, e];
    assert s4 == Game(['X', 'X', e, 'O', 'O', e, e, e, e], 4, true, true, InProgress);
    var s5 := LocalMove(s4, 2).0;
    WinAttributed(['X', 'X', 'X', 'O', 'O', e, e, e, e], 5, true, InProgress, 'X', 0);
    NoLineScanned(['X', 'X', 'X', 'O', 'O', e, e, e, e], 'O');
    assert ['X', 'X', e, 'O', 'O', e, e, e, e][2 := 'X'] == ['X', 'X', 'X', 'O', 'O', e, e, e, e];
    assert s5 == Game(['X', 'X', 'X', 'O', 'O', e, e, e, e], 5, false, true, Flags(true, false, false, false));
  }

  /** The same game seen by the client, which plays O: the server's
      opening on 0 arrives as a line and the client answers on 3. */
  lemma TopRowClientOpening()
    ensures RemoteInput(ClientStart, "0").1 == MovePlayed(0)
    ensures LocalMove(RemoteInput(ClientStart, "0").0, 3).0 == Game(['X', '\0', '\0', 'O', '\0', '\0', '\0', '\0', '\0'], 2, false, false, InProgress)
  {
    var e := '\0';
    assert EmptyBoard == [e, e, e, e, e, e, e, e, e];
    assert ParseInt("0") == Some(0);
    var c1 := RemoteInput(ClientStart, "0").0;
    NoLineScanned(['X', e, e, e, e, e, e, e, e], 'X');
    NoLineScanned(['X', e, e, e, e, e, e, e, e], 'O');
    assert [e, e, e, e, e, e, e, e, e][0 := 'X'] == ['X', e, e, e, e, e, e, e, e];
    assert c1 == Game(['X', e, e, e, e, e, e, e, e], 1, true, false, InProgress);
    var c2 := LocalMove(c1, 3).0;
    NoLineScanned(['X', e, e, 'O', e, e, e, e, e], 'X');
    NoLineScanned(['X', e, e, 'O', e, e, e, e, e], 'O');
    assert ['X', e, e, e, e, e, e, e, e][3 := 'O'] == ['X', e, e, 'O', e, e, e, e, e];
    assert c2 == Game(['X', e, e, 'O', e, e, e, e, e], 2, false, false, InProgress);
  }

  /** The rest of that game on the client: the server's 1 and 2 fill the top
      row, and the client records its opponent's win. */
  lemma TopRowClientScenario()
    ensures var c3 := RemoteInput(Game(['X', '\0', '\0', 'O', '\0', '\0', '\0', '\0', '\0'], 2, false, false, InProgress), "1").0;
            var c4 := LocalMove(c3, 4).0;
            var (c5, r) := RemoteInput(c4, "2");
            r == MovePlayed(2) && c4.flags == InProgress && c5.moves == 5 && c5.flags == Flags(false, true, false, false)
  {
    var e := '\0';
    var mid := Game(['X', e, e, 'O', e, e, e, e, e], 2, false, false, InProgress);
    assert ParseInt("1") == Some(1) && ParseInt("2") == Some(2);
    var c3 := RemoteInput(mid, "1").0;
    NoLineScanned(['X', 'X', e, 'O', e, e, e, e, e], 'X');
    NoLineScanned(['X', 'X', e, 'O', e, e, e, e, e], 'O');
    assert mid.board[1 := 'X'] == ['X', 'X', e, 'O', e, e, e, e, e];
    assert c3 == Game(['X', 'X', e, 'O', e, e, e, e, e], 3, true, false, InProgress);
    var c4 := LocalMove(c3, 4).0;
    NoLineScanned(['X', 'X', e, 'O', 'O', e, e, e, e], 'X');
    NoLineScanned(['X', 'X', e, 'O', 'O', e, e, e, e], 'O');
    assert ['X', 'X', e, 'O', e, e, e, e, e][4 := 'O'] == ['X', 'X', e, 'O', 'O', e, e, e, e];
    assert c4 == Game(['X', 'X', e, 'O', 'O', e, e, e, e], 4, false, false, InProgress);
    var c5 := RemoteInput(c4, "2").0;
    WinAttributed(['X', 'X', 'X', 'O', 'O', e, e, e, e], 5, false, InProgress, 'X', 0);
    NoLineScanned(['X', 'X', 'X', 'O', 'O', e, e, e, e], 'O');
    assert ['X', 'X', e, 'O', 'O', e, e, e, e][2 := 'X'] == ['X', 'X', 'X', 'O', 'O', e, e, e, e];
    assert c5 == Game(['X', 'X', 'X', 'O', 'O', e, e, e, e], 5, true, false, Flags(false, true, false, false));
  }

  /** The first four moves of a drawn game: X on 0 and 2, O on 1 and 4. */
  lemma TieOpening()
    ensures var s1 := LocalMove(ServerStart, 0).0;
            var s2 := RemoteInput(s1, "1").0;
            var s3 := LocalMove(s2, 2).0;
            RemoteInput(s3, "4").0 == Game(['X', 'O', 'X', '\0', 'O', '\0', '\0', '\0', '\0'], 4, true, true, InProgress)
  {
    var e := '\0';
    assert EmptyBoard == [e, e, e, e, e, e, e, e, e];
    assert ParseInt("1") == Some(1) && ParseInt("4") == Some(4);
    var s1 := LocalMove(ServerStart, 0).0;
    NoLineScanned(['X', e, e, e, e, e, e, e, e], 'X');
    NoLineScanned(['X', e, e, e, e, e, e, e, e], 'O');
    assert [e, e, e, e, e, e, e, e, e][0 := 'X'] == ['X', e, e, e, e, e, e, e, e];
    assert s1 == Game(['X', e, e, e, e, e, e, e, e], 1, false, true, InProgress);
    var s2 := RemoteInput(s1, "1").0;
    NoLineScanned(['X', 'O', e, e, e, e, e, e, e], 'X');
    NoLineScanned(['X', 'O', e, e, e, e, e, e, e], 'O');
    assert ['X', e, e, e, e, e, e, e, e][1 := 'O'] == ['X', 'O', e, e, e, e, e, e, e];
    assert s2 == Game(['X', 'O', e, e, e, e, e, e, e], 2, true, true, InProgress);
    var s3 := LocalMove(s2, 2).0;
    NoLineScanned(['X', 'O', 'X', e, e, e, e, e, e], 'X');
    NoLineScanned(['X', 'O', 'X', e, e, e, e, e, e], 'O');
    assert ['X', 'O', e, e, e, e, e, e, e][2 := 'X'] == ['X', 'O', 'X', e, e, e, e, e, e];
    assert s3 == Game(['X', 'O', 'X', e, e, e, e, e, e], 3, false, true, InProgress);
    var s4 := RemoteInput(s3, "4").0;
    NoLineScanned(['X', 'O', 'X', e, 'O', e, e, e, e], 'X');
    NoLineScanned(['X', 'O', 'X', e, 'O', e, e, e, e], 'O');
    assert ['X', 'O', 'X', e, e, e, e, e, e][4 := 'O'] == ['X', 'O', 'X', e, 'O', e, e, e, e];
    assert s4 == Game(['X', 'O', 'X', e, 'O', e, e, e, e], 4, true, true, InProgress);
  }

  /** The last five moves of that game fill the board without a line and
      declare the tie at move 9, no outcome being set before it. */
  lemma TieEnding()
    ensures var s5 := LocalMove(Game(['X', 'O', 'X', '\0', 'O', '\0', '\0', '\0', '\0'], 4, true, true, InProgress), 3).0;
            var s6 := RemoteInput(s5, "5").0;
            var s7 := LocalMove(s6, 7).0;
            var s8 := RemoteInput(s7, "6").0;
            var (s9, accepted) := LocalMove(s8, 8);
            accepted && s8.flags == InProgress && s9.moves == 9 && s9.flags == Flags(false, false, true, false)
  {
    var e := '\0';
    var mid := Game(['X', 'O', 'X', e, 'O', e, e, e, e], 4, true, true, InProgress);
    assert ParseInt("5") == Some(5) && ParseInt("6") == Some(6);
    var s5 := LocalMove(mid, 3).0;
    NoLineScanned(['X', 'O', 'X', 'X', 'O', e, e, e, e], 'X');
    NoLineScanned(['X', 'O', 'X', 'X', 'O', e, e, e, e], 'O');
    assert mid.board[3 := 'X'] == ['X', 'O', 'X', 'X', 'O', e, e, e, e];
    assert s5 == Game(['X', 'O', 'X', 'X', 'O', e, e, e, e], 5, false, true, InProgress);
    var s6 := RemoteInput(s5, "5").0;
    NoLineScanned(['X', 'O', 'X', 'X', 'O', 'O', e, e, e], 'X');
    NoLineScanned(['X', 'O', 'X', 'X', 'O', 'O', e, e, e], 'O');
    assert ['X', 'O', 'X', 'X', 'O', e, e, e, e][5 := 'O'] == ['X', 'O', 'X', 'X', 'O', 'O', e, e, e];
    assert s6 == Game(['X', 'O', 'X', 'X', 'O', 'O', e, e, e], 6, true, true, InProgress);
    var s7 := LocalMove(s6, 7).0;
    NoLineScanned(['X', 'O', 'X', 'X', 'O', 'O', e, 'X', e], 'X');
    NoLineScanned(['X', 'O', 'X', 'X', 'O', 'O', e, 'X', e], 'O');
    assert ['X', 'O', 'X', 'X', 'O', 'O', e, e, e][7 := 'X'] == ['X', 'O', 'X', 'X', 'O', 'O', e, 'X', e];
    assert s7 == Game(['X', 'O', 'X', 'X', 'O', 'O', e, 'X', e], 7, false, true, InProgress);
    var s8 := RemoteInput(s7, "6").0;
    NoLineScanned(['X', 'O', 'X', 'X', 'O', 'O', 'O', 'X', e], 'X');
    NoLineScanned(['X', 'O', 'X', 'X', 'O', 'O', 'O', 'X', e], 'O');
    assert ['X', 'O', 'X', 'X', 'O', 'O', e, 'X', e][6 := 'O'] == ['X', 'O', 'X', 'X', 'O', 'O', 'O', 'X', e];
    assert s8 == Game(['X', 'O', 'X', 'X', 'O', 'O', 'O', 'X', e], 8, true, true, InProgress);
    var s9 := LocalMove(s8, 8).0;
    NoLineScanned(['X', 'O', 'X', 'X', 'O', 'O', 'O', 'X', 'X'], 'X');
    NoLineScanned(['X', 'O', 'X', 'X', 'O', 'O', 'O', 'X', 'X'], 'O');
    assert ['X', 'O', 'X', 'X', 'O', 'O', 'O', 'X', e][8 := 'X'] == ['X', 'O', 'X', 'X', 'O', 'O', 'O', 'X', 'X'];
    assert s9 == Game(['X', 'O', 'X', 'X', 'O', 'O', 'O', 'X', 'X'], 9, false, true, Flags(false, false, true, false));
  }

  /** Nine alternating moves that fill no line end in a tie at move 9, and
      no outcome is set before it. */
  lemma TieScenario()
    ensures var s1 := LocalMove(ServerStart, 0).0;
            var s2 := RemoteInput(s1, "1").0;
            var s3 := LocalMove(s2, 2).0;
            var s4 := RemoteInput(s3, "4").0;
            var s5 := LocalMove(s4, 3).0;
            var s6 := RemoteInput(s5, "5").0;
            var s7 := LocalMove(s6, 7).0;
            var s8 := RemoteInput(s7, "6").0;
            var (s9, accepted) := LocalMove(s8, 8);
            accepted && s8.flags == InProgress && s9.moves == 9 && s9.flags == Flags(false, false, true, false)
  {
    TieOpening();
    TieEnding();
  }
}
