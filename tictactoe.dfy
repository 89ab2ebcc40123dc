/** One player's game session: the board array and the flags the sending
    and listening threads read and update. Each method is proved to change
    the fields exactly as the matching function of module Rules says, and to
    keep the invariant Rules.Consistent. */
module TicTacToeGame {
  import opened Board
  import opened Protocol
  import opened Rules

  const DefaultPort: int := 2000

  /** The range controlPortAcceptance accepts. */
  predicate PortAcceptable(port: int)
  {
    0 <= port <= 65535
  }

  class TicTacToe {
    var ip: string
    var port: int
    var moves: nat
    const spaces: array<char>
    var yourTurn: bool
    /** The Java field X: this side plays X. */
    var playsX: bool
    var continueGame: bool
    var playerWon: bool
    var opponentWon: bool
    var tied: bool

    ghost function Outcome(): Flags
      reads this
    {
      Flags(playerWon, opponentWon, tied, continueGame)
    }

    /** The fields as a Rules.Game value. */
    ghost function State(): Game
      reads this, spaces
    {
      Game(spaces[..], moves, yourTurn, playsX, Outcome())
    }

    ghost predicate Valid()
      reads this, spaces
    {
      spaces.Length == 9 && Consistent(State())
    }

    /** The server side, TicTacToe(int port): it plays X and moves first.
        The range check runs before the port field is assigned, so it reads
        the field's default 0 and lets every port through; the socket that
        would reject an out-of-range port is not modelled. */
    constructor Server(port: int)
      ensures Valid() && fresh(spaces)
      ensures State() == ServerStart
      ensures this.port == port && ip == "localhost"
    {
      ip := "localhost";
      this.port := 0;
      spaces := new char[9](_ => '\0');
      moves := 0;
      yourTurn, playsX := false, false;
      continueGame, playerWon, opponentWon, tied := true, false, false, false;
      new;
      var acceptable := ControlPortAcceptance();
      assert acceptable;
      this.port := port;
      yourTurn := true;
      playsX := true;
      assert spaces[..] == EmptyBoard;
      StartsConsistent();
    }

    /** The no-argument constructor, this(2000): a server on the default
        port. */
    constructor Default()
      ensures Valid() && fresh(spaces)
      ensures State() == ServerStart
      ensures port == DefaultPort && ip == "localhost"
    {
      ip := "localhost";
      port := 0;
      spaces := new char[9](_ => '\0');
      moves := 0;
      yourTurn, playsX := false, false;
      continueGame, playerWon, opponentWon, tied := true, false, false, false;
      new;
      var acceptable := ControlPortAcceptance();
      assert acceptable;
      port := DefaultPort;
      yourTurn := true;
      playsX := true;
      assert spaces[..] == EmptyBoard;
      StartsConsistent();
    }

    /** The client side, TicTacToe(String ip, int port): it plays O and
        waits for the server's first move. Its range check, too, reads the
        port field before the assignment. */
    constructor Client(ip: string, port: int)
      ensures Valid() && fresh(spaces)
      ensures State() == ClientStart
      ensures this.port == port && this.ip == ip
    {
      this.ip := "localhost";
      this.port := 0;
      spaces := new char[9](_ => '\0');
      moves := 0;
      yourTurn, playsX := false, false;
      continueGame, playerWon, opponentWon, tied := true, false, false, false;
      new;
      var acceptable := ControlPortAcceptance();
      assert acceptable;
      this.ip := ip;
      this.port := port;
      assert spaces[..] == EmptyBoard;
      StartsConsistent();
    }

    /** controlPortAcceptance: whether the port field lies in 0..65535 (the
        Java code throws IllegalArgumentException when it does not). */
    method ControlPortAcceptance() returns (acceptable: bool)
      ensures acceptable <==> PortAcceptable(port)
    {
      acceptable := !(port < 0 || port > 65535);
    }

    function IsYourTurn(): (r: bool)
      reads this, spaces
      requires Valid()
      ensures r == State().yourTurn
    {
      yourTurn
    }

    /** gameIsOver: in every valid state, the game is over exactly when
        one of the three outcome flags is set. */
    function GameIsOver(): (r: bool)
      reads this, spaces
      requires Valid()
      ensures r <==> playerWon || opponentWon || tied
      ensures r == Rules.GameIsOver(State())
    {
      !continueGame
    }

    /** makeSureSpaceIsFree: a cell holding anything but 'X' or 'O' is free. */
    function MakeSureSpaceIsFree(move: int): (free: bool)
      reads this, spaces
      requires spaces.Length == 9 && 0 <= move < 9
      ensures free <==> SpaceIsFree(spaces[..], move)
    {
      !(spaces[move] == 'X' || spaces[move] == 'O')
    }

    /** acceptableMove. */
    method AcceptableMove(move: int) returns (accepted: bool)
      requires Valid()
      modifies this`moves, this`yourTurn, this`continueGame, this`playerWon, this`opponentWon, this`tied, spaces
      ensures Valid()
      ensures (State(), accepted) == LocalMove(old(State()), move)
    {
      ghost var before := State();
      if move < 9 && move > -1 {
        var spaceIsFree := MakeSureSpaceIsFree(move);
        if !spaceIsFree {
          return false;
        }
        if playsX {
          spaces[move] := 'X';
        } else {
          spaces[move] := 'O';
        }
        moves := moves + 1;
        yourTurn := false;
        CheckForWinner();
        LocalMovePreservesConsistent(before, move);
        return true;
      }
      return false;
    }

    /** inputFromOtherUser; the result says which branch was taken. */
    method InputFromOtherUser(input: string) returns (received: Received)
      requires Valid()
      modifies this`moves, this`yourTurn, this`continueGame, this`playerWon, this`opponentWon, this`tied, spaces
      ensures Valid()
      ensures (State(), received) == RemoteInput(old(State()), input)
    {
      ghost var before := State();
      RemoteInputPreservesConsistent(before, input);
      if ChatPrefix <= input {
        received := ChatReceived(input[2..]);
      } else if !yourTurn {
        var parsed := ParseInt(input);
        if parsed.None? {
          return NumberFormatError;
        }
        var move := parsed.value;
        if !(0 <= move < 9) {
          return IndexOutOfBounds(move);
        }
        if playsX {
          spaces[move] := 'O';
        } else {
          spaces[move] := 'X';
        }
        moves := moves + 1;
        yourTurn := true;
        CheckForWinner();
        received := MovePlayed(move);
      } else {
        received := MoveIgnored;
      }
    }

    /** checkForWinner: the loop over the eight win lines, then the tie test. */
    method CheckForWinner()
      requires spaces.Length == 9
      modifies this`continueGame, this`playerWon, this`opponentWon, this`tied
      ensures Outcome() == Evaluate(spaces[..], moves, playsX, old(Outcome()))
    {
      var i := 0;
      while i < |WinLines|
        invariant 0 <= i <= |WinLines|
        invariant Outcome() == ScanLines(spaces[..], playsX, old(Outcome()), i)
      {
        var line := WinLines[i];
        if spaces[line.0] == 'X' && spaces[line.1] == 'X' && spaces[line.2] == 'X' {
          if playsX {
            playerWon := true;
          } else {
            opponentWon := true;
          }
          continueGame := false;
        } else if spaces[line.0] == 'O' && spaces[line.1] == 'O' && spaces[line.2] == 'O' {
          if playsX {
            opponentWon := true;
          } else {
            playerWon := true;
          }
          continueGame := false;
        }
        i := i + 1;
      }
      if !playerWon && !opponentWon && moves == 9 {
        tied := true;
        continueGame := false;
      }
    }

    /** paintBoard: the text it prints, built cell by cell with a running
        index and the trailing "| " of each row cut off. */
    method PaintBoard() returns (board: string)
      requires spaces.Length == 9
      ensures board == Render(spaces[..])
      ensures |board| == 33
    {
      board := "";
      var count := 0;
      for i := 0 to 3
        invariant count == 3 * i
        invariant board == RowsUpTo(spaces[..], i)
      {
        ghost var done := board;
        for j := 0 to 3
          invariant count == 3 * i + j
          invariant board == done + CellsUpTo(spaces[..], i, j)
        {
          if spaces[count] == 'X' {
            board := board + "X | ";
          } else if spaces[count] == 'O' {
            board := board + "O | ";
          } else {
            board := board + "  | ";
          }
          count := count + 1;
        }
        RowFromCells(spaces[..], i, done);
        board := board[..|board| - 2];
        board := board + "\n";
      }
      assert RowsUpTo(spaces[..], 2) == Row(spaces[..], 0) + Row(spaces[..], 1);
      RenderShape(spaces[..]);
    }
  }

  /** The first j cells of row r as the inner loop of paintBoard appends
      them, each followed by " | ". */
  function CellsUpTo(board: seq<char>, r: nat, j: nat): string
    requires |board| == 9 && r < 3 && j <= 3
  {
    if j == 0 then "" else CellsUpTo(board, r, j - 1) + [Glyph(board[3 * r + j - 1])] + " | "
  }

  /** The first r rows of the painted board. */
  function RowsUpTo(board: seq<char>, r: nat): string
    requires |board| == 9 && r <= 3
  {
    if r == 0 then "" else RowsUpTo(board, r - 1) + Row(board, r - 1)
  }

  /** Cutting the last two characters off the three appended cells and adding
      a line break gives the row. */
  lemma RowFromCells(board: seq<char>, r: nat, done: string)
    requires |board| == 9 && r < 3
    ensures var s := done + CellsUpTo(board, r, 3);
      s[..|s| - 2] + "\n" == done + Row(board, r)
  {
    var cells := CellsUpTo(board, r, 3);
    assert CellsUpTo(board, r, 1) == [Glyph(board[3 * r])] + " | ";
    assert CellsUpTo(board, r, 2) == [Glyph(board[3 * r])] + " | " + [Glyph(board[3 * r + 1])] + " | ";
    assert cells == [Glyph(board[3 * r])] + " | " + [Glyph(board[3 * r + 1])] + " | " + [Glyph(board[3 * r + 2])] + " | ";
    var s := done + cells;
    assert s[..|s| - 2] == done + cells[..|cells| - 2];
  }
}
