/** The 3x3 board as the sequence of its nine cells in row-major order. A cell
    is marked when it holds 'X' or 'O'; every other character, including the
    '\0' a fresh board holds, counts as empty. */
module Board {

  /** An index into the board. */
  type Cell = i: int | 0 <= i < 9

  /** The eight triples of cells that win: three rows, three columns, two
      diagonals, in the order the game scans them. */
  const WinLines: seq<(Cell, Cell, Cell)> :=
    [(0, 1, 2), (3, 4, 5), (6, 7, 8), (0, 3, 6), (1, 4, 7), (2, 5, 8), (0, 4, 8), (2, 4, 6)]

  predicate IsMarked(c: char)
  {
    c == 'X' || c == 'O'
  }

  /** The mark a player places: 'X' for the player holding X, else 'O'. */
  function Mark(playsX: bool): (c: char)
    ensures IsMarked(c)
  {
    if playsX then 'X' else 'O'
  }

  /** makeSureSpaceIsFree: a cell is free unless it holds 'X' or 'O'. */
  predicate SpaceIsFree(board: seq<char>, i: Cell)
    requires |board| == 9
  {
    !IsMarked(board[i])
  }

  /** All three cells of the line hold the character c. */
  predicate LineOf(board: seq<char>, line: (Cell, Cell, Cell), c: char)
    requires |board| == 9
  {
    board[line.0] == c && board[line.1] == c && board[line.2] == c
  }

  /** One of the first k win lines is filled with c, as the scan of
      checkForWinner finds it line by line. */
  predicate HasLineAmong(board: seq<char>, c: char, k: nat)
    requires |board| == 9 && k <= |WinLines|
  {
    k > 0 && (HasLineAmong(board, c, k - 1) || LineOf(board, WinLines[k - 1], c))
  }

  predicate HasLine(board: seq<char>, c: char)
    requires |board| == 9
  {
    HasLineAmong(board, c, |WinLines|)
  }

  /** The scan finds a filled line exactly when one of the lines it covers is
      filled. */
  lemma {:induction false} HasLineAmongWitness(board: seq<char>, c: char, k: nat)
    requires |board| == 9 && k <= |WinLines|
    ensures HasLineAmong(board, c, k) <==> exists i :: 0 <= i < k && LineOf(board, WinLines[i], c)
  {
    if k > 0 {
      HasLineAmongWitness(board, c, k - 1);
      if LineOf(board, WinLines[k - 1], c) {
        assert 0 <= k - 1 < k && LineOf(board, WinLines[k - 1], c);
      }
    }
  }

  /** The scan finds no line of c when none of the eight lines, taken one by
      one, is filled with c. */
  lemma NoLineScanned(board: seq<char>, c: char)
    requires |board| == 9
    requires !LineOf(board, WinLines[0], c)
          && !LineOf(board, WinLines[1], c)
          && !LineOf(board, WinLines[2], c)
          && !LineOf(board, WinLines[3], c)
          && !LineOf(board, WinLines[4], c)
          && !LineOf(board, WinLines[5], c)
          && !LineOf(board, WinLines[6], c)
          && !LineOf(board, WinLines[7], c)
    ensures !HasLine(board, c)
  {
    assert !HasLineAmong(board, c, 1);
    assert !HasLineAmong(board, c, 2);
    assert !HasLineAmong(board, c, 3);
    assert !HasLineAmong(board, c, 4);
    assert !HasLineAmong(board, c, 5);
    assert !HasLineAmong(board, c, 6);
    assert !HasLineAmong(board, c, 7);
    assert !HasLineAmong(board, c, 8);
  }

  /** The number of marked cells. */
  function MarkedCount(s: seq<char>): (n: nat)
    ensures n <= |s|
  {
    if s == [] then 0
    else (if IsMarked(s[0]) then 1 else 0) + MarkedCount(s[1..])
  }

  /** Writing c into cell i changes the count by what that one cell changes. */
  lemma {:induction false} MarkedCountWrite(s: seq<char>, i: nat, c: char)
    requires i < |s|
    ensures MarkedCount(s[i := c]) + (if IsMarked(s[i]) then 1 else 0)
         == MarkedCount(s) + (if IsMarked(c) then 1 else 0)
  {
    if i > 0 {
      MarkedCountWrite(s[1..], i - 1, c);
      assert s[i := c][1..] == s[1..][i - 1 := c];
    }
  }

  lemma {:induction false} MarkedCountBlank(n: nat, c: char)
    requires !IsMarked(c)
    ensures MarkedCount(seq(n, _ => c)) == 0
  {
    if n > 0 {
      MarkedCountBlank(n - 1, c);
      assert seq(n, _ => c)[1..] == seq(n - 1, _ => c);
    }
  }

  /** A board whose every cell is marked has all nine cells counted. */
  lemma {:induction false} MarkedCountFull(s: seq<char>)
    requires forall k :: 0 <= k < |s| ==> IsMarked(s[k])
    ensures MarkedCount(s) == |s|
  {
    if s != [] {
      MarkedCountFull(s[1..]);
    }
  }

  /** How paintBoard shows one cell. */
  function Glyph(c: char): char
  {
    if c == 'X' then 'X' else if c == 'O' then 'O' else ' '
  }

  /** Row r of the painted board: the three glyphs separated by " | ", a
      trailing space and a line break. */
  function Row(board: seq<char>, r: nat): string
    requires |board| == 9 && r < 3
  {
    [Glyph(board[3 * r])] + " | " + [Glyph(board[3 * r + 1])] + " | " + [Glyph(board[3 * r + 2])] + " \n"
  }

  /** The painted board: its three rows, top to bottom. */
  function Render(board: seq<char>): (text: string)
    requires |board| == 9
    ensures |text| == 33
  {
    Row(board, 0) + Row(board, 1) + Row(board, 2)
  }

  lemma RowShape(board: seq<char>, r: nat)
    requires |board| == 9 && r < 3
    ensures |Row(board, r)| == 11
    ensures forall k :: 0 <= k < 11 ==> (Row(board, r)[k] == '\n' <==> k == 10)
    ensures forall j :: 0 <= j < 3 ==> Row(board, r)[4 * j] == Glyph(board[3 * r + j])
  {
  }

  /** The painted board is 33 characters: exactly three lines of eleven, each
      ended by its only line break, and column j of row q shows cell 3q+j. */
  lemma RenderShape(board: seq<char>)
    requires |board| == 9
    ensures |Render(board)| == 33
    ensures forall k :: 0 <= k < 33 ==> (Render(board)[k] == '\n' <==> k % 11 == 10)
    ensures forall q, j :: 0 <= q < 3 && 0 <= j < 3 ==> Render(board)[11 * q + 4 * j] == Glyph(board[3 * q + j])
  {
    var r0, r1, r2 := Row(board, 0), Row(board, 1), Row(board, 2);
    RowShape(board, 0);
    RowShape(board, 1);
    RowShape(board, 2);
    var text := Render(board);
    forall k | 0 <= k < 33
      ensures text[k] == '\n' <==> k % 11 == 10
    {
      if k < 11 {
        assert text[k] == r0[k];
      } else if k < 22 {
        assert text[k] == r1[k - 11];
      } else {
        assert text[k] == r2[k - 22];
      }
    }
    forall q, j | 0 <= q < 3 && 0 <= j < 3
      ensures text[11 * q + 4 * j] == Glyph(board[3 * q + j])
    {
      if q == 0 {
        assert text[4 * j] == r0[4 * j];
      } else if q == 1 {
        assert text[11 + 4 * j] == r1[4 * j];
      } else {
        assert text[22 + 4 * j] == r2[4 * j];
      }
    }
  }

  /** Two boards paint the same text exactly when they agree on every glyph:
      painting loses nothing but the difference between empty characters. */
  lemma RenderFaithful(a: seq<char>, b: seq<char>)
    requires |a| == 9 && |b| == 9
    ensures Render(a) == Render(b) <==> forall i :: 0 <= i < 9 ==> Glyph(a[i]) == Glyph(b[i])
  {
    if forall i :: 0 <= i < 9 ==> Glyph(a[i]) == Glyph(b[i]) {
      assert Row(a, 0) == Row(b, 0) && Row(a, 1) == Row(b, 1) && Row(a, 2) == Row(b, 2);
    }
    if Render(a) == Render(b) {
      forall i | 0 <= i < 9
        ensures Glyph(a[i]) == Glyph(b[i])
      {
        RenderShows(a, i);
        RenderShows(b, i);
      }
    }
  }

  /** Cell i is shown at column 4 (i mod 3) of line i / 3. */
  lemma RenderShows(board: seq<char>, i: int)
    requires |board| == 9 && 0 <= i < 9
    ensures Render(board)[11 * (i / 3) + 4 * (i % 3)] == Glyph(board[i])
  {
  }
}
