/** The game-state engine: the board, whose turn it is, the move counter,
    the win and draw flags and the status line, updated in place by every
    move, reset and swap. */
module Engine {
  import opened Board
  import opened Players

  /** The status line the engine shows for a given state: the mover's win,
      a draw, or whose turn it is. */
  function StatusMessage(winner: bool, draw: bool, name: string): string
  {
    if winner then name + " is the winner!"
    else if draw then "The game is a draw."
    else name + ", your turn."
  }

  /** What a click on a cell did. */
  datatype Outcome =
    | Ignored   // the game is over, clicks do nothing until a reset
    | Rejected  // the cell is taken (or not a cell): the player is told to choose an empty one
    | Placed    // the current player's token went on the cell

  class GameState {
    const board: array<Marker>
    var currPlayer: GamePlayer?
    var players: seq<GamePlayer>
    var numMoves: nat
    var winner: bool
    var draw: bool
    var gameStatus: string

    /** A nine-cell board, and either no players yet or two distinct ones. */
    ghost predicate Valid()
      reads this
    {
      board.Length == 9 &&
      ((players == [] && currPlayer == null) || Ready())
    }

    /** The players are set and the current player is one of them. */
    ghost predicate Ready()
      reads this
    {
      board.Length == 9 &&
      |players| == 2 && players[0] != players[1] &&
      (currPlayer == players[0] || currPlayer == players[1])
    }

    /** A new game: every cell empty, no move made, neither flag set. */
    ghost predicate Cleared()
      reads this, board
    {
      numMoves == 0 && !winner && !draw &&
      forall j :: 0 <= j < board.Length ==> board[j] == Empty
    }

    /** The invariant that guarded play keeps: the counter is the number of
        occupied cells, the win flag says whether a line is full, the draw
        flag says the ninth move was made without a win, and the status line
        matches the flags and the current player. */
    ghost predicate Consistent()
      reads this, board
    {
      Ready() &&
      numMoves == Occupied(board[..]) &&
      winner == HasWin(board[..]) &&
      draw == (!winner && numMoves == 9) &&
      gameStatus == StatusMessage(winner, draw, currPlayer.name)
    }

    /** A fresh engine, before any players are set. */
    constructor ()
      ensures Valid() && Cleared() && fresh(board)
      ensures players == [] && currPlayer == null && gameStatus == ""
    {
      board := new Marker[9](_ => Empty);
      currPlayer := null;
      players := [];
      numMoves := 0;
      winner := false;
      draw := false;
      gameStatus := "";
    }

    /** The cell can be played: it is on the board and empty. An index off
        the board reads as `undefined`, which is not the empty string. */
    predicate ValidMove(i: int)
      requires Valid()
      reads this, board
    {
      0 <= i < 9 && board[i] == Empty
    }

    /** A win check over the three columns: the loop filters the board down
        to column i and stops at the first column that reads "XXX" or "OOO". */
    method VertWin() returns (found: bool)
      requires Valid()
      ensures found <==> exists c :: 0 <= c < 3 && HasThree(Column(board[..], c))
    {
      found := false;
      for i := 0 to 3
        invariant !found
        invariant forall c :: 0 <= c < i ==> !HasThree(Column(board[..], c))
      {
        var vertical := Filter(board[..], idx => idx == 0 + i || idx == 3 + i || idx == 6 + i);
        FilterThree(board[..], idx => idx == 0 + i || idx == 3 + i || idx == 6 + i, i, i + 3, i + 6);
        found := HasThree(vertical);
        if found {
          assert HasThree(Column(board[..], i));
          break;
        }
      }
    }

    /** A win check over the three rows: row i is the cells with index
        between 3i and 3i + 2. */
    method HorizWin() returns (found: bool)
      requires Valid()
      ensures found <==> exists r :: 0 <= r < 3 && HasThree(Row(board[..], r))
    {
      found := false;
      for i := 0 to 3
        invariant !found
        invariant forall r :: 0 <= r < i ==> !HasThree(Row(board[..], r))
      {
        var horiz := Filter(board[..], idx => idx >= 0 + i * 3 && idx <= 2 + i * 3);
        FilterThree(board[..], idx => idx >= 0 + i * 3 && idx <= 2 + i * 3, 3 * i, 3 * i + 1, 3 * i + 2);
        found := HasThree(horiz);
        if found {
          assert HasThree(Row(board[..], i));
          break;
        }
      }
    }

    /** A win check over the cells i, 4 and 8 - i for i = 0, 1, 2: the two
        diagonals, and in the middle pass the middle column once more. */
    method DiagWin() returns (found: bool)
      requires Valid()
      ensures found <==> exists i :: 0 <= i < 3 && HasThree(DiagonalPass(board[..], i))
    {
      found := false;
      for i := 0 to 3
        invariant !found
        invariant forall k :: 0 <= k < i ==> !HasThree(DiagonalPass(board[..], k))
      {
        var diag := Filter(board[..], idx => idx == 0 + i || idx == 4 || idx == 8 - i);
        FilterThree(board[..], idx => idx == 0 + i || idx == 4 || idx == 8 - i, i, 4, 8 - i);
        found := HasThree(diag);
        if found {
          assert HasThree(DiagonalPass(board[..], i));
          break;
        }
      }
    }

    /** Sets the win flag from the board; on a win the status names the
        current player, who is the one that just moved. */
    method CheckForWin()
      requires Ready()
      modifies this`winner, this`gameStatus
      ensures winner == HasWin(board[..])
      ensures gameStatus == if winner then currPlayer.name + " is the winner!" else old(gameStatus)
    {
      var w := VertWin();
      if !w {
        w := HorizWin();
      }
      if !w {
        w := DiagWin();
      }
      LoopChecksFindEveryLine(board[..]);
      winner := w;
      if winner {
        gameStatus := currPlayer.name + " is the winner!";
      }
    }

    /** Sets the draw flag when the ninth move has been made. */
    method CheckForDraw()
      modifies this`draw, this`gameStatus
      ensures draw == (numMoves == 9)
      ensures gameStatus == if draw then "The game is a draw." else old(gameStatus)
    {
      draw := numMoves == 9;
      if draw {
        gameStatus := "The game is a draw.";
      }
    }

    /** Makes p the current player and announces their turn. */
    method SetCurrPlayer(p: GamePlayer)
      modifies this`currPlayer, this`gameStatus
      ensures currPlayer == p && gameStatus == p.name + ", your turn."
    {
      currPlayer := p;
      gameStatus := currPlayer.name + ", your turn.";
    }

    /** Registers the two players in turn order; the first moves first. The
        board, the counter and the flags are left as they are. */
    method SetPlayers(first: GamePlayer, second: GamePlayer)
      requires Valid() && first != second
      modifies this`players, this`currPlayer, this`gameStatus
      ensures Ready() && players == [first, second] && currPlayer == first
      ensures gameStatus == first.name + ", your turn."
      ensures Cleared() ==> Consistent()
    {
      players := [first, second];
      SetCurrPlayer(players[0]);
      if Cleared() {
        OccupiedNone(board[..]);
      }
    }

    /** Hands the turn to the other registered player (compared by identity). */
    method SwitchPlayers()
      requires Ready()
      modifies this`currPlayer, this`gameStatus
      ensures Ready() && currPlayer != old(currPlayer)
      ensures gameStatus == currPlayer.name + ", your turn."
    {
      if currPlayer == players[0] {
        SetCurrPlayer(players[1]);
      } else {
        SetCurrPlayer(players[0]);
      }
    }

    /** A move: the token goes on cell i and the counter goes up; then the
        win check, the draw check only without a win, and the turn passes
        only when the game is not over. The engine itself does not check
        the cell; its caller does (see Play). */
    method SetSquare(i: int, t: Token)
      requires Ready() && 0 <= i < 9 && board[i] == Empty
      modifies this, board
      ensures Ready() && players == old(players)
      ensures board[..] == old(board[..])[i := t] && !ValidMove(i)
      ensures players[0].token == old(players[0].token) && players[1].token == old(players[1].token)
      ensures numMoves == old(numMoves) + 1
      ensures winner == HasWin(board[..])
      ensures draw == if winner then old(draw) else numMoves == 9
      ensures winner || draw ==> currPlayer == old(currPlayer)
      ensures !winner && !draw ==> currPlayer != old(currPlayer)
      ensures gameStatus == StatusMessage(winner, draw, currPlayer.name)
    {
      board[i] := t;
      numMoves := numMoves + 1;
      CheckForWin();
      if !winner {
        CheckForDraw();
      }
      if !winner && !draw {
        SwitchPlayers();
      }
    }

    /** Starts a new game with the same players: all cells empty, counter
        and flags cleared, and the first player to move. Tokens and the
        order of the players are untouched. */
    method Reset()
      requires Ready()
      modifies this, board
      ensures Ready() && Cleared() && Consistent()
      ensures players == old(players) && currPlayer == players[0]
      ensures players[0].token == old(players[0].token) && players[1].token == old(players[1].token)
      ensures gameStatus == players[0].name + ", your turn."
      ensures forall j :: ValidMove(j) <==> 0 <= j < 9
    {
      for i := 0 to 9
        modifies board
        invariant forall j :: 0 <= j < i ==> board[j] == Empty
      {
        board[i] := Empty;
      }
      numMoves := 0;
      winner := false;
      draw := false;
      SetCurrPlayer(players[0]);
      OccupiedNone(board[..]);
    }

    /** Starts a new game with the players exchanged: the former second
        player moves first and plays X, the former first player plays O. */
    method SwapPlayers()
      requires Ready()
      modifies this, board, players
      ensures Ready() && Cleared() && Consistent()
      ensures players == [old(players[1]), old(players[0])]
      ensures players[0].token == X && players[1].token == O
      ensures currPlayer == players[0]
      ensures gameStatus == players[0].name + ", your turn."
    {
      Reset();
      var player := players[0];
      players := players[0 := players[1]];
      players[0].SetToken(X);
      players := players[1 := player];
      players[1].SetToken(O);
      SetCurrPlayer(players[0]);
    }

    /** A click on cell i: ignored once the game is won or drawn, refused
        when the cell cannot be played, and otherwise the current player's
        token is placed. Guarded play keeps the engine consistent. */
    method Play(i: int) returns (outcome: Outcome)
      requires Consistent()
      modifies this, board
      ensures Consistent() && players == old(players)
      ensures currPlayer == players[0] || currPlayer == players[1]
      ensures outcome == if old(winner) || old(draw) then Ignored
                         else if old(ValidMove(i)) then Placed
                         else Rejected
      ensures outcome != Placed ==>
                board[..] == old(board[..]) && numMoves == old(numMoves) &&
                winner == old(winner) && draw == old(draw) &&
                currPlayer == old(currPlayer) && gameStatus == old(gameStatus)
      ensures outcome == Placed ==>
                board[..] == old(board[..])[i := old(currPlayer).token] &&
                numMoves == old(numMoves) + 1
      ensures outcome == Placed && (winner || draw) ==> currPlayer == old(currPlayer)
      ensures outcome == Placed && winner ==> Wins(board[..], currPlayer.token)
      ensures outcome == Placed && !winner && !draw ==> currPlayer != old(currPlayer)
      ensures numMoves <= 9 && !(winner && draw)
      ensures draw ==> forall j :: 0 <= j < 9 ==> board[j] != Empty
    {
      if !winner && !draw {
        if ValidMove(i) {
          ghost var before := board[..];
          OccupiedAfterPlace(before, i, currPlayer.token);
          SetSquare(i, currPlayer.token);
          if winner {
            MoverOwnsTheWin(before, i, currPlayer.token);
          }
          outcome := Placed;
        } else {
          outcome := Rejected;
        }
      } else {
        outcome := Ignored;
      }
      OccupiedAtMost(board[..]);
      OccupiedAllIff(board[..]);
    }
  }

  /** In a consistent game some cell can still be played exactly when
      fewer than nine moves have been made, so the draw flag (set on the
      ninth move) means the board is full. */
  lemma MoveLeftIffUnderNine(game: GameState)
    requires game.Consistent()
    ensures (exists i :: game.ValidMove(i)) <==> game.numMoves < 9
  {
    OccupiedAtMost(game.board[..]);
    OccupiedAllIff(game.board[..]);
    if game.numMoves < 9 {
      var j :| 0 <= j < 9 && game.board[..][j] == Empty;
      assert game.ValidMove(j);
    }
  }

  /** Pressing "swap sides" twice: the players are back in their original
      order with the first one to move and, when the first held X and the
      second O, their tokens are back too. */
  method SwapTwice(game: GameState)
    requires game.Ready()
    modifies game, game.board, game.players
    ensures game.Cleared() && game.Consistent()
    ensures game.players == old(game.players) && game.currPlayer == game.players[0]
    ensures old(game.players[0].token) == X && old(game.players[1].token) == O ==>
              game.players[0].token == X && game.players[1].token == O
  {
    var first := game.players[0];
    game.SwapPlayers();
    assert first == game.players[1] && first.token == O;
    game.SwapPlayers();
  }
}
