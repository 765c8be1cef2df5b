/**
 * Rock paper scissors: the outcome table of one match and a game between
 * two players whose recorded results grow as their moves are played.
 */
module RockPaperScissors {
  import opened Wrappers

  /** A hand shape, with its value as an integer enumeration. */
  datatype Choice = Rock | Paper | Scissors {
    function Value(): int {
      match this
      case Rock => 1
      case Paper => 2
      case Scissors => 3
    }
  }

  /** The outcome of a match for one player, with its score. */
  datatype MatchResult = Loss | Draw | Win {
    function Value(): int {
      match this
      case Loss => 0
      case Draw => 3
      case Win => 6
    }

    /** The same match seen from the other player. */
    function Opposite(): (o: MatchResult)
      ensures o.Value() == 6 - Value()
    {
      if this == Loss then Win
      else if this == Win then Loss
      else Draw
    }
  }

  /** Seeing a match from the other side twice gives back the original outcome. */
  lemma OppositeInvolution(m: MatchResult)
    ensures m.Opposite().Opposite() == m
  {
  }

  /**
   * The outcome for the first player of one match. The source starts from
   * `None` and fills it in from three cases, so the result is optional here.
   */
  function PlayMatch(player1: Choice, player2: Choice): (r: Option<MatchResult>)
    ensures r.Some?
    ensures r == Some(Win) <==> (player1.Value() - player2.Value()) % 3 == 1
    ensures r == Some(Loss) <==> (player1.Value() - player2.Value()) % 3 == 2
    ensures r == Some(Draw) <==> player1 == player2
  {
    match (player1, player2)
    case (Rock, Scissors) => Some(Win)
    case (Scissors, Paper) => Some(Win)
    case (Paper, Rock) => Some(Win)
    case (Scissors, Rock) => Some(Loss)
    case (Paper, Scissors) => Some(Loss)
    case (Rock, Paper) => Some(Loss)
    case _ => if player1 == player2 then Some(Draw) else None
  }

  /** The outcome from one side is the opposite of the outcome from the other. */
  lemma PlayMatchAntisymmetric(a: Choice, b: Choice)
    ensures PlayMatch(a, b).value == PlayMatch(b, a).value.Opposite()
  {
  }

  /** The outcomes for the first player of the matches pairing `moves1[k]` with `moves2[k]`. */
  function Outcomes(moves1: seq<Choice>, moves2: seq<Choice>): (r: seq<MatchResult>)
    requires |moves1| == |moves2|
    ensures |r| == |moves1|
    ensures forall k :: 0 <= k < |r| ==> Some(r[k]) == PlayMatch(moves1[k], moves2[k])
  {
    if moves1 == [] then []
    else [PlayMatch(moves1[0], moves2[0]).value] + Outcomes(moves1[1..], moves2[1..])
  }

  /** Every outcome of `rs`, seen from the other side. */
  function Opposites(rs: seq<MatchResult>): (r: seq<MatchResult>)
    ensures |r| == |rs|
    ensures forall k :: 0 <= k < |r| ==> r[k] == rs[k].Opposite()
  {
    if rs == [] then [] else [rs[0].Opposite()] + Opposites(rs[1..])
  }

  /**
   * What the second player records is what it would record as the first
   * player of the same matches.
   */
  lemma {:induction false} OutcomesSwap(moves1: seq<Choice>, moves2: seq<Choice>)
    requires |moves1| == |moves2|
    ensures Opposites(Outcomes(moves1, moves2)) == Outcomes(moves2, moves1)
  {
    if moves1 != [] {
      OutcomesSwap(moves1[1..], moves2[1..]);
      PlayMatchAntisymmetric(moves2[0], moves1[0]);
      OppositeInvolution(PlayMatch(moves2[0], moves1[0]).value);
    }
  }

  /** Playing one more pair of moves appends its outcome. */
  lemma OutcomesSnoc(moves1: seq<Choice>, moves2: seq<Choice>, k: nat)
    requires k < |moves1| && k < |moves2|
    ensures Outcomes(moves1[..k + 1], moves2[..k + 1])
         == Outcomes(moves1[..k], moves2[..k]) + [PlayMatch(moves1[k], moves2[k]).value]
  {
    var longer := Outcomes(moves1[..k + 1], moves2[..k + 1]);
    var shorter := Outcomes(moves1[..k], moves2[..k]);
    forall i | 0 <= i < k
      ensures longer[i] == shorter[i]
    {
      assert moves1[..k + 1][i] == moves1[..k][i] && moves2[..k + 1][i] == moves2[..k][i];
    }
    assert moves1[..k + 1][k] == moves1[k] && moves2[..k + 1][k] == moves2[k];
  }

  lemma OppositesSnoc(rs: seq<MatchResult>, m: MatchResult)
    ensures Opposites(rs + [m]) == Opposites(rs) + [m.Opposite()]
  {
    var longer := Opposites(rs + [m]);
    forall i | 0 <= i < |rs|
      ensures longer[i] == Opposites(rs)[i]
    {
      assert (rs + [m])[i] == rs[i];
    }
  }

  /** Appending to a record that is itself a concatenation regroups freely. */
  lemma AppendAssociative(a: seq<MatchResult>, b: seq<MatchResult>, c: seq<MatchResult>)
    ensures (a + b) + c == a + (b + c)
  {
  }

  /** A player: the moves it will make and the results it has recorded so far. */
  class Player {
    const moves: seq<Choice>
    var results: seq<MatchResult>

    constructor (moves: seq<Choice>)
      ensures this.moves == moves && results == []
    {
      this.moves := moves;
      results := [];
    }
  }

  datatype GameError =
    | NotEnoughPlayers   // the source's RuntimeError: the game needs exactly two players
    | MovesOfUnequalLength  // the ValueError of a strict zip over the two move lists

  class Game {
    var players: seq<Player>

    /** Each player is added as a new object, so no player appears twice. */
    ghost predicate Valid()
      reads this
    {
      forall i, j :: 0 <= i < j < |players| ==> players[i] != players[j]
    }

    constructor ()
      ensures Valid() && players == []
    {
      players := [];
    }

    predicate HasEnoughPlayers()
      reads this
    {
      |players| == 2
    }

    /** Adds a player with no results yet and returns the new number of players. */
    method AddPlayer(moves: seq<Choice>) returns (count: nat)
      requires Valid()
      modifies this
      ensures Valid()
      ensures |players| == |old(players)| + 1 && players[..|players| - 1] == old(players)
      ensures fresh(players[|players| - 1])
      ensures players[|players| - 1].moves == moves && players[|players| - 1].results == []
      ensures count == |players|
    {
      var p := new Player(moves);
      players := players + [p];
      count := |players|;
    }

    /**
     * The player numbered `no`, counting from 1. As in the source, the list
     * index `no - 1` follows Python's indexing, so 0 and negative numbers
     * count back from the last player; an index past either end is `None`.
     */
    function GetPlayer(no: int): (p: Option<Player>)
      reads this
      ensures 1 <= no <= |players| ==> p == Some(players[no - 1])
      ensures 1 - |players| <= no <= 0 ==> p == Some(players[|players| + no - 1])
      ensures p.None? <==> no > |players| || no <= -|players|
    {
      var index := no - 1;
      if 0 <= index < |players| then Some(players[index])
      else if -|players| <= index < 0 then Some(players[|players| + index])
      else None
    }

    /** Enough players means player numbers 1 and 2 exist and number 3 does not. */
    lemma EnoughPlayersNumbered()
      ensures HasEnoughPlayers() <==> GetPlayer(1).Some? && GetPlayer(2).Some? && GetPlayer(3).None?
    {
    }

    /**
     * Plays the two players' moves pairwise, appending each outcome to the
     * first player and its opposite to the second, and returns the number of
     * results the first player now holds. Without exactly two players nothing
     * changes. When the move lists differ in length the matches of the common
     * prefix are recorded before the error is raised.
     */
    method Play() returns (r: Result<nat, GameError>)
      requires Valid()
      modifies players
      ensures players == old(players)
      ensures !old(HasEnoughPlayers()) ==> r == Err(NotEnoughPlayers)
      ensures !old(HasEnoughPlayers()) ==>
        forall k :: 0 <= k < |players| ==> players[k].results == old(players[k].results)
      ensures old(HasEnoughPlayers()) ==>
        var p1, p2 := players[0], players[1];
        var n := if |p1.moves| <= |p2.moves| then |p1.moves| else |p2.moves|;
        && p1.results == old(p1.results) + Outcomes(p1.moves[..n], p2.moves[..n])
        && p2.results == old(p2.results) + Outcomes(p2.moves[..n], p1.moves[..n])
        && r == if |p1.moves| == |p2.moves| then Ok(|p1.results|) else Err(MovesOfUnequalLength)
    {
      if !HasEnoughPlayers() {
        return Err(NotEnoughPlayers);
      }
      var player1 := GetPlayer(1).value;
      var player2 := GetPlayer(2).value;
      assert player1 == players[0] && player2 == players[1] && player1 != player2;
      ghost var results1, results2 := player1.results, player2.results;
      var moves1, moves2 := player1.moves, player2.moves;
      var n := if |moves1| <= |moves2| then |moves1| else |moves2|;
      ghost var played: seq<MatchResult> := [];
      var k := 0;
      while k < n
        invariant 0 <= k <= n
        invariant played == Outcomes(moves1[..k], moves2[..k])
        invariant player1.results == results1 + played
        invariant player2.results == results2 + Opposites(played)
      {
        var result := PlayMatch(moves1[k], moves2[k]).value;
        OutcomesSnoc(moves1, moves2, k);
        OppositesSnoc(played, result);
        AppendAssociative(results1, played, [result]);
        AppendAssociative(results2, Opposites(played), [result.Opposite()]);
        player1.results := player1.results + [result];
        player2.results := player2.results + [result.Opposite()];
        played := played + [result];
        k := k + 1;
      }
      OutcomesSwap(player1.moves[..n], player2.moves[..n]);
      if |player1.moves| != |player2.moves| {
        return Err(MovesOfUnequalLength);
      }
      r := Ok(|player1.results|);
    }
  }

  /** A game with a single player cannot be played. */
  method OnePlayerCannotPlay(moves: seq<Choice>) returns (count: nat, r: Result<nat, GameError>)
    ensures count == 1 && r == Err(NotEnoughPlayers)
  {
    var game := new Game();
    count := game.AddPlayer(moves);
    r := game.Play();
  }

  /** Two players with two moves each play two matches; the first records a win and a draw. */
  method TwoMatches() returns (r: Result<nat, GameError>, first: seq<MatchResult>, second: seq<MatchResult>)
    ensures r == Ok(2) && first == [Win, Draw] && second == [Loss, Draw]
  {
    var game := new Game();
    var one := game.AddPlayer([Rock, Rock]);
    var two := game.AddPlayer([Scissors, Rock]);
    r := game.Play();
    first, second := game.players[0].results, game.players[1].results;
    assert [Rock, Rock][..2] == [Rock, Rock] && [Scissors, Rock][..2] == [Scissors, Rock];
  }
}
