/**
 * The in-memory game store of app.py: the module-level `GAMES` dictionary
 * from game id to `{rounds, scores}`, the routes that change it
 * (`create_game`, `submit_score`) and the routes that read it
 * (`play_game`, `show_results`, `get_game_data`), each answering "not found"
 * for an unknown id. The store lives only in process memory.
 */
module GameStore {
  import opened Wrappers
  import opened Challenges
  import opened Leaderboard

  /** The short token a game is known by. */
  type GameId = string

  /** `{rounds, scores}`: the challenges of the game and the scores submitted so far. */
  datatype Game = Game(rounds: seq<Challenge>, scores: seq<Entry>)

  /** What `submit_score` stores when the request has no `name` or `score`. */
  const DefaultName: string := "Anonymous"
  const DefaultScore: int := 0

  /** Every stored game has five rounds, and every round passed the filter. */
  predicate WellFormed(g: Game)
  {
    |g.rounds| == RoundsPerGame
    && forall i :: 0 <= i < |g.rounds| ==> Acceptable(g.rounds[i].sentence)
  }

  class Store {
    /** `GAMES`. */
    var games: map<GameId, Game>

    ghost predicate Valid()
      reads this
    {
      forall id :: id in games ==> WellFormed(games[id])
    }

    /** The store is empty when the process starts. */
    constructor ()
      ensures Valid() && games == map[]
    {
      games := map[];
    }

    /**
     * `create_game`: build five rounds and store them under `id` with no
     * scores. The id comes from the caller (the source draws it from a UUID);
     * an id already in use is overwritten, as the dictionary assignment does.
     * `created` is false when the attempts ran out first, where the source
     * would still be retrying; the store is then unchanged. `picks` are the
     * positions of the accepted attempts, in order: on success the stored
     * rounds are the challenges of the first five accepted attempts, and no
     * attempt before the fifth pick was skipped while acceptable; otherwise
     * the attempts ran out with fewer than five accepted.
     */
    method CreateGame(id: GameId, attempts: seq<Attempt>, fetch: string -> string)
      returns (created: bool, ghost picks: seq<nat>)
      requires Valid()
      modifies this
      ensures Valid()
      ensures |picks| <= RoundsPerGame
      ensures created <==> |picks| == RoundsPerGame
      ensures forall i, k :: 0 <= i < k < |picks| ==> picks[i] < picks[k]
      ensures forall i :: 0 <= i < |picks| ==> picks[i] < |attempts| && Accepted(attempts[picks[i]], fetch)
      ensures forall j {:trigger Accepted(attempts[j], fetch)} ::
                0 <= j < |attempts| && j !in picks && (!created || j < picks[RoundsPerGame - 1])
                ==> !Accepted(attempts[j], fetch)
      ensures created ==>
                && id in games
                && games == old(games)[id := Game(games[id].rounds, [])]
                && |games[id].rounds| == RoundsPerGame
                && forall i :: 0 <= i < RoundsPerGame ==>
                     && Accepted(attempts[picks[i]], fetch)
                     && games[id].rounds[i] == ChallengeOf(attempts[picks[i]], fetch)
      ensures !created ==> games == old(games)
    {
      var rounds;
      rounds, picks := CreateRounds(attempts, fetch);
      if rounds.None? {
        return false, picks;
      }
      games := games[id := Game(rounds.value, [])];
      return true, picks;
    }

    /**
     * `submit_score`: append one `{name, score}` entry to the game's scores,
     * using the defaults for a missing field. An unknown id is "not found"
     * and changes nothing.
     */
    method SubmitScore(id: GameId, name: Option<string>, score: Option<int>) returns (found: bool)
      requires Valid()
      modifies this
      ensures Valid()
      ensures found <==> id in old(games)
      ensures found ==>
                var g := old(games)[id];
                var e := Entry(if name.Some? then name.value else DefaultName,
                               if score.Some? then score.value else DefaultScore);
                games == old(games)[id := Game(g.rounds, g.scores + [e])]
      ensures !found ==> games == old(games)
    {
      if id !in games {
        return false;
      }
      var playerName := if name.Some? then name.value else DefaultName;
      var playerScore := if score.Some? then score.value else DefaultScore;
      var g := games[id];
      games := games[id := Game(g.rounds, g.scores + [Entry(playerName, playerScore)])];
      return true;
    }

    /** `play_game`: whether the game page exists. */
    method PlayGame(id: GameId) returns (found: bool)
      ensures found <==> id in games
    {
      found := id in games;
    }

    /**
     * `show_results`: the game's scores, highest first, ties in submission
     * order; `None` for an unknown id.
     */
    method ShowResults(id: GameId) returns (board: Option<seq<Entry>>)
      ensures board.None? <==> id !in games
      ensures board.Some? ==>
                && multiset(board.value) == multiset(games[id].scores)
                && NonIncreasing(board.value)
                && forall v :: WithScore(board.value, v) == WithScore(games[id].scores, v)
    {
      if id !in games {
        return None;
      }
      var scores := games[id].scores;
      var sorted := SortByScore(scores);
      SortByScoreNonIncreasing(scores);
      forall v
        ensures WithScore(sorted, v) == WithScore(scores, v)
      {
        SortByScoreStable(scores, v);
      }
      return Some(sorted);
    }

    /**
     * `get_game_data`: the rounds of a game, without its scores; `None` for
     * an unknown id.
     */
    method GetGameData(id: GameId) returns (rounds: Option<seq<Challenge>>)
      requires Valid()
      ensures rounds.None? <==> id !in games
      ensures rounds.Some? ==>
                && rounds.value == games[id].rounds
                && |rounds.value| == RoundsPerGame
                && forall i :: 0 <= i < RoundsPerGame ==> Acceptable(rounds.value[i].sentence)
    {
      if id !in games {
        return None;
      }
      return Some(games[id].rounds);
    }
  }
}
