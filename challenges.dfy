/**
 * Challenge generation in app.py: the land sampler
 * (`generate_random_land_location`), the quality filter and the retry loop of
 * `create_new_challenge`, and the five rounds `create_game` builds from it.
 *
 * Both loops in the source are `while True` retries over random and network
 * outcomes. Here they are driven by a finite sequence of those outcomes, in
 * the order they happen; when the sequence runs out before an outcome is
 * accepted the model returns `None`, where the source would go on retrying.
 */
module Challenges {
  import opened Wrappers
  import opened Text

  /** A coordinate in degrees (the source's floats are modelled as reals). */
  datatype Location = Location(lat: real, lng: real)

  /** One round of a game: the clue sentence and where the article is. */
  datatype Challenge = Challenge(sentence: string, location: Location)

  /**
   * What one pass of the retry loop observed: the location the sampler gave
   * and the title the geosearch resolved for it (`None` when nothing was
   * found or the request failed).
   */
  datatype Attempt = Attempt(location: Location, title: Option<string>)

  /**
   * The summary fetcher, `get_first_sentence`, is a parameter `fetch` of the
   * operations below: it maps a title to the sentence the fetcher returns.
   * In the source it is `t => FirstSentence(lookup(t))`, where `lookup(t)` is
   * the extract service's answer for `t` (module Text).
   */
  function SummaryFetcher(lookup: string -> Option<string>): (fetch: string -> string)
    ensures forall t :: var s := fetch(t); |s| > 0 && s[|s| - 1] == '.' && !Contains(s, Sep)
  {
    var fetch := t => FirstSentence(lookup(t));
    assert forall t :: fetch(t) == FirstSentence(lookup(t));
    fetch
  }

  /** The location used when no land geometry is loaded (Los Angeles). */
  const Fallback: Location := Location(34.0522, -118.2437)

  /** Rounds in one game. */
  const RoundsPerGame: nat := 5

  predicate InRange(loc: Location)
  {
    -90.0 <= loc.lat <= 90.0 && -180.0 <= loc.lng <= 180.0
  }

  /**
   * `generate_random_land_location`. `land` is the containment test of the
   * land geometry, taking (longitude, latitude) as shapely's Point does, or
   * `None` when the shapefile could not be loaded; `draws` are the successive
   * (longitude, latitude) pairs `random.uniform` produces.
   */
  method GenerateRandomLandLocation(land: Option<(real, real) -> bool>, draws: seq<(real, real)>)
    returns (loc: Option<Location>)
    requires forall k :: 0 <= k < |draws| ==> -180.0 <= draws[k].0 <= 180.0 && -90.0 <= draws[k].1 <= 90.0
    ensures land.None? ==> loc == Some(Fallback)
    ensures land.Some? ==> (loc.None? <==> forall k :: 0 <= k < |draws| ==> !land.value(draws[k].0, draws[k].1))
    ensures land.Some? && loc.Some? ==>
      exists k :: 0 <= k < |draws| && draws[k] == (loc.value.lng, loc.value.lat)
        && land.value(draws[k].0, draws[k].1)
        && forall j :: 0 <= j < k ==> !land.value(draws[j].0, draws[j].1)
    ensures loc.Some? ==> InRange(loc.value)
  {
    if land.None? {
      return Some(Fallback);
    }
    var i := 0;
    while i < |draws|
      invariant 0 <= i <= |draws|
      invariant forall j :: 0 <= j < i ==> !land.value(draws[j].0, draws[j].1)
    {
      var (lon, lat) := draws[i];
      if land.value(lon, lat) {
        return Some(Location(lat, lon));
      }
      i := i + 1;
    }
    return None;
  }

  /**
   * The filter against disambiguation and list pages: neither phrase occurs
   * anywhere in the sentence.
   */
  predicate Acceptable(sentence: string): (ok: bool)
    ensures ok <==> (forall i :: !OccursAt(sentence, "may refer to", i))
                    && (forall i :: !OccursAt(sentence, "is a list of", i))
  {
    !Contains(sentence, "may refer to") && !Contains(sentence, "is a list of")
  }

  /**
   * Python's `if title`: the resolver's answer is usable unless it is `None`
   * or the empty string.
   */
  predicate HasTitle(a: Attempt)
  {
    a.title.Some? && a.title.value != ""
  }

  /** An attempt whose outcome `create_new_challenge` returns. */
  predicate Accepted(a: Attempt, fetch: string -> string)
  {
    HasTitle(a) && Acceptable(fetch(a.title.value))
  }

  /** The challenge an accepted attempt yields. */
  function ChallengeOf(a: Attempt, fetch: string -> string): Challenge
    requires HasTitle(a)
  {
    Challenge(fetch(a.title.value), a.location)
  }

  /**
   * `create_new_challenge`: go through the attempts from position `from` on
   * until one has a title whose sentence passes the filter; `next` is the
   * position after the last attempt consumed.
   */
  method CreateNewChallenge(attempts: seq<Attempt>, from: nat, fetch: string -> string)
    returns (c: Option<Challenge>, next: nat)
    requires from <= |attempts|
    ensures from <= next <= |attempts|
    ensures c.Some? ==>
              && from < next
              && Accepted(attempts[next - 1], fetch)
              && c.value == ChallengeOf(attempts[next - 1], fetch)
              && Acceptable(c.value.sentence)
              && c.value.sentence == fetch(attempts[next - 1].title.value)
              && c.value.location == attempts[next - 1].location
    ensures c.None? ==> next == |attempts|
    ensures forall j {:trigger Accepted(attempts[j], fetch)} ::
              from <= j < (if c.Some? then next - 1 else next) ==> !Accepted(attempts[j], fetch)
  {
    var i := from;
    while i < |attempts|
      invariant from <= i <= |attempts|
      invariant forall j {:trigger Accepted(attempts[j], fetch)} :: from <= j < i ==> !Accepted(attempts[j], fetch)
    {
      var a := attempts[i];
      if a.title.Some? && a.title.value != "" {
        var sentence := fetch(a.title.value);
        if !Contains(sentence, "may refer to") && !Contains(sentence, "is a list of") {
          return Some(Challenge(sentence, a.location)), i + 1;
        }
      }
      i := i + 1;
    }
    return None, i;
  }

  /**
   * What the rounds built so far satisfy when the retry loop stands at
   * position `pos`: `picks` are the positions of the accepted attempts before
   * `pos`, in increasing order, the last one just before `pos`; `made[i]` is
   * the challenge of attempt `picks[i]`; and no other attempt before `pos`
   * was acceptable.
   */
  ghost predicate PickedSoFar(attempts: seq<Attempt>, fetch: string -> string,
                              picks: seq<nat>, made: seq<Challenge>, pos: nat)
  {
    && pos <= |attempts|
    && |made| == |picks|
    && (forall i, k :: 0 <= i < k < |picks| ==> picks[i] < picks[k])
    && (forall i :: 0 <= i < |picks| ==> picks[i] < pos)
    && (|picks| > 0 ==> picks[|picks| - 1] == pos - 1)
    && (forall i :: 0 <= i < |picks| ==>
          Accepted(attempts[picks[i]], fetch) && made[i] == ChallengeOf(attempts[picks[i]], fetch))
    && (forall j {:trigger Accepted(attempts[j], fetch)} ::
          0 <= j < pos && j !in picks ==> !Accepted(attempts[j], fetch))
  }

  /**
   * One more run of the retry loop, from `pos` to `next`, that ended on an
   * accepted attempt keeps `PickedSoFar`.
   */
  lemma PickStep(attempts: seq<Attempt>, fetch: string -> string,
                 picks: seq<nat>, made: seq<Challenge>, pos: nat, next: nat, c: Challenge)
    requires PickedSoFar(attempts, fetch, picks, made, pos)
    requires pos < next <= |attempts| && Accepted(attempts[next - 1], fetch)
    requires c == ChallengeOf(attempts[next - 1], fetch)
    requires forall j {:trigger Accepted(attempts[j], fetch)} ::
               pos <= j < next - 1 ==> !Accepted(attempts[j], fetch)
    ensures PickedSoFar(attempts, fetch, picks + [next - 1], made + [c], next)
  {
  }

  /**
   * With the fetcher the source uses, every round's clue is the first
   * sentence of the article's extract, a single sentence ending in '.'.
   */
  lemma SummaryChallenge(lookup: string -> Option<string>, a: Attempt)
    requires HasTitle(a)
    ensures var c := ChallengeOf(a, SummaryFetcher(lookup));
            && c.sentence == FirstSentence(lookup(a.title.value))
            && |c.sentence| > 0 && c.sentence[|c.sentence| - 1] == '.'
            && !Contains(c.sentence, Sep)
  {
  }

  /**
   * The list comprehension in `create_game`: five challenges, each from its
   * own run of the retry loop, which goes on where the previous run stopped.
   * `picks` are the positions of the attempts the rounds came from: the
   * rounds are the first five accepted attempts, in order.
   */
  method CreateRounds(attempts: seq<Attempt>, fetch: string -> string)
    returns (rounds: Option<seq<Challenge>>, picks: seq<nat>)
    ensures |picks| <= RoundsPerGame
    ensures forall i, k :: 0 <= i < k < |picks| ==> picks[i] < picks[k]
    ensures forall i :: 0 <= i < |picks| ==> picks[i] < |attempts| && Accepted(attempts[picks[i]], fetch)
    ensures rounds.Some? <==> |picks| == RoundsPerGame
    ensures rounds.Some? ==>
              && |rounds.value| == RoundsPerGame
              && forall i :: 0 <= i < RoundsPerGame ==>
                   && Accepted(attempts[picks[i]], fetch)
                   && rounds.value[i] == ChallengeOf(attempts[picks[i]], fetch)
                   && Acceptable(rounds.value[i].sentence)
    ensures forall j {:trigger Accepted(attempts[j], fetch)} ::
              (0 <= j < |attempts| && j !in picks && (rounds.None? || j < picks[RoundsPerGame - 1]))
              ==> !Accepted(attempts[j], fetch)
  {
    var made: seq<Challenge> := [];
    var pos := 0;
    picks := [];
    for n := 0 to RoundsPerGame
      invariant |picks| == n
      invariant PickedSoFar(attempts, fetch, picks, made, pos)
    {
      var c, next := CreateNewChallenge(attempts, pos, fetch);
      if c.None? {
        return None, picks;
      }
      PickStep(attempts, fetch, picks, made, pos, next, c.value);
      made := made + [c.value];
      picks := picks + [next - 1];
      pos := next;
    }
    return Some(made), picks;
  }
}
