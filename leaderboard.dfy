/**
 * The leaderboard of `show_results` in app.py:
 * `sorted(scores, key=lambda x: x['score'], reverse=True)`. Python's sort is
 * stable, and `reverse=True` keeps it stable, so entries with equal scores
 * stay in the order they were submitted.
 */
module Leaderboard {

  /** One submitted score: `{name, score}`. */
  datatype Entry = Entry(name: string, score: int)

  /** Highest score first. */
  predicate NonIncreasing(s: seq<Entry>)
  {
    forall i, j :: 0 <= i < j < |s| ==> s[i].score >= s[j].score
  }

  /** The entries of `s` whose score is `v`, in their order in `s`. */
  function WithScore(s: seq<Entry>, v: int): seq<Entry>
    decreases |s|
  {
    if s == [] then []
    else (if s[0].score == v then [s[0]] else []) + WithScore(s[1..], v)
  }

  /**
   * Put `x` in front of the first entry that does not score more than it:
   * after the entries that beat it, before the ones it ties with.
   */
  function Insert(x: Entry, s: seq<Entry>): (r: seq<Entry>)
    ensures multiset(r) == multiset(s) + multiset{x}
    decreases |s|
  {
    if s == [] || s[0].score <= x.score then [x] + s
    else
      assert s == [s[0]] + s[1..];
      [s[0]] + Insert(x, s[1..])
  }

  /** The leaderboard order: insertion sort, from the last entry back. */
  function SortByScore(s: seq<Entry>): (r: seq<Entry>)
    ensures multiset(r) == multiset(s)
    decreases |s|
  {
    if s == [] then []
    else
      assert s == [s[0]] + s[1..];
      Insert(s[0], SortByScore(s[1..]))
  }

  /** Every entry of `Insert(x, s)` is `x` or an entry of `s`. */
  lemma InsertFrom(x: Entry, s: seq<Entry>, e: Entry)
    requires e in Insert(x, s)
    ensures e == x || e in s
  {
  }

  lemma {:induction false} InsertNonIncreasing(x: Entry, s: seq<Entry>)
    requires NonIncreasing(s)
    ensures NonIncreasing(Insert(x, s))
    decreases |s|
  {
    if s != [] && s[0].score > x.score {
      var tail := Insert(x, s[1..]);
      InsertNonIncreasing(x, s[1..]);
      var r := [s[0]] + tail;
      forall i, j | 0 <= i < j < |r|
        ensures r[i].score >= r[j].score
      {
        if i == 0 {
          InsertFrom(x, s[1..], r[j]);
        } else {
          assert r[i] == tail[i - 1] && r[j] == tail[j - 1];
        }
      }
    }
  }

  /** The leaderboard lists the highest score first. */
  lemma {:induction false} SortByScoreNonIncreasing(s: seq<Entry>)
    ensures NonIncreasing(SortByScore(s))
    decreases |s|
  {
    if s != [] {
      SortByScoreNonIncreasing(s[1..]);
      InsertNonIncreasing(s[0], SortByScore(s[1..]));
    }
  }

  lemma {:induction false} WithScoreCons(x: Entry, s: seq<Entry>, v: int)
    ensures WithScore([x] + s, v) == (if x.score == v then [x] else []) + WithScore(s, v)
  {
  }

  lemma {:induction false} InsertStable(x: Entry, s: seq<Entry>, v: int)
    ensures WithScore(Insert(x, s), v) == WithScore([x] + s, v)
    decreases |s|
  {
    if s != [] && s[0].score > x.score {
      var hx := if x.score == v then [x] else [];
      var h0 := if s[0].score == v then [s[0]] else [];
      assert hx == [] || h0 == [];
      calc {
        WithScore(Insert(x, s), v);
        { WithScoreCons(s[0], Insert(x, s[1..]), v); }
        h0 + WithScore(Insert(x, s[1..]), v);
        { InsertStable(x, s[1..], v); WithScoreCons(x, s[1..], v); }
        h0 + (hx + WithScore(s[1..], v));
        hx + (h0 + WithScore(s[1..], v));
        { WithScoreCons(s[0], s[1..], v); assert s == [s[0]] + s[1..]; }
        hx + WithScore(s, v);
        { WithScoreCons(x, s, v); }
        WithScore([x] + s, v);
      }
    }
  }

  /**
   * The sort is stable: for every score, the entries with that score keep
   * their submission order.
   */
  lemma {:induction false} SortByScoreStable(s: seq<Entry>, v: int)
    ensures WithScore(SortByScore(s), v) == WithScore(s, v)
    decreases |s|
  {
    if s != [] {
      SortByScoreStable(s[1..], v);
      InsertStable(s[0], SortByScore(s[1..]), v);
      WithScoreCons(s[0], SortByScore(s[1..]), v);
      WithScoreCons(s[0], s[1..], v);
      assert s == [s[0]] + s[1..];
    }
  }
}
