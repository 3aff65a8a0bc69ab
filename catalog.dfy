/**
 * The catalogue search of the games page (src/pages/Games.tsx): a game is shown
 * when its lower-cased title or description includes the lower-cased search term.
 */
module Catalog {
  import opened Text
  import opened Seqs

  /** The fields of a catalogue entry that the search looks at. */
  datatype Game = Game(id: string, title: string, description: string)

  /** The filter's test for one game. */
  predicate Matches(g: Game, term: string): (b: bool)
    ensures b <==> (exists i :: OccursAt(ToLower(g.title), ToLower(term), i)) ||
                   (exists i :: OccursAt(ToLower(g.description), ToLower(term), i))
  {
    IncludesIffOccurs(ToLower(g.title), ToLower(term));
    IncludesIffOccurs(ToLower(g.description), ToLower(term));
    Includes(ToLower(g.title), ToLower(term)) || Includes(ToLower(g.description), ToLower(term))
  }

  /** `games.filter(...)`: the matching games, in catalogue order. */
  function FilterGames(games: seq<Game>, term: string): (r: seq<Game>)
    ensures forall g :: g in r ==> g in games && Matches(g, term)
    ensures forall g :: g in games && Matches(g, term) ==> g in r
    ensures |r| <= |games|
    ensures forall g :: multiset(r)[g] == if Matches(g, term) then multiset(games)[g] else 0
  {
    if games == [] then []
    else
      assert games == [games[0]] + games[1..];
      if Matches(games[0], term) then [games[0]] + FilterGames(games[1..], term)
      else FilterGames(games[1..], term)
  }

  /** The result lists its games in the order of the catalogue. */
  lemma {:induction false} FilterIsSubsequence(games: seq<Game>, term: string)
    ensures IsSubsequence(FilterGames(games, term), games)
  {
    if games != [] {
      FilterIsSubsequence(games[1..], term);
      var r := FilterGames(games, term);
      if Matches(games[0], term) {
        assert r[1..] == FilterGames(games[1..], term);
      }
    }
  }

  /** An empty search term shows the whole catalogue ("Reset Search"). */
  lemma {:induction false} EmptyTermKeepsAll(games: seq<Game>)
    ensures FilterGames(games, "") == games
  {
    if games != [] {
      assert ToLower("") == "";
      EmptyTermKeepsAll(games[1..]);
      assert games == [games[0]] + games[1..];
    }
  }

  /** A game matching a longer term also matches every term the longer one includes. */
  lemma MatchesNarrowing(g: Game, shorter: string, longer: string)
    requires Includes(longer, shorter) && Matches(g, longer)
    ensures Matches(g, shorter)
  {
    IncludesToLower(longer, shorter);
    if Includes(ToLower(g.title), ToLower(longer)) {
      IncludesTransitive(ToLower(g.title), ToLower(longer), ToLower(shorter));
    } else {
      IncludesTransitive(ToLower(g.description), ToLower(longer), ToLower(shorter));
    }
  }

  /** Typing more characters only narrows the result, keeping its order. */
  lemma {:induction false} FilterNarrowing(games: seq<Game>, shorter: string, longer: string)
    requires Includes(longer, shorter)
    ensures IsSubsequence(FilterGames(games, longer), FilterGames(games, shorter))
  {
    if games != [] {
      FilterNarrowing(games[1..], shorter, longer);
      var a := FilterGames(games, longer);
      var b := FilterGames(games, shorter);
      if Matches(games[0], longer) {
        MatchesNarrowing(games[0], shorter, longer);
        assert a[1..] == FilterGames(games[1..], longer);
        assert b[1..] == FilterGames(games[1..], shorter);
      } else if Matches(games[0], shorter) {
        assert b[1..] == FilterGames(games[1..], shorter);
      }
    }
  }
}
