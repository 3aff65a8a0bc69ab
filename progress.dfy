/**
 * The `useProgress` hook: a player's recently played games and favourites,
 * updated by replacing the whole record (src/hooks/useProgress.ts).
 */
module Progress {
  import opened Wrappers
  import opened Seqs

  datatype UserProgress = UserProgress(recentlyPlayed: seq<string>, favorites: seq<string>)

  /** Length of the most-recently-played list (`.slice(0, 4)`). */
  const RecentCapacity: nat := 4

  /** `localStorage` key under which the record is saved. */
  const ProgressKey: string := "hfg-progress"

  /** The record a new visitor starts with. */
  const EmptyProgress := UserProgress([], [])

  /** `s.filter(id => id !== x)`. */
  function Without(s: seq<string>, x: string): (r: seq<string>)
    ensures forall y :: y in r <==> y in s && y != x
    ensures IsSubsequence(r, s)
    ensures multiset(r) == multiset(s)[x := 0]
    ensures |r| == |s| - Count(s, x)
  {
    if s == [] then []
    else
      assert s == [s[0]] + s[1..];
      if s[0] == x then Without(s[1..], x)
      else [s[0]] + Without(s[1..], x)
  }

  /** `s.slice(0, n)`: the first `n` elements, or all of them when there are fewer. */
  function Take(s: seq<string>, n: nat): (r: seq<string>)
    ensures |r| == if |s| <= n then |s| else n
    ensures r == s[..|r|]
    ensures forall y :: y in r ==> y in s
  {
    if |s| <= n then s else s[..n]
  }

  /** `recordPlay(gameId)`: move `gameId` to the front, drop its older entries, keep four. */
  function RecordPlay(p: UserProgress, gameId: string): (r: UserProgress)
    ensures r.favorites == p.favorites
    ensures 0 < |r.recentlyPlayed| <= RecentCapacity
    ensures r.recentlyPlayed[0] == gameId
    ensures Count(r.recentlyPlayed, gameId) == 1
    ensures forall g :: g in r.recentlyPlayed ==> g == gameId || g in p.recentlyPlayed
    ensures var w := Without(p.recentlyPlayed, gameId);
      |r.recentlyPlayed| == (if |w| < RecentCapacity then |w| + 1 else RecentCapacity) &&
      r.recentlyPlayed[1..] == w[..|r.recentlyPlayed| - 1]
  {
    var w := Without(p.recentlyPlayed, gameId);
    var r := p.(recentlyPlayed := Take([gameId] + w, RecentCapacity));
    assert r.recentlyPlayed == [gameId] + Take(w, RecentCapacity - 1);
    assert gameId !in Take(w, RecentCapacity - 1);
    r
  }

  /** `toggleFavorite(gameId)`: remove every occurrence if present, append it otherwise. */
  function ToggleFavorite(p: UserProgress, gameId: string): (r: UserProgress)
    ensures r.recentlyPlayed == p.recentlyPlayed
    ensures gameId in r.favorites <==> gameId !in p.favorites
    ensures gameId !in p.favorites ==> r.favorites == p.favorites + [gameId]
    ensures gameId in p.favorites ==>
      IsSubsequence(r.favorites, p.favorites) &&
      (forall g :: g in r.favorites <==> g in p.favorites && g != gameId) &&
      multiset(r.favorites) == multiset(p.favorites)[gameId := 0] &&
      |r.favorites| == |p.favorites| - Count(p.favorites, gameId)
  {
    p.(favorites := if gameId in p.favorites then Without(p.favorites, gameId)
                    else p.favorites + [gameId])
  }

  /** Removing an element that is absent changes nothing. */
  lemma {:induction false} WithoutAbsent(s: seq<string>, x: string)
    requires x !in s
    ensures Without(s, x) == s
  {
    if s != [] {
      WithoutAbsent(s[1..], x);
      assert s == [s[0]] + s[1..];
    }
  }

  /** Removing `x` from `s + [x]` gives back `s` when `x` was not in `s`. */
  lemma {:induction false} WithoutAppended(s: seq<string>, x: string)
    requires x !in s
    ensures Without(s + [x], x) == s
  {
    if s == [] {
      assert [x][1..] == [];
    } else {
      var t := s + [x];
      assert t[0] == s[0] != x;
      assert t[1..] == s[1..] + [x];
      assert Without(t, x) == [s[0]] + Without(s[1..] + [x], x);
      WithoutAppended(s[1..], x);
      assert s == [s[0]] + s[1..];
    }
  }

  /** Filtering keeps distinct elements distinct. */
  lemma {:induction false} WithoutNoDuplicates(s: seq<string>, x: string)
    requires NoDuplicates(s)
    ensures NoDuplicates(Without(s, x))
  {
    if s != [] {
      TailNoDuplicates(s);
      WithoutNoDuplicates(s[1..], x);
      if s[0] != x {
        assert Without(s, x) == [s[0]] + Without(s[1..], x);
        ConsNoDuplicates(s[0], Without(s[1..], x));
      }
    }
  }

  /** The first `n` elements of a list without duplicates are without duplicates. */
  lemma TakeNoDuplicates(s: seq<string>, n: nat)
    requires NoDuplicates(s)
    ensures NoDuplicates(Take(s, n))
  {
  }

  /** A list with no duplicates stays so after `recordPlay`. */
  lemma RecordPlayNoDuplicates(p: UserProgress, gameId: string)
    requires NoDuplicates(p.recentlyPlayed)
    ensures NoDuplicates(RecordPlay(p, gameId).recentlyPlayed)
  {
    var w := Without(p.recentlyPlayed, gameId);
    WithoutNoDuplicates(p.recentlyPlayed, gameId);
    var t := Take(w, RecentCapacity - 1);
    TakeNoDuplicates(w, RecentCapacity - 1);
    var r := RecordPlay(p, gameId).recentlyPlayed;
    assert r == [gameId] + t;
    assert gameId !in t;
    ConsNoDuplicates(gameId, t);
  }

  /** The first `n` elements of a filtered list are a subsequence of the unfiltered one. */
  lemma TakeWithoutSubsequence(s: seq<string>, x: string, n: nat)
    ensures IsSubsequence(Take(Without(s, x), n), s)
  {
    var w := Without(s, x);
    PrefixIsSubsequence(w, s, |Take(w, n)|);
  }

  /** Entries other than the played game keep their previous relative order. */
  lemma RecordPlayKeepsOrder(p: UserProgress, gameId: string)
    ensures IsSubsequence(RecordPlay(p, gameId).recentlyPlayed[1..], p.recentlyPlayed)
  {
    var w := Without(p.recentlyPlayed, gameId);
    assert RecordPlay(p, gameId).recentlyPlayed[1..] == Take(w, RecentCapacity - 1);
    TakeWithoutSubsequence(p.recentlyPlayed, gameId, RecentCapacity - 1);
  }

  /** Playing the same game twice in a row has the effect of playing it once. */
  lemma RecordPlayIdempotent(p: UserProgress, gameId: string)
    ensures RecordPlay(RecordPlay(p, gameId), gameId) == RecordPlay(p, gameId)
  {
    var r := RecordPlay(p, gameId).recentlyPlayed;
    var t := Take(Without(p.recentlyPlayed, gameId), RecentCapacity - 1);
    assert r == [gameId] + t;
    assert gameId !in t;
    WithoutAbsent(t, gameId);
    assert Without(r, gameId) == t;
  }

  /** Toggling an absent favourite twice gives back the original record. */
  lemma ToggleFavoriteTwice(p: UserProgress, gameId: string)
    requires gameId !in p.favorites
    ensures ToggleFavorite(ToggleFavorite(p, gameId), gameId) == p
  {
    WithoutAppended(p.favorites, gameId);
  }

  /**
   * The lazy initialiser: a stored value that is missing or empty (falsy) gives
   * two empty lists; otherwise the stored text is handed to `JSON.parse`, which
   * is a parameter here.
   */
  function LoadProgress(saved: Option<string>, parse: string -> UserProgress): (r: UserProgress)
    ensures saved == None || saved == Some("") ==> r == EmptyProgress
    ensures saved.Some? && saved.value != "" ==> r == parse(saved.value)
  {
    match saved
    case Some(text) => if text != "" then parse(text) else EmptyProgress
    case None => EmptyProgress
  }

  /** The persistence effect: the record, serialised by `JSON.stringify`, under `ProgressKey`. */
  function SaveProgress(store: map<string, string>, p: UserProgress, stringify: UserProgress -> string): (r: map<string, string>)
    ensures ProgressKey in r && r[ProgressKey] == stringify(p)
    ensures forall k :: k in store && k != ProgressKey ==> k in r && r[k] == store[k]
    ensures r.Keys == store.Keys + {ProgressKey}
  {
    store[ProgressKey := stringify(p)]
  }

  /** Saving and then loading gives back the record, given that parsing undoes serialising. */
  lemma SaveLoadRoundTrip(store: map<string, string>, p: UserProgress,
                          stringify: UserProgress -> string, parse: string -> UserProgress)
    requires stringify(p) != "" && parse(stringify(p)) == p
    ensures LoadProgress(Some(SaveProgress(store, p, stringify)[ProgressKey]), parse) == p
  {
  }
}
