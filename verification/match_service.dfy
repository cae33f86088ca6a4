/**
 * The mock match generator: drop the requester from the candidate pool, give
 * every remaining candidate a random score between 60 and 100, sort by score
 * from high to low and keep the first ten. The random source is an oracle
 * parameter: one draw in [0, 1) per remaining candidate, in pool order.
 */
module MatchService {
  import opened Common

  /**
   * A candidate profile. `email` is not part of the declared profile type but is
   * read from the stored objects when the requester is looked up.
   */
  datatype UserProfile = UserProfile(
    id: string,
    name: string,
    university: string,
    email: Option<string>,
    zodiacSign: Option<string>,
    mbti: Option<string>,
    bigFive: Option<map<string, real>>,
    darkTriad: Option<map<string, real>>,
    photoUrl: Option<string>,
    bio: Option<string>)

  /** One candidate with its compatibility percentage. */
  datatype MatchResult = MatchResult(user: UserProfile, compatibility: int)

  /** How many matches the generator keeps. */
  const TopCount: nat := 10
  const MinScore: int := 60
  const MaxScore: int := 100

  /** Every draw of the random oracle lies in [0, 1), as `Math.random()` does. */
  predicate ValidDraws(draws: seq<real>) {
    forall i :: 0 <= i < |draws| ==> 0.0 <= draws[i] < 1.0
  }

  /** `Math.floor(draw * 41) + 60`: a whole percentage between 60 and 100. */
  function ScoreOf(draw: real): (score: int)
    requires 0.0 <= draw < 1.0
    ensures MinScore <= score <= MaxScore
  {
    (draw * 41.0).Floor + MinScore
  }

  function Min(a: int, b: int): int {
    if a <= b then a else b
  }

  /** The profiles of `ps` whose id differs from `id`, in their original order. */
  function ExcludeId(ps: seq<UserProfile>, id: string): (r: seq<UserProfile>)
    ensures forall i :: 0 <= i < |r| ==> r[i].id != id
    ensures |r| <= |ps|
    ensures (forall i :: 0 <= i < |ps| ==> ps[i].id != id) ==> r == ps
  {
    if ps == [] then []
    else
      var rest := ExcludeId(ps[1..], id);
      assert ps == [ps[0]] + ps[1..];
      if ps[0].id != id then [ps[0]] + rest else rest
  }

  /** Excluding keeps every profile with another id. */
  lemma {:induction false} ExcludeIdKeepsOthers(ps: seq<UserProfile>, id: string)
    ensures forall p :: p in ps && p.id != id ==> p in ExcludeId(ps, id)
  {
    if ps != [] {
      ExcludeIdKeepsOthers(ps[1..], id);
      assert ps == [ps[0]] + ps[1..];
    }
  }

  /** Excluding never adds or duplicates a profile. */
  lemma {:induction false} ExcludeIdSubMultiset(ps: seq<UserProfile>, id: string)
    ensures multiset(ExcludeId(ps, id)) <= multiset(ps)
  {
    if ps != [] {
      ExcludeIdSubMultiset(ps[1..], id);
      assert ps == [ps[0]] + ps[1..];
    }
  }

  /** Excluding removes every copy of a profile with this id and keeps every copy of the others. */
  lemma {:induction false} ExcludeIdCounts(ps: seq<UserProfile>, id: string)
    ensures forall p :: multiset(ExcludeId(ps, id))[p] == if p.id == id then 0 else multiset(ps)[p]
  {
    if ps != [] {
      ExcludeIdCounts(ps[1..], id);
      assert ps == [ps[0]] + ps[1..];
    }
  }

  /** Excluding distributes over concatenation, so the kept profiles stay in pool order. */
  lemma {:induction false} ExcludeIdAppend(a: seq<UserProfile>, b: seq<UserProfile>, id: string)
    ensures ExcludeId(a + b, id) == ExcludeId(a, id) + ExcludeId(b, id)
    decreases |a|
  {
    if a == [] {
      assert a + b == b;
    } else {
      assert (a + b)[0] == a[0];
      assert (a + b)[1..] == a[1..] + b;
      ExcludeIdAppend(a[1..], b, id);
      var h := if a[0].id != id then [a[0]] else [];
      AppendAssoc(h, ExcludeId(a[1..], id), ExcludeId(b, id));
    }
  }

  /** Pairs the i-th profile with the score of the i-th draw. */
  function Score(ps: seq<UserProfile>, draws: seq<real>): (r: seq<MatchResult>)
    requires ValidDraws(draws) && |draws| >= |ps|
    ensures |r| == |ps|
    ensures forall i :: 0 <= i < |r| ==> r[i].user == ps[i] && r[i].compatibility == ScoreOf(draws[i])
  {
    seq(|ps|, i requires 0 <= i < |ps| => MatchResult(ps[i], ScoreOf(draws[i])))
  }

  /** The candidates of a result list, in order. */
  function Users(rs: seq<MatchResult>): (us: seq<UserProfile>)
    ensures |us| == |rs|
    ensures forall i :: 0 <= i < |rs| ==> us[i] == rs[i].user
  {
    seq(|rs|, i requires 0 <= i < |rs| => rs[i].user)
  }

  /** Scores never increase along the list. */
  predicate SortedDesc(rs: seq<MatchResult>) {
    forall i, j :: 0 <= i < j < |rs| ==> rs[i].compatibility >= rs[j].compatibility
  }

  /** The entries of `rs` whose score is `k`, in order. */
  function WithScore(rs: seq<MatchResult>, k: int): seq<MatchResult>
    decreases |rs|
  {
    if rs == [] then []
    else (if rs[0].compatibility == k then [rs[0]] else []) + WithScore(rs[1..], k)
  }

  /**
   * Puts `x` after every entry scoring at least as much, so that entries of equal
   * score keep their arrival order.
   */
  function Insert(sorted: seq<MatchResult>, x: MatchResult): (r: seq<MatchResult>)
    ensures |r| == |sorted| + 1
    ensures multiset(r) == multiset(sorted) + multiset{x}
    decreases |sorted|
  {
    if sorted == [] then [x]
    else if sorted[0].compatibility >= x.compatibility then
      assert sorted == [sorted[0]] + sorted[1..];
      [sorted[0]] + Insert(sorted[1..], x)
    else [x] + sorted
  }

  /**
   * The array sort with comparator `b.compatibility - a.compatibility`: a stable
   * sort from the highest score to the lowest (insertion of each entry in turn).
   */
  function SortByCompatibility(rs: seq<MatchResult>): (r: seq<MatchResult>)
    ensures |r| == |rs|
    ensures multiset(r) == multiset(rs)
    decreases |rs|
  {
    if rs == [] then []
    else
      assert rs == rs[..|rs| - 1] + [rs[|rs| - 1]];
      Insert(SortByCompatibility(rs[..|rs| - 1]), rs[|rs| - 1])
  }

  /** The first `n` entries (all of them when there are fewer), as `slice(0, n)` with `n >= 0`. */
  function Take<T>(s: seq<T>, n: nat): (r: seq<T>)
    ensures |r| == Min(n, |s|)
    ensures IsPrefix(r, s)
    ensures n >= |s| ==> r == s
  {
    if n < |s| then s[..n] else s
  }

  // ---------------------------------------------------------------- sorting lemmas

  lemma {:induction false} WithScoreAppend(a: seq<MatchResult>, b: seq<MatchResult>, k: int)
    ensures WithScore(a + b, k) == WithScore(a, k) + WithScore(b, k)
    decreases |a|
  {
    if a == [] {
      assert a + b == b;
    } else {
      var h := if a[0].compatibility == k then [a[0]] else [];
      assert (a + b)[0] == a[0];
      assert (a + b)[1..] == a[1..] + b;
      assert WithScore(a + b, k) == h + WithScore(a[1..] + b, k);
      WithScoreAppend(a[1..], b, k);
      assert WithScore(a, k) == h + WithScore(a[1..], k);
      assert h + (WithScore(a[1..], k) + WithScore(b, k)) == (h + WithScore(a[1..], k)) + WithScore(b, k);
    }
  }

  lemma {:induction false} WithScoreBelow(rs: seq<MatchResult>, k: int)
    requires forall i :: 0 <= i < |rs| ==> rs[i].compatibility < k
    ensures WithScore(rs, k) == []
    decreases |rs|
  {
    if rs != [] {
      WithScoreBelow(rs[1..], k);
    }
  }

  /** Every score in `rs` is at most `c`. */
  predicate AllAtMost(rs: seq<MatchResult>, c: int) {
    forall i :: 0 <= i < |rs| ==> rs[i].compatibility <= c
  }

  /** A head scoring at least as much as every entry of a sorted tail keeps the list sorted. */
  lemma SortedCons(h: MatchResult, t: seq<MatchResult>)
    requires SortedDesc(t) && AllAtMost(t, h.compatibility)
    ensures SortedDesc([h] + t)
  {
    var r := [h] + t;
    forall i, j | 0 <= i < j < |r| ensures r[i].compatibility >= r[j].compatibility {
      assert r[j] == t[j - 1];
      if i > 0 {
        assert r[i] == t[i - 1];
      }
    }
  }

  /** The tail of a sorted list is sorted and scores no more than its head. */
  lemma SortedTail(sorted: seq<MatchResult>)
    requires SortedDesc(sorted) && sorted != []
    ensures SortedDesc(sorted[1..]) && AllAtMost(sorted[1..], sorted[0].compatibility)
    ensures sorted == [sorted[0]] + sorted[1..]
  {
    var tail := sorted[1..];
    forall i, j | 0 <= i < j < |tail| ensures tail[i].compatibility >= tail[j].compatibility {
      assert tail[i] == sorted[i + 1] && tail[j] == sorted[j + 1];
    }
    forall i | 0 <= i < |tail| ensures tail[i].compatibility <= sorted[0].compatibility {
      assert tail[i] == sorted[i + 1];
    }
  }

  /** Inserting an entry below a bound into a list below the bound stays below it. */
  lemma {:induction false} InsertAtMost(sorted: seq<MatchResult>, x: MatchResult, c: int)
    requires AllAtMost(sorted, c) && x.compatibility <= c
    ensures AllAtMost(Insert(sorted, x), c)
    decreases |sorted|
  {
    if sorted != [] && sorted[0].compatibility >= x.compatibility {
      var tail := sorted[1..];
      assert AllAtMost(tail, c) by {
        forall i | 0 <= i < |tail| ensures tail[i].compatibility <= c {
          assert tail[i] == sorted[i + 1];
        }
      }
      InsertAtMost(tail, x, c);
      var t := Insert(tail, x);
      var r := [sorted[0]] + t;
      assert Insert(sorted, x) == r;
      forall i | 0 <= i < |r| ensures r[i].compatibility <= c {
        if i > 0 {
          assert r[i] == t[i - 1];
        }
      }
    }
  }

  lemma {:induction false} InsertSorted(sorted: seq<MatchResult>, x: MatchResult)
    requires SortedDesc(sorted)
    ensures SortedDesc(Insert(sorted, x))
    decreases |sorted|
  {
    if sorted == [] {
      assert Insert(sorted, x) == [x];
    } else {
      var h := sorted[0];
      var tail := sorted[1..];
      SortedTail(sorted);
      if h.compatibility >= x.compatibility {
        InsertSorted(tail, x);
        InsertAtMost(tail, x, h.compatibility);
        assert Insert(sorted, x) == [h] + Insert(tail, x);
        SortedCons(h, Insert(tail, x));
      } else {
        assert Insert(sorted, x) == [x] + sorted;
        assert AllAtMost(sorted, x.compatibility) by {
          forall i | 0 <= i < |sorted| ensures sorted[i].compatibility <= x.compatibility {
            assert sorted[i].compatibility <= h.compatibility;
          }
        }
        SortedCons(x, sorted);
      }
    }
  }

  lemma UsersCons(h: MatchResult, t: seq<MatchResult>)
    ensures multiset(Users([h] + t)) == multiset{h.user} + multiset(Users(t))
  {
    assert Users([h] + t) == [h.user] + Users(t);
  }

  lemma {:induction false} InsertUsers(sorted: seq<MatchResult>, x: MatchResult)
    ensures multiset(Users(Insert(sorted, x))) == multiset(Users(sorted)) + multiset{x.user}
    decreases |sorted|
  {
    if sorted == [] {
      assert Insert(sorted, x) == [x];
      UsersCons(x, []);
    } else if sorted[0].compatibility >= x.compatibility {
      var tail := sorted[1..];
      assert sorted == [sorted[0]] + tail;
      assert Insert(sorted, x) == [sorted[0]] + Insert(tail, x);
      InsertUsers(tail, x);
      UsersCons(sorted[0], Insert(tail, x));
      UsersCons(sorted[0], tail);
    } else {
      assert Insert(sorted, x) == [x] + sorted;
      UsersCons(x, sorted);
    }
  }

  /** An entry inserted in front of strictly lower scores contributes only to its own score. */
  lemma InsertWithScoreFront(sorted: seq<MatchResult>, x: MatchResult, k: int)
    requires SortedDesc(sorted)
    requires sorted != [] && sorted[0].compatibility < x.compatibility
    ensures WithScore([x] + sorted, k) == WithScore(sorted, k) + WithScore([x], k)
  {
    WithScoreAppend([x], sorted, k);
    if k == x.compatibility {
      assert forall i :: 0 <= i < |sorted| ==> sorted[i].compatibility <= sorted[0].compatibility;
      WithScoreBelow(sorted, k);
    } else {
      assert [x][1..] == [];
      assert WithScore([x], k) == [];
    }
  }

  /** The entries with score `k` of a list with a known head. */
  lemma WithScoreCons(h: MatchResult, t: seq<MatchResult>, k: int)
    ensures WithScore([h] + t, k) == (if h.compatibility == k then [h] else []) + WithScore(t, k)
  {
    assert ([h] + t)[0] == h;
    assert ([h] + t)[1..] == t;
  }

  /** Putting the same head on two lists preserves a relation between their entries of score `k`. */
  lemma WithScoreConsBoth(h: MatchResult, tail: seq<MatchResult>, t: seq<MatchResult>, extra: seq<MatchResult>, k: int)
    requires WithScore(t, k) == WithScore(tail, k) + extra
    ensures WithScore([h] + t, k) == WithScore([h] + tail, k) + extra
  {
    var hk: seq<MatchResult> := if h.compatibility == k then [h] else [];
    WithScoreCons(h, t, k);
    WithScoreCons(h, tail, k);
    AppendAssoc(hk, WithScore(tail, k), extra);
  }

  /** An entry inserted behind the head adds to the head's scores what it adds to the tail's. */
  lemma InsertWithScoreBehind(sorted: seq<MatchResult>, x: MatchResult, k: int)
    requires sorted != [] && sorted[0].compatibility >= x.compatibility
    requires WithScore(Insert(sorted[1..], x), k) == WithScore(sorted[1..], k) + WithScore([x], k)
    ensures WithScore(Insert(sorted, x), k) == WithScore(sorted, k) + WithScore([x], k)
  {
    var h := sorted[0];
    var tail := sorted[1..];
    assert sorted == [h] + tail;
    assert Insert(sorted, x) == [h] + Insert(tail, x);
    WithScoreConsBoth(h, tail, Insert(tail, x), WithScore([x], k), k);
  }

  lemma {:induction false} InsertWithScore(sorted: seq<MatchResult>, x: MatchResult, k: int)
    requires SortedDesc(sorted)
    ensures WithScore(Insert(sorted, x), k) == WithScore(sorted, k) + WithScore([x], k)
    decreases |sorted|
  {
    if sorted == [] {
      assert Insert(sorted, x) == [x];
      assert WithScore(sorted, k) == [];
    } else if sorted[0].compatibility >= x.compatibility {
      SortedTail(sorted);
      InsertWithScore(sorted[1..], x, k);
      InsertWithScoreBehind(sorted, x, k);
    } else {
      assert Insert(sorted, x) == [x] + sorted;
      InsertWithScoreFront(sorted, x, k);
    }
  }

  /** The sort orders entries from the highest score to the lowest. */
  lemma {:induction false} SortSorted(rs: seq<MatchResult>)
    ensures SortedDesc(SortByCompatibility(rs))
    decreases |rs|
  {
    if rs != [] {
      SortSorted(rs[..|rs| - 1]);
      InsertSorted(SortByCompatibility(rs[..|rs| - 1]), rs[|rs| - 1]);
    }
  }

  lemma UsersSnoc(init: seq<MatchResult>, x: MatchResult)
    ensures multiset(Users(init + [x])) == multiset(Users(init)) + multiset{x.user}
  {
    assert Users(init + [x]) == Users(init) + [x.user];
  }

  /** The sort permutes the candidates as well as the entries. */
  lemma {:induction false} SortUsers(rs: seq<MatchResult>)
    ensures multiset(Users(SortByCompatibility(rs))) == multiset(Users(rs))
    decreases |rs|
  {
    if rs != [] {
      var init := rs[..|rs| - 1];
      var x := rs[|rs| - 1];
      assert rs == init + [x];
      assert SortByCompatibility(rs) == Insert(SortByCompatibility(init), x);
      SortUsers(init);
      InsertUsers(SortByCompatibility(init), x);
      UsersSnoc(init, x);
    }
  }

  /** The sort is stable: the entries of any one score appear in input order. */
  lemma {:induction false} SortStable(rs: seq<MatchResult>, k: int)
    ensures WithScore(SortByCompatibility(rs), k) == WithScore(rs, k)
    decreases |rs|
  {
    if rs != [] {
      var init := rs[..|rs| - 1];
      var x := rs[|rs| - 1];
      SortStable(init, k);
      SortSorted(init);
      InsertWithScore(SortByCompatibility(init), x, k);
      assert rs == init + [x];
      WithScoreAppend(init, [x], k);
    }
  }

  lemma TakeMultiset<T>(s: seq<T>, n: nat)
    ensures multiset(Take(s, n)) <= multiset(s)
  {
    if n <= |s| {
      assert s == s[..n] + s[n..];
    }
  }

  lemma UsersOfTake(rs: seq<MatchResult>, n: nat)
    ensures Users(Take(rs, n)) == Take(Users(rs), n)
  {
  }

  lemma SortedPrefix(rs: seq<MatchResult>, n: nat)
    requires SortedDesc(rs)
    ensures SortedDesc(Take(rs, n))
  {
  }

  // ---------------------------------------------------------------- the generator

  /** The top ten of the scored candidates, best first. */
  function TopMatches(scored: seq<MatchResult>): seq<MatchResult> {
    Take(SortByCompatibility(scored), TopCount)
  }

  lemma TopMatchesFacts(scored: seq<MatchResult>)
    ensures SortedDesc(TopMatches(scored))
    ensures |TopMatches(scored)| == Min(TopCount, |scored|)
    ensures multiset(TopMatches(scored)) <= multiset(scored)
    ensures multiset(Users(TopMatches(scored))) <= multiset(Users(scored))
    ensures |scored| <= TopCount ==> multiset(Users(TopMatches(scored))) == multiset(Users(scored))
  {
    var sorted := SortByCompatibility(scored);
    SortSorted(scored);
    SortUsers(scored);
    TakeMultiset(sorted, TopCount);
    TakeMultiset(Users(sorted), TopCount);
    UsersOfTake(sorted, TopCount);
  }

  /** No scored entry left out of the top ten outscores an entry kept in it. */
  lemma TopMatchesKeepsBest(scored: seq<MatchResult>)
    ensures var r := TopMatches(scored);
            forall e: MatchResult, i: int :: e in multiset(scored) - multiset(r) && 0 <= i < |r|
              ==> e.compatibility <= r[i].compatibility
  {
    var sorted := SortByCompatibility(scored);
    var r := TopMatches(scored);
    SortSorted(scored);
    var rest := sorted[|r|..];
    assert sorted == r + rest;
    assert multiset(sorted) == multiset(r) + multiset(rest);
    forall e: MatchResult, i: int | e in multiset(scored) - multiset(r) && 0 <= i < |r|
      ensures e.compatibility <= r[i].compatibility
    {
      assert e in multiset(rest);
      var j :| 0 <= j < |rest| && rest[j] == e;
      assert sorted[|r| + j] == e && sorted[i] == r[i];
    }
  }

  /** Every entry of a sub-multiset of `s` is an element of `s`. */
  lemma SubMultisetMembers<T>(r: seq<T>, s: seq<T>)
    requires multiset(r) <= multiset(s)
    ensures forall i :: 0 <= i < |r| ==> r[i] in s
  {
    forall i | 0 <= i < |r| ensures r[i] in s {
      assert r[i] in multiset(r);
    }
  }

  /** What the top ten of the scored non-self candidates satisfy. */
  lemma GenerateFacts(user: UserProfile, others: seq<UserProfile>, draws: seq<real>)
    requires ValidDraws(draws) && |draws| >= |others|
    ensures var candidates := ExcludeId(others, user.id);
            var scored := Score(candidates, draws);
            var r := TopMatches(scored);
            && (forall i :: 0 <= i < |r| ==> r[i] in scored)
            && (forall i :: 0 <= i < |r| ==> r[i].user in candidates)
            && (forall i :: 0 <= i < |r| ==> r[i].user in others)
            && multiset(Users(r)) <= multiset(candidates)
            && (|candidates| <= TopCount ==> multiset(Users(r)) == multiset(candidates))
  {
    var candidates := ExcludeId(others, user.id);
    var scored := Score(candidates, draws);
    assert Users(scored) == candidates;
    TopMatchesFacts(scored);
    var r := TopMatches(scored);
    SubMultisetMembers(r, scored);
    SubMultisetMembers(Users(r), candidates);
    ExcludeIdSubMultiset(others, user.id);
    SubMultisetMembers(Users(r), others);
  }

  /**
   * `generateMatchesMock(user, others)`: the top ten of the non-self candidates,
   * each scored by its own draw, from the highest score to the lowest.
   */
  function GenerateMatchesMock(user: UserProfile, others: seq<UserProfile>, draws: seq<real>)
    : (r: seq<MatchResult>)
    requires ValidDraws(draws) && |draws| >= |others|
    ensures forall i :: 0 <= i < |r| ==> r[i].user.id != user.id
    ensures forall i :: 0 <= i < |r| ==> MinScore <= r[i].compatibility <= MaxScore
    ensures SortedDesc(r)
    ensures |r| == Min(TopCount, |ExcludeId(others, user.id)|)
    ensures multiset(r) <= multiset(Score(ExcludeId(others, user.id), draws))
    ensures multiset(Users(r)) <= multiset(ExcludeId(others, user.id))
    ensures forall i :: 0 <= i < |r| ==> r[i].user in others
    ensures |ExcludeId(others, user.id)| <= TopCount
            ==> multiset(Users(r)) == multiset(ExcludeId(others, user.id))
  {
    var scored := Score(ExcludeId(others, user.id), draws);
    TopMatchesFacts(scored);
    GenerateFacts(user, others, draws);
    TopMatches(scored)
  }

  /**
   * The generator keeps the best: every scored non-self candidate it drops scores
   * at most as much as each of the ten it returns.
   */
  lemma GenerateKeepsBest(user: UserProfile, others: seq<UserProfile>, draws: seq<real>)
    requires ValidDraws(draws) && |draws| >= |others|
    ensures var scored := Score(ExcludeId(others, user.id), draws);
            var r := GenerateMatchesMock(user, others, draws);
            forall e: MatchResult, i: int :: e in multiset(scored) - multiset(r) && 0 <= i < |r|
              ==> e.compatibility <= r[i].compatibility
  {
    var scored := Score(ExcludeId(others, user.id), draws);
    assert GenerateMatchesMock(user, others, draws) == TopMatches(scored);
    TopMatchesKeepsBest(scored);
  }

  /**
   * Stability in the generator's terms: when at most ten candidates remain,
   * candidates with the same score come out in pool order.
   */
  lemma GenerateKeepsPoolOrderOnTies(user: UserProfile, others: seq<UserProfile>, draws: seq<real>, k: int)
    requires ValidDraws(draws) && |draws| >= |others|
    requires |ExcludeId(others, user.id)| <= TopCount
    ensures WithScore(GenerateMatchesMock(user, others, draws), k)
         == WithScore(Score(ExcludeId(others, user.id), draws), k)
  {
    var scored := Score(ExcludeId(others, user.id), draws);
    SortStable(scored, k);
  }
}
