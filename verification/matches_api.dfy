/**
 * The mock branch of "top matches": pick the requester from the profile pool
 * by email, generate matches against everyone else, keep those at or above
 * the threshold and cut the list at `limit`.
 */
module MatchesApi {
  import opened Common
  import opened MatchService

  /** The default threshold (a fraction of 1) and list length of the request. */
  const DefaultMin: real := 0.94
  const DefaultLimit: int := 10

  /** The index of the first profile stored with this email, if any. */
  function FindByEmail(all: seq<UserProfile>, email: string): (r: Option<nat>)
    ensures r.Some? ==> r.value < |all| && all[r.value].email == Some(email)
    ensures r.Some? ==> forall j :: 0 <= j < r.value ==> all[j].email != Some(email)
    ensures r.None? ==> forall j :: 0 <= j < |all| ==> all[j].email != Some(email)
  {
    if all == [] then None
    else if all[0].email == Some(email) then Some(0)
    else match FindByEmail(all[1..], email)
      case None => None
      case Some(k) => Some(k + 1)
  }

  /** The requester: the first profile with this email, else the first profile; none in an empty pool. */
  function PickMe(all: seq<UserProfile>, email: string): (me: Option<UserProfile>)
    ensures me.None? <==> |all| == 0
    ensures me.Some? ==> me.value in all
    ensures me.Some? && (exists j :: 0 <= j < |all| && all[j].email == Some(email))
            ==> me.value.email == Some(email)
    ensures FindByEmail(all, email).Some? ==> me == Some(all[FindByEmail(all, email).value])
    ensures |all| > 0 && FindByEmail(all, email).None? ==> me == Some(all[0])
  {
    match FindByEmail(all, email)
    case Some(k) => Some(all[k])
    case None => if |all| > 0 then Some(all[0]) else None
  }

  /** A percentage as a fraction of 1. */
  function Fraction(percent: int): real {
    (percent as real) / 100.0
  }

  /** A score passes the threshold when `compatibility / 100 >= min`. */
  predicate MeetsThreshold(m: MatchResult, min: real) {
    Fraction(m.compatibility) >= min
  }

  /** The entries that pass the threshold, in their original order. */
  function ApplyThreshold(rs: seq<MatchResult>, min: real): (r: seq<MatchResult>)
    ensures forall i :: 0 <= i < |r| ==> MeetsThreshold(r[i], min)
    ensures multiset(r) <= multiset(rs)
    ensures |r| <= |rs|
  {
    if rs == [] then []
    else
      var rest := ApplyThreshold(rs[1..], min);
      assert rs == [rs[0]] + rs[1..];
      if MeetsThreshold(rs[0], min) then [rs[0]] + rest else rest
  }

  /** Nothing that passes the threshold is dropped. */
  lemma {:induction false} ApplyThresholdComplete(rs: seq<MatchResult>, min: real)
    ensures forall i :: 0 <= i < |rs| && MeetsThreshold(rs[i], min) ==> rs[i] in ApplyThreshold(rs, min)
    decreases |rs|
  {
    if rs != [] {
      ApplyThresholdComplete(rs[1..], min);
      forall i | 0 <= i < |rs| && MeetsThreshold(rs[i], min)
        ensures rs[i] in ApplyThreshold(rs, min)
      {
        if i > 0 {
          assert rs[i] == rs[1..][i - 1];
        }
      }
    }
  }

  /** Filtering distributes over concatenation, so the kept entries stay in input order. */
  lemma {:induction false} ApplyThresholdAppend(a: seq<MatchResult>, b: seq<MatchResult>, min: real)
    ensures ApplyThreshold(a + b, min) == ApplyThreshold(a, min) + ApplyThreshold(b, min)
    decreases |a|
  {
    if a == [] {
      assert a + b == b;
    } else {
      assert (a + b)[0] == a[0];
      assert (a + b)[1..] == a[1..] + b;
      ApplyThresholdAppend(a[1..], b, min);
      var h := if MeetsThreshold(a[0], min) then [a[0]] else [];
      AppendAssoc(h, ApplyThreshold(a[1..], min), ApplyThreshold(b, min));
    }
  }

  /** Every copy of a passing entry is kept, and no copy of a failing one. */
  lemma {:induction false} ApplyThresholdCounts(rs: seq<MatchResult>, min: real)
    ensures forall e :: multiset(ApplyThreshold(rs, min))[e]
                        == if MeetsThreshold(e, min) then multiset(rs)[e] else 0
    decreases |rs|
  {
    if rs != [] {
      ApplyThresholdCounts(rs[1..], min);
      assert rs == [rs[0]] + rs[1..];
    }
  }

  /** Filtering keeps the order of what it keeps, so a sorted list stays sorted. */
  lemma {:induction false} ApplyThresholdSorted(rs: seq<MatchResult>, min: real)
    requires SortedDesc(rs)
    ensures SortedDesc(ApplyThreshold(rs, min))
    decreases |rs|
  {
    if rs != [] {
      var rest := ApplyThreshold(rs[1..], min);
      ApplyThresholdSorted(rs[1..], min);
      if MeetsThreshold(rs[0], min) {
        var r := [rs[0]] + rest;
        forall i, j | 0 <= i < j < |r| ensures r[i].compatibility >= r[j].compatibility {
          if i == 0 {
            assert r[j] == rest[j - 1];
            SubMultisetMembers(rest, rs[1..]);
            assert rest[j - 1] in rs[1..];
          }
        }
      }
    }
  }

  /**
   * `slice(0, limit)`: the first `limit` entries; a negative limit counts back
   * from the end, so `-k` drops the last `k` entries.
   */
  function SliceTo<T>(s: seq<T>, limit: int): (r: seq<T>)
    ensures IsPrefix(r, s)
    ensures limit >= 0 ==> |r| == Min(limit, |s|)
    ensures limit < 0 ==> |r| == (if |s| + limit > 0 then |s| + limit else 0)
  {
    var end := if limit < 0 then (if |s| + limit > 0 then |s| + limit else 0)
               else Min(limit, |s|);
    s[..end]
  }

  /** Everything after the requester is known: exclude, generate, filter, cut. */
  function Pipeline(me: UserProfile, all: seq<UserProfile>, min: real, limit: int, draws: seq<real>)
    : seq<MatchResult>
    requires ValidDraws(draws) && |draws| >= |all|
  {
    var others := ExcludeId(all, me.id);
    SliceTo(ApplyThreshold(GenerateMatchesMock(me, others, draws), min), limit)
  }

  /** A cut list is a prefix: its entries are the first ones of the list, with no new copies. */
  lemma SliceToPrefix<T>(s: seq<T>, limit: int)
    ensures var r := SliceTo(s, limit);
            && multiset(r) <= multiset(s)
            && (forall i :: 0 <= i < |r| ==> r[i] == s[i])
  {
    var r := SliceTo(s, limit);
    assert s == r + s[|r|..];
  }

  /** Filtering and cutting keep only entries of `raw`, in `raw`'s order. */
  lemma FilterSliceFacts(raw: seq<MatchResult>, min: real, limit: int)
    ensures var r := SliceTo(ApplyThreshold(raw, min), limit);
            && (forall i :: 0 <= i < |r| ==> r[i] in raw)
            && (forall i :: 0 <= i < |r| ==> MeetsThreshold(r[i], min))
            && |r| <= |raw|
            && (limit >= 0 ==> |r| <= limit)
            && (SortedDesc(raw) ==> SortedDesc(r))
  {
    var kept := ApplyThreshold(raw, min);
    var r := SliceTo(kept, limit);
    SliceToPrefix(kept, limit);
    assert multiset(r) <= multiset(raw);
    SubMultisetMembers(r, raw);
    if SortedDesc(raw) {
      ApplyThresholdSorted(raw, min);
      assert SortedDesc(r);
    }
  }

  /** The pipeline returns candidates of the pool other than the requester. */
  lemma PipelineMembers(me: UserProfile, all: seq<UserProfile>, min: real, limit: int, draws: seq<real>)
    requires ValidDraws(draws) && |draws| >= |all|
    ensures var r := Pipeline(me, all, min, limit, draws);
            && (forall i :: 0 <= i < |r| ==> r[i].user.id != me.id)
            && (forall i :: 0 <= i < |r| ==> r[i].user in all)
  {
    var others := ExcludeId(all, me.id);
    var raw := GenerateMatchesMock(me, others, draws);
    ExcludeIdSubMultiset(all, me.id);
    SubMultisetMembers(others, all);
    FilterSliceFacts(raw, min, limit);
    var r := Pipeline(me, all, min, limit, draws);
    forall i | 0 <= i < |r| ensures r[i].user.id != me.id && r[i].user in all {
      var j :| 0 <= j < |raw| && raw[j] == r[i];
      assert raw[j].user in others;
    }
  }

  /** The pipeline returns passing scores, best first, within both length bounds. */
  lemma PipelineShape(me: UserProfile, all: seq<UserProfile>, min: real, limit: int, draws: seq<real>)
    requires ValidDraws(draws) && |draws| >= |all|
    ensures var r := Pipeline(me, all, min, limit, draws);
            && (forall i :: 0 <= i < |r| ==> MeetsThreshold(r[i], min))
            && (forall i :: 0 <= i < |r| ==> MinScore <= r[i].compatibility <= MaxScore)
            && SortedDesc(r)
            && |r| <= TopCount
            && (limit >= 0 ==> |r| <= limit)
  {
    var others := ExcludeId(all, me.id);
    var raw := GenerateMatchesMock(me, others, draws);
    FilterSliceFacts(raw, min, limit);
  }

  /**
   * `getTopMatches(email, min, limit)` with no remote service configured.
   * The pool and the random draws are parameters.
   */
  function GetTopMatchesMock(email: string, all: seq<UserProfile>, min: real, limit: int, draws: seq<real>)
    : (r: seq<MatchResult>)
    requires ValidDraws(draws) && |draws| >= |all|
    ensures |all| == 0 ==> r == []
    ensures |all| > 0 ==> forall i :: 0 <= i < |r| ==> r[i].user.id != PickMe(all, email).value.id
    ensures forall i :: 0 <= i < |r| ==> r[i].user in all
    ensures forall i :: 0 <= i < |r| ==> MeetsThreshold(r[i], min)
    ensures forall i :: 0 <= i < |r| ==> MinScore <= r[i].compatibility <= MaxScore
    ensures SortedDesc(r)
    ensures |r| <= TopCount
    ensures limit >= 0 ==> |r| <= limit
    ensures |all| > 0 ==>
              var me := PickMe(all, email).value;
              var kept := ApplyThreshold(GenerateMatchesMock(me, ExcludeId(all, me.id), draws), min);
              && IsPrefix(r, kept)
              && (limit >= 0 ==> |r| == Min(limit, |kept|))
              && (limit < 0 ==> |r| == (if |kept| + limit > 0 then |kept| + limit else 0))
  {
    match PickMe(all, email)
    case None => []
    case Some(me) =>
      PipelineMembers(me, all, min, limit, draws);
      PipelineShape(me, all, min, limit, draws);
      Pipeline(me, all, min, limit, draws)
  }

  /** The answer for a found requester is the filtered and cut output of the generator. */
  lemma GetTopMatchesUnfold(email: string, all: seq<UserProfile>, min: real, limit: int, draws: seq<real>,
                            me: UserProfile)
    requires ValidDraws(draws) && |draws| >= |all|
    requires PickMe(all, email) == Some(me)
    ensures GetTopMatchesMock(email, all, min, limit, draws)
         == SliceTo(ApplyThreshold(GenerateMatchesMock(me, ExcludeId(all, me.id), draws), min), limit)
  {
  }

  /** A limit at least as long as the list cuts nothing. */
  lemma SliceToAll<T>(s: seq<T>, limit: int)
    requires |s| <= limit
    ensures SliceTo(s, limit) == s
  {
  }

  /**
   * When the limit is at least ten, nothing that passes the threshold is cut:
   * the answer is every generated match that passes it.
   */
  lemma NoCutAtLargeLimit(email: string, all: seq<UserProfile>, min: real, limit: int, draws: seq<real>)
    requires ValidDraws(draws) && |draws| >= |all|
    requires |all| > 0 && limit >= TopCount
    ensures var me := PickMe(all, email).value;
            var raw := GenerateMatchesMock(me, ExcludeId(all, me.id), draws);
            forall i :: 0 <= i < |raw| && MeetsThreshold(raw[i], min)
              ==> raw[i] in GetTopMatchesMock(email, all, min, limit, draws)
  {
    var me := PickMe(all, email).value;
    var raw := GenerateMatchesMock(me, ExcludeId(all, me.id), draws);
    var kept := ApplyThreshold(raw, min);
    GetTopMatchesUnfold(email, all, min, limit, draws, me);
    SliceToAll(kept, limit);
    ApplyThresholdComplete(raw, min);
  }

  /** With the default threshold, every returned score is at least 94. */
  lemma DefaultThresholdIs94(email: string, all: seq<UserProfile>, draws: seq<real>)
    requires ValidDraws(draws) && |draws| >= |all|
    ensures var r := GetTopMatchesMock(email, all, DefaultMin, DefaultLimit, draws);
            forall i :: 0 <= i < |r| ==> r[i].compatibility >= 94
  {
    var r := GetTopMatchesMock(email, all, DefaultMin, DefaultLimit, draws);
    forall i | 0 <= i < |r| ensures r[i].compatibility >= 94 {
      assert MeetsThreshold(r[i], DefaultMin);
    }
  }

  /** A threshold above 1 can never be met, since no score exceeds 100. */
  lemma ThresholdAboveOneIsEmpty(email: string, all: seq<UserProfile>, min: real, limit: int, draws: seq<real>)
    requires ValidDraws(draws) && |draws| >= |all|
    requires min > 1.0
    ensures GetTopMatchesMock(email, all, min, limit, draws) == []
  {
  }
}

/** A worked example of the mock pipeline on a four-profile pool. */
module MatchesScenario {
  import opened Common
  import opened MatchService
  import opened MatchesApi

  /** Three entries scoring 70, 95 and 81 sort as 95, 81, 70. */
  lemma SortThree(ra: MatchResult, rb: MatchResult, rc: MatchResult)
    requires ra.compatibility == 70 && rb.compatibility == 95 && rc.compatibility == 81
    ensures SortByCompatibility([ra, rb, rc]) == [rb, rc, ra]
  {
    assert [ra, rb, rc][..2] == [ra, rb];
    assert [ra, rb][..1] == [ra];
    assert [ra][..0] == [];
    assert SortByCompatibility([ra]) == [ra];
    assert SortByCompatibility([ra, rb]) == [rb, ra];
    assert Insert([ra], rc) == [rc] + [ra];
    assert Insert([rb, ra], rc) == [rb] + Insert([ra], rc);
  }

  /** With no threshold, every entry passes. */
  lemma NoThresholdKeepsThree(r0: MatchResult, r1: MatchResult, r2: MatchResult)
    requires r0.compatibility >= 0 && r1.compatibility >= 0 && r2.compatibility >= 0
    ensures ApplyThreshold([r0, r1, r2], 0.0) == [r0, r1, r2]
  {
    assert MeetsThreshold(r0, 0.0) && MeetsThreshold(r1, 0.0) && MeetsThreshold(r2, 0.0);
    assert [r2][1..] == [];
    assert [r1, r2][1..] == [r2];
    assert [r0, r1, r2][1..] == [r1, r2];
    assert ApplyThreshold([r2], 0.0) == [r2];
    assert ApplyThreshold([r1, r2], 0.0) == [r1, r2];
  }

  /** The draws 0.25, 0.86 and 0.52 score 70, 95 and 81. */
  lemma ScoreThree(a: UserProfile, b: UserProfile, c: UserProfile, draws: seq<real>)
    requires draws == [0.25, 0.86, 0.52, 0.0]
    ensures ValidDraws(draws)
    ensures Score([a, b, c], draws) == [MatchResult(a, 70), MatchResult(b, 95), MatchResult(c, 81)]
  {
    assert ValidDraws(draws) by {
      forall i | 0 <= i < |draws| ensures 0.0 <= draws[i] < 1.0 {
        assert i == 0 || i == 1 || i == 2 || i == 3;
      }
    }
    assert ScoreOf(0.25) == 70 && ScoreOf(0.86) == 95 && ScoreOf(0.52) == 81;
    var scored := Score([a, b, c], draws);
    assert scored[0] == MatchResult(a, 70);
    assert scored[1] == MatchResult(b, 95);
    assert scored[2] == MatchResult(c, 81);
  }

  /** Excluding the head's id from a pool where only the head has it leaves the tail. */
  lemma ExcludeHead(u: UserProfile, ps: seq<UserProfile>)
    requires forall i :: 0 <= i < |ps| ==> ps[i].id != u.id
    ensures ExcludeId([u] + ps, u.id) == ps
  {
    assert ([u] + ps)[1..] == ps;
  }

  /** The generator on three non-self candidates scoring 70, 95, 81. */
  lemma GenerateThree(u: UserProfile, a: UserProfile, b: UserProfile, c: UserProfile, draws: seq<real>)
    requires a.id != u.id && b.id != u.id && c.id != u.id
    requires draws == [0.25, 0.86, 0.52, 0.0]
    ensures ValidDraws(draws)
    ensures GenerateMatchesMock(u, [a, b, c], draws)
         == [MatchResult(b, 95), MatchResult(c, 81), MatchResult(a, 70)]
  {
    var ps := [a, b, c];
    assert forall i :: 0 <= i < |ps| ==> ps[i].id != u.id;
    assert ExcludeId(ps, u.id) == ps;
    ScoreThree(a, b, c, draws);
    SortThree(MatchResult(a, 70), MatchResult(b, 95), MatchResult(c, 81));
  }

  lemma GetTopMatchesIsPipeline(email: string, all: seq<UserProfile>, min: real, limit: int, draws: seq<real>, me: UserProfile)
    requires ValidDraws(draws) && |draws| >= |all|
    requires PickMe(all, email) == Some(me)
    ensures GetTopMatchesMock(email, all, min, limit, draws) == Pipeline(me, all, min, limit, draws)
  {
  }

  /** With the requester first and no one else sharing its id, the generator sees the rest of the pool. */
  lemma PipelineHead(u: UserProfile, ps: seq<UserProfile>, min: real, limit: int, draws: seq<real>)
    requires ValidDraws(draws) && |draws| >= |ps| + 1
    requires forall i :: 0 <= i < |ps| ==> ps[i].id != u.id
    ensures Pipeline(u, [u] + ps, min, limit, draws)
         == SliceTo(ApplyThreshold(GenerateMatchesMock(u, ps, draws), min), limit)
  {
    ExcludeHead(u, ps);
  }

  /** The pipeline for U on [U, A, B, C] with no threshold and a limit of 2. */
  lemma PipelineTopTwo(u: UserProfile, a: UserProfile, b: UserProfile, c: UserProfile,
                       all: seq<UserProfile>, draws: seq<real>)
    requires a.id != u.id && b.id != u.id && c.id != u.id
    requires all == [u] + [a, b, c] && draws == [0.25, 0.86, 0.52, 0.0]
    ensures ValidDraws(draws) && |draws| >= |all|
    ensures Pipeline(u, all, 0.0, 2, draws) == [MatchResult(b, 95), MatchResult(c, 81)]
  {
    var ps := [a, b, c];
    assert forall i :: 0 <= i < |ps| ==> ps[i].id != u.id;
    PipelineHead(u, ps, 0.0, 2, draws);
    GenerateThree(u, a, b, c, draws);
    KeepTwo(MatchResult(b, 95), MatchResult(c, 81), MatchResult(a, 70));
  }

  /** A requester whose profile comes first in the pool is picked. */
  lemma PickFirst(u: UserProfile, ps: seq<UserProfile>, email: string)
    requires u.email == Some(email)
    ensures PickMe([u] + ps, email) == Some(u)
  {
    assert FindByEmail([u] + ps, email) == Some(0);
  }

  /** Filtering with no threshold and cutting at 2 keeps the best two of three. */
  lemma KeepTwo(r0: MatchResult, r1: MatchResult, r2: MatchResult)
    requires r0.compatibility >= 0 && r1.compatibility >= 0 && r2.compatibility >= 0
    ensures SliceTo(ApplyThreshold([r0, r1, r2], 0.0), 2) == [r0, r1]
  {
    NoThresholdKeepsThree(r0, r1, r2);
  }

  /**
   * The requester U (first in the pool) and candidates A, B, C scoring 70, 95
   * and 81: with no threshold and a limit of 2 the answer is B then C.
   */
  lemma TopTwoOfThree(u: UserProfile, a: UserProfile, b: UserProfile, c: UserProfile,
                       all: seq<UserProfile>, draws: seq<real>)
    requires u.email == Some("u@x")
    requires a.id != u.id && b.id != u.id && c.id != u.id
    requires all == [u, a, b, c] && draws == [0.25, 0.86, 0.52, 0.0]
    ensures ValidDraws(draws) && |draws| >= |all|
    ensures GetTopMatchesMock("u@x", all, 0.0, 2, draws) == [MatchResult(b, 95), MatchResult(c, 81)]
  {
    var ps := [a, b, c];
    assert all == [u] + ps;
    PipelineTopTwo(u, a, b, c, all, draws);
    PickFirst(u, ps, "u@x");
    GetTopMatchesIsPipeline("u@x", all, 0.0, 2, draws, u);
  }
}
