/** The dashboard: the greeting name, the statistics computed from the user's
    applications, and the top-3 resume leaderboard. The statistics and the
    leaderboard are pure; `DashboardView.FetchData` updates the component's
    state from the two backend replies, as the source's `fetchData` does. */
module Dashboard {
  import opened Records
  import opened Percent

  // ----- displayName -----

  /** `s.split('@')[0]`: the part of `s` before its first '@' (all of `s` when
      it has none). */
  function BeforeFirstAt(s: string): (r: string)
    ensures r <= s && '@' !in r
    ensures |r| < |s| ==> s[|r|] == '@'
  {
    if s == [] || s[0] == '@' then [] else [s[0]] + BeforeFirstAt(s[1..])
  }

  predicate HasFullName(user: UserProfile) {
    user.fullName.Some? && user.fullName.value != ""
  }

  /** `user?.full_name || user?.email?.split('@')[0] || 'User'`. */
  function DisplayName(user: Option<UserProfile>): (r: string)
    ensures r != ""
    ensures user.Some? && HasFullName(user.value) ==> r == user.value.fullName.value
    ensures user.Some? && !HasFullName(user.value) && user.value.email != [] && user.value.email[0] != '@' ==>
              r <= user.value.email && '@' !in r && (|r| < |user.value.email| ==> user.value.email[|r|] == '@')
    ensures (user.None? || (!HasFullName(user.value) && (user.value.email == [] || user.value.email[0] == '@'))) ==>
              r == "User"
  {
    if user.None? then "User"
    else if HasFullName(user.value) then user.value.fullName.value
    else
      var local := BeforeFirstAt(user.value.email);
      if local != "" then local else "User"
  }

  // ----- statistics -----

  predicate AppliedOn(today: string, a: Application) {
    a.dateApplied == today
  }

  /** A follow-up is pending when its date is set, has come, and the
      application is neither rejected nor ghosted. */
  predicate FollowUpDue(now: int, a: Application) {
    a.followUpDate.Some? && a.followUpDate.value <= now && a.status != StatusRejected && a.status != StatusGhosted
  }

  predicate IsInterviewOrOffer(a: Application) {
    a.status == StatusInterview || a.status == StatusOffer
  }

  predicate IsRejected(a: Application) {
    a.status == StatusRejected
  }

  /** The dashboard's statistics; `interviewRate` is the whole percent shown
      before the '%' sign. */
  datatype Stats = Stats(
    appsToday: nat,
    pendingFollowUps: nat,
    ghosted: nat,
    totalApplications: nat,
    totalInterviews: nat,
    totalRejections: nat,
    interviewRate: nat)

  const InitialStats := Stats(0, 0, 0, 0, 0, 0, 0)

  /** `totalApplications > 0 ? (interviews / total * 100).toFixed(0) : '0'`. */
  function InterviewRate(interviews: nat, total: nat): (r: nat)
    ensures total == 0 ==> r == 0
    ensures total > 0 ==> r == WholePercent(interviews, total)
    ensures interviews <= total ==> r <= 100 && (r == 0 <==> total == 0 || 200 * interviews < total)
  {
    if total == 0 then 0
    else if interviews <= total then WholePercentRange(interviews, total); WholePercent(interviews, total)
    else WholePercent(interviews, total)
  }

  /** `apps.filter(a => a.date_applied === today).length`. */
  function AppsToday(apps: seq<Application>, today: string): (n: nat)
    ensures n <= |apps|
    ensures n == |set i | 0 <= i < |apps| && apps[i].dateApplied == today|
  {
    CountIs(apps, a => AppliedOn(today, a), set i | 0 <= i < |apps| && apps[i].dateApplied == today);
    |Filter(apps, a => AppliedOn(today, a))|
  }

  /** The number of applications whose follow-up is due at `now`. */
  function PendingFollowUps(apps: seq<Application>, now: int): (n: nat)
    ensures n <= |apps|
    ensures n == |set i | 0 <= i < |apps| && FollowUpDue(now, apps[i])|
  {
    CountIs(apps, a => FollowUpDue(now, a), set i | 0 <= i < |apps| && FollowUpDue(now, apps[i]));
    |Filter(apps, a => FollowUpDue(now, a))|
  }

  /** The three per-status counts are exact, and as the statuses differ they
      add up to at most the number of applications. */
  lemma StatusCounts(apps: seq<Application>)
    ensures |Filter(apps, IsInterviewOrOffer)| == |set i | 0 <= i < |apps| && IsInterviewOrOffer(apps[i])|
    ensures |Filter(apps, IsGhosted)| == |set i | 0 <= i < |apps| && IsGhosted(apps[i])|
    ensures |Filter(apps, IsRejected)| == |set i | 0 <= i < |apps| && IsRejected(apps[i])|
    ensures |Filter(apps, IsInterviewOrOffer)| + |Filter(apps, IsGhosted)| + |Filter(apps, IsRejected)| <= |apps|
  {
    CountIs(apps, IsInterviewOrOffer, set i | 0 <= i < |apps| && IsInterviewOrOffer(apps[i]));
    CountIs(apps, IsGhosted, set i | 0 <= i < |apps| && IsGhosted(apps[i]));
    CountIs(apps, IsRejected, set i | 0 <= i < |apps| && IsRejected(apps[i]));
    DisjointCounts(apps, IsInterviewOrOffer, IsGhosted, IsRejected);
  }

  /** The statistics `fetchData` computes from the fetched applications, the
      current date string `today` and the current instant `now`. */
  function ComputeStats(apps: seq<Application>, today: string, now: int): (st: Stats)
    ensures st.totalApplications == |apps|
    ensures st.appsToday == |set i | 0 <= i < |apps| && apps[i].dateApplied == today|
    ensures st.pendingFollowUps == |set i | 0 <= i < |apps| && FollowUpDue(now, apps[i])|
    ensures st.ghosted == |set i | 0 <= i < |apps| && IsGhosted(apps[i])|
    ensures st.totalInterviews == |set i | 0 <= i < |apps| && IsInterviewOrOffer(apps[i])|
    ensures st.totalRejections == |set i | 0 <= i < |apps| && IsRejected(apps[i])|
    ensures st.appsToday <= |apps| && st.pendingFollowUps <= |apps|
    ensures st.totalInterviews + st.ghosted + st.totalRejections <= st.totalApplications
    ensures st.interviewRate <= 100
    ensures st.interviewRate == 0 <==> apps == [] || 200 * st.totalInterviews < st.totalApplications
    ensures apps == [] ==> st.interviewRate == 0
    ensures apps != [] ==> st.interviewRate == WholePercent(st.totalInterviews, st.totalApplications)
  {
    var interviews := |Filter(apps, IsInterviewOrOffer)|;
    var ghosted := |Filter(apps, IsGhosted)|;
    var rejections := |Filter(apps, IsRejected)|;
    StatusCounts(apps);
    Stats(AppsToday(apps, today), PendingFollowUps(apps, now), ghosted, |apps|,
          interviews, rejections, InterviewRate(interviews, |apps|))
  }

  // ----- resume leaderboard -----

  /** A leaderboard row; `score` is the whole percent shown before the '%'. */
  datatype LeaderboardEntry = LeaderboardEntry(id: string, name: string, count: nat, score: nat, trend: string)

  /** The row `fetchData` maps one resume to: its applications, and the share
      of them at the interview or offer stage. */
  function ScoreResume(r: ResumeRef, apps: seq<Application>): (e: LeaderboardEntry)
    ensures e.id == r.id && e.name == r.name && e.trend == "neutral"
    ensures e.count == |set i | 0 <= i < |apps| && apps[i].resumeVersionId == Some(r.id)|
    ensures e.score <= 100
    ensures e.score == 0 <==>
              e.count == 0 || 200 * |set i | 0 <= i < |apps| && UsesResume(r.id, apps[i]) && IsInterviewOrOffer(apps[i])| < e.count
    ensures e.count == 0 ==> e.score == 0
    ensures e.count > 0 ==>
              e.score == WholePercent(|set i | 0 <= i < |apps| && UsesResume(r.id, apps[i]) && IsInterviewOrOffer(apps[i])|, e.count)
  {
    var used := a => UsesResume(r.id, a);
    var resumeApps := Filter(apps, used);
    var count := |resumeApps|;
    var interviews := |Filter(resumeApps, IsInterviewOrOffer)|;
    var usedSet := set i | 0 <= i < |apps| && apps[i].resumeVersionId == Some(r.id);
    var bothSet := set i | 0 <= i < |apps| && UsesResume(r.id, apps[i]) && IsInterviewOrOffer(apps[i]);
    CountIs(apps, used, usedSet);
    NestedCountIs(apps, used, IsInterviewOrOffer, bothSet);
    assert interviews <= count;
    LeaderboardEntry(r.id, r.name, count, InterviewRate(interviews, count), "neutral")
  }

  /** `resumes.map(...)`: every fetched resume scored, in fetch order. */
  function ScoreAll(resumes: seq<ResumeRef>, apps: seq<Application>): (s: seq<LeaderboardEntry>)
    ensures |s| == |resumes|
    ensures forall i :: 0 <= i < |resumes| ==> s[i] == ScoreResume(resumes[i], apps)
  {
    seq(|resumes|, i requires 0 <= i < |resumes| => ScoreResume(resumes[i], apps))
  }

  predicate SortedByScore(s: seq<LeaderboardEntry>) {
    forall i, j :: 0 <= i < j < |s| ==> s[i].score >= s[j].score
  }

  /** The entries of `s` with score `v`, in their order in `s`. */
  function WithScore(s: seq<LeaderboardEntry>, v: nat): seq<LeaderboardEntry> {
    if s == [] then [] else (if s[0].score == v then [s[0]] else []) + WithScore(s[1..], v)
  }

  lemma {:induction false} WithScoreAppend(a: seq<LeaderboardEntry>, b: seq<LeaderboardEntry>, v: nat)
    ensures WithScore(a + b, v) == WithScore(a, v) + WithScore(b, v)
  {
    if a == [] {
      assert a + b == b;
    } else {
      var head := if a[0].score == v then [a[0]] else [];
      assert (a + b)[0] == a[0];
      assert (a + b)[1..] == a[1..] + b;
      WithScoreAppend(a[1..], b, v);
      calc {
        WithScore(a + b, v);
        head + WithScore(a[1..] + b, v);
        head + (WithScore(a[1..], v) + WithScore(b, v));
        (head + WithScore(a[1..], v)) + WithScore(b, v);
      }
    }
  }

  lemma {:induction false} WithScoreMember(s: seq<LeaderboardEntry>, v: nat, x: LeaderboardEntry)
    requires x in WithScore(s, v)
    ensures x in s && x.score == v
  {
    if s != [] && !(s[0].score == v && x == s[0]) {
      WithScoreMember(s[1..], v, x);
    }
  }

  /** Inserts `x` in front of the first entry that does not score strictly
      higher; `x` thus stays ahead of the entries it ties with. */
  function InsertByScore(x: LeaderboardEntry, t: seq<LeaderboardEntry>): (r: seq<LeaderboardEntry>)
    ensures |r| == |t| + 1
    ensures multiset(r) == multiset(t) + multiset{x}
  {
    if t == [] then [x]
    else if t[0].score > x.score then
      assert t == [t[0]] + t[1..];
      [t[0]] + InsertByScore(x, t[1..])
    else [x] + t
  }

  lemma {:induction false} InsertSorted(x: LeaderboardEntry, t: seq<LeaderboardEntry>)
    requires SortedByScore(t)
    ensures SortedByScore(InsertByScore(x, t))
  {
    if t != [] && t[0].score > x.score {
      var rest := InsertByScore(x, t[1..]);
      InsertSorted(x, t[1..]);
      forall j | 0 <= j < |rest| ensures t[0].score >= rest[j].score {
        assert rest[j] in multiset(t[1..]) + multiset{x};
        if rest[j] != x {
          assert rest[j] in t[1..];
        }
      }
    }
  }

  lemma WithScoreCons(s: seq<LeaderboardEntry>, v: nat)
    requires s != []
    ensures WithScore(s, v) == (if s[0].score == v then [s[0]] else []) + WithScore(s[1..], v)
  {
  }

  /** Inserting `x` puts it first among the entries with its score. */
  lemma {:induction false} InsertWithScore(x: LeaderboardEntry, t: seq<LeaderboardEntry>, v: nat)
    ensures WithScore(InsertByScore(x, t), v) == (if x.score == v then [x] else []) + WithScore(t, v)
  {
    var head := if x.score == v then [x] else [];
    if t == [] {
      WithScoreCons([x], v);
      assert [x][1..] == [];
    } else if t[0].score > x.score {
      var rest := InsertByScore(x, t[1..]);
      InsertWithScore(x, t[1..], v);
      assert ([t[0]] + rest)[0] == t[0] && ([t[0]] + rest)[1..] == rest;
      WithScoreCons([t[0]] + rest, v);
      WithScoreCons(t, v);
      if x.score == v {
        assert t[0].score != v;
      }
    } else {
      assert ([x] + t)[0] == x && ([x] + t)[1..] == t;
      WithScoreCons([x] + t, v);
    }
  }

  /** `Array.prototype.sort` with the comparator `b.score - a.score`, which is
      stable: a stable insertion sort by non-increasing score. */
  function SortByScore(s: seq<LeaderboardEntry>): (r: seq<LeaderboardEntry>)
    ensures |r| == |s|
    ensures SortedByScore(r)
    ensures multiset(r) == multiset(s)
    ensures forall v :: WithScore(r, v) == WithScore(s, v)
  {
    if s == [] then []
    else
      var t := SortByScore(s[1..]);
      assert s == [s[0]] + s[1..];
      InsertSorted(s[0], t);
      assert forall v :: WithScore(InsertByScore(s[0], t), v) == WithScore(s, v) by {
        forall v ensures WithScore(InsertByScore(s[0], t), v) == WithScore(s, v) {
          InsertWithScore(s[0], t, v);
        }
      }
      InsertByScore(s[0], t)
  }

  lemma WithScoreHead(t: seq<LeaderboardEntry>)
    requires t != []
    ensures WithScore(t, t[0].score) != []
  {
  }

  /** Being sorted by non-increasing score and keeping, for every score, the
      entries with that score in their original order determines the result:
      `SortByScore` is the only stable sort. */
  lemma {:induction false} StableSortUnique(t1: seq<LeaderboardEntry>, t2: seq<LeaderboardEntry>)
    requires SortedByScore(t1) && SortedByScore(t2)
    requires forall v :: WithScore(t1, v) == WithScore(t2, v)
    ensures t1 == t2
    decreases |t1|
  {
    if t1 == [] && t2 != [] {
      WithScoreHead(t2);
      assert false;
    } else if t1 != [] && t2 == [] {
      WithScoreHead(t1);
      assert false;
    } else if t1 != [] {
      var a, b := t1[0].score, t2[0].score;
      assert WithScore(t1, a)[0] == t1[0];
      WithScoreMember(t2, a, WithScore(t2, a)[0]);
      assert WithScore(t2, b)[0] == t2[0];
      WithScoreMember(t1, b, WithScore(t1, b)[0]);
      assert a == b;
      assert WithScore(t2, a)[0] == t2[0];
      assert t1[0] == t2[0];
      forall v: nat ensures WithScore(t1[1..], v) == WithScore(t2[1..], v) {
        var w := WithScore(t1, v);
        assert w == WithScore(t2, v);
        WithScoreCons(t1, v);
        WithScoreCons(t2, v);
        if a == v {
          var rest1, rest2 := WithScore(t1[1..], v), WithScore(t2[1..], v);
          assert w == [t1[0]] + rest1 && w == [t2[0]] + rest2;
          assert rest1 == w[1..] == rest2;
        } else {
          assert t1[0].score != v && t2[0].score != v;
          var rest1, rest2 := WithScore(t1[1..], v), WithScore(t2[1..], v);
          assert w == [] + rest1 && [] + rest1 == rest1;
          assert w == [] + rest2 && [] + rest2 == rest2;
        }
      }
      StableSortUnique(t1[1..], t2[1..]);
      assert t1 == [t1[0]] + t1[1..] && t2 == [t2[0]] + t2[1..];
    }
  }

  /** `sort((a, b) => b.score - a.score)` is stable: the only ordering by
      non-increasing score that keeps equal scores in their input order is
      `SortByScore`'s. */
  lemma SortByScoreIsTheStableSort(s: seq<LeaderboardEntry>, t: seq<LeaderboardEntry>)
    requires SortedByScore(t)
    requires forall v :: WithScore(t, v) == WithScore(s, v)
    ensures t == SortByScore(s)
  {
    StableSortUnique(t, SortByScore(s));
  }

  lemma PrefixSorted(sorted: seq<LeaderboardEntry>, k: nat)
    requires SortedByScore(sorted) && k <= |sorted|
    ensures SortedByScore(sorted[..k])
  {
    forall i, j | 0 <= i < j < k ensures sorted[..k][i].score >= sorted[..k][j].score {
      assert sorted[..k][i] == sorted[i] && sorted[..k][j] == sorted[j];
    }
  }

  /** What taking the first `k` entries of a sorted sequence keeps: entries
      that score no lower than any it drops. */
  lemma TakeTop(sorted: seq<LeaderboardEntry>, k: nat)
    requires SortedByScore(sorted) && k <= |sorted|
    ensures multiset(sorted[..k]) <= multiset(sorted)
    ensures forall e, j :: e in multiset(sorted) - multiset(sorted[..k]) && 0 <= j < k ==> e.score <= sorted[j].score
  {
    var top, rest := sorted[..k], sorted[k..];
    assert sorted == top + rest;
    assert multiset(sorted) - multiset(top) == multiset(rest) by {
      assert multiset(sorted) == multiset(top) + multiset(rest);
    }
    forall e: LeaderboardEntry, j | e in multiset(rest) && 0 <= j < k ensures e.score <= sorted[j].score {
      var m :| 0 <= m < |rest| && rest[m] == e;
      assert sorted[k + m] == e;
    }
  }

  /** For every score, the first `k` entries hold a prefix of the entries
      with that score. */
  lemma TakeStable(sorted: seq<LeaderboardEntry>, k: nat)
    requires k <= |sorted|
    ensures forall v :: WithScore(sorted[..k], v) <= WithScore(sorted, v)
  {
    var top, rest := sorted[..k], sorted[k..];
    assert sorted == top + rest;
    forall v ensures WithScore(top, v) <= WithScore(sorted, v) {
      WithScoreAppend(top, rest, v);
    }
  }

  /** The first `k` entries of any sorted rearrangement of `scored` are
      entries of `scored` that score no lower than the ones left off. */
  lemma PrefixKeepsBest(scored: seq<LeaderboardEntry>, sorted: seq<LeaderboardEntry>, k: nat)
    requires SortedByScore(sorted) && k <= |sorted|
    requires multiset(scored) == multiset(sorted)
    ensures multiset(sorted[..k]) <= multiset(scored)
    ensures forall e, j :: e in multiset(scored) - multiset(sorted[..k]) && 0 <= j < k ==> e.score <= sorted[..k][j].score
  {
    TakeTop(sorted, k);
  }

  /** `.sort((a, b) => b.score - a.score).slice(0, 3)`: at most three
      entries of the input in non-increasing score order; every input entry
      left off scores no higher than any entry kept; and, for every score,
      the entries kept with that score are the first ones the input has. */
  function TopThree(scored: seq<LeaderboardEntry>): (lb: seq<LeaderboardEntry>)
    ensures |lb| == if |scored| < 3 then |scored| else 3
    ensures SortedByScore(lb)
    ensures multiset(lb) <= multiset(scored)
    ensures forall e, k :: e in multiset(scored) - multiset(lb) && 0 <= k < |lb| ==> e.score <= lb[k].score
    ensures forall v :: WithScore(lb, v) <= WithScore(scored, v)
  {
    var sorted := SortByScore(scored);
    var k := if |sorted| < 3 then |sorted| else 3;
    PrefixSorted(sorted, k);
    PrefixKeepsBest(scored, sorted, k);
    TakeStable(sorted, k);
    sorted[..k]
  }

  /** The leaderboard `fetchData` stores: the fetched resumes scored against
      the applications, the best three first. */
  function Leaderboard(resumes: seq<ResumeRef>, apps: seq<Application>): (lb: seq<LeaderboardEntry>)
    ensures |lb| == if |resumes| < 3 then |resumes| else 3
    ensures SortedByScore(lb)
    ensures multiset(lb) <= multiset(ScoreAll(resumes, apps))
    ensures forall e, k :: e in multiset(ScoreAll(resumes, apps)) - multiset(lb) && 0 <= k < |lb| ==> e.score <= lb[k].score
    ensures forall v :: WithScore(lb, v) <= WithScore(ScoreAll(resumes, apps), v)
  {
    TopThree(ScoreAll(resumes, apps))
  }

  /** The dashboard component's state. */
  class DashboardView {
    var stats: Stats
    var leaderboard: seq<LeaderboardEntry>
    var loading: bool

    constructor ()
      ensures stats == InitialStats && leaderboard == [] && loading
    {
      stats := InitialStats;
      leaderboard := [];
      loading := true;
    }

    /** `fetchData`, given the backend's replies to the applications query
        and to the resumes query (None when its data is null). */
    method FetchData(user: Option<UserProfile>, appsReply: Result<seq<Application>>,
                     resumesReply: Option<seq<ResumeRef>>, today: string, now: int)
      modifies this
      ensures user.None? ==> stats == old(stats) && leaderboard == old(leaderboard) && loading == old(loading)
      ensures user.Some? ==> !loading
      ensures user.Some? && appsReply.Err? ==> stats == old(stats) && leaderboard == old(leaderboard)
      ensures user.Some? && appsReply.Ok? ==> stats == ComputeStats(appsReply.value, today, now)
      ensures user.Some? && appsReply.Ok? ==>
                leaderboard == if resumesReply.Some? then Leaderboard(resumesReply.value, appsReply.value) else old(leaderboard)
    {
      if user.None? {
        return;
      }
      loading := true;
      if appsReply.Err? {
        loading := false;
        return;
      }
      var apps := appsReply.value;
      stats := ComputeStats(apps, today, now);
      if resumesReply.Some? {
        leaderboard := Leaderboard(resumesReply.value, apps);
      }
      loading := false;
    }
  }
}
