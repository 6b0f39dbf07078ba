/** The resumes page: each resume version with its application count and
    interview rate, at most one flagged as the best, and the guards on adding
    a version and on downloading its file. */
module Resumes {
  import opened Records
  import opened Percent

  /** The backend's answers to the two head-only exact-count queries for one
      resume id: the applications using it, and those of them with status
      'Interview'. None stands for a null count. */
  datatype CountReply = CountReply(totalApps: Option<nat>, interviews: Option<nat>)

  /** A resume as listed: its own row unchanged (`...resume`), the number of
      applications, the rate in tenths of a percent, and the best flag. */
  datatype RankedResume = RankedResume(resume: ResumeVersion, applications: nat, rate: nat, isBest: bool)

  /** `totalApps ? ((interviews || 0) / totalApps * 100).toFixed(1) : '0.0'`,
      in tenths of a percent. */
  function Rate(c: CountReply): (r: nat)
    ensures c.totalApps.None? || c.totalApps.value == 0 ==> r == 0
    ensures c.totalApps.Some? && c.totalApps.value > 0 ==>
              var n, k := c.totalApps.value, c.interviews.GetOr(0);
              2 * n * r <= 2000 * k + n < 2 * n * r + 2 * n
  {
    if c.totalApps.Some? && c.totalApps.value > 0 then TenthsPercent(c.interviews.GetOr(0), c.totalApps.value) else 0
  }

  /** The element `fetchResumes` maps one resume to, before the best one is chosen. */
  function WithStats(r: ResumeVersion, c: CountReply): (ranked: RankedResume)
    ensures ranked.resume == r && !ranked.isBest
    ensures ranked.applications == c.totalApps.GetOr(0) && ranked.rate == Rate(c)
  {
    RankedResume(r, c.totalApps.GetOr(0), Rate(c), false)
  }

  predicate InterviewWith(id: string, a: Application) {
    a.resumeVersionId == Some(id) && a.status == StatusInterview
  }

  /** The replies of a backend holding the application rows `table`: exact
      counts, the second one of status 'Interview' only. */
  function TableCounts(table: seq<Application>): string -> CountReply {
    id => CountReply(Some(|Filter(table, a => UsesResume(id, a))|), Some(|Filter(table, a => InterviewWith(id, a))|))
  }

  /** With exact counts, a resume's figures: its application count, and a rate
      in [0.0, 100.0] that is 0.0 exactly when it has no applications or fewer
      than a twentieth of a percent of them are at the interview stage.
      Offers do not count as interviews here. */
  lemma {:induction false} ExactCountsRate(table: seq<Application>, r: ResumeVersion)
    ensures var ranked := WithStats(r, TableCounts(table)(r.id));
            var total := |set i | 0 <= i < |table| && table[i].resumeVersionId == Some(r.id)|;
            var interviews := |set i | 0 <= i < |table| && table[i].resumeVersionId == Some(r.id) && table[i].status == StatusInterview|;
            && ranked.applications == total
            && interviews <= total
            && ranked.rate <= 1000
            && (ranked.rate == 0 <==> total == 0 || 2000 * interviews < total)
  {
    var used := a => UsesResume(r.id, a);
    var interviewed := a => InterviewWith(r.id, a);
    var usedSet := set i | 0 <= i < |table| && table[i].resumeVersionId == Some(r.id);
    var interviewSet := set i | 0 <= i < |table| && table[i].resumeVersionId == Some(r.id) && table[i].status == StatusInterview;
    CountIs(table, used, usedSet);
    CountIs(table, interviewed, interviewSet);
    assert interviewSet <= usedSet;
    SubsetSize(interviewSet, usedSet);
    var c := TableCounts(table)(r.id);
    assert c.totalApps == Some(|usedSet|) && c.interviews == Some(|interviewSet|);
    if |usedSet| > 0 {
      TenthsPercentRange(|interviewSet|, |usedSet|);
    }
  }

  lemma SubsetSize(a: set<int>, b: set<int>)
    requires a <= b
    ensures |a| <= |b|
  {
    assert b == a + (b - a);
  }

  /** The element the `reduce` with `current.rate > prev.rate ? current : prev`
      returns: the first element of greatest rate. */
  function BestIndex(s: seq<RankedResume>): (b: nat)
    requires |s| > 0
    ensures b < |s|
    ensures forall j :: 0 <= j < |s| ==> s[j].rate <= s[b].rate
    ensures forall j :: 0 <= j < b ==> s[j].rate < s[b].rate
  {
    if |s| == 1 then 0
    else
      var prev := BestIndex(s[..|s| - 1]);
      assert forall j :: 0 <= j < |s| - 1 ==> s[..|s| - 1][j] == s[j];
      if s[|s| - 1].rate > s[prev].rate then |s| - 1 else prev
  }

  /** The list with the best element flagged, if its rate is positive
      (`best.isBest = true`). */
  function MarkBest(s: seq<RankedResume>): (r: seq<RankedResume>)
    requires forall i :: 0 <= i < |s| ==> !s[i].isBest
    ensures |r| == |s|
    ensures forall i :: 0 <= i < |s| ==> r[i] == s[i].(isBest := r[i].isBest)
    ensures forall i, j :: 0 <= i < |r| && 0 <= j < |r| && r[i].isBest && r[j].isBest ==> i == j
    ensures forall i :: 0 <= i < |r| && r[i].isBest ==>
              && s[i].rate > 0
              && (forall j :: 0 <= j < |s| ==> s[j].rate <= s[i].rate)
              && (forall j :: 0 <= j < i ==> s[j].rate < s[i].rate)
    ensures (exists i :: 0 <= i < |r| && r[i].isBest) <==> (exists i :: 0 <= i < |s| && s[i].rate > 0)
  {
    if |s| == 0 then s
    else
      var b := BestIndex(s);
      if s[b].rate > 0 then s[b := s[b].(isBest := true)] else s
  }

  /** The list `fetchResumes` stores for the fetched `resumes` (newest first)
      and the backend's count replies. */
  function Ranked(resumes: seq<ResumeVersion>, counts: string -> CountReply): (r: seq<RankedResume>)
    ensures |r| == |resumes|
    ensures forall i :: 0 <= i < |resumes| ==>
              r[i].resume == resumes[i] && r[i].applications == counts(resumes[i].id).totalApps.GetOr(0) &&
              r[i].rate == Rate(counts(resumes[i].id))
    ensures forall i, j :: 0 <= i < |r| && 0 <= j < |r| && r[i].isBest && r[j].isBest ==> i == j
    ensures forall i :: 0 <= i < |r| && r[i].isBest ==>
              && r[i].rate > 0
              && (forall j :: 0 <= j < |r| ==> r[j].rate <= r[i].rate)
              && (forall j :: 0 <= j < i ==> r[j].rate < r[i].rate)
    ensures (exists i :: 0 <= i < |r| && r[i].isBest) <==> (exists i :: 0 <= i < |r| && r[i].rate > 0)
  {
    var withStats := seq(|resumes|, i requires 0 <= i < |resumes| => WithStats(resumes[i], counts(resumes[i].id)));
    assert forall i :: 0 <= i < |resumes| ==> withStats[i] == WithStats(resumes[i], counts(resumes[i].id));
    MarkBest(withStats)
  }

  /** The row `handleAddResume` inserts into `resume_versions`. */
  datatype ResumeInsert = ResumeInsert(userId: string, name: string)

  /** A signed-URL request to the `resumes` storage bucket. */
  datatype SignedUrlRequest = SignedUrlRequest(bucket: string, path: string, expiresIn: nat)

  /** What `handleDownload` does: the request it sends, and the URL it opens (`window.open`). */
  datatype Download = Download(request: Option<SignedUrlRequest>, url: Option<string>)

  /** `handleDownload(path)` given the backend's reply to the signed-URL
      request: nothing for a missing or empty path; otherwise a 60-second URL
      for that path, opened when the reply carries a non-empty one. */
  function HandleDownload(path: Option<string>, reply: Result<string>): (d: Download)
    ensures d.request.None? <==> path.None? || path.value == ""
    ensures d.request.Some? ==> d.request.value == SignedUrlRequest("resumes", path.value, 60)
    ensures d.url.Some? <==> d.request.Some? && reply.Ok? && reply.value != ""
    ensures d.url.Some? ==> d.url.value == reply.value
  {
    if path.None? || path.value == "" then Download(None, None)
    else
      var request := Some(SignedUrlRequest("resumes", path.value, 60));
      if reply.Ok? && reply.value != "" then Download(request, Some(reply.value)) else Download(request, None)
  }

  /** The resumes component's state. */
  class ResumesView {
    var resumes: seq<RankedResume>
    var loading: bool
    var uploading: bool
    var isModalOpen: bool
    var versionName: string

    constructor ()
      ensures resumes == [] && loading && !uploading && !isModalOpen && versionName == ""
    {
      resumes := [];
      loading := true;
      uploading := false;
      isModalOpen := false;
      versionName := "";
    }

    /** `fetchResumes`, given the reply to the resume query and the count
        replies. The per-resume requests run one after another here; the
        chosen element is flagged in place. */
    method FetchResumes(user: Option<UserProfile>, reply: Result<seq<ResumeVersion>>, counts: string -> CountReply)
      modifies this`resumes, this`loading
      ensures user.None? ==> resumes == old(resumes) && loading == old(loading)
      ensures user.Some? ==> !loading
      ensures user.Some? && reply.Err? ==> resumes == old(resumes)
      ensures user.Some? && reply.Ok? ==> resumes == Ranked(reply.value, counts)
    {
      if user.None? {
        return;
      }
      loading := true;
      if reply.Err? {
        loading := false;
        return;
      }
      var rows := reply.value;
      var withStats := new RankedResume[|rows|];
      for i := 0 to |rows|
        invariant forall j :: 0 <= j < i ==> withStats[j] == WithStats(rows[j], counts(rows[j].id))
      {
        withStats[i] := WithStats(rows[i], counts(rows[i].id));
      }
      ghost var mapped := withStats[..];
      if withStats.Length > 0 {
        var best := BestIndex(withStats[..]);
        if withStats[best].rate > 0 {
          withStats[best] := withStats[best].(isBest := true);
        }
      }
      assert mapped == seq(|rows|, i requires 0 <= i < |rows| => WithStats(rows[i], counts(rows[i].id)));
      assert withStats[..] == MarkBest(mapped);
      resumes := withStats[..];
      loading := false;
    }

    /** `handleAddResume`: returns the row inserted, if any. On success the
        modal closes, the name is cleared and the list is fetched again with
        the replies `refetch` and `counts`. */
    method HandleAddResume(user: Option<UserProfile>, insertReply: WriteReply,
                           refetch: Result<seq<ResumeVersion>>, counts: string -> CountReply)
      returns (insert: Option<ResumeInsert>)
      modifies this
      ensures insert.None? <==> user.None? || old(versionName) == ""
      ensures insert.Some? ==> insert.value == ResumeInsert(user.value.id, old(versionName))
      ensures insert.None? ==>
                resumes == old(resumes) && loading == old(loading) && uploading == old(uploading) &&
                isModalOpen == old(isModalOpen) && versionName == old(versionName)
      ensures insert.Some? ==> !uploading
      ensures insert.Some? && insertReply.Rejected? ==>
                resumes == old(resumes) && loading == old(loading) && isModalOpen == old(isModalOpen) &&
                versionName == old(versionName)
      ensures insert.Some? && insertReply.Written? ==>
                !isModalOpen && versionName == "" && !loading &&
                resumes == if refetch.Ok? then Ranked(refetch.value, counts) else old(resumes)
    {
      if user.None? || versionName == "" {
        return None;
      }
      uploading := true;
      insert := Some(ResumeInsert(user.value.id, versionName));
      if insertReply.Written? {
        isModalOpen := false;
        versionName := "";
        FetchResumes(user, refetch, counts);
      }
      uploading := false;
    }
  }
}
