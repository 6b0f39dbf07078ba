/** Shared vocabulary of the tracker client: the rows of the `applications`
    and `resume_versions` tables, the cached user profile, the shapes of the
    backend's replies, and `filter(...).length`, the only kind of counting the
    client does. */
module Records {

  datatype Option<T> = None | Some(value: T) {
    function GetOr(default: T): T {
      if Some? then value else default
    }
  }

  /** A backend read: rows, or an error carrying the backend's message. */
  datatype Result<T> = Ok(value: T) | Err(message: string)

  /** A backend write (insert or update): accepted, or rejected with a message
      ("" when the error carries none). */
  datatype WriteReply = Written | Rejected(message: string)

  // The status values the row editor offers; statuses are stored as strings.
  const StatusDraft: string := "Draft"
  const StatusApplied: string := "Applied"
  const StatusInterview: string := "Interview"
  const StatusOffer: string := "Offer"
  const StatusRejected: string := "Rejected"
  const StatusGhosted: string := "Ghosted"
  const EditorStatuses: seq<string> :=
    [StatusDraft, StatusApplied, StatusInterview, StatusOffer, StatusRejected, StatusGhosted]

  /** The cached profile of the signed-in user. */
  datatype UserProfile = UserProfile(id: string, email: string, fullName: Option<string>, avatarUrl: Option<string>)

  /** A row of `applications`. `followUpDate` is None when the column is empty
      (falsy); dates other than `dateApplied` are abstract comparable instants. */
  datatype Application = Application(
    id: string,
    userId: string,
    companyName: string,
    jobRole: string,
    location: string,
    jobSource: string,
    dateApplied: string,
    resumeVersionId: Option<string>,
    improvementNotes: string,
    status: string,
    followUpDate: Option<int>,
    createdAt: int)

  /** Whether the application was sent with the resume `id`
      (`a.resume_version_id === id`). */
  predicate UsesResume(id: string, a: Application) {
    a.resumeVersionId == Some(id)
  }

  predicate IsGhosted(a: Application) {
    a.status == StatusGhosted
  }

  /** A `resume_versions` row fetched with `select('id, name')`. */
  datatype ResumeRef = ResumeRef(id: string, name: string)

  /** A full `resume_versions` row. */
  datatype ResumeVersion = ResumeVersion(id: string, userId: string, name: string, filePath: Option<string>, createdAt: int)

  /** `s.filter(p)`: the elements satisfying `p`, in order, with their multiplicities. */
  function Filter<T(==,!new)>(s: seq<T>, p: T -> bool): (r: seq<T>)
    ensures |r| <= |s|
    ensures forall i :: 0 <= i < |r| ==> p(r[i])
  {
    if s == [] then [] else (if p(s[0]) then [s[0]] else []) + Filter(s[1..], p)
  }

  /** The filtered sequence keeps every element satisfying `p` as often as it
      occurs, and nothing else. */
  lemma {:induction false} FilterContents<T(!new)>(s: seq<T>, p: T -> bool)
    ensures forall x :: multiset(Filter(s, p))[x] == if p(x) then multiset(s)[x] else 0
  {
    if s != [] {
      assert s == [s[0]] + s[1..];
      FilterContents(s[1..], p);
    }
  }

  /** The positions of `s` whose element satisfies `p`: the independent
      reference for what `filter(...).length` counts. */
  ghost function Positions<T>(s: seq<T>, p: T -> bool): set<int> {
    set i | 0 <= i < |s| && p(s[i])
  }

  lemma {:induction false} FilterAppend<T(!new)>(a: seq<T>, b: seq<T>, p: T -> bool)
    ensures Filter(a + b, p) == Filter(a, p) + Filter(b, p)
  {
    if a == [] {
      assert a + b == b;
    } else {
      assert (a + b)[1..] == a[1..] + b;
      FilterAppend(a[1..], b, p);
    }
  }

  /** `filter(p).length` is the number of positions whose element satisfies `p`. */
  lemma {:induction false} FilterCountsPositions<T(!new)>(s: seq<T>, p: T -> bool)
    ensures |Filter(s, p)| == |Positions(s, p)|
  {
    if s == [] {
      assert Positions(s, p) == {};
    } else {
      var init, last := s[..|s| - 1], s[|s| - 1];
      assert s == init + [last];
      FilterAppend(init, [last], p);
      assert [last][1..] == [];
      var tail := if p(last) then [last] else [];
      assert Filter([last], p) == tail;
      assert |Filter(s, p)| == |Filter(init, p)| + |tail|;
      FilterCountsPositions(init, p);
      var before := Positions(init, p);
      assert |init| !in before;
      if p(last) {
        assert Positions(s, p) == before + {|init|};
      } else {
        assert Positions(s, p) == before;
      }
    }
  }

  /** The count of `filter(p)` is the size of any set that holds exactly the
      positions whose element satisfies `p`. */
  lemma CountIs<T(!new)>(s: seq<T>, p: T -> bool, positions: set<int>)
    requires forall i :: i in positions <==> 0 <= i < |s| && p(s[i])
    ensures |Filter(s, p)| == |positions|
  {
    FilterCountsPositions(s, p);
    assert positions == Positions(s, p);
  }

  /** Appending one element adds it to a filter of a filter exactly when it
      satisfies both conditions. */
  lemma NestedFilterSnoc<T(!new)>(init: seq<T>, last: T, p: T -> bool, q: T -> bool)
    ensures |Filter(Filter(init + [last], p), q)| == |Filter(Filter(init, p), q)| + if p(last) && q(last) then 1 else 0
  {
    assert [last][1..] == [];
    FilterAppend(init, [last], p);
    var one := if p(last) then [last] else [];
    assert Filter([last], p) == one;
    FilterAppend(Filter(init, p), one, q);
    if p(last) {
      assert one[1..] == [];
    }
  }

  /** Counting `s.filter(p).filter(q)`: the positions satisfying both. */
  lemma {:induction false} NestedCountIs<T(!new)>(s: seq<T>, p: T -> bool, q: T -> bool, positions: set<int>)
    requires forall i :: i in positions <==> 0 <= i < |s| && p(s[i]) && q(s[i])
    ensures |Filter(Filter(s, p), q)| == |positions|
    decreases |s|
  {
    if s == [] {
      assert positions == {};
    } else {
      var init, last := s[..|s| - 1], s[|s| - 1];
      assert s == init + [last];
      NestedFilterSnoc(init, last, p, q);
      var before := set i | 0 <= i < |init| && p(init[i]) && q(init[i]);
      NestedCountIs(init, p, q, before);
      assert |init| !in before;
      assert forall i :: 0 <= i < |init| ==> s[i] == init[i];
      if p(last) && q(last) {
        assert positions == before + {|init|};
      } else {
        assert positions == before;
      }
    }
  }

  /** Three counts over pairwise disjoint conditions add up to at most the length. */
  lemma {:induction false} DisjointCounts<T(!new)>(s: seq<T>, p: T -> bool, q: T -> bool, r: T -> bool)
    requires forall x :: !(p(x) && q(x)) && !(p(x) && r(x)) && !(q(x) && r(x))
    ensures |Filter(s, p)| + |Filter(s, q)| + |Filter(s, r)| <= |s|
  {
    if s != [] {
      DisjointCounts(s[1..], p, q, r);
    }
  }
}
