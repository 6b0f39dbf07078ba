/** The applications list: the query built from the status filter, the
    per-status counts shown above the list, and the status editor, which
    patches the local list only after the backend accepts the update. */
module Applications {
  import opened Records

  const FilterAll: string := "All"
  const FilterActive: string := "Active"

  /** The filter chips the page offers. */
  const FilterChips: seq<string> := [FilterAll, FilterActive, "Interviews", StatusRejected, StatusGhosted]

  /** The row predicate a filter value stands for: `'All'` keeps every row,
      `'Active'` the applied and interviewing ones, any other value the rows
      whose status is exactly that string. */
  predicate Matches(filter: string, status: string): (b: bool)
    ensures filter == FilterAll ==> b
    ensures filter == FilterActive ==> (b <==> status in [StatusApplied, StatusInterview])
    ensures filter != FilterAll && filter != FilterActive ==> (b <==> status == filter)
  {
    if filter == FilterAll then true
    else if filter == FilterActive then status == StatusApplied || status == StatusInterview
    else status == filter
  }

  /** The status condition of a query: none, `.in('status', values)` or
      `.eq('status', value)`. */
  datatype StatusCondition = AnyStatus | StatusIn(values: seq<string>) | StatusEq(value: string)

  /** A select on `applications`: `.eq('user_id', userId)`, a status
      condition, and `.order(orderColumn, { ascending })`. */
  datatype ApplicationsQuery = ApplicationsQuery(userId: string, status: StatusCondition, orderColumn: string, ascending: bool)

  /** The rows the backend returns for a query, ordering aside. */
  predicate Selects(q: ApplicationsQuery, row: Application) {
    row.userId == q.userId &&
    match q.status
    case AnyStatus => true
    case StatusIn(values) => row.status in values
    case StatusEq(value) => row.status == value
  }

  /** `fetchApplications`' `let query = ...` followed by the filter branches. */
  method BuildQuery(userId: string, filter: string) returns (q: ApplicationsQuery)
    ensures forall row :: Selects(q, row) <==> row.userId == userId && Matches(filter, row.status)
    ensures q.orderColumn == "created_at" && !q.ascending
  {
    q := ApplicationsQuery(userId, AnyStatus, "created_at", false);
    if filter != FilterAll {
      if filter == FilterActive {
        q := q.(status := StatusIn([StatusApplied, StatusInterview]));
      } else {
        q := q.(status := StatusEq(filter));
      }
    }
  }

  /** The 'Interviews' chip asks for status 'Interviews', which no status the
      editor offers equals: over rows edited only through it, it selects nothing. */
  lemma InterviewsChipSelectsNothing(rows: seq<Application>)
    requires forall i :: 0 <= i < |rows| ==> rows[i].status in EditorStatuses
    ensures "Interviews" in FilterChips
    ensures forall i :: 0 <= i < |rows| ==> !Matches("Interviews", rows[i].status)
  {
  }

  /** The figures above the list. */
  datatype AppStats = AppStats(totalApplied: nat, interviews: nat, offers: nat, ghosted: nat)

  predicate IsInterview(a: Application) {
    a.status == StatusInterview
  }

  predicate IsOffer(a: Application) {
    a.status == StatusOffer
  }

  /** `stats`: the list length and three exact per-status counts. */
  function Stats(apps: seq<Application>): (st: AppStats)
    ensures st.totalApplied == |apps|
    ensures st.interviews == |set i | 0 <= i < |apps| && IsInterview(apps[i])|
    ensures st.offers == |set i | 0 <= i < |apps| && IsOffer(apps[i])|
    ensures st.ghosted == |set i | 0 <= i < |apps| && IsGhosted(apps[i])|
    ensures st.interviews + st.offers + st.ghosted <= st.totalApplied
  {
    CountIs(apps, IsInterview, set i | 0 <= i < |apps| && IsInterview(apps[i]));
    CountIs(apps, IsOffer, set i | 0 <= i < |apps| && IsOffer(apps[i]));
    CountIs(apps, IsGhosted, set i | 0 <= i < |apps| && IsGhosted(apps[i]));
    DisjointCounts(apps, IsInterview, IsOffer, IsGhosted);
    AppStats(|apps|, |Filter(apps, IsInterview)|, |Filter(apps, IsOffer)|, |Filter(apps, IsGhosted)|)
  }

  /** `apps.map(app => app.id === id ? { ...app, status: newStatus } : app)`. */
  function WithStatus(apps: seq<Application>, id: string, newStatus: string): (r: seq<Application>)
    ensures |r| == |apps|
    ensures forall i :: 0 <= i < |apps| && apps[i].id == id ==> r[i] == apps[i].(status := newStatus)
    ensures forall i :: 0 <= i < |apps| && apps[i].id != id ==> r[i] == apps[i]
  {
    seq(|apps|, i requires 0 <= i < |apps| => if apps[i].id == id then apps[i].(status := newStatus) else apps[i])
  }

  /** When ids are unique the patch changes at most one row, and only its
      status; patching twice is patching once. */
  lemma WithStatusChangesOneRow(apps: seq<Application>, id: string, newStatus: string)
    requires forall i, j :: 0 <= i < j < |apps| ==> apps[i].id != apps[j].id
    ensures forall i, j ::
              (0 <= i < |apps| && 0 <= j < |apps| &&
               WithStatus(apps, id, newStatus)[i] != apps[i] && WithStatus(apps, id, newStatus)[j] != apps[j]) ==> i == j
    ensures WithStatus(WithStatus(apps, id, newStatus), id, newStatus) == WithStatus(apps, id, newStatus)
  {
    var r := WithStatus(apps, id, newStatus);
    forall i, j | 0 <= i < |apps| && 0 <= j < |apps| && r[i] != apps[i] && r[j] != apps[j] ensures i == j {
      assert apps[i].id == id && apps[j].id == id;
    }
    var r2 := WithStatus(r, id, newStatus);
    assert forall i :: 0 <= i < |apps| ==> r2[i] == r[i];
  }

  /** The update `handleStatusUpdate` sends: `.update({ status }).eq('id', id)`. */
  datatype StatusPatch = StatusPatch(id: string, status: string)

  /** The applications component's state. */
  class ApplicationsView {
    var filter: string
    var applications: seq<Application>
    var loading: bool
    var editingId: Option<string>

    constructor ()
      ensures filter == FilterAll && applications == [] && loading && editingId == None
    {
      filter := FilterAll;
      applications := [];
      loading := true;
      editingId := None;
    }

    /** A filter chip was clicked. */
    method SetFilter(f: string)
      modifies this`filter
      ensures filter == f
    {
      filter := f;
    }

    /** A row's status badge was clicked: its editor opens. */
    method StartEditing(id: string)
      modifies this`editingId
      ensures editingId == Some(id)
    {
      editingId := Some(id);
    }

    /** The status editor lost focus: it closes without an update. */
    method StopEditing()
      modifies this`editingId
      ensures editingId == None
    {
      editingId := None;
    }

    /** `fetchApplications`: returns the query sent (none without a user);
        `reply` is the backend's answer, None for null data. */
    method FetchApplications(user: Option<UserProfile>, reply: Result<Option<seq<Application>>>)
      returns (query: Option<ApplicationsQuery>)
      modifies this`applications, this`loading
      ensures query.None? <==> user.None?
      ensures query.Some? ==>
                (forall row :: Selects(query.value, row) <==> row.userId == user.value.id && Matches(filter, row.status)) &&
                query.value.orderColumn == "created_at" && !query.value.ascending
      ensures user.None? ==> applications == old(applications) && loading == old(loading)
      ensures user.Some? ==> !loading
      ensures user.Some? && reply.Err? ==> applications == old(applications)
      ensures user.Some? && reply.Ok? ==> applications == reply.value.GetOr([])
    {
      if user.None? {
        return None;
      }
      loading := true;
      var q := BuildQuery(user.value.id, filter);
      query := Some(q);
      if reply.Ok? {
        applications := reply.value.GetOr([]);
      }
      loading := false;
    }

    /** `handleStatusUpdate(id, newStatus)`: returns the update sent; the
        local row is patched and the editor closed only once the backend
        accepted it. */
    method HandleStatusUpdate(id: string, newStatus: string, reply: WriteReply) returns (patch: StatusPatch)
      modifies this`applications, this`editingId
      ensures patch == StatusPatch(id, newStatus)
      ensures reply.Rejected? ==> applications == old(applications) && editingId == old(editingId)
      ensures reply.Written? ==> applications == WithStatus(old(applications), id, newStatus) && editingId == None
    {
      patch := StatusPatch(id, newStatus);
      if reply.Written? {
        applications := WithStatus(applications, id, newStatus);
        editingId := None;
      }
    }
  }
}
