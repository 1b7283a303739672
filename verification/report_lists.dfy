/**
 * The two pages that list a user's past uploads: the report history (which
 * keeps completed uploads, cleans their artifact URLs and numbers them) and
 * the reports page (which keeps uploads with results and strips the base
 * from their URLs before opening the results page).
 */
module ReportLists {
  import opened Wrappers
  import opened Strings
  import opened JsonValues
  import opened Sorting
  import opened ArtifactUrls
  import opened UploadSerializer
  import opened ResultsView

  /** The reply to `GET /api/reports/<uid>/`; `Body(None)` is a falsy body (`null`, `''`). */
  datatype FetchReply =
    | Body(data: Option<seq<Report>>)
    | FetchFailed(serverError: Option<string>)

  /** The toast both pages show when loading fails. */
  const LoadFailedToast: string := "Failed to load reports"

  /** The reports page's error text when the server sent none. */
  const DefaultLoadError: string := "Failed to load reports. Please try again later."

  /** The exception raised when a report's `results` is `null` and a page reads an entry of it. */
  const NullResultsError: string := "TypeError: Cannot read properties of null"

  /** The sort key of `new Date(created_at)`. */
  function ReportCreatedAt(r: Report): int { r.createdAt }

  // ----- Report history -----

  /** The history keeps a report when `report.results && report.status === 'complete'`. */
  predicate IsCompleted(r: Report) {
    r.results.Some? && r.status == "complete"
  }

  /** The history's rewrite of one report: both artifact entries replaced by their cleaned URL. */
  function CleanReport(r: Report): (c: Result<Report, string>)
    ensures r.results.None? ==> c.Err?
    ensures r.results.Some? ==>
      var m := r.results.value;
      (c.Ok? <==> CleanUrlValue(Lookup(m, "static_image")).Ok? && CleanUrlValue(Lookup(m, "gif")).Ok?)
    ensures c.Ok? ==> c.value == r.(results := Some(r.results.value
        ["static_image" := JStr(CleanUrlValue(Lookup(r.results.value, "static_image")).value)]
        ["gif" := JStr(CleanUrlValue(Lookup(r.results.value, "gif")).value)]))
  {
    match r.results
    case None => Err(NullResultsError)
    case Some(m) =>
      match CleanUrlValue(Lookup(m, "static_image"))
      case Err(e) => Err(e)
      case Ok(still) =>
        match CleanUrlValue(Lookup(m, "gif"))
        case Err(e) => Err(e)
        case Ok(anim) => Ok(r.(results := Some(m["static_image" := JStr(still)]["gif" := JStr(anim)])))
  }

  /** `.map(...)` over the kept reports; a throwing element aborts the whole load. */
  function CleanAll(s: seq<Report>): (r: Result<seq<Report>, string>)
    ensures r.Ok? <==> forall i :: 0 <= i < |s| ==> CleanReport(s[i]).Ok?
    ensures r.Ok? ==> |r.value| == |s| && forall i :: 0 <= i < |s| ==> r.value[i] == CleanReport(s[i]).value
  {
    if s == [] then Ok([])
    else
      match CleanReport(s[0])
      case Err(e) => Err(e)
      case Ok(first) =>
        match CleanAll(s[1..])
        case Err(e) => Err(e)
        case Ok(rest) =>
          assert forall i :: 1 <= i < |s| ==> s[i] == s[1..][i - 1];
          Ok([first] + rest)
  }

  /** The list the history shows for a response body: filter, clean, newest first. */
  function HistoryList(data: seq<Report>): Result<seq<Report>, string> {
    match CleanAll(Filter(data, IsCompleted))
    case Err(e) => Err(e)
    case Ok(cleaned) => Ok(SortDesc(cleaned, ReportCreatedAt))
  }

  /** The history list fails exactly when some completed report cannot be cleaned. */
  lemma HistoryListFails(data: seq<Report>)
    ensures HistoryList(data).Err? <==> exists r :: r in data && IsCompleted(r) && CleanReport(r).Err?
  {
    var kept := Filter(data, IsCompleted);
    if CleanAll(kept).Err? {
      var i :| 0 <= i < |kept| && CleanReport(kept[i]).Err?;
      assert kept[i] in kept;
    } else {
      forall r | r in data && IsCompleted(r) ensures CleanReport(r).Ok? {
        var i :| 0 <= i < |kept| && kept[i] == r;
      }
    }
  }

  /** Every completed report is cleaned and listed. */
  lemma HistoryListHoldsEach(data: seq<Report>)
    requires HistoryList(data).Ok?
    ensures forall r :: r in data && IsCompleted(r) ==> CleanReport(r).Ok? && CleanReport(r).value in HistoryList(data).value
  {
    var kept := Filter(data, IsCompleted);
    var c := CleanAll(kept).value;
    SortDescMembers(c, ReportCreatedAt);
    forall r | r in data && IsCompleted(r) ensures CleanReport(r).Ok? && CleanReport(r).value in HistoryList(data).value {
      var i :| 0 <= i < |kept| && kept[i] == r;
      assert c[i] == CleanReport(r).value && c[i] in c;
    }
  }

  /** Every listed report is the cleaned copy of a completed report, and has the clean shape. */
  lemma HistoryListHoldsOnly(data: seq<Report>)
    requires HistoryList(data).Ok?
    ensures forall x :: x in HistoryList(data).value ==>
      (exists r :: r in data && IsCompleted(r) && CleanReport(r) == Ok(x)) &&
      x.status == "complete" && x.results.Some? &&
      CleanShape(x.results.value["static_image"]) && CleanShape(x.results.value["gif"])
  {
    var kept := Filter(data, IsCompleted);
    var c := CleanAll(kept).value;
    SortDescMembers(c, ReportCreatedAt);
    forall x | x in HistoryList(data).value
      ensures (exists r :: r in data && IsCompleted(r) && CleanReport(r) == Ok(x)) &&
        x.status == "complete" && x.results.Some? &&
        CleanShape(x.results.value["static_image"]) && CleanShape(x.results.value["gif"])
    {
      var i :| 0 <= i < |c| && c[i] == x;
      assert kept[i] in kept;
      CleanReportShape(kept[i]);
    }
  }

  /**
   * A history list that loads is newest first, holds one cleaned copy of
   * each completed report and nothing else, and every artifact URL in it
   * is empty or absolute on the base.
   */
  lemma HistoryListContents(data: seq<Report>)
    requires HistoryList(data).Ok?
    ensures var out := HistoryList(data).value;
      && SortedDesc(out, ReportCreatedAt)
      && |out| == |Filter(data, IsCompleted)|
      && (forall r :: r in data && IsCompleted(r) ==> CleanReport(r).Ok? && CleanReport(r).value in out)
      && (forall x :: x in out ==> exists r :: r in data && IsCompleted(r) && CleanReport(r) == Ok(x))
      && (forall x :: x in out ==>
            (x.status == "complete" && x.results.Some? &&
             CleanShape(x.results.value["static_image"]) && CleanShape(x.results.value["gif"])))
  {
    HistoryListHoldsEach(data);
    HistoryListHoldsOnly(data);
  }

  /**
   * The history list fails exactly when a completed report has an
   * artifact entry that cannot be cleaned; otherwise it is newest first,
   * holds one cleaned copy of each completed report and nothing else, and
   * every artifact URL in it is empty or absolute on the base.
   */
  lemma HistoryListSpec(data: seq<Report>)
    ensures HistoryList(data).Err? <==> exists r :: r in data && IsCompleted(r) && CleanReport(r).Err?
    ensures HistoryList(data).Ok? ==>
      var out := HistoryList(data).value;
      && SortedDesc(out, ReportCreatedAt)
      && |out| == |Filter(data, IsCompleted)|
      && (forall r :: r in data && IsCompleted(r) ==> CleanReport(r).Ok? && CleanReport(r).value in out)
      && (forall x :: x in out ==> exists r :: r in data && IsCompleted(r) && CleanReport(r) == Ok(x))
      && (forall x :: x in out ==>
            (x.status == "complete" && x.results.Some? &&
             CleanShape(x.results.value["static_image"]) && CleanShape(x.results.value["gif"])))
  {
    HistoryListFails(data);
    if HistoryList(data).Ok? {
      HistoryListContents(data);
    }
  }

  /** A cleaned artifact entry: a string that is empty or starts with the base. */
  predicate CleanShape(v: Json) {
    v.JStr? && (v.s == "" || StartsWith(v.s, Base))
  }

  /** A cleaned completed report is still complete, and both its artifact entries are clean. */
  lemma CleanReportShape(r: Report)
    requires IsCompleted(r) && CleanReport(r).Ok?
    ensures var x := CleanReport(r).value;
      x.status == "complete" && x.results.Some? &&
      CleanShape(x.results.value["static_image"]) && CleanShape(x.results.value["gif"])
  {
    var m := r.results.value;
    CleanUrlStartsWithBase(Lookup(m, "static_image"));
    CleanUrlStartsWithBase(Lookup(m, "gif"));
  }

  /** A cleaned entry, cleaned again, is unchanged. */
  lemma CleanValueFixed(v: Option<Json>)
    requires CleanUrlValue(v).Ok?
    ensures CleanUrlValue(Some(JStr(CleanUrlValue(v).value))) == CleanUrlValue(v)
  {
    var u := CleanUrlValue(v).value;
    if u != "" {
      assert v.Some? && v.value.JStr? && u == GetCleanUrl(v.value.s);
      GetCleanUrlIdempotent(v.value.s);
    }
  }

  /** Cleaning a cleaned report again changes nothing. */
  lemma CleanReportIdempotent(r: Report)
    requires CleanReport(r).Ok?
    ensures CleanReport(CleanReport(r).value) == CleanReport(r)
  {
    var m := r.results.value;
    var still := CleanUrlValue(Lookup(m, "static_image")).value;
    var anim := CleanUrlValue(Lookup(m, "gif")).value;
    CleanValueFixed(Lookup(m, "static_image"));
    CleanValueFixed(Lookup(m, "gif"));
    var m2 := m["static_image" := JStr(still)]["gif" := JStr(anim)];
    assert CleanReport(r).value == r.(results := Some(m2));
    assert Lookup(m2, "static_image") == Some(JStr(still));
    assert Lookup(m2, "gif") == Some(JStr(anim));
    assert m2["static_image" := JStr(still)]["gif" := JStr(anim)] == m2;
  }

  /** The badges `#{reports.length - index}`: the newest report is numbered highest, the oldest 1. */
  function Labels(n: nat): (r: seq<int>)
    ensures |r| == n
    ensures forall i :: 0 <= i < n ==> 1 <= r[i] <= n
    ensures forall i, j :: 0 <= i < j < n ==> r[i] > r[j]
    ensures n > 0 ==> r[0] == n && r[n - 1] == 1
  {
    seq(n, i => n - i)
  }

  /** The history page after a load; `requested` and `toast` record what that load did. */
  datatype HistoryView = HistoryView(reports: seq<Report>, loading: bool, requested: bool, toast: Option<string>)

  /**
   * The history's load effect: with no signed-in uid it requests nothing
   * and only stops loading; otherwise it shows the history list, or keeps
   * the previous list and raises the failure toast.
   */
  function LoadHistory(prev: seq<Report>, uid: Option<string>, reply: FetchReply): (v: HistoryView)
    ensures !v.loading
    ensures v.requested <==> uid.Some? && uid.value != ""
    ensures !v.requested ==> v.reports == prev && v.toast.None?
    ensures v.requested ==>
      (v.toast.None? <==> reply.Body? && reply.data.Some? && HistoryList(reply.data.value).Ok?)
    ensures v.requested && v.toast.None? ==> v.reports == HistoryList(reply.data.value).value
    ensures v.toast.Some? ==> v.reports == prev && v.toast.value == LoadFailedToast
  {
    if uid.None? || uid.value == "" then HistoryView(prev, false, false, None)
    else
      match reply
      case FetchFailed(_) => HistoryView(prev, false, true, Some(LoadFailedToast))
      case Body(None) => HistoryView(prev, false, true, Some(LoadFailedToast))
      case Body(Some(data)) =>
        match HistoryList(data)
        case Err(_) => HistoryView(prev, false, true, Some(LoadFailedToast))
        case Ok(list) => HistoryView(list, false, true, None)
  }

  /** "View Report" in the history: the report's results, without `isNewUpload`. */
  function ViewFromHistory(r: Report): NavState {
    NavState(r.results, None)
  }

  /** Opening a history entry shows its results and never announces a new upload. */
  lemma ViewFromHistoryShowsQuietly(data: seq<Report>, x: Report)
    requires HistoryList(data).Ok? && x in HistoryList(data).value
    ensures x.results.Some? && OnMount(Some(ViewFromHistory(x))) == Show(x.results.value, None)
  {
    HistoryListSpec(data);
  }

  // ----- Reports page -----

  /** The reports page keeps a report when `report.results` is truthy. */
  predicate HasResults(r: Report) { r.results.Some? }

  /** The list the reports page shows for a response body: uploads with results, newest first. */
  function ReportsList(data: seq<Report>): (out: seq<Report>)
    ensures SortedDesc(out, ReportCreatedAt)
    ensures forall x :: x in out <==> x in data && x.results.Some?
    ensures multiset(out) == multiset(Filter(data, HasResults))
  {
    var kept := Filter(data, HasResults);
    SortDescMembers(kept, ReportCreatedAt);
    SortDesc(kept, ReportCreatedAt)
  }

  /** The reports page after a load; `requested` and `toast` record what that load did. */
  datatype ReportsView = ReportsView(reports: seq<Report>, loading: bool, error: Option<string>, requested: bool, toast: Option<string>)

  /**
   * The reports page's load effect: with no signed-in uid nothing is
   * requested; an empty body is treated as a failure; a failure shows the
   * server's `error` text when it sent one and the default text otherwise.
   */
  function LoadReports(prev: ReportsView, uid: Option<string>, reply: FetchReply): (v: ReportsView)
    ensures !v.loading
    ensures v.requested <==> uid.Some? && uid.value != ""
    ensures !v.requested ==> v == prev.(loading := false, requested := false, toast := None)
    ensures v.requested ==> (v.error.None? <==> reply.Body? && reply.data.Some?)
    ensures v.requested && v.error.None? ==> v.reports == ReportsList(reply.data.value) && v.toast.None?
    ensures v.requested && reply == Body(None) ==> v.error == Some(DefaultLoadError)
    ensures v.requested && reply.FetchFailed? ==>
      v.error == Some(if reply.serverError.Some? && reply.serverError.value != "" then reply.serverError.value else DefaultLoadError)
    ensures v.requested && v.error.Some? ==> v.reports == prev.reports && v.toast == Some(LoadFailedToast)
  {
    if uid.None? || uid.value == "" then prev.(loading := false, requested := false, toast := None)
    else
      match reply
      case Body(None) => ReportsView(prev.reports, false, Some(DefaultLoadError), true, Some(LoadFailedToast))
      case FetchFailed(server) =>
        var message := if server.Some? && server.value != "" then server.value else DefaultLoadError;
        ReportsView(prev.reports, false, Some(message), true, Some(LoadFailedToast))
      case Body(Some(data)) => ReportsView(ReportsList(data), false, None, true, None)
  }

  /**
   * `handleViewResults`: the results with the first copy of the base cut
   * out of both artifact URLs, opened as an old upload.
   */
  function HandleViewResults(r: Report): (nav: Result<NavState, string>)
    ensures nav.Ok? <==>
      (r.results.Some? &&
       StripBaseValue(Lookup(r.results.value, "static_image")).Ok? && StripBaseValue(Lookup(r.results.value, "gif")).Ok?)
    ensures nav.Ok? ==> nav.value.isNewUpload == Some(false)
    ensures nav.Ok? ==> nav.value.results == Some(r.results.value
      ["static_image" := JStr(StripBase(r.results.value["static_image"].s))]
      ["gif" := JStr(StripBase(r.results.value["gif"].s))])
  {
    match r.results
    case None => Err(NullResultsError)
    case Some(m) =>
      match StripBaseValue(Lookup(m, "static_image"))
      case Err(e) => Err(e)
      case Ok(still) =>
        match StripBaseValue(Lookup(m, "gif"))
        case Err(e) => Err(e)
        case Ok(anim) => Ok(NavState(Some(m["static_image" := JStr(still)]["gif" := JStr(anim)]), Some(false)))
  }

  /** Opening a report from the reports page shows its results and never announces a new upload. */
  lemma HandleViewResultsShowsQuietly(r: Report)
    requires HandleViewResults(r).Ok?
    ensures OnMount(Some(HandleViewResults(r).value)).Show?
    ensures OnMount(Some(HandleViewResults(r).value)).toast.None?
  {
  }
}
