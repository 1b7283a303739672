/**
 * The three API views of the backend: `upload_file`, which validates a
 * four-file upload, stores one row per file and queues one processing
 * task; `processing_status`, which reports on one row; and
 * `get_user_reports`, which lists the latest completed row of each of a
 * user's batches. The database is the `rows` sequence of a `Server`
 * object; the queue is its `queue` sequence.
 */
module UploadApi {
  import opened Wrappers
  import opened Strings
  import opened JsonValues
  import opened Sorting
  import opened UploadModels
  import opened UploadSerializer

  /** `file_types`: the modality stored with the i-th received file. */
  const FileTypes: seq<string> := ["T1", "T1c", "T2", "FLAIR"]

  /** Where stored files live and where the results directory is, relative to the media root. */
  const UploadDir: string := "uploads/"
  const ResultsDir: string := "results"

  const StatusUrlPrefix: string := "/api/status/"

  /** A received file: only its name matters to the views. */
  datatype UploadedFile = UploadedFile(name: string)

  /** A queued processing task: the stored paths, the row it reports on, the output directory. */
  datatype Task = Task(filePaths: seq<string>, uploadId: nat, outputDir: string)

  /** A view's response. */
  datatype ApiReply =
    | Accepted(message: string, statusUrl: string)
    | Failure(code: nat, message: string)
    | StatusBody(status: string, result: Option<JsonObject>, error: Option<string>)
    | ReportBody(reports: seq<Report>)

  /** The HTTP status code of a response. */
  function Code(r: ApiReply): nat {
    match r
    case Accepted(_, _) => 202
    case Failure(code, _) => code
    case _ => 200
  }

  /** A request field that is present and not empty. */
  predicate Present(v: Option<string>) {
    v.Some? && v.value != ""
  }

  // ----- upload_file -----

  /** The names of the missing fields, in the order `files`, `user_id`, `email`; an empty file list is missing. */
  function MissingFields(files: seq<UploadedFile>, userId: Option<string>, email: Option<string>): (m: seq<string>)
    ensures "files" in m <==> |files| == 0
    ensures "user_id" in m <==> !Present(userId)
    ensures "email" in m <==> !Present(email)
    ensures |m| <= 3 && forall x :: x in m ==> x in ["files", "user_id", "email"]
    ensures forall i, j :: 0 <= i < j < |m| ==>
      (m[i] == "files" && m[j] != "files") || (m[i] == "user_id" && m[j] == "email")
  {
    (if |files| == 0 then ["files"] else []) +
    (if !Present(userId) then ["user_id"] else []) +
    (if !Present(email) then ["email"] else [])
  }

  /** The two checks of `upload_file`, missing fields first, then the file count. */
  function CheckUpload(files: seq<UploadedFile>, userId: Option<string>, email: Option<string>): (r: Result<(), ApiReply>)
    ensures r.Ok? <==> |files| == |FileTypes| && Present(userId) && Present(email)
    ensures r.Err? ==> Code(r.error) == 400
    ensures |MissingFields(files, userId, email)| > 0 ==>
      r == Err(Failure(400, "Missing required fields: " + Join(MissingFields(files, userId, email), ", ")))
    ensures |MissingFields(files, userId, email)| == 0 && |files| != 4 ==>
      r == Err(Failure(400, "Expected 4 files, got " + NatToString(|files|)))
  {
    var missing := MissingFields(files, userId, email);
    if |missing| > 0 then Err(Failure(400, "Missing required fields: " + Join(missing, ", ")))
    else if |files| != |FileTypes| then Err(Failure(400, "Expected 4 files, got " + NatToString(|files|)))
    else Ok(())
  }

  /**
   * The rows one accepted upload inserts: consecutive ids, one modality
   * each, one batch. `times[i]` is the clock reading `auto_now_add` stores
   * with the i-th `objects.create`.
   */
  function BatchRows(files: seq<UploadedFile>, batchId: string, userId: string, email: string, times: seq<int>,
                     firstId: nat): (rs: seq<Row>)
    requires |files| == |FileTypes| && |times| == |FileTypes|
    ensures |rs| == |FileTypes|
    ensures forall i :: 0 <= i < |rs| ==>
      rs[i].id == firstId + i && rs[i].fileType == Some(FileTypes[i]) && rs[i].batchId == batchId &&
      rs[i].userId == userId && rs[i].email == email && rs[i].niftiFile == UploadDir + files[i].name &&
      rs[i].createdAt == times[i] && rs[i].status == DefaultStatus && rs[i].results.None?
  {
    seq(|FileTypes|, i requires 0 <= i < |FileTypes| =>
      NewRow(firstId + i, batchId, userId, email, UploadDir + files[i].name, FileTypes[i], times[i]))
  }

  /** Clock readings taken one after another: each later than the one before. */
  predicate Increasing(times: seq<int>) {
    forall i, j :: 0 <= i < j < |times| ==> times[i] < times[j]
  }

  /** The stored paths of a batch's rows, in modality order. */
  function Paths(rs: seq<Row>): (ps: seq<string>)
    ensures |ps| == |rs| && forall i :: 0 <= i < |rs| ==> ps[i] == rs[i].niftiFile
  {
    seq(|rs|, i requires 0 <= i < |rs| => rs[i].niftiFile)
  }

  /** The `status_url` of an accepted upload. */
  function StatusUrl(id: nat): (u: string)
    ensures StartsWith(u, StatusUrlPrefix) && EndsWith(u, "/")
  {
    StatusUrlPrefix + NatToString(id) + "/"
  }

  /** The status URL carries the row id: reading the digits back gives it. */
  lemma StatusUrlRoundTrip(id: nat)
    ensures var u := StatusUrl(id);
      |u| > |StatusUrlPrefix| + 1 && u[..|StatusUrlPrefix|] == StatusUrlPrefix && u[|u| - 1] == '/' &&
      AllDigits(u[|StatusUrlPrefix|..|u| - 1]) && ParseNat(u[|StatusUrlPrefix|..|u| - 1]) == id
  {
    var u := StatusUrl(id);
    assert u[|StatusUrlPrefix|..|u| - 1] == NatToString(id);
    ParseNatToString(id);
  }

  /** The rows without the one whose id is `id` (`upload.delete()`). */
  function RemoveId(rows: seq<Row>, id: nat): (r: seq<Row>)
    ensures forall x :: x in r <==> x in rows && x.id != id
  {
    if rows == [] then []
    else
      assert forall x :: x in rows <==> x == rows[0] || x in rows[1..];
      (if rows[0].id == id then [] else [rows[0]]) + RemoveId(rows[1..], id)
  }

  /** Deleting the first of the appended rows leaves the earlier rows and the rest of the appended ones. */
  lemma {:induction false} RemoveAppendedHead(pre: seq<Row>, suf: seq<Row>)
    requires |suf| > 0
    requires forall x :: x in pre ==> x.id != suf[0].id
    requires forall x :: x in suf[1..] ==> x.id != suf[0].id
    ensures RemoveId(pre + suf, suf[0].id) == pre + suf[1..]
    decreases |pre|
  {
    if pre == [] {
      assert pre + suf == suf;
      assert RemoveId(suf, suf[0].id) == RemoveId(suf[1..], suf[0].id);
      KeepAll(suf[1..], suf[0].id);
    } else {
      assert (pre + suf)[1..] == pre[1..] + suf;
      RemoveAppendedHead(pre[1..], suf);
    }
  }

  /** Deleting an id no row has changes nothing. */
  lemma {:induction false} KeepAll(rows: seq<Row>, id: nat)
    requires forall x :: x in rows ==> x.id != id
    ensures RemoveId(rows, id) == rows
    decreases |rows|
  {
    if rows != [] {
      KeepAll(rows[1..], id);
    }
  }

  // ----- processing_status -----

  /** The first row with id `id`. */
  function FindRow(rows: seq<Row>, id: nat): (r: Option<Row>)
    ensures r.Some? ==> r.value in rows && r.value.id == id
    ensures r.None? ==> forall x :: x in rows ==> x.id != id
  {
    if rows == [] then None
    else if rows[0].id == id then Some(rows[0])
    else FindRow(rows[1..], id)
  }

  // ----- get_user_reports -----

  /** The rows the report queries consider: the user's, with non-NULL results, complete. */
  predicate Qualifies(r: Row, userId: string) {
    r.userId == userId && r.results.Some? && r.status == "complete"
  }

  function Qualifying(rows: seq<Row>, userId: string): (q: seq<Row>)
    ensures forall x :: x in q <==> x in rows && Qualifies(x, userId)
  {
    Filter(rows, (r: Row) => Qualifies(r, userId))
  }

  /** The distinct batch ids of `q`, in the order they first appear. */
  function BatchIds(q: seq<Row>): (ids: seq<string>)
    ensures forall b :: b in ids ==> exists x :: x in q && x.batchId == b
    ensures forall x :: x in q ==> x.batchId in ids
    ensures forall b :: multiset(ids)[b] <= 1
  {
    if q == [] then []
    else
      var rest := BatchIds(q[..|q| - 1]);
      var b := q[|q| - 1].batchId;
      assert forall x :: x in q ==> x in q[..|q| - 1] || x == q[|q| - 1];
      assert forall x :: x in q[..|q| - 1] ==> x in q;
      if b in rest then rest else rest + [b]
  }

  /** The rows of one batch. */
  function InBatch(q: seq<Row>, b: string): (r: seq<Row>)
    ensures forall x :: x in r <==> x in q && x.batchId == b
  {
    Filter(q, (x: Row) => x.batchId == b)
  }

  /** `order_by('-created_at').first()`: a row with the largest creation time (the earliest such in `rs`). */
  function Latest(rs: seq<Row>): (l: Row)
    requires |rs| > 0
    ensures l in rs
    ensures forall x :: x in rs ==> x.createdAt <= l.createdAt
  {
    if |rs| == 1 then rs[0]
    else
      var tail := Latest(rs[1..]);
      assert forall x :: x in rs ==> x == rs[0] || x in rs[1..];
      if rs[0].createdAt >= tail.createdAt then rs[0] else tail
  }

  /** `Max('created_at')` of a batch. */
  function BatchKey(q: seq<Row>, b: string): int {
    var inBatch := InBatch(q, b);
    if |inBatch| == 0 then 0 else Latest(inBatch).createdAt
  }

  /** The annotation as a sort key. */
  function BatchKeyOf(q: seq<Row>): string -> int {
    b => BatchKey(q, b)
  }

  /** `values('batch_id').annotate(latest_created=Max('created_at')).order_by('-latest_created')`. */
  function UniqueBatches(q: seq<Row>): (bs: seq<string>)
    ensures SortedDesc(bs, BatchKeyOf(q))
    ensures multiset(bs) == multiset(BatchIds(q))
    ensures forall b :: b in bs ==> |InBatch(q, b)| > 0
  {
    var ids := BatchIds(q);
    var bs := SortDesc(ids, BatchKeyOf(q));
    SortDescMembers(ids, BatchKeyOf(q));
    forall b | b in bs ensures |InBatch(q, b)| > 0 {
      var x :| x in q && x.batchId == b;
      assert x in InBatch(q, b);
    }
    bs
  }

  /** The kept reports for the batches `bs`: the latest row of each, when its results are truthy. */
  function Select(q: seq<Row>, bs: seq<string>): seq<Row>
    requires forall b :: b in bs ==> |InBatch(q, b)| > 0
  {
    if bs == [] then []
    else
      var earlier := Select(q, bs[..|bs| - 1]);
      var latest := Latest(InBatch(q, bs[|bs| - 1]));
      if ResultsTruthy(latest.results) then earlier + [latest] else earlier
  }

  /** The rows `get_user_reports` serializes. */
  function ReportRows(rows: seq<Row>, userId: string): seq<Row> {
    var q := Qualifying(rows, userId);
    Select(q, UniqueBatches(q))
  }

  /** The response of `get_user_reports`: the serialized rows, or a 500 when serializing raises. */
  function UserReportsReply(rows: seq<Row>, userId: string): ApiReply {
    match RepresentAll(ReportRows(rows, userId))
    case Err(e) => Failure(500, e)
    case Ok(list) => ReportBody(list)
  }

  /** No repeated entries, counted through the multiset. */
  ghost predicate NoRepeats(bs: seq<string>) {
    forall b :: multiset(bs)[b] <= 1
  }

  /** What `Select` keeps: the latest row of a listed batch, exactly when its results are truthy. */
  lemma {:induction false} SelectMembers(q: seq<Row>, bs: seq<string>)
    requires forall b :: b in bs ==> |InBatch(q, b)| > 0
    ensures forall r :: r in Select(q, bs) ==>
      r in q && r.batchId in bs && r == Latest(InBatch(q, r.batchId)) && ResultsTruthy(r.results)
    ensures forall b :: b in bs && ResultsTruthy(Latest(InBatch(q, b)).results) ==> Latest(InBatch(q, b)) in Select(q, bs)
    decreases |bs|
  {
    if bs != [] {
      var n := |bs| - 1;
      var front := bs[..n];
      assert forall b :: b in bs <==> b in front || b == bs[n];
      SelectMembers(q, front);
    }
  }

  /** One more batch: `Select` over a longer prefix appends at most the latest row of the new batch. */
  lemma SelectStep(q: seq<Row>, bs: seq<string>, i: nat)
    requires forall b :: b in bs ==> |InBatch(q, b)| > 0
    requires i < |bs|
    ensures forall b :: b in bs[..i] ==> |InBatch(q, b)| > 0
    ensures Select(q, bs[..i + 1]) ==
      var latest := Latest(InBatch(q, bs[i]));
      Select(q, bs[..i]) + (if ResultsTruthy(latest.results) then [latest] else [])
  {
    var longer := bs[..i + 1];
    assert forall b :: b in longer ==> b in bs;
    assert forall b :: b in bs[..i] ==> b in bs;
    assert longer[..|longer| - 1] == bs[..i] && longer[|longer| - 1] == bs[i];
  }

  /** `bs[i]` does not occur before position `i` in a list without repeats. */
  lemma NotBefore(bs: seq<string>, i: nat)
    requires NoRepeats(bs) && i < |bs|
    ensures bs[i] !in bs[..i]
  {
    assert bs == bs[..i] + [bs[i]] + bs[i + 1..];
    assert multiset(bs)[bs[i]] >= multiset(bs[..i])[bs[i]] + 1;
  }

  /** A list without repeats has different entries at different positions. */
  lemma NoRepeatsDistinct(bs: seq<string>)
    requires NoRepeats(bs)
    ensures forall j, k :: 0 <= j < k < |bs| ==> bs[j] != bs[k]
  {
    forall j, k | 0 <= j < k < |bs| ensures bs[j] != bs[k] {
      NotBefore(bs, k);
      assert bs[j] in bs[..k];
    }
  }

  /** A prefix of a list without repeats has none. */
  lemma PrefixNoRepeats(bs: seq<string>, n: nat)
    requires NoRepeats(bs) && n <= |bs|
    ensures NoRepeats(bs[..n])
  {
    assert bs == bs[..n] + bs[n..];
    forall b ensures multiset(bs[..n])[b] <= 1 {
      assert multiset(bs)[b] == multiset(bs[..n])[b] + multiset(bs[n..])[b];
    }
  }

  /** Every row `Select` keeps belongs to one of the batches `bs`. */
  lemma {:induction false} SelectInBatches(q: seq<Row>, bs: seq<string>)
    requires forall b :: b in bs ==> |InBatch(q, b)| > 0
    ensures forall r :: r in Select(q, bs) ==> r.batchId in bs
    decreases |bs|
  {
    if bs != [] {
      var n := |bs| - 1;
      var front := bs[..n];
      assert forall b :: b in front ==> b in bs;
      SelectInBatches(q, front);
      assert bs[n] in bs;
      var latest := Latest(InBatch(q, bs[n]));
      assert latest.batchId == bs[n];
      assert Select(q, bs) == Select(q, front) + (if ResultsTruthy(latest.results) then [latest] else []);
    }
  }

  /** Over batches without repeats, `Select` keeps at most one row per batch. */
  lemma {:induction false} SelectOnePerBatch(q: seq<Row>, bs: seq<string>)
    requires forall b :: b in bs ==> |InBatch(q, b)| > 0
    requires NoRepeats(bs)
    ensures forall i, j :: 0 <= i < j < |Select(q, bs)| ==> Select(q, bs)[i].batchId != Select(q, bs)[j].batchId
    decreases |bs|
  {
    if bs != [] {
      var n := |bs| - 1;
      var front := bs[..n];
      assert forall b :: b in front ==> b in bs;
      PrefixNoRepeats(bs, n);
      SelectOnePerBatch(q, front);
      SelectInBatches(q, front);
      NotBefore(bs, n);
      var earlier := Select(q, front);
      var latest := Latest(InBatch(q, bs[n]));
      assert latest.batchId == bs[n];
      var tail: seq<Row> := if ResultsTruthy(latest.results) then [latest] else [];
      assert Select(q, bs) == earlier + tail;
      forall i, j | 0 <= i < j < |earlier + tail|
        ensures (earlier + tail)[i].batchId != (earlier + tail)[j].batchId
      {
        if j >= |earlier| {
          assert (earlier + tail)[i] == earlier[i] && earlier[i] in earlier;
          assert (earlier + tail)[j] == latest;
        } else {
          assert (earlier + tail)[i] == earlier[i] && (earlier + tail)[j] == earlier[j];
        }
      }
    }
  }

  /** Every row `Select` keeps is at least as new as the least batch key among `bs`. */
  lemma {:induction false} SelectKeysAtLeast(q: seq<Row>, bs: seq<string>, k: int)
    requires forall b :: b in bs ==> |InBatch(q, b)| > 0 && BatchKey(q, b) >= k
    ensures forall r :: r in Select(q, bs) ==> r.createdAt >= k
    decreases |bs|
  {
    if bs != [] {
      var n := |bs| - 1;
      var front := bs[..n];
      assert forall b :: b in front ==> b in bs;
      SelectKeysAtLeast(q, front, k);
      assert bs[n] in bs;
      var latest := Latest(InBatch(q, bs[n]));
      assert latest.createdAt == BatchKey(q, bs[n]);
      assert Select(q, bs) == Select(q, front) + (if ResultsTruthy(latest.results) then [latest] else []);
    }
  }

  /** Over batches ordered by their latest creation time, `Select` is newest first. */
  lemma {:induction false} SelectNewestFirst(q: seq<Row>, bs: seq<string>)
    requires forall b :: b in bs ==> |InBatch(q, b)| > 0
    requires SortedDesc(bs, BatchKeyOf(q))
    ensures SortedDesc(Select(q, bs), CreatedAt)
    decreases |bs|
  {
    if bs != [] {
      var n := |bs| - 1;
      var front := bs[..n];
      var key := BatchKey(q, bs[n]);
      forall b | b in front ensures b in bs && BatchKey(q, b) >= key {
        var i :| 0 <= i < n && front[i] == b;
        assert BatchKeyOf(q)(bs[i]) >= BatchKeyOf(q)(bs[n]);
      }
      assert SortedDesc(front, BatchKeyOf(q)) by {
        forall i, j | 0 <= i < j < |front| ensures BatchKeyOf(q)(front[i]) >= BatchKeyOf(q)(front[j]) {
          assert front[i] == bs[i] && front[j] == bs[j];
        }
      }
      SelectNewestFirst(q, front);
      SelectKeysAtLeast(q, front, key);
      var latest := Latest(InBatch(q, bs[n]));
      if ResultsTruthy(latest.results) {
        AppendSorted(Select(q, front), latest, CreatedAt);
      }
    }
  }

  /**
   * `get_user_reports` lists, newest first and one per batch, the latest
   * qualifying row of each of the user's batches, and keeps a batch exactly
   * when that row's results are truthy.
   */
  lemma ReportRowsSpec(rows: seq<Row>, userId: string)
    ensures var rep := ReportRows(rows, userId);
      && (forall r :: r in rep ==> r in rows && Qualifies(r, userId) && ResultsTruthy(r.results))
      && (forall r, x :: r in rep && x in rows && Qualifies(x, userId) && x.batchId == r.batchId ==> x.createdAt <= r.createdAt)
      && (forall i, j :: 0 <= i < j < |rep| ==> rep[i].batchId != rep[j].batchId)
      && SortedDesc(rep, CreatedAt)
    ensures var q := Qualifying(rows, userId);
      forall x :: x in q ==>
        ((exists r :: r in ReportRows(rows, userId) && r.batchId == x.batchId) <==> ResultsTruthy(Latest(InBatch(q, x.batchId)).results))
  {
    var q := Qualifying(rows, userId);
    var bs := UniqueBatches(q);
    var rep := Select(q, bs);
    assert NoRepeats(bs);
    SelectMembers(q, bs);
    SelectOnePerBatch(q, bs);
    SelectNewestFirst(q, bs);
    forall r, x | r in rep && x in rows && Qualifies(x, userId) && x.batchId == r.batchId
      ensures x.createdAt <= r.createdAt
    {
      assert x in InBatch(q, r.batchId);
    }
    forall x | x in q
      ensures (exists r :: r in rep && r.batchId == x.batchId) <==> ResultsTruthy(Latest(InBatch(q, x.batchId)).results)
    {
      assert x.batchId in BatchIds(q);
      assert x.batchId in multiset(bs);
      var latest := Latest(InBatch(q, x.batchId));
      if ResultsTruthy(latest.results) {
        assert latest in rep && latest.batchId == x.batchId;
      }
    }
  }

  /**
   * Only the latest row of a batch is looked at: when the newest
   * qualifying row of a batch holds `{}`, nothing of that batch is
   * reported, whatever older rows of it hold.
   */
  lemma EmptyLatestHidesBatch(rows: seq<Row>, userId: string, newest: Row)
    requires newest in rows && Qualifies(newest, userId) && newest.results == Some(map[])
    requires forall x :: x in rows && Qualifies(x, userId) && x.batchId == newest.batchId && x != newest ==>
      x.createdAt < newest.createdAt
    ensures forall r :: r in ReportRows(rows, userId) ==> r.batchId != newest.batchId
  {
    ReportRowsSpec(rows, userId);
  }

  /** The backend's database, processing queue and id counter. */
  /** Row ids increase along the table and stay below the next id to hand out. */
  ghost predicate ValidRows(rows: seq<Row>, nextId: nat) {
    && (forall i :: 0 <= i < |rows| ==> rows[i].id < nextId)
    && (forall i, j :: 0 <= i < j < |rows| ==> rows[i].id < rows[j].id)
  }

  /** Appending a row with the next id keeps the ids valid. */
  lemma AppendRowValid(rows: seq<Row>, nextId: nat, row: Row)
    requires ValidRows(rows, nextId) && row.id == nextId
    ensures ValidRows(rows + [row], nextId + 1)
  {
    var r := rows + [row];
    forall i, j | 0 <= i < j < |r| ensures r[i].id < r[j].id {
      assert r[i] == rows[i];
      if j < |rows| { assert r[j] == rows[j]; }
    }
  }

  /** Handing out ids further up keeps the ids valid. */
  lemma RaiseIdsValid(rows: seq<Row>, nextId: nat, n: nat)
    requires ValidRows(rows, nextId) && nextId <= n
    ensures ValidRows(rows, n)
  {
  }

  class Server {
    var rows: seq<Row>
    var nextId: nat
    var queue: seq<Task>

    /** Ids are handed out in increasing order and never reused. */
    ghost predicate Valid()
      reads this
    {
      ValidRows(rows, nextId)
    }

    /** An empty database whose first row gets id 1. */
    constructor ()
      ensures Valid() && rows == [] && queue == [] && nextId == 1
    {
      rows := [];
      nextId := 1;
      queue := [];
    }

    /**
     * `upload_file`. The batch id and the four clock readings are parameters; `failure`,
     * when it names one of the four creations, makes that creation raise
     * with the given message.
     */
    method UploadFile(files: seq<UploadedFile>, userId: Option<string>, email: Option<string>,
                      batchId: string, times: seq<int>, failure: Option<(nat, string)>) returns (reply: ApiReply)
      requires Valid() && |times| == |FileTypes|
      modifies this
      ensures Valid()
      ensures CheckUpload(files, userId, email).Err? ==>
        reply == CheckUpload(files, userId, email).error &&
        rows == old(rows) && nextId == old(nextId) && queue == old(queue)
      ensures CheckUpload(files, userId, email).Ok? && failure.Some? && failure.value.0 < |FileTypes| ==>
        reply == Failure(500, "Processing failed: Error saving files: " + failure.value.1) &&
        rows == old(rows) && nextId == old(nextId) + failure.value.0 && queue == old(queue)
      ensures CheckUpload(files, userId, email).Ok? && !(failure.Some? && failure.value.0 < |FileTypes|) ==>
        var batch := BatchRows(files, batchId, userId.value, email.value, times, old(nextId));
        && rows == old(rows) + batch
        && nextId == old(nextId) + |FileTypes|
        && queue == old(queue) + [Task(Paths(batch), batch[0].id, ResultsDir)]
        && reply == Accepted("Processing started", StatusUrl(old(nextId)))
    {
      var check := CheckUpload(files, userId, email);
      if check.Err? {
        return check.error;
      }
      var created, paths, raised := CreateBatch(files, batchId, userId.value, email.value, times, failure);
      if raised {
        return Failure(500, "Processing failed: Error saving files: " + failure.value.1);
      }
      queue := queue + [Task(paths, created[0].id, ResultsDir)];
      reply := Accepted("Processing started", StatusUrl(created[0].id));
    }

    /**
     * The creation loop of `upload_file` with its rollback: one row per
     * file, or, when creation `failure.0` raises, no row of the batch left.
     */
    method CreateBatch(files: seq<UploadedFile>, batchId: string, userId: string, email: string, times: seq<int>,
                       failure: Option<(nat, string)>) returns (created: seq<Row>, paths: seq<string>, raised: bool)
      requires Valid() && |files| == |FileTypes| && |times| == |FileTypes|
      modifies this`rows, this`nextId
      ensures Valid()
      ensures raised <==> failure.Some? && failure.value.0 < |FileTypes|
      ensures raised ==> rows == old(rows) && nextId == old(nextId) + failure.value.0
      ensures !raised ==>
        && created == BatchRows(files, batchId, userId, email, times, old(nextId))
        && paths == Paths(created)
        && rows == old(rows) + created
        && nextId == old(nextId) + |FileTypes|
    {
      ghost var batch := BatchRows(files, batchId, userId, email, times, nextId);
      created, paths := [], [];
      var i := 0;
      while i < |FileTypes|
        invariant 0 <= i <= |FileTypes|
        invariant created == batch[..i]
        invariant paths == Paths(created)
        invariant rows == old(rows) + created
        invariant nextId == old(nextId) + i
        invariant failure.Some? && failure.value.0 < i ==> false
        invariant ValidRows(rows, nextId)
      {
        if failure.Some? && failure.value.0 == i {
          // The creation raised: delete every row created so far.
          DeleteCreated(old(rows), created, old(nextId));
          RaiseIdsValid(rows, old(nextId), nextId);
          return created, paths, true;
        }
        var row := NewRow(nextId, batchId, userId, email, UploadDir + files[i].name, FileTypes[i], times[i]);
        assert row == batch[i];
        AppendRowValid(rows, nextId, row);
        rows := rows + [row];
        created := created + [row];
        paths := paths + [row.niftiFile];
        nextId := nextId + 1;
        i := i + 1;
      }
      assert created == batch;
      raised := false;
    }

    /** The rollback `for upload in uploads: upload.delete()`, one row at a time. */
    method DeleteCreated(ghost pre: seq<Row>, created: seq<Row>, ghost firstId: nat)
      requires rows == pre + created
      requires forall x :: x in pre ==> x.id < firstId
      requires forall j :: 0 <= j < |created| ==> created[j].id == firstId + j
      modifies this`rows
      ensures rows == pre
    {
      var k := 0;
      while k < |created|
        invariant 0 <= k <= |created|
        invariant rows == pre + created[k..]
      {
        assert forall x :: x in created[k + 1..] ==> x.id > created[k].id by {
          forall x | x in created[k + 1..] ensures x.id > created[k].id {
            var j :| 0 <= j < |created[k + 1..]| && created[k + 1..][j] == x;
            assert x == created[k + 1 + j];
          }
        }
        assert created[k..][1..] == created[k + 1..];
        RemoveAppendedHead(pre, created[k..]);
        rows := RemoveId(rows, created[k].id);
        k := k + 1;
      }
      assert created[|created|..] == [];
    }

    /** `processing_status`: the row's status, results and error message, or a 404. */
    function ProcessingStatus(uploadId: nat): (r: ApiReply)
      reads this
      ensures r.Failure? <==> forall x :: x in rows ==> x.id != uploadId
      ensures r.Failure? ==> r == Failure(404, "Upload not found")
      ensures r.StatusBody? ==>
        exists x :: x in rows && x.id == uploadId && r == StatusBody(x.status, x.results, x.errorMessage)
    {
      match FindRow(rows, uploadId)
      case None => Failure(404, "Upload not found")
      case Some(x) => StatusBody(x.status, x.results, x.errorMessage)
    }

    /**
     * `get_user_reports`: walks the batches newest first, skipping a batch
     * already seen, and keeps the latest row of each when its results are
     * truthy.
     */
    method GetUserReports(userId: string) returns (reply: ApiReply)
      ensures reply == UserReportsReply(rows, userId)
    {
      var q := Qualifying(rows, userId);
      var batches := UniqueBatches(q);
      assert NoRepeats(batches) by {
        assert NoRepeats(BatchIds(q));
      }
      NoRepeatsDistinct(batches);
      var reports: seq<Row> := [];
      var seen: set<string> := {};
      assert batches[..0] == [];
      for i := 0 to |batches|
        invariant forall b :: b in batches[..i] ==> |InBatch(q, b)| > 0
        invariant reports == Select(q, batches[..i])
        invariant forall k :: i <= k < |batches| ==> batches[k] !in seen
      {
        var b := batches[i];
        SelectStep(q, batches, i);
        if b !in seen {
          var report := Latest(InBatch(q, b));
          if ResultsTruthy(report.results) {
            reports := reports + [report];
            seen := seen + {b};
          }
        }
      }
      assert batches[..|batches|] == batches;
      var serialized := RepresentAll(reports);
      match serialized {
        case Err(e) => reply := Failure(500, e);
        case Ok(list) => reply := ReportBody(list);
      }
    }
  }
}
