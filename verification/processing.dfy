/**
 * The processing run `process_brain_scans`: which row it reports on, the
 * progress it writes at each stage, what it stores on success and on
 * failure, and the frame order of the animation built by
 * `create_quick_visualization`. The numeric work itself (loading volumes,
 * normalising, inference, drawing) is not modelled: a stage either
 * finishes or raises, as a parameter says.
 */
module Processing {
  import opened Wrappers
  import opened Strings
  import opened JsonValues
  import opened Sorting
  import opened UploadModels

  const NotFoundMessage: string := "Upload object not found"

  /** The progress reports, in the order they are written. */
  const ProgressSteps: seq<(int, string)> := [
    (20, "Loading model"),
    (40, "Loading data"),
    (60, "Processing"),
    (80, "Running inference"),
    (90, "Creating visualizations")
  ]

  /** The stages that can raise: reading the scans, normalising, inference, drawing. */
  datatype Stage = ReadingScans | Normalizing | Inferring | Visualizing

  /** How many progress reports are written before a stage's work starts. */
  function ReportsBefore(s: Stage): (n: nat)
    ensures 2 <= n <= |ProgressSteps|
  {
    match s
    case ReadingScans => 2
    case Normalizing => 3
    case Inferring => 4
    case Visualizing => 5
  }

  /** The `results` object `update_progress` writes. */
  function ProgressResults(step: (int, string)): JsonObject {
    map["progress" := JNum(step.0), "status" := JStr(step.1), "processing_status" := JStr(step.1)]
  }

  /** `os.path.basename`: the text after the last `/`. */
  function Basename(p: string): (b: string)
    ensures '/' !in b
    ensures EndsWith(p, b)
  {
    match LastIndexOf(p, '/')
    case None => p
    case Some(i) =>
      assert p[|p| - |p[i + 1..]|..] == p[i + 1..];
      p[i + 1..]
  }

  /** The batch id survives the trip through the output directory: its base name is the id. */
  lemma BasenameOfJoin(dir: string, batchId: string)
    requires batchId != "" && '/' !in batchId
    ensures Basename(PathJoin(dir, batchId)) == batchId
  {
    var p := PathJoin(dir, batchId);
    assert !StartsWith(batchId, "/") by { assert batchId[0] != '/'; }
    if dir == "" || EndsWith(dir, "/") {
      assert p == dir + batchId;
      if dir != "" {
        assert p[|dir| - 1] == '/';
        assert p[|dir|..] == batchId;
      } else {
        assert p == batchId;
      }
    } else {
      assert p == dir + "/" + batchId;
      assert p[|dir|] == '/' && p[|dir| + 1..] == batchId;
    }
  }

  /** An artifact's path under the media URL: `/media/results/<batch>/<file>`. */
  function ArtifactPath(batch: string, file: string): string {
    "/media/results/" + batch + "/" + file
  }

  /** The `results` object stored on success. Metrics and the time stamp are produced elsewhere. */
  function FinalResults(batch: string, metrics: JsonObject, timestamp: int): JsonObject {
    map[
      "static_image" := JStr(ArtifactPath(batch, "preview.png")),
      "gif" := JStr(ArtifactPath(batch, "animation.gif")),
      "metrics" := JObject(metrics),
      "timestamp" := JNum(timestamp),
      "progress" := JNum(100),
      "status" := JStr("Complete")
    ]
  }

  /** `UserUpload.objects.filter(batch_id=...).first()`: under the default ordering, a newest row of the batch. */
  function LookupBatch(rows: seq<Row>, batchId: string): (r: Option<Row>)
    ensures r.None? <==> forall x :: x in rows ==> x.batchId != batchId
    ensures r.Some? ==> r.value in rows && r.value.batchId == batchId
    ensures r.Some? ==> forall x :: x in rows && x.batchId == batchId ==> x.createdAt <= r.value.createdAt
  {
    var inBatch := Filter(rows, (x: Row) => x.batchId == batchId);
    var ordered := NewestFirst(inBatch);
    SortDescMembers(inBatch, CreatedAt);
    if |ordered| == 0 then None
    else
      assert ordered[0] in ordered;
      forall x | x in rows && x.batchId == batchId ensures x.createdAt <= ordered[0].createdAt {
        assert x in ordered;
        var k :| 0 <= k < |ordered| && ordered[k] == x;
        if k > 0 { assert CreatedAt(ordered[0]) >= CreatedAt(ordered[k]); }
      }
      Some(ordered[0])
  }

  // ----- which path is loaded as which modality -----

  /** The modality names the run pairs with the file paths, and the order it stacks them in. */
  const Modalities: seq<string> := ["T1", "T1c", "T2", "FLAIR"]

  function MinNat(a: nat, b: nat): nat { if a <= b then a else b }

  /** The first `n` pairs of `zip(Modalities, paths)`, as the `images` dictionary keyed by modality. */
  function ImagesUpTo(paths: seq<string>, n: nat): (images: map<string, string>)
    requires n <= |Modalities| && n <= |paths|
    ensures images.Keys == set i | 0 <= i < n :: Modalities[i]
    ensures forall i :: 0 <= i < n ==> images[Modalities[i]] == paths[i]
  {
    if n == 0 then map[]
    else
      var before := ImagesUpTo(paths, n - 1);
      assert forall i :: 0 <= i < n - 1 ==> Modalities[i] != Modalities[n - 1];
      before[Modalities[n - 1] := paths[n - 1]]
  }

  /** `images` after the loading loop: one entry per pair of the `zip`, which stops at the shorter list. */
  function Images(paths: seq<string>): map<string, string> {
    ImagesUpTo(paths, MinNat(|Modalities|, |paths|))
  }

  /**
   * The loading loop `for name, path in zip([...], file_paths)`, with the
   * volume each path holds stood for by the path itself.
   */
  method LoadScans(paths: seq<string>) returns (images: map<string, string>)
    ensures images == Images(paths)
  {
    images := map[];
    var n := MinNat(|Modalities|, |paths|);
    var i := 0;
    while i < n
      invariant i <= n
      invariant images == ImagesUpTo(paths, i)
    {
      images := images[Modalities[i] := paths[i]];
      i := i + 1;
    }
  }

  /** The stacking `[images[mod] for mod in [...]]`: the inputs in channel order, or a `KeyError` when one is missing. */
  function Stacked(images: map<string, string>): (r: Option<seq<string>>)
    ensures r.Some? <==> forall i :: 0 <= i < |Modalities| ==> Modalities[i] in images
    ensures r.Some? ==> |r.value| == |Modalities| && forall i :: 0 <= i < |Modalities| ==> r.value[i] == images[Modalities[i]]
  {
    if forall i :: 0 <= i < |Modalities| ==> Modalities[i] in images
    then Some(seq(|Modalities|, i requires 0 <= i < |Modalities| => images[Modalities[i]]))
    else None
  }

  /**
   * Channel i of the network input is the i-th path: the pairing and the
   * stacking use the same modality order. Fewer than four paths make the
   * stacking raise; paths past the fourth are ignored.
   */
  lemma StackedFollowsPaths(paths: seq<string>)
    ensures |paths| >= |Modalities| ==> Stacked(Images(paths)) == Some(paths[..|Modalities|])
    ensures |paths| < |Modalities| ==> Stacked(Images(paths)).None?
  {
    var n := MinNat(|Modalities|, |paths|);
    if |paths| < |Modalities| {
      assert Modalities[n] !in Images(paths) by {
        forall i | 0 <= i < n ensures Modalities[i] != Modalities[n] { }
      }
    } else {
      var images := Images(paths);
      assert n == |Modalities|;
      assert forall i :: 0 <= i < |Modalities| ==> Modalities[i] in images && images[Modalities[i]] == paths[i];
      var r := Stacked(images).value;
      assert |r| == |paths[..|Modalities|]|;
      assert forall i :: 0 <= i < |Modalities| ==> r[i] == paths[..|Modalities|][i];
      assert r == paths[..|Modalities|];
    }
  }

  /** What one `save()` writes: the status, results and error-message columns. */
  datatype Snapshot = Snapshot(status: string, results: Option<JsonObject>, errorMessage: Option<string>)

  /** The row instance the run writes to; `saves` records every `save()` in order. */
  class UploadObj {
    var status: string
    var results: Option<JsonObject>
    var errorMessage: Option<string>
    var saves: seq<Snapshot>

    /** The instance of a stored row, not yet saved. */
    constructor (row: Row)
      ensures status == row.status && results == row.results && errorMessage == row.errorMessage && saves == []
    {
      status := row.status;
      results := row.results;
      errorMessage := row.errorMessage;
      saves := [];
    }

    /** The stored row matches the instance: the last save wrote the current values. */
    ghost predicate Saved()
      reads this
    {
      |saves| > 0 && saves[|saves| - 1] == Snapshot(status, results, errorMessage)
    }

    /** `save()`. */
    method Save()
      modifies this`saves
      ensures saves == old(saves) + [Snapshot(status, results, errorMessage)]
      ensures Saved()
    {
      saves := saves + [Snapshot(status, results, errorMessage)];
    }

    /** `update_progress`: status `processing`, a progress object as results, then `save()`. */
    method UpdateProgress(step: (int, string))
      modifies this
      ensures status == "processing" && results == Some(ProgressResults(step)) && errorMessage == old(errorMessage)
      ensures saves == old(saves) + [Snapshot(status, results, errorMessage)]
      ensures Saved()
    {
      status := "processing";
      results := Some(ProgressResults(step));
      Save();
    }

    /** The failure handler: status `failed`, the message, then `save()`; results stay as they were. */
    method MarkFailed(message: string)
      modifies this
      ensures status == "failed" && results == old(results) && errorMessage == Some(message)
      ensures saves == old(saves) + [Snapshot(status, results, errorMessage)]
      ensures Saved()
    {
      status := "failed";
      errorMessage := Some(message);
      Save();
    }
  }

  /** The first `n` progress writes. */
  function Reports(n: nat, error0: Option<string>): (s: seq<Snapshot>)
    requires n <= |ProgressSteps|
    ensures |s| == n
  {
    if n == 0 then []
    else Reports(n - 1, error0) + [Snapshot("processing", Some(ProgressResults(ProgressSteps[n - 1])), error0)]
  }

  /** The i-th progress write reports the i-th step. */
  lemma {:induction false} ReportsAt(n: nat, error0: Option<string>)
    requires n <= |ProgressSteps|
    ensures forall i :: 0 <= i < n ==> Reports(n, error0)[i] == Snapshot("processing", Some(ProgressResults(ProgressSteps[i])), error0)
  {
    if n > 0 {
      ReportsAt(n - 1, error0);
    }
  }

  /** The progress reports are `processing` writes that keep the error message, with strictly rising progress. */
  lemma ReportsProgress(n: nat, error0: Option<string>)
    requires n <= |ProgressSteps|
    ensures var s := Reports(n, error0);
      && (forall i :: 0 <= i < n ==>
            s[i].status == "processing" && s[i].errorMessage == error0 &&
            s[i].results == Some(ProgressResults(ProgressSteps[i])) && Progress(s[i]) == Some(ProgressSteps[i].0))
      && (forall i, j :: 0 <= i < j < n ==> Progress(s[i]).value < Progress(s[j]).value)
  {
    ReportsAt(n, error0);
    var s := Reports(n, error0);
    forall i | 0 <= i < n ensures Progress(s[i]) == Some(ProgressSteps[i].0) {
      assert "progress" in ProgressResults(ProgressSteps[i]);
    }
    assert forall i, j :: 0 <= i < j < |ProgressSteps| ==> ProgressSteps[i].0 < ProgressSteps[j].0;
  }

  /** The writes of one run, given where it fails (if anywhere) and the row's error message before it. */
  function ExpectedSaves(failure: Option<(Stage, string)>, batch: string, metrics: JsonObject, timestamp: int,
                         error0: Option<string>): seq<Snapshot>
  {
    var n := ReportCount(failure);
    Reports(n, error0) + [
      if failure.Some?
      then Snapshot("failed", Some(ProgressResults(ProgressSteps[n - 1])), Some(failure.value.1))
      else Snapshot("complete", Some(FinalResults(batch, metrics, timestamp)), error0)
    ]
  }

  /** The progress a saved snapshot reports, when it reports one. */
  function Progress(s: Snapshot): Option<int> {
    if s.results.Some? && "progress" in s.results.value && s.results.value["progress"].JNum?
    then Some(s.results.value["progress"].n) else None
  }

  /** The number of progress writes before the last write of a run. */
  function ReportCount(failure: Option<(Stage, string)>): (n: nat)
    ensures 2 <= n <= |ProgressSteps|
  {
    if failure.Some? then ReportsBefore(failure.value.0) else |ProgressSteps|
  }

  /** Every write but the last of a run is a progress report, in step order. */
  lemma ExpectedSavesReports(failure: Option<(Stage, string)>, batch: string, metrics: JsonObject, timestamp: int,
                             error0: Option<string>)
    ensures var s := ExpectedSaves(failure, batch, metrics, timestamp, error0);
      && |s| == ReportCount(failure) + 1
      && (forall i :: 0 <= i < |s| - 1 ==>
            s[i].status == "processing" && s[i].errorMessage == error0 &&
            s[i].results == Some(ProgressResults(ProgressSteps[i])) && Progress(s[i]) == Some(ProgressSteps[i].0))
      && (forall i, j :: 0 <= i < j < |s| - 1 ==> Progress(s[i]).value < Progress(s[j]).value)
  {
    var s := ExpectedSaves(failure, batch, metrics, timestamp, error0);
    var n := ReportCount(failure);
    var reports := Reports(n, error0);
    ReportsProgress(n, error0);
    assert s == reports + [s[n]];
    assert forall i :: 0 <= i < n ==> s[i] == reports[i];
  }

  /** The last write of a run: `complete` with progress 100, or `failed` over the last progress object. */
  lemma ExpectedSavesLast(failure: Option<(Stage, string)>, batch: string, metrics: JsonObject, timestamp: int,
                          error0: Option<string>)
    ensures var s := ExpectedSaves(failure, batch, metrics, timestamp, error0);
      var n := ReportCount(failure);
      && |s| == n + 1
      && (failure.None? ==>
            s[n] == Snapshot("complete", Some(FinalResults(batch, metrics, timestamp)), error0) &&
            Progress(s[n]) == Some(100))
      && (failure.Some? ==>
            s[n] == Snapshot("failed", Some(ProgressResults(ProgressSteps[n - 1])), Some(failure.value.1)) &&
            Progress(s[n]) == Some(ProgressSteps[n - 1].0) && ProgressSteps[n - 1].0 < 100)
  {
    var n := ReportCount(failure);
    if failure.Some? {
      assert "progress" in ProgressResults(ProgressSteps[n - 1]);
    } else {
      assert "progress" in FinalResults(batch, metrics, timestamp);
    }
  }

  /**
   * What a poller can see: every write holds a declared status; progress
   * strictly rises over the `processing` writes; the run ends with
   * `complete` and progress 100, or with `failed`, the message, and the
   * last progress object left in place; the error message changes only on
   * failure.
   */
  lemma ExpectedSavesSpec(failure: Option<(Stage, string)>, batch: string, metrics: JsonObject, timestamp: int,
                          error0: Option<string>)
    ensures var s := ExpectedSaves(failure, batch, metrics, timestamp, error0);
      && |s| >= 3
      && (forall i :: 0 <= i < |s| ==> IsStatusChoice(s[i].status) && Progress(s[i]).Some?)
      && (forall i :: 0 <= i < |s| - 1 ==> s[i].status == "processing" && s[i].errorMessage == error0)
      && (forall i, j :: 0 <= i < j < |s| - 1 ==> Progress(s[i]).value < Progress(s[j]).value)
      && (failure.None? ==>
            s[|s| - 1] == Snapshot("complete", Some(FinalResults(batch, metrics, timestamp)), error0) &&
            Progress(s[|s| - 1]) == Some(100))
      && (failure.Some? ==>
            s[|s| - 1].status == "failed" && s[|s| - 1].errorMessage == Some(failure.value.1) &&
            s[|s| - 1].results == s[|s| - 2].results && Progress(s[|s| - 1]).value < 100)
  {
    var s := ExpectedSaves(failure, batch, metrics, timestamp, error0);
    var n := ReportCount(failure);
    ExpectedSavesReports(failure, batch, metrics, timestamp, error0);
    ExpectedSavesLast(failure, batch, metrics, timestamp, error0);
    assert IsStatusChoice("processing") by { assert StatusChoices[1].0 == "processing"; }
    assert IsStatusChoice("complete") by { assert StatusChoices[3].0 == "complete"; }
    assert IsStatusChoice("failed") by { assert StatusChoices[4].0 == "failed"; }
  }

  /** The writes of a run that fails in `stage`, spelled out. */
  lemma FailedRunSaves(stage: Stage, message: string, batch: string, metrics: JsonObject, timestamp: int,
                       error0: Option<string>)
    ensures var n := ReportsBefore(stage);
      ExpectedSaves(Some((stage, message)), batch, metrics, timestamp, error0) ==
      Reports(n, error0) + [Snapshot("failed", Some(ProgressResults(ProgressSteps[n - 1])), Some(message))]
  {
  }

  /** The `k`-th progress report of a run whose earlier reports are in place. */
  method ReportStep(obj: UploadObj, k: nat, ghost saves0: seq<Snapshot>, ghost error0: Option<string>)
    requires k < |ProgressSteps|
    requires obj.saves == saves0 + Reports(k, error0) && obj.errorMessage == error0
    modifies obj
    ensures obj.saves == saves0 + Reports(k + 1, error0) && obj.errorMessage == error0
    ensures obj.results == Some(ProgressResults(ProgressSteps[k]))
  {
    obj.UpdateProgress(ProgressSteps[k]);
  }

  /** The failure handler of a run that fails in `stage`, after that stage's progress reports. */
  method FailIn(obj: UploadObj, stage: Stage, message: string, ghost batch: string, ghost metrics: JsonObject,
                ghost timestamp: int, ghost saves0: seq<Snapshot>, ghost error0: Option<string>)
    requires obj.saves == saves0 + Reports(ReportsBefore(stage), error0)
    requires obj.results == Some(ProgressResults(ProgressSteps[ReportsBefore(stage) - 1]))
    modifies obj
    ensures obj.saves == saves0 + ExpectedSaves(Some((stage, message)), batch, metrics, timestamp, error0)
    ensures obj.Saved()
  {
    FailedRunSaves(stage, message, batch, metrics, timestamp, error0);
    obj.MarkFailed(message);
  }

  /** The success path of a run whose five progress reports are in place: the final results, saved as complete. */
  method FinishRun(obj: UploadObj, batch: string, metrics: JsonObject, timestamp: int,
                   ghost saves0: seq<Snapshot>, ghost error0: Option<string>) returns (r: Result<JsonObject, string>)
    requires obj.saves == saves0 + Reports(|ProgressSteps|, error0) && obj.errorMessage == error0
    modifies obj
    ensures obj.saves == saves0 + ExpectedSaves(None, batch, metrics, timestamp, error0)
    ensures obj.Saved()
    ensures r == Ok(FinalResults(batch, metrics, timestamp))
  {
    var results := FinalResults(batch, metrics, timestamp);
    obj.results := Some(results);
    obj.status := "complete";
    obj.Save();
    r := Ok(results);
  }

  /**
   * `process_brain_scans` on the instance the batch lookup found (`null`
   * when none): without one it raises before writing anything; otherwise
   * it writes the progress reports, then the final results or the
   * failure, and returns the results or raises the stage's error again.
   */
  method ProcessBrainScans(obj: UploadObj?, outputDir: string, failure: Option<(Stage, string)>,
                           metrics: JsonObject, timestamp: int) returns (r: Result<JsonObject, string>)
    modifies obj
    ensures obj == null ==> r == Err(NotFoundMessage)
    ensures obj != null ==>
      obj.saves == old(obj.saves) + ExpectedSaves(failure, Basename(outputDir), metrics, timestamp, old(obj.errorMessage))
    ensures obj != null ==> obj.Saved()
    ensures obj != null && failure.Some? ==> r == Err(failure.value.1)
    ensures obj != null && failure.None? ==> r == Ok(FinalResults(Basename(outputDir), metrics, timestamp))
  {
    var batch := Basename(outputDir);
    if obj == null {
      return Err(NotFoundMessage);
    }
    ghost var saves0 := obj.saves;
    ghost var error0 := obj.errorMessage;
    ReportStep(obj, 0, saves0, error0);
    ReportStep(obj, 1, saves0, error0);
    if failure.Some? && failure.value.0 == ReadingScans {
      FailIn(obj, ReadingScans, failure.value.1, batch, metrics, timestamp, saves0, error0);
      return Err(failure.value.1);
    }
    ReportStep(obj, 2, saves0, error0);
    if failure.Some? && failure.value.0 == Normalizing {
      FailIn(obj, Normalizing, failure.value.1, batch, metrics, timestamp, saves0, error0);
      return Err(failure.value.1);
    }
    ReportStep(obj, 3, saves0, error0);
    if failure.Some? && failure.value.0 == Inferring {
      FailIn(obj, Inferring, failure.value.1, batch, metrics, timestamp, saves0, error0);
      return Err(failure.value.1);
    }
    ReportStep(obj, 4, saves0, error0);
    if failure.Some? {
      FailIn(obj, failure.value.0, failure.value.1, batch, metrics, timestamp, saves0, error0);
      return Err(failure.value.1);
    }
    r := FinishRun(obj, batch, metrics, timestamp, saves0, error0);
  }

  // ----- create_quick_visualization -----

  /** The slice shown in the still preview: the middle one. */
  function PreviewSlice(depth: nat): (s: nat)
    ensures depth > 0 ==> s < depth
    ensures depth - 1 - s <= s <= depth - s
  {
    depth / 2
  }

  /** How many slices the animation samples: every second one from 0. */
  function Samples(depth: nat): nat {
    (depth + 1) / 2
  }

  /** The forward half of the animation: each sampled slice held for 5 frames. */
  function Forward(depth: nat): (f: seq<nat>)
    ensures |f| == 5 * Samples(depth)
  {
    seq(5 * Samples(depth), i => 2 * (i / 5))
  }

  /** The frames in reverse order (`frames[::-1]`). */
  function Reverse(s: seq<nat>): (r: seq<nat>)
    ensures |r| == |s|
    ensures forall i :: 0 <= i < |s| ==> r[i] == s[|s| - 1 - i]
  {
    seq(|s|, i requires 0 <= i < |s| => s[|s| - 1 - i])
  }

  /** The whole animation, as the slice index each frame shows. */
  function FrameSchedule(depth: nat): seq<nat> {
    Forward(depth) + Reverse(Forward(depth))
  }

  /** Frames of the forward half show even slices below `depth`, in rising order. */
  lemma ForwardSlices(depth: nat)
    ensures var fw := Forward(depth);
      && (forall i :: 0 <= i < |fw| ==> fw[i] % 2 == 0 && fw[i] < depth)
      && (forall i, j :: 0 <= i <= j < |fw| ==> fw[i] <= fw[j])
  {
    var fw := Forward(depth);
    forall i | 0 <= i < |fw| ensures fw[i] % 2 == 0 && fw[i] < depth {
      assert i / 5 < Samples(depth);
    }
    forall i, j | 0 <= i <= j < |fw| ensures fw[i] <= fw[j] {
      assert i / 5 <= j / 5;
    }
  }

  /** A sequence followed by its reversal reads the same reversed. */
  lemma MirroredIsPalindrome(fw: seq<nat>)
    ensures Reverse(fw + Reverse(fw)) == fw + Reverse(fw)
  {
    var f := fw + Reverse(fw);
    var n := |fw|;
    forall i | 0 <= i < |f| ensures Reverse(f)[i] == f[i] {
      if i < n {
        assert Reverse(f)[i] == f[2 * n - 1 - i] == Reverse(fw)[n - 1 - i] == fw[i];
      } else {
        assert Reverse(f)[i] == f[2 * n - 1 - i] == fw[2 * n - 1 - i];
        assert f[i] == Reverse(fw)[i - n] == fw[n - 1 - (i - n)];
      }
    }
  }

  /**
   * The animation plays forward and back: it reads the same reversed,
   * has ten frames per sampled slice, shows only even slices below
   * `depth`, and rises through the first half.
   */
  lemma FrameScheduleSpec(depth: nat)
    ensures var f := FrameSchedule(depth);
      && Reverse(f) == f
      && |f| == 10 * Samples(depth)
      && (forall i :: 0 <= i < |f| ==> f[i] % 2 == 0 && f[i] < depth)
      && (forall i, j :: 0 <= i <= j < |f| / 2 ==> f[i] <= f[j])
  {
    var fw := Forward(depth);
    ForwardSlices(depth);
    MirroredIsPalindrome(fw);
    MirroredKeepsSlices(fw, depth);
    MirroredRisesFirst(fw);
  }

  /** Mirroring shows no slice the forward half does not show. */
  lemma MirroredKeepsSlices(fw: seq<nat>, depth: nat)
    requires forall i :: 0 <= i < |fw| ==> fw[i] % 2 == 0 && fw[i] < depth
    ensures var f := fw + Reverse(fw);
      forall i :: 0 <= i < |f| ==> f[i] % 2 == 0 && f[i] < depth
  {
    var f := fw + Reverse(fw);
    var n := |fw|;
    forall i | 0 <= i < |f| ensures f[i] % 2 == 0 && f[i] < depth {
      if i < n {
        assert f[i] == fw[i];
      } else {
        assert f[i] == fw[n - 1 - (i - n)];
      }
    }
  }

  /** The first half of a mirrored sequence is the forward half itself, so it rises when that does. */
  lemma MirroredRisesFirst(fw: seq<nat>)
    requires forall i, j :: 0 <= i <= j < |fw| ==> fw[i] <= fw[j]
    ensures var f := fw + Reverse(fw);
      |f| == 2 * |fw| && forall i, j :: 0 <= i <= j < |f| / 2 ==> f[i] <= f[j]
  {
    var f := fw + Reverse(fw);
    forall i, j | 0 <= i <= j < |f| / 2 ensures f[i] <= f[j] {
      assert f[i] == fw[i] && f[j] == fw[j];
    }
  }


  /** One more frame of the forward half: slice `z` again, while its five frames are not all in. */
  lemma ForwardStep(depth: nat, z: nat, k: nat)
    requires z % 2 == 0 && z < depth && k < 5
    ensures 5 * (z / 2) + k < |Forward(depth)|
    ensures Forward(depth)[..5 * (z / 2) + k] + [z] == Forward(depth)[..5 * (z / 2) + k + 1]
  {
    var m := 5 * (z / 2) + k;
    assert z / 2 < Samples(depth);
    assert m / 5 == z / 2;
    assert Forward(depth)[m] == z;
  }

  /** Past the last slice, the sampled slices are all in. */
  lemma ForwardDone(depth: nat, z: nat)
    requires z % 2 == 0 && depth <= z <= depth + 1
    ensures 5 * (z / 2) == |Forward(depth)|
  {
    assert z / 2 == Samples(depth);
  }

  /**
   * The frame loop: for every second slice from 0 append its frame five
   * times, then append the frames reversed.
   */
  method CreateFrames(depth: nat) returns (frames: seq<nat>)
    ensures frames == FrameSchedule(depth)
  {
    frames := [];
    var z := 0;
    while z < depth
      invariant z % 2 == 0 && z <= depth + 1
      invariant frames == Forward(depth)[..5 * (z / 2)]
    {
      for k := 0 to 5
        invariant frames == Forward(depth)[..5 * (z / 2) + k]
      {
        ForwardStep(depth, z, k);
        frames := frames + [z];
      }
      z := z + 2;
    }
    ForwardDone(depth, z);
    assert frames == Forward(depth);
    frames := frames + Reverse(frames);
  }

  // ----- slice axis -----

  /** The shape of a scan volume; slices are taken along the third axis. */
  datatype Volume = Volume(d0: nat, d1: nat, d2: nat)

  /** Every slice index the visualization reads exists along the third axis. */
  predicate ReadsOnlySlices(v: Volume, preview: nat, frames: seq<nat>) {
    preview < v.d2 && forall i :: 0 <= i < |frames| ==> frames[i] < v.d2
  }

  /** As written: the slice count is taken from the FIRST axis of the prediction. */
  function VisualizationAsWritten(v: Volume): (nat, seq<nat>) {
    (PreviewSlice(v.d0), FrameSchedule(v.d0))
  }

  /**
   * A volume longer along its first axis than its third makes the
   * animation read past the last slice: of a 240×240×144 prediction,
   * frame 360 reads slice 144 of 0..143.
   */
  lemma AsWrittenReadsPastLastSlice()
    ensures var v := Volume(240, 240, 144);
      !ReadsOnlySlices(v, VisualizationAsWritten(v).0, VisualizationAsWritten(v).1)
  {
    var v := Volume(240, 240, 144);
    var f := FrameSchedule(240);
    assert Forward(240)[360] == 144;
    assert f[360] == 144;
  }

  /** Corrected: the slice count is taken from the third axis, the one slices are read along. */
  function Visualization(v: Volume): (nat, seq<nat>) {
    (PreviewSlice(v.d2), FrameSchedule(v.d2))
  }

  /** With the third axis as the count, every slice read exists, whatever the other axes are. */
  lemma VisualizationReadsOnlySlices(v: Volume)
    requires v.d2 > 0
    ensures ReadsOnlySlices(v, Visualization(v).0, Visualization(v).1)
  {
    FrameScheduleSpec(v.d2);
  }
}
