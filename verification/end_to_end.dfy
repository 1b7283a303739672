/**
 * Properties that cross the boundary between the browser pages and the
 * backend: the upload page's form against the upload view's checks, the
 * processing run's writes against the upload page's poll decision, and
 * the artifact paths of a finished run against the three ways the pages
 * display them.
 */
module EndToEnd {
  import opened Wrappers
  import opened Strings
  import opened JsonValues
  import UC = UploadController
  import Api = UploadApi
  import P = Processing
  import A = ArtifactUrls
  import S = UploadSerializer
  import M = UploadModels

  // ----- the upload form as the upload view receives it -----

  /** `request.FILES.getlist('nifti_files')`: the file parts of the body, in order. */
  function ReceivedFiles(form: seq<UC.FormField>): (files: seq<Api.UploadedFile>)
    ensures |files| <= |form|
  {
    if form == [] then []
    else (if form[0].NiftiFile? then [Api.UploadedFile(form[0].file.name)] else []) + ReceivedFiles(form[1..])
  }

  /** A text part called `name`. */
  predicate IsField(f: UC.FormField, name: string) {
    f.TextField? && f.name == name
  }

  /**
   * `request.data.get(name)`: `QueryDict.get` gives the value of the LAST
   * text part called `name`, and nothing when there is none.
   */
  function FieldValue(form: seq<UC.FormField>, name: string): (v: Option<string>)
    ensures v.None? <==> forall i :: 0 <= i < |form| ==> !IsField(form[i], name)
    ensures v.Some? ==>
      exists i :: 0 <= i < |form| && form[i] == UC.TextField(name, v.value) &&
                  (forall j :: i < j < |form| ==> !IsField(form[j], name))
    decreases |form|
  {
    if form == [] then None
    else
      var n := |form| - 1;
      if IsField(form[n], name) then Some(form[n].value)
      else
        var front := form[..n];
        var rest := FieldValue(front, name);
        assert forall i :: 0 <= i < n ==> front[i] == form[i];
        if rest.Some? then
          var i :| 0 <= i < |front| && front[i] == UC.TextField(name, rest.value) &&
            forall j :: i < j < |front| ==> !IsField(front[j], name);
          assert form[i] == UC.TextField(name, rest.value);
          rest
        else rest
  }

  /** A repeated field reads as its last value. */
  lemma FieldValueTakesLast(a: string, b: string)
    ensures FieldValue([UC.TextField("user_id", a), UC.TextField("user_id", b)], "user_id") == Some(b)
  {
  }

  /** The file parts of a body are those of its two halves. */
  lemma {:induction false} ReceivedFilesAppend(a: seq<UC.FormField>, b: seq<UC.FormField>)
    ensures ReceivedFiles(a + b) == ReceivedFiles(a) + ReceivedFiles(b)
    decreases |a|
  {
    if a == [] {
      assert a + b == b;
    } else {
      assert (a + b)[0] == a[0] && (a + b)[1..] == a[1..] + b;
      ReceivedFilesAppend(a[1..], b);
    }
  }

  /** With every slot of `order` filled, the view receives one file per slot, in slot order. */
  lemma {:induction false} ReceivedSlotFiles(slots: map<UC.Modality, Option<UC.File>>, order: seq<UC.Modality>)
    requires forall m :: m in slots && slots[m].Some?
    ensures var files := ReceivedFiles(UC.SlotFiles(slots, order));
      |files| == |order| && forall i :: 0 <= i < |order| ==> files[i].name == slots[order[i]].value.name
    decreases |order|
  {
    if order != [] {
      var f := UC.NiftiFile(slots[order[0]].value);
      var rest := UC.SlotFiles(slots, order[1..]);
      assert UC.SlotFiles(slots, order) == [f] + rest;
      ReceivedFilesAppend([f], rest);
      ReceivedSlotFiles(slots, order[1..]);
      assert forall i :: 1 <= i < |order| ==> order[i] == order[1..][i - 1];
    }
  }

  /** The view's `file_types` name the page's slots in the page's slot order. */
  lemma FileTypesFollowSlotOrder()
    ensures |Api.FileTypes| == |UC.SlotOrder|
    ensures forall i :: 0 <= i < |Api.FileTypes| ==> Api.FileTypes[i] == UC.SlotName(UC.SlotOrder[i])
  {
  }

  /** What the upload view reads from a body built with every slot filled. */
  lemma FilledFormAsReceived(slots: map<UC.Modality, Option<UC.File>>, user: UC.Identity)
    requires forall m :: m in slots && slots[m].Some?
    ensures var form := UC.Form(slots, user);
      var files := ReceivedFiles(form);
      && |files| == |UC.SlotOrder|
      && (forall i :: 0 <= i < |files| ==> files[i].name == slots[UC.SlotOrder[i]].value.name)
      && FieldValue(form, "user_id") == Some(user.uid)
      && FieldValue(form, "email") == Some(user.email)
  {
    var head := UC.SlotFiles(slots, UC.SlotOrder);
    var tail := [UC.TextField("user_id", user.uid), UC.TextField("email", user.email)];
    assert UC.Form(slots, user) == head + tail;
    ReceivedSlotFiles(slots, UC.SlotOrder);
    ReceivedFilesAppend(head, tail);
    assert tail[1..] == [UC.TextField("email", user.email)];
    assert ReceivedFiles(tail) == [];
    var form := head + tail;
    assert form[|form| - 1] == UC.TextField("email", user.email);
    assert form[..|form| - 1] == head + [UC.TextField("user_id", user.uid)];
    assert FieldValue(form, "user_id") == FieldValue(head + [UC.TextField("user_id", user.uid)], "user_id");
  }

  /**
   * A form the upload page lets the user submit passes both checks of the
   * upload view, and the i-th stored row gets the modality of the slot its
   * file was picked in: the slot order of the page and the `file_types`
   * of the view agree.
   */
  lemma SubmittedFormIsAccepted(slots: map<UC.Modality, Option<UC.File>>, user: UC.Identity)
    requires forall m :: m in slots && slots[m].Some?
    requires user.uid != "" && user.email != ""
    ensures var form := UC.Form(slots, user);
      var files := ReceivedFiles(form);
      && |files| == |Api.FileTypes|
      && FieldValue(form, "user_id") == Some(user.uid)
      && FieldValue(form, "email") == Some(user.email)
      && Api.CheckUpload(files, FieldValue(form, "user_id"), FieldValue(form, "email")).Ok?
      && (forall i :: 0 <= i < |files| ==>
            files[i].name == slots[UC.SlotOrder[i]].value.name && Api.FileTypes[i] == UC.SlotName(UC.SlotOrder[i]))
  {
    FilledFormAsReceived(slots, user);
    FileTypesFollowSlotOrder();
  }

  /** With the submit button enabled, the form the page sends passes both checks of the upload view. */
  lemma SubmittablePageIsAccepted(page: UC.UploadPage, user: UC.Identity)
    requires page.Valid() && page.CanSubmit()
    requires user.uid != "" && user.email != ""
    ensures var form := UC.Form(page.selectedFiles, user);
      Api.CheckUpload(ReceivedFiles(form), FieldValue(form, "user_id"), FieldValue(form, "email")).Ok?
  {
    assert forall m :: m in page.selectedFiles && page.selectedFiles[m].Some?;
    SubmittedFormIsAccepted(page.selectedFiles, user);
  }

  // ----- the rows of an upload as the processing run reads them -----

  /**
   * The run's batch lookup finds the LAST row the upload created, the
   * FLAIR one, not the first row that the status URL names: the four
   * creations are stamped at increasing times and no earlier row has the
   * fresh batch id.
   */
  lemma NewBatchLookup(rows: seq<M.Row>, files: seq<Api.UploadedFile>, batchId: string, userId: string, email: string,
                       times: seq<int>, firstId: nat)
    requires |files| == |Api.FileTypes| && |times| == |Api.FileTypes| && Api.Increasing(times)
    requires forall x :: x in rows ==> x.batchId != batchId
    ensures var batch := Api.BatchRows(files, batchId, userId, email, times, firstId);
      && P.LookupBatch(rows + batch, batchId) == Some(batch[3])
      && batch[3].fileType == Some("FLAIR")
      && batch[3].id != batch[0].id
  {
    var batch := Api.BatchRows(files, batchId, userId, email, times, firstId);
    var all := rows + batch;
    assert batch[3] in all;
    var r := P.LookupBatch(all, batchId);
    assert r.Some?;
    assert r.value in batch by {
      if r.value in rows { assert false; }
    }
    var k :| 0 <= k < |batch| && batch[k] == r.value;
    assert batch[3].createdAt <= r.value.createdAt;
  }

  /**
   * Along an accepted upload, the i-th file is stored as modality
   * `file_types[i]` and loaded by the run as that same modality, and the
   * network's channels follow the same order.
   */
  lemma BatchLoadsByModality(files: seq<Api.UploadedFile>, batchId: string, userId: string, email: string,
                             times: seq<int>, firstId: nat)
    requires |files| == |Api.FileTypes| && |times| == |Api.FileTypes|
    ensures var batch := Api.BatchRows(files, batchId, userId, email, times, firstId);
      var images := P.Images(Api.Paths(batch));
      && (forall i :: 0 <= i < |batch| ==>
            batch[i].fileType == Some(P.Modalities[i]) && images[P.Modalities[i]] == batch[i].niftiFile)
      && P.Stacked(images) == Some(Api.Paths(batch))
  {
    var batch := Api.BatchRows(files, batchId, userId, email, times, firstId);
    var paths := Api.Paths(batch);
    assert Api.FileTypes == P.Modalities;
    P.StackedFollowsPaths(paths);
    assert paths[..|P.Modalities|] == paths;
  }

  // ----- a run's writes as the upload page's poll reads them -----

  /** The poll reply for a saved state of a row: its `status` and its `results` as `result`. */
  function AsPolled(s: P.Snapshot): UC.PollResponse {
    UC.StatusBody(s.status, s.results)
  }

  /**
   * Polling the row a run writes: every write but the last keeps the page
   * polling; the last hands the final results to the results page when
   * the run succeeds and stops the polling when it fails.
   */
  lemma RunAsPolled(failure: Option<(P.Stage, string)>, batch: string, metrics: JsonObject, timestamp: int,
                    error0: Option<string>)
    ensures var s := P.ExpectedSaves(failure, batch, metrics, timestamp, error0);
      && (forall i :: 0 <= i < |s| - 1 ==> UC.Classify(AsPolled(s[i])) == UC.Reschedule)
      && UC.Classify(AsPolled(s[|s| - 1])) ==
           (if failure.None? then UC.Navigate(P.FinalResults(batch, metrics, timestamp)) else UC.Stop(UC.FailedToast))
  {
    P.ExpectedSavesSpec(failure, batch, metrics, timestamp, error0);
  }

  // ----- the artifacts of a finished run, on every route to the results page -----

  /** A finished run's artifact path holds no `:` when the batch id holds none, so no copy of the base. */
  lemma ArtifactPathFree(batch: string, file: string)
    requires ':' !in batch && ':' !in file
    ensures A.PrefixIfRelative(P.ArtifactPath(batch, file)) == A.Base + P.ArtifactPath(batch, file)
    ensures Free(P.ArtifactPath(batch, file), A.Base)
  {
    var p := P.ArtifactPath(batch, file);
    assert ':' !in p;
    assert !StartsWith(p, "http") by { assert p[0] == '/'; }
    assert A.Base[4] == ':';
    assert forall k :: 0 <= k < |p| ==> p[k] != ':';
    forall j | 0 <= j <= |p| ensures !OccursAt(p, A.Base, j) {
    }
  }

  /**
   * The upload page (raw path cleaned), the history page (serialized URL
   * cleaned again) and the reports page (serialized URL stripped, then
   * cleaned) display the same URL for an artifact of a finished run.
   */
  lemma ArtifactDisplaysAlike(batch: string, file: string)
    requires ':' !in batch && ':' !in file
    ensures var p := P.ArtifactPath(batch, file);
      && A.GetCleanUrl(p) == A.Base + p
      && A.GetCleanUrl(A.GetCleanUrl(A.PrefixIfRelative(p))) == A.Base + p
      && A.GetCleanUrl(A.StripBase(A.PrefixIfRelative(p))) == A.Base + p
  {
    var p := P.ArtifactPath(batch, file);
    ArtifactPathFree(batch, file);
    assert p != "" && !StartsWith(p, "http") by { assert p[0] == '/'; }
    A.AllRoutesDisplaySameUrl(p);
  }

  /** The serializer turns both artifact paths of a finished run into absolute URLs on the base. */
  lemma FinishedRunSerialized(row: M.Row, batch: string, metrics: JsonObject, timestamp: int)
    requires ':' !in batch
    requires row.results == Some(P.FinalResults(batch, metrics, timestamp))
    ensures S.Represent(row).Ok? && S.Represent(row).value.results.Some?
    ensures S.Represent(row).value.results.value["static_image"] == JStr(A.Base + P.ArtifactPath(batch, "preview.png"))
    ensures S.Represent(row).value.results.value["gif"] == JStr(A.Base + P.ArtifactPath(batch, "animation.gif"))
  {
    var results := P.FinalResults(batch, metrics, timestamp);
    var still := P.ArtifactPath(batch, "preview.png");
    var anim := P.ArtifactPath(batch, "animation.gif");
    ArtifactPathFree(batch, "preview.png");
    ArtifactPathFree(batch, "animation.gif");
    var m := results["static_image" := JStr(A.Base + still)];
    assert S.PrefixEntry(results, "static_image") == Ok(m);
    assert "gif" in m && m["gif"] == JStr(anim);
    assert S.PrefixArtifacts(results) == Ok(m["gif" := JStr(A.Base + anim)]);
    assert M.ResultsTruthy(row.results);
  }
}
