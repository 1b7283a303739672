/**
 * The upload page: four named file slots, the submit button, the multipart
 * form, the submission and the self-rescheduling status poll.
 *
 * Timers become outcomes: `Reschedule` stands for the `setTimeout` that runs
 * the next poll one second later, and `Navigate(result)` for the delayed
 * navigation to the results page with `isNewUpload: true`.
 */
module UploadController {
  import opened Wrappers
  import opened Strings
  import opened JsonValues

  /** The four slots, in the order the page declares them. */
  datatype Modality = T1 | T1c | T2 | Flair

  /** The slot order of `selectedFiles`, which is also the order of the form's file parts. */
  const SlotOrder: seq<Modality> := [T1, T1c, T2, Flair]

  /** A file picked in the browser; only its name is ever inspected. */
  datatype File = File(name: string, handle: nat)

  /** The signed-in user's `uid` and `email`. */
  datatype Identity = Identity(uid: string, email: string)

  /** One part of the multipart body. */
  datatype FormField = NiftiFile(file: File) | TextField(name: string, value: string)

  /** What a file selection did. */
  datatype SelectOutcome = NoFile | Rejected(message: string) | Selected(message: string)

  /** The reply to `POST /api/upload/`: a body whose `status_url` may be missing, or a thrown request. */
  datatype UploadReply = Replied(statusUrl: Option<string>) | PostFailed(serverError: Option<string>)

  /** What a submission led to. */
  datatype SubmitOutcome =
    | Polling(statusUrl: string)   // progress 10 and the first poll started
    | Waiting                      // a reply without `status_url`: nothing further happens
    | SubmitFailed(message: string)

  /** One status reply: the `status` and `result` of the body, or a request that threw. */
  datatype PollResponse = StatusBody(status: string, result: Option<JsonObject>) | PollRequestFailed

  /** What one run of `checkStatus` does next; a stop shows an error toast. */
  datatype PollOutcome = Stop(toast: string) | Reschedule | Navigate(result: JsonObject)

  const FailedToast: string := "Processing failed. Please try again."
  const StatusErrorToast: string := "Error checking processing status"

  const RejectMessage: string := "Please upload only .nii or .nii.gz files"
  const InitialProgress: int := 10
  const ProgressCeiling: int := 90
  const ProgressStep: int := 2
  const CompleteProgress: int := 100

  /** The client's name check: a case-sensitive `.nii` or `.nii.gz` suffix. */
  predicate HasNiftiSuffix(name: string) {
    EndsWith(name, ".nii") || EndsWith(name, ".nii.gz")
  }

  function Min(a: int, b: int): int { if a <= b then a else b }

  /** The slot's key in `selectedFiles` (and the label of its toast). */
  function SlotName(m: Modality): string {
    match m
    case T1 => "T1"
    case T1c => "T1c"
    case T2 => "T2"
    case Flair => "FLAIR"
  }

  /** The file parts contributed by the slots of `order`: one per filled slot, in that order. */
  function SlotFiles(slots: map<Modality, Option<File>>, order: seq<Modality>): (r: seq<FormField>)
    requires forall m :: m in slots
    ensures |r| <= |order|
    ensures forall i :: 0 <= i < |r| ==> r[i].NiftiFile?
  {
    if |order| == 0 then []
    else
      var rest := SlotFiles(slots, order[1..]);
      match slots[order[0]]
      case None => rest
      case Some(f) => [NiftiFile(f)] + rest
  }

  /** The whole multipart body: the file parts, then `user_id`, then `email`. */
  function Form(slots: map<Modality, Option<File>>, user: Identity): seq<FormField>
    requires forall m :: m in slots
  {
    SlotFiles(slots, SlotOrder) + [TextField("user_id", user.uid), TextField("email", user.email)]
  }

  /** With every slot filled the body carries the four files in slot order, then the two text fields. */
  lemma FormWhenAllFilled(slots: map<Modality, Option<File>>, user: Identity)
    requires forall m :: m in slots && slots[m].Some?
    ensures |Form(slots, user)| == 6
    ensures forall i :: 0 <= i < 4 ==> Form(slots, user)[i] == NiftiFile(slots[SlotOrder[i]].value)
    ensures Form(slots, user)[4] == TextField("user_id", user.uid)
    ensures Form(slots, user)[5] == TextField("email", user.email)
  {
    var f := (m: Modality) => NiftiFile(slots[m].value);
    assert SlotFiles(slots, [Flair]) == [f(Flair)] by { assert [Flair][1..] == []; }
    assert SlotFiles(slots, [T2, Flair]) == [f(T2), f(Flair)] by { assert [T2, Flair][1..] == [Flair]; }
    assert SlotFiles(slots, [T1c, T2, Flair]) == [f(T1c), f(T2), f(Flair)] by {
      assert [T1c, T2, Flair][1..] == [T2, Flair];
    }
    assert SlotFiles(slots, SlotOrder) == [f(T1), f(T1c), f(T2), f(Flair)] by {
      assert SlotOrder[1..] == [T1c, T2, Flair];
    }
  }

  /** One slot of `order` further: slot `order[i]` contributes its file, if any, in front of the rest. */
  lemma SlotFilesStep(slots: map<Modality, Option<File>>, order: seq<Modality>, i: nat)
    requires forall m :: m in slots
    requires i < |order|
    ensures SlotFiles(slots, order[i..]) ==
      (if slots[order[i]].Some? then [NiftiFile(slots[order[i]].value)] else []) + SlotFiles(slots, order[i + 1..])
  {
    assert order[i..][1..] == order[i + 1..];
  }

  /** The body carries as many files as there are slots exactly when no slot of `order` is empty. */
  lemma {:induction false} SlotFilesComplete(slots: map<Modality, Option<File>>, order: seq<Modality>)
    requires forall m :: m in slots
    ensures |SlotFiles(slots, order)| == |order| <==> forall i :: 0 <= i < |order| ==> slots[order[i]].Some?
  {
    if |order| > 0 {
      SlotFilesComplete(slots, order[1..]);
      if slots[order[0]].Some? {
        assert forall i :: 1 <= i < |order| ==> order[i] == order[1..][i - 1];
      }
    }
  }

  /** Every slot is filled exactly when the form gets one file part per slot. */
  lemma AllSlotsFilled(slots: map<Modality, Option<File>>)
    requires forall m :: m in slots
    ensures (forall m :: slots[m].Some?) <==> |SlotFiles(slots, SlotOrder)| == |SlotOrder|
  {
    SlotFilesComplete(slots, SlotOrder);
    if forall i :: 0 <= i < |SlotOrder| ==> slots[SlotOrder[i]].Some? {
      forall m ensures slots[m].Some? {
        match m
        case T1 => assert SlotOrder[0] == T1;
        case T1c => assert SlotOrder[1] == T1c;
        case T2 => assert SlotOrder[2] == T2;
        case Flair => assert SlotOrder[3] == Flair;
      }
    }
  }

  /** The decision of one `checkStatus` run, which depends on the reply alone. */
  function Classify(r: PollResponse): (o: PollOutcome)
    ensures o.Stop? <==> r.PollRequestFailed? || r.status == "failed"
    ensures o.Stop? ==> o.toast == (if r.PollRequestFailed? then StatusErrorToast else FailedToast)
    ensures o.Navigate? <==> r.StatusBody? && r.status == "complete" && r.result.Some?
    ensures o.Navigate? ==> o.result == r.result.value
  {
    match r
    case PollRequestFailed => Stop(StatusErrorToast)
    case StatusBody(status, result) =>
      if status == "failed" then Stop(FailedToast)
      else if status == "complete" && result.Some? then Navigate(result.value)
      else Reschedule
  }

  /**
   * The heuristic advance of a still-running job. The guard reads
   * `captured`, the `progress` value the polling closure was created with,
   * not the current one; the cap comes from the `Math.min`.
   */
  function Advance(prev: int, captured: int): (r: int)
    ensures prev <= ProgressCeiling ==> prev <= r <= ProgressCeiling
    ensures captured < ProgressCeiling && prev < ProgressCeiling ==> r > prev
    ensures captured >= ProgressCeiling ==> r == prev
  {
    if captured < ProgressCeiling then Min(prev + ProgressStep, ProgressCeiling) else prev
  }

  /** The progress after one `checkStatus` run. */
  function StepProgress(prev: int, captured: int, r: PollResponse): (p: int)
    ensures Classify(r).Stop? ==> p == prev
    ensures prev <= ProgressCeiling ==> (p == CompleteProgress <==> Classify(r).Navigate?)
    ensures prev <= ProgressCeiling ==> prev <= p
    ensures prev <= ProgressCeiling && Classify(r).Reschedule? ==> p <= ProgressCeiling
  {
    match Classify(r)
    case Stop(_) => prev
    case Navigate(_) => CompleteProgress
    case Reschedule => Advance(prev, captured)
  }

  /** The index of the first reply that ends the polling, if any. */
  function FirstTerminal(rs: seq<PollResponse>): (k: Option<nat>)
    ensures k.Some? ==> k.value < |rs| && !Classify(rs[k.value]).Reschedule?
    ensures k.Some? ==> forall j :: 0 <= j < k.value ==> Classify(rs[j]).Reschedule?
    ensures k.None? ==> forall j :: 0 <= j < |rs| ==> Classify(rs[j]).Reschedule?
  {
    if |rs| == 0 then None
    else if !Classify(rs[0]).Reschedule? then Some(0)
    else match FirstTerminal(rs[1..])
      case None => None
      case Some(k) => Some(k + 1)
  }

  /** The progress shown after each poll of a loop fed the replies `rs`; the loop ends at the first terminal reply. */
  function Trace(prev: int, captured: int, rs: seq<PollResponse>): (t: seq<int>)
    ensures |t| <= |rs|
    ensures |rs| > 0 ==> |t| > 0
    decreases |rs|
  {
    if |rs| == 0 then []
    else
      var p := StepProgress(prev, captured, rs[0]);
      if Classify(rs[0]).Reschedule? then [p] + Trace(p, captured, rs[1..]) else [p]
  }

  /** The results handed to the results page by a loop fed `rs`. */
  function Handoffs(rs: seq<PollResponse>): seq<JsonObject>
    decreases |rs|
  {
    if |rs| == 0 then []
    else match Classify(rs[0])
      case Navigate(res) => [res]
      case Stop(_) => []
      case Reschedule => Handoffs(rs[1..])
  }

  /** The loop consumes the replies up to and including the first terminal one, and no reply after it. */
  lemma {:induction false} TraceLength(prev: int, captured: int, rs: seq<PollResponse>)
    ensures FirstTerminal(rs).Some? ==> |Trace(prev, captured, rs)| == FirstTerminal(rs).value + 1
    ensures FirstTerminal(rs).None? ==> |Trace(prev, captured, rs)| == |rs|
    decreases |rs|
  {
    if |rs| > 0 && Classify(rs[0]).Reschedule? {
      TraceLength(StepProgress(prev, captured, rs[0]), captured, rs[1..]);
    }
  }

  /**
   * Progress never decreases while polling, stays at or below 90 until the
   * end, and only the reply that completes the job lifts it, to exactly 100.
   */
  lemma {:induction false} TraceMonotone(prev: int, captured: int, rs: seq<PollResponse>)
    requires prev <= ProgressCeiling
    ensures var t := Trace(prev, captured, rs);
      && (forall i, j :: 0 <= i < j < |t| ==> t[i] <= t[j])
      && (forall i :: 0 <= i < |t| ==> prev <= t[i])
      && (forall i :: 0 <= i < |t| ==>
            t[i] <= ProgressCeiling || (i == |t| - 1 && t[i] == CompleteProgress && Classify(rs[i]).Navigate?))
      && (forall i :: 0 <= i < |t| && t[i] == CompleteProgress ==> Classify(rs[i]).Navigate?)
    decreases |rs|
  {
    if |rs| > 0 && Classify(rs[0]).Reschedule? {
      var p := StepProgress(prev, captured, rs[0]);
      TraceMonotone(p, captured, rs[1..]);
      var t := Trace(prev, captured, rs);
      var t' := Trace(p, captured, rs[1..]);
      assert t == [p] + t';
      forall i | 1 <= i < |t| ensures rs[i] == rs[1..][i - 1] && t[i] == t'[i - 1] { }
    }
  }

  /** At most one handoff, and there is one exactly when the first terminal reply completes the job with a result. */
  lemma {:induction false} AtMostOneHandoff(rs: seq<PollResponse>)
    ensures |Handoffs(rs)| <= 1
    ensures |Handoffs(rs)| == 1 <==> FirstTerminal(rs).Some? && Classify(rs[FirstTerminal(rs).value]).Navigate?
    ensures |Handoffs(rs)| == 1 ==> Handoffs(rs)[0] == Classify(rs[FirstTerminal(rs).value]).result
    decreases |rs|
  {
    if |rs| > 0 && Classify(rs[0]).Reschedule? {
      AtMostOneHandoff(rs[1..]);
    }
  }

  /** From the initial 10, running replies give 12, 14, 16, ... up to 90 when the captured value was below 90. */
  lemma {:induction false} TraceWhileRunning(prev: int, captured: int, rs: seq<PollResponse>)
    requires captured < ProgressCeiling && prev <= ProgressCeiling
    requires forall j :: 0 <= j < |rs| ==> Classify(rs[j]).Reschedule?
    ensures |Trace(prev, captured, rs)| == |rs|
    ensures forall i :: 0 <= i < |rs| ==> Trace(prev, captured, rs)[i] == Min(prev + ProgressStep * (i + 1), ProgressCeiling)
    decreases |rs|
  {
    if |rs| > 0 {
      var p := StepProgress(prev, captured, rs[0]);
      TraceWhileRunning(p, captured, rs[1..]);
      var t := Trace(prev, captured, rs);
      forall i | 1 <= i < |rs|
        ensures t[i] == Min(prev + ProgressStep * (i + 1), ProgressCeiling)
      {
        assert t[i] == Trace(p, captured, rs[1..])[i - 1];
      }
    }
  }

  /**
   * The stale guard: when the closure captured a value of 90 or more (a
   * re-submission after an attempt that reached 90 and then failed),
   * running replies never move the bar.
   */
  lemma {:induction false} StaleCaptureFreezesProgress(prev: int, captured: int, rs: seq<PollResponse>)
    requires captured >= ProgressCeiling
    requires forall j :: 0 <= j < |rs| ==> Classify(rs[j]).Reschedule?
    ensures forall i :: 0 <= i < |Trace(prev, captured, rs)| ==> Trace(prev, captured, rs)[i] == prev
    decreases |rs|
  {
    if |rs| > 0 {
      StaleCaptureFreezesProgress(prev, captured, rs[1..]);
    }
  }

  /** A job that is still running on three polls shows 10, 12, 14, 16. */
  lemma ThreeRunningPolls()
    ensures var running := StatusBody("processing", None);
      [InitialProgress] + Trace(InitialProgress, 0, [running, running, running]) == [10, 12, 14, 16]
  {
    var running := StatusBody("processing", None);
    TraceWhileRunning(InitialProgress, 0, [running, running, running]);
  }

  /** The upload page's state. */
  class UploadPage {
    var selectedFiles: map<Modality, Option<File>>
    var uploading: bool
    var progress: int
    /** The `progress` value the `checkStatus` closure of the current submission captured. */
    var capturedProgress: int

    ghost predicate Valid()
      reads this
    {
      forall m :: m in selectedFiles
    }

    constructor ()
      ensures Valid()
      ensures forall m :: selectedFiles[m].None?
      ensures !uploading && progress == 0 && capturedProgress == 0
    {
      var empty := map[T1 := None, T1c := None, T2 := None, Flair := None];
      forall m: Modality ensures m in empty && empty[m].None? {
        match m
        case T1 =>
        case T1c =>
        case T2 =>
        case Flair =>
      }
      selectedFiles := empty;
      uploading := false;
      progress := 0;
      capturedProgress := 0;
    }

    /** The submit button is enabled: not uploading and every slot filled. */
    predicate CanSubmit()
      requires Valid()
      reads this
      ensures CanSubmit() <==> !uploading && |SlotFiles(selectedFiles, SlotOrder)| == |SlotOrder|
    {
      AllSlotsFilled(selectedFiles);
      !uploading && forall m :: selectedFiles[m].Some?
    }

    /**
     * `handleFileSelect`: no file changes nothing; a name without the
     * suffix is rejected and no slot changes; otherwise only slot `m` is
     * overwritten.
     */
    method HandleFileSelect(m: Modality, file: Option<File>) returns (outcome: SelectOutcome)
      requires Valid()
      modifies this`selectedFiles
      ensures Valid()
      ensures file.None? ==> outcome == NoFile && selectedFiles == old(selectedFiles)
      ensures file.Some? && !HasNiftiSuffix(file.value.name) ==>
                outcome == Rejected(RejectMessage) && selectedFiles == old(selectedFiles)
      ensures file.Some? && HasNiftiSuffix(file.value.name) ==>
                outcome == Selected(SlotName(m) + " file selected") && selectedFiles[m] == file
      ensures forall m' :: m' != m ==> selectedFiles[m'] == old(selectedFiles[m'])
    {
      match file
      case None =>
        outcome := NoFile;
      case Some(f) =>
        if !EndsWith(f.name, ".nii") && !EndsWith(f.name, ".nii.gz") {
          outcome := Rejected(RejectMessage);
          return;
        }
        selectedFiles := selectedFiles[m := file];
        outcome := Selected(SlotName(m) + " file selected");
    }

    /** The `forEach` over the slots followed by the two `append`s of `handleUpload`. */
    method BuildForm(user: Identity) returns (form: seq<FormField>)
      requires Valid()
      ensures form == Form(selectedFiles, user)
      ensures CanSubmit() ==> |form| == 6
    {
      form := [];
      var i := 0;
      while i < |SlotOrder|
        invariant 0 <= i <= |SlotOrder|
        invariant form + SlotFiles(selectedFiles, SlotOrder[i..]) == SlotFiles(selectedFiles, SlotOrder)
      {
        var slot := selectedFiles[SlotOrder[i]];
        SlotFilesStep(selectedFiles, SlotOrder, i);
        if slot.Some? {
          var rest := SlotFiles(selectedFiles, SlotOrder[i + 1..]);
          assert form + [NiftiFile(slot.value)] + rest == form + ([NiftiFile(slot.value)] + rest);
          form := form + [NiftiFile(slot.value)];
        }
        i := i + 1;
      }
      assert SlotOrder[i..] == [];
      form := form + [TextField("user_id", user.uid), TextField("email", user.email)];
      if CanSubmit() {
        FormWhenAllFilled(selectedFiles, user);
      }
    }

    /**
     * `handleUpload`: marks the page as uploading with progress 0, sends
     * the form, and then starts polling (progress 10), waits forever (a
     * reply without `status_url` leaves `uploading` set), or reports the
     * failure and clears `uploading`.
     */
    method HandleUpload(user: Identity, reply: UploadReply) returns (form: seq<FormField>, outcome: SubmitOutcome)
      requires Valid()
      modifies this`uploading, this`progress, this`capturedProgress
      ensures Valid() && selectedFiles == old(selectedFiles)
      ensures form == Form(selectedFiles, user)
      ensures capturedProgress == old(progress)
      ensures reply.Replied? && reply.statusUrl.Some? && reply.statusUrl.value != "" ==>
                outcome == Polling(reply.statusUrl.value) && uploading && progress == InitialProgress
      ensures reply.Replied? && (reply.statusUrl.None? || reply.statusUrl.value == "") ==>
                outcome == Waiting && uploading && progress == 0
      ensures reply.PostFailed? ==> !uploading && progress == 0 && outcome == SubmitFailed(
                "Upload failed: " + (if reply.serverError.Some? && reply.serverError.value != ""
                                     then reply.serverError.value else "Network error"))
    {
      capturedProgress := progress;
      uploading := true;
      progress := 0;
      form := BuildForm(user);
      match reply
      case Replied(url) =>
        if url.Some? && url.value != "" {
          progress := InitialProgress;
          outcome := Polling(url.value);
        } else {
          outcome := Waiting;
        }
      case PostFailed(err) =>
        var detail := if err.Some? && err.value != "" then err.value else "Network error";
        outcome := SubmitFailed("Upload failed: " + detail);
        uploading := false;
    }

    /** One run of `checkStatus` on the reply `r`. */
    method CheckStatus(r: PollResponse) returns (outcome: PollOutcome)
      modifies this`uploading, this`progress
      ensures outcome == Classify(r)
      ensures progress == StepProgress(old(progress), capturedProgress, r)
      ensures uploading == (if outcome.Stop? then false else old(uploading))
    {
      match r
      case PollRequestFailed =>
        uploading := false;
        return Stop(StatusErrorToast);
      case StatusBody(status, result) =>
        if status == "failed" {
          uploading := false;
          return Stop(FailedToast);
        }
        if status == "complete" && result.Some? {
          progress := CompleteProgress;
          return Navigate(result.value);
        }
        if capturedProgress < ProgressCeiling {
          progress := Min(progress + ProgressStep, ProgressCeiling);
        }
        return Reschedule;
    }

    /**
     * The chain of `checkStatus` runs fed the replies `rs` in turn: a
     * `Reschedule` runs the next reply (the `setTimeout` callback calls
     * `checkStatus` again), the first other outcome ends the chain.
     * `trace` is the progress after each run; `handoffs` the navigations.
     */
    method PollLoop(rs: seq<PollResponse>) returns (trace: seq<int>, handoffs: seq<JsonObject>)
      requires progress <= ProgressCeiling
      modifies this`uploading, this`progress
      ensures trace == Trace(old(progress), capturedProgress, rs)
      ensures handoffs == Handoffs(rs)
      ensures progress == (if trace == [] then old(progress) else trace[|trace| - 1])
      ensures uploading == (old(uploading) && !EndsInStop(rs))
      decreases |rs|
    {
      if |rs| == 0 {
        return [], [];
      }
      var outcome := CheckStatus(rs[0]);
      var p := progress;
      if outcome.Reschedule? {
        var rest, later := PollLoop(rs[1..]);
        trace, handoffs := [p] + rest, later;
      } else if outcome.Navigate? {
        trace, handoffs := [p], [outcome.result];
      } else {
        trace, handoffs := [p], [];
      }
    }
  }

  /** The loop ends because a reply stopped it (a `failed` status or a request that threw). */
  function EndsInStop(rs: seq<PollResponse>): bool
    decreases |rs|
  {
    if |rs| == 0 then false
    else match Classify(rs[0])
      case Stop(_) => true
      case Navigate(_) => false
      case Reschedule => EndsInStop(rs[1..])
  }

  /** A loop ends in a stop exactly when its first terminal reply is a stop. */
  lemma {:induction false} EndsInStopSpec(rs: seq<PollResponse>)
    ensures EndsInStop(rs) <==> FirstTerminal(rs).Some? && Classify(rs[FirstTerminal(rs).value]).Stop?
    decreases |rs|
  {
    if |rs| > 0 && Classify(rs[0]).Reschedule? {
      EndsInStopSpec(rs[1..]);
    }
  }

  /** The facts the poll loop promises about its trace and its handoffs. */
  lemma PollLoopFacts(prev: int, captured: int, rs: seq<PollResponse>)
    requires prev <= ProgressCeiling
    ensures |Handoffs(rs)| <= 1
    ensures var t := Trace(prev, captured, rs); forall i, j :: 0 <= i < j < |t| ==> t[i] <= t[j]
    ensures var t := Trace(prev, captured, rs);
      (if t == [] then prev else t[|t| - 1]) == CompleteProgress <==> |Handoffs(rs)| == 1
  {
    AtMostOneHandoff(rs);
    TraceMonotone(prev, captured, rs);
    CompletionMatchesHandoff(prev, captured, rs);
  }

  /** The last progress shown is 100 exactly when the loop hands a result over. */
  lemma {:induction false} CompletionMatchesHandoff(prev: int, captured: int, rs: seq<PollResponse>)
    requires prev <= ProgressCeiling
    ensures var t := Trace(prev, captured, rs);
      (if t == [] then prev else t[|t| - 1]) == CompleteProgress <==> |Handoffs(rs)| == 1
    decreases |rs|
  {
    if |rs| > 0 && Classify(rs[0]).Reschedule? {
      var p := StepProgress(prev, captured, rs[0]);
      CompletionMatchesHandoff(p, captured, rs[1..]);
      var t' := Trace(p, captured, rs[1..]);
      if t' != [] {
        assert Trace(prev, captured, rs)[|Trace(prev, captured, rs)| - 1] == t'[|t'| - 1];
      }
    }
  }

}
