# Brain-scan segmentation portal — Dafny model

This project models the core of a web application that segments brain
tumours in MRI scans. A signed-in user picks four NIfTI volumes (T1, T1c,
T2, FLAIR) on the upload page. The page posts them to the backend and polls
a status URL until processing completes. It then opens the results page,
which shows a still preview and an animation. Past uploads can be reopened
from the report history page and from the reports page. The backend:

- validates the upload and stores one `UserUpload` row per file;
- queues one processing task;
- reports a row's status;
- lists the latest completed row of each of a user's batches, with its
  artifact URLs made absolute by the serializer.

The processing run writes progress reports, then the final results or the
failure, to a row of the batch. It also builds the frame schedule of the
animation.

The model is split by source file:

| module | file | models |
|---|---|---|
| `UploadController` | upload_controller.dfy | the upload page (`Upload.jsx`) as a class: slots, submit button, multipart form, submission, the self-rescheduling status poll |
| `ResultsView` | results_view.dfy | the results page's mount decision, displayed URLs and animation source (`Results.jsx`) |
| `ArtifactUrls` | artifact_urls.dfy | `getCleanUrl` (results and history pages), the reports page's base stripping, the serializer's prefix rule |
| `ReportLists` | report_lists.dfy | the history page (`ReportsHistory.jsx`) and the reports page (`Reports.jsx`) |
| `Credentials` | credentials.dfy | the sign-in form (`SignIn.jsx`) and the password-reset form (`ForgotPassword.jsx`) as classes |
| `UploadApi` | upload_api.dfy | `upload_file`, `processing_status`, `get_user_reports` (`views.py`), over a `Server` object whose `rows` are the table and whose `queue` is the task queue |
| `UploadSerializer` | serializer.dfy | `UserUploadSerializer.to_representation`, including its in-place edit of the instance's `results` |
| `UploadModels` | models.dfy | the `UserUpload` row, `STATUS_CHOICES` and the default status, the default ordering, `validate_nifti`, `get_upload_path` |
| `Processing` | processing.dfy | `process_brain_scans` on an instance object that records its `save()` calls, and the frame schedule of `create_quick_visualization` |
| `EndToEnd` | end_to_end.dfy | properties across the page/backend boundary |
| `Strings`, `Sorting`, `JsonValues`, `Wrappers` | strings.dfy, sorting.dfy, json.dfy, wrappers.dfy | the JavaScript/Python string operations used (`replace` of the first occurrence, `split`, `startsWith`), a stable descending sort, `filter`, JSON values with both languages' truthiness |

Modelling conventions:

- **Effects become values.** Toasts, navigation and `setTimeout` are results:
  `Reschedule` is the next poll one second later; `Navigate(result)` is the
  delayed hand-off to the results page.
- **Outside inputs are parameters.** The answers of the authentication
  service and of HTTP requests are parameters. So are the clock, the batch
  uuid, and the stage at which a processing run raises.
- **JavaScript truthiness.** Every object is truthy, including `{}`.
- **Python truthiness.** `{}` is falsy.
- **Absence.** A missing key or `null`/`None` is `None`.

## Model

| member | source | states |
|---|---|---|
| UploadModels.NewRow | backend/api/models.py:38-46 | a created row has status `uploaded` (the first declared choice), NULL results and error message, the creation time, and the given batch and modality |
| UploadModels.NewestFirst | backend/api/models.py:48-49 | the default ordering is newest `created_at` first and is a permutation of the rows |
| UploadModels.ExtensionShape | backend/api/models.py:8 | the `splitext` extension is empty or one dot followed by dot-free text |
| UploadModels.ValidateNiftiSpec | backend/api/models.py:7-11 | the validator accepts exactly the names whose extension is `.nii` or `.gz`; a rejection carries the fixed message |
| UploadModels.ValidateNiftiAccepts | backend/api/models.py:8-10 | any plain stem followed by `.nii` or `.gz` passes (so `x.nii.gz` and `x.tar.gz` pass) |
| UploadModels.ValidateNiftiRejectsUpperCase | backend/api/models.py:8-11 | `x.NII` is rejected: the comparison is case-sensitive |
| UploadModels.ValidateNiftiRejectsNoExtension | backend/api/models.py:8-11 | a name without a dot is rejected |
| UploadModels.ValidateNiftiRejectsBareExtension | backend/api/models.py:8-11 | `.nii` alone is rejected: a leading dot does not start an extension |
| UploadModels.GetUploadPathShape | backend/api/models.py:24-27 | the path is `uploads/<uuid>.<ext>` where `ext` has no dot and is the text after the last dot of the name (the whole name when it has none) |
| ArtifactUrls.GetCleanUrlSpec | frontend/src/components/Results.jsx:63-67 | empty input gives the empty string; otherwise the result starts with the base, a base-free URL gets the base in front, and exactly the first occurrence of the base is removed |
| ArtifactUrls.GetCleanUrlIdempotent | frontend/src/components/ReportsHistory.jsx:16-20 | cleaning a cleaned URL changes nothing |
| ArtifactUrls.GetCleanUrlKeepsDoublePrefix | frontend/src/components/Results.jsx:65-66 | a doubly prefixed URL stays doubly prefixed |
| ArtifactUrls.CleanUrlValue | frontend/src/components/Results.jsx:63-67 | on any JavaScript value: absent or falsy gives `''`, a string is cleaned, and any other truthy value throws, exactly then |
| ArtifactUrls.StripBaseSpec | frontend/src/components/Reports.jsx:59-60 | stripping removes a leading base and leaves a base-free path unchanged |
| ArtifactUrls.StripBaseValue | frontend/src/components/Reports.jsx:59-60 | `replace` succeeds exactly on strings (an absent entry throws) and then strips the base |
| ArtifactUrls.PrefixIfRelativeIdempotent | backend/api/serializers.py:25-31 | the prefixed value starts with `http`, prefixing twice equals prefixing once, and a value starting with `http` is unchanged |
| ArtifactUrls.AllRoutesDisplaySameUrl | frontend/src/components/Results.jsx:90-91 | for a relative base-free path, the upload route, the history route and the reports route all display `base + path` |
| ResultsView.OnMount | frontend/src/components/Results.jsx:50-61 | the page redirects to `/upload` exactly when the state has no results; otherwise it shows them, and the completion toast fires exactly when `isNewUpload` is true |
| ResultsView.DisplayedUrls | frontend/src/components/Results.jsx:90-91 | rendering succeeds exactly when both entries can be cleaned; each displayed URL is empty or starts with the base |
| ResultsView.CleanUrlStartsWithBase | frontend/src/components/Results.jsx:63-67 | a cleaned value is empty or starts with the base |
| ResultsView.GifSourceBustsCache | frontend/src/components/Results.jsx:13-15 | the player's source keeps `src?speed=0.1&t=` in front, and two different times give two different sources |
| UploadSerializer.StartsWithError | backend/api/serializers.py:27-30 | the error message names the Python type in quotes and ends "object has no attribute 'startswith'" |
| UploadSerializer.PrefixEntry | backend/api/serializers.py:27-31 | one guarded rewrite: it fails exactly on a present non-string entry, with the `AttributeError` text of its type; keys are kept, other entries are untouched, and the entry gets the base unless it starts with `http` |
| UploadSerializer.PrefixArtifactsSpec | backend/api/serializers.py:24-32 | the rewrite succeeds exactly when each present artifact entry is a string; it keeps every key, leaves non-artifact entries unchanged, and leaves each artifact an `http` URL |
| UploadSerializer.PrefixArtifactsIdempotent | backend/api/serializers.py:25-31 | rewriting a rewritten object changes nothing |
| UploadSerializer.Represent | backend/api/serializers.py:22-33 | falsy results (`None`, `{}`) are represented field by field, unchanged; truthy results are represented rewritten, failing exactly when the rewrite fails |
| UploadSerializer.RepresentAliasesRow | backend/api/serializers.py:26-32 | the representation carries the row's own edited `results` object |
| UploadSerializer.PartialEditOnFailure | backend/api/serializers.py:26-31 | with a `None` `gif`, serialization raises `'NoneType' object has no attribute 'startswith'` yet the row's `static_image` stays rewritten |
| UploadSerializer.RepresentAll | backend/api/views.py:209 | `many=True` succeeds exactly when every row does, and keeps order and length |
| UploadSerializer.UploadInstance.constructor | backend/api/serializers.py:22 | the instance holds the row |
| UploadSerializer.UploadInstance.ToRepresentation | backend/api/serializers.py:22-33 | returns the representation of the old row and leaves the row with its `results` edited in place, including a partial edit when `gif` fails |
| ReportLists.CleanReport | frontend/src/components/ReportsHistory.jsx:35-42 | a report with `null` results throws; otherwise cleaning succeeds exactly when both entries can be cleaned, and only those two entries change |
| ReportLists.CleanAll | frontend/src/components/ReportsHistory.jsx:35-42 | the map succeeds exactly when every element does, element by element |
| ReportLists.HistoryListSpec | frontend/src/components/ReportsHistory.jsx:33-43 | the history fails exactly when a completed report cannot be cleaned; otherwise it is newest first, holds a cleaned copy of each completed report and nothing else, and every artifact URL in it is empty or on the base |
| ReportLists.CleanReportIdempotent | frontend/src/components/ReportsHistory.jsx:35-42 | cleaning a cleaned report changes nothing |
| ReportLists.Labels | frontend/src/components/ReportsHistory.jsx:85-88 | the labels run strictly downward from `n` to 1 |
| ReportLists.LoadHistory | frontend/src/components/ReportsHistory.jsx:22-55 | without a uid nothing is requested; a good body shows the history list; any failure keeps the old list and raises the failure toast; loading always ends false |
| ReportLists.ViewFromHistoryShowsQuietly | frontend/src/components/ReportsHistory.jsx:107-109 | opening a history entry shows its results without the completion toast |
| Sorting.InsertKeepsTies | frontend/src/components/ReportsHistory.jsx:43 | inserting into a sorted list keeps the relative order of the elements with any one key, the new one first |
| Sorting.SortDescStable | frontend/src/components/Reports.jsx:36 | the sort is stable: the elements with equal `created_at` keep their input order |
| ReportLists.ReportsList | frontend/src/components/Reports.jsx:34-36 | the reports page lists newest first exactly the reports with results, whatever their status, each as often as in the body |
| ReportLists.LoadReports | frontend/src/components/Reports.jsx:15-52 | without a uid nothing is requested; an empty body or a failed request sets the error (the server's text, else the default) and the toast, keeping the old list; otherwise the list is shown |
| ReportLists.HandleViewResults | frontend/src/components/Reports.jsx:56-69 | opening a report succeeds exactly when both entries are strings; it strips the base from those two entries only and sets `isNewUpload` to false |
| ReportLists.HandleViewResultsShowsQuietly | frontend/src/components/Reports.jsx:63-68 | the results page then shows without the completion toast |
| Credentials.EmailDomainSpec | frontend/src/components/SignIn.jsx:40 | the domain is absent exactly when there is no `@`; otherwise it runs from just after the first `@` to the next `@` or the end |
| Credentials.EmailDomainOf | frontend/src/components/SignIn.jsx:40 | conversely, that segment is the domain |
| Credentials.NoAtNotAllowed | frontend/src/components/SignIn.jsx:40-41 | an address without `@` has an undefined domain and fails the domain check |
| Credentials.AcceptedDomainPiece | frontend/src/components/SignIn.jsx:40-41 | an address whose piece after the first `@` is `nitk.edu.in` or `gmail.com` passes, whatever follows a later `@` |
| Credentials.DomainCheckReadsSecondPiece | frontend/src/components/SignIn.jsx:40-41 | `student@gmail.com@example.org` and `student@nitk.edu.in` pass the domain check; `student.gmail.com` does not |
| Credentials.ValidateSignIn | frontend/src/components/SignIn.jsx:34-45 | sign-in proceeds exactly with six or more characters and an allowed domain; the length is checked first |
| Credentials.ValidateReset | frontend/src/components/ForgotPassword.jsx:32-37 | a reset proceeds exactly with an allowed domain; there is no password check |
| Credentials.SignInAndResetAgreeOnDomain | frontend/src/components/ForgotPassword.jsx:32-37 | for a long enough password, the two forms accept and reject the same addresses with the same error |
| Credentials.SignInFailureSpec | frontend/src/components/SignIn.jsx:56-113 | the register link appears exactly for an unknown account or for bad credentials on an NITK address; an unlisted code gives the default message built from the service's text |
| Credentials.ResetFailure | frontend/src/components/ForgotPassword.jsx:48-60 | the three-way mapping of reset errors |
| Credentials.RememberEmail | frontend/src/components/SignIn.jsx:22-28 | a value already saved leaves the list unchanged; a new one is appended at the end |
| Credentials.RememberEmailKeepsDistinct | frontend/src/components/SignIn.jsx:22-28 | a list without repeats keeps none, and remembering twice is remembering once |
| Credentials.SignInForm.constructor | frontend/src/components/SignIn.jsx:11-18 | an empty form, not loading, no error |
| Credentials.SignInForm.HandleEmailInput | frontend/src/components/SignIn.jsx:20-29 | sets the address, and touches the saved list only when "Remember me" was already ticked |
| Credentials.SignInForm.SetPassword | frontend/src/components/SignIn.jsx:176 | sets the password |
| Credentials.SignInForm.SetRememberMe | frontend/src/components/SignIn.jsx:197 | sets the box |
| Credentials.SignInForm.HandleSignIn | frontend/src/components/SignIn.jsx:31-117 | the service is asked exactly when the checks pass; success goes to `/upload`; a refusal shows its notice; loading ends false whenever the service was asked |
| Credentials.ResetForm.constructor | frontend/src/components/ForgotPassword.jsx:10-16 | an empty form |
| Credentials.ResetForm.HandleEmailInput | frontend/src/components/ForgotPassword.jsx:18-27 | the same remembering rule as the sign-in form |
| Credentials.ResetForm.SetRememberMe | frontend/src/components/ForgotPassword.jsx:108 | sets the box |
| Credentials.ResetForm.HandleSubmit | frontend/src/components/ForgotPassword.jsx:29-64 | the service is asked exactly for an allowed domain, otherwise the domain error is shown; success sets the inbox message and clears the error; a refusal clears the message and sets its mapped error; loading ends false |
| UploadApi.MissingFields | backend/api/views.py:87-91 | each name is listed exactly when its field is missing or empty (an empty file list is missing), only those three names appear, each at most once, in the order `files`, `user_id`, `email` |
| UploadApi.CheckUpload | backend/api/views.py:87-101 | the upload passes exactly with four files and both fields present; a missing field gives the 400 listing the names, else a wrong count gives "Expected 4 files, got N" |
| UploadApi.BatchRows | backend/api/views.py:106-121 | the i-th file becomes a row with modality `file_types[i]`, consecutive ids, one shared batch, the i-th clock reading as its creation time, status `uploaded` and no results |
| UploadApi.Paths | backend/api/views.py:121 | the task's paths are the stored paths in modality order |
| UploadApi.StatusUrl | backend/api/views.py:137 | the status URL starts with `/api/status/` and ends with `/` |
| UploadApi.StatusUrlRoundTrip | backend/api/views.py:137 | the status URL is `/api/status/<digits>/`, and the digits read back give the row id |
| UploadApi.RemoveId | backend/api/views.py:124-125 | deleting a row keeps exactly the rows with other ids |
| UploadApi.RemoveAppendedHead | backend/api/views.py:124-125 | deleting the first created row leaves the earlier rows and the remaining created rows |
| UploadApi.FindRow | backend/api/views.py:154 | the lookup finds a row with the id, or none exists |
| UploadApi.Qualifying | backend/api/views.py:182-186 | exactly the user's complete rows with non-NULL results |
| UploadApi.BatchIds | backend/api/views.py:186 | every qualifying batch appears, once, and nothing else |
| UploadApi.InBatch | backend/api/views.py:196-200 | exactly the rows of one batch |
| UploadApi.Latest | backend/api/views.py:201 | `first()` under `-created_at` gives a row with the largest creation time |
| UploadApi.UniqueBatches | backend/api/views.py:182-188 | the batches ordered by their latest creation time, descending, each once |
| UploadApi.SelectMembers | backend/api/views.py:193-205 | a kept row is the latest of its batch and has truthy results, and every such latest row is kept |
| UploadApi.SelectOnePerBatch | backend/api/views.py:191-205 | at most one row per batch |
| UploadApi.SelectNewestFirst | backend/api/views.py:188-205 | the kept rows are newest first |
| UploadApi.ReportRowsSpec | backend/api/views.py:182-205 | the report lists only the user's complete rows with truthy results, the latest of each batch, one per batch, newest first; a batch appears exactly when its latest row has truthy results |
| UploadApi.EmptyLatestHidesBatch | backend/api/views.py:201-204 | a batch whose newest qualifying row holds `{}` is not reported, even if older rows hold results |
| UploadApi.Server.constructor | backend/api/views.py:38 | an empty table and an empty queue |
| UploadApi.Server.UploadFile | backend/api/views.py:71-149 | a failed check answers 400 and changes nothing; a failed creation answers 500 and leaves no row of the batch; otherwise four rows are appended, one task naming the first row is queued, and the reply is 202 with that row's status URL; ids stay increasing |
| UploadApi.Server.CreateBatch | backend/api/views.py:110-126 | either every file becomes a row with consecutive ids and its path is collected, or the named creation raises and the table is left as before; ids stay increasing |
| UploadApi.Server.DeleteCreated | backend/api/views.py:123-125 | the rollback leaves exactly the rows that existed before the upload |
| UploadApi.Server.ProcessingStatus | backend/api/views.py:151-161 | 404 "Upload not found" exactly when no row has the id; otherwise that row's status, results and error message |
| UploadApi.Server.GetUserReports | backend/api/views.py:175-219 | the loop with its seen-set returns the serialized report rows, or a 500 when serialization raises |
| UploadController.SlotFiles | frontend/src/components/Upload.jsx:113-115 | at most one file part per slot, all file parts |
| UploadController.FormWhenAllFilled | frontend/src/components/Upload.jsx:112-118 | with all slots filled: the four files in slot order, then `user_id`, then `email` |
| UploadController.SlotFilesComplete | frontend/src/components/Upload.jsx:113-115 | every slot contributes a file exactly when no slot is empty |
| UploadController.Classify | frontend/src/components/Upload.jsx:82-104 | a run stops exactly on a thrown request (toast "Error checking processing status") or a `failed` status (toast "Processing failed. Please try again."); it navigates exactly on `complete` with a result, carrying that result; otherwise it reschedules |
| UploadController.Advance | frontend/src/components/Upload.jsx:96-98 | progress stays within 90 and rises while the captured value is below 90; it does not move when the captured value is 90 or more |
| UploadController.StepProgress | frontend/src/components/Upload.jsx:82-98 | a stop leaves the progress alone; from at most 90, the progress reaches 100 exactly on a hand-off, never decreases, and stays within 90 while rescheduling |
| UploadController.FirstTerminal | frontend/src/components/Upload.jsx:82-99 | the index of the first reply that ends the polling; all replies before it reschedule |
| UploadController.Trace | frontend/src/components/Upload.jsx:77-105 | one progress value per poll run, and at least one when there is a reply |
| UploadController.TraceLength | frontend/src/components/Upload.jsx:82-99 | the loop consumes the replies up to the first terminal one and no more |
| UploadController.TraceMonotone | frontend/src/components/Upload.jsx:88-98 | progress never decreases and stays at or below 90, except for a final 100 from a completing reply |
| UploadController.AtMostOneHandoff | frontend/src/components/Upload.jsx:88-93 | at most one navigation, exactly when the first terminal reply is `complete` with a result, carrying that result |
| UploadController.TraceWhileRunning | frontend/src/components/Upload.jsx:96-98 | running replies give `min(prev + 2(i+1), 90)` |
| UploadController.StaleCaptureFreezesProgress | frontend/src/components/Upload.jsx:96 | with a captured value of 90 or more, running replies never move the bar |
| UploadController.ThreeRunningPolls | frontend/src/components/Upload.jsx:96-99 | from 10, three running replies show 10, 12, 14, 16 |
| UploadController.AllSlotsFilled | frontend/src/components/Upload.jsx:113-115 | every slot is filled exactly when the form gets one file part per slot |
| UploadController.UploadPage.CanSubmit | frontend/src/components/Upload.jsx:197 | the button is enabled exactly when the page is not uploading and every slot contributes a file part |
| UploadController.UploadPage.constructor | frontend/src/components/Upload.jsx:9-18 | all slots empty, not uploading, progress 0 |
| UploadController.UploadPage.HandleFileSelect | frontend/src/components/Upload.jsx:55-68 | no file changes nothing; a name without the suffix is rejected with no slot changed; otherwise only the chosen slot changes |
| UploadController.UploadPage.BuildForm | frontend/src/components/Upload.jsx:112-118 | the `forEach` loop builds the form, six parts when the button is enabled |
| UploadController.UploadPage.HandleUpload | frontend/src/components/Upload.jsx:107-132 | a reply with `status_url` starts polling at 10; one without it leaves the page uploading at 0; a failure shows the server's error or "Network error" and clears uploading |
| UploadController.UploadPage.CheckStatus | frontend/src/components/Upload.jsx:77-105 | a failed status or a thrown request stops with its toast and clears uploading; complete with a result sets 100 and navigates; anything else advances and reschedules |
| UploadController.UploadPage.PollLoop | frontend/src/components/Upload.jsx:99 | the chain of polls runs each reply in turn until the first terminal one; trace and hand-offs are as specified |
| UploadController.EndsInStopSpec | frontend/src/components/Upload.jsx:82-86 | the loop ends in a stop exactly when its first terminal reply stops it |
| UploadController.PollLoopFacts | frontend/src/components/Upload.jsx:77-105 | at most one hand-off, progress non-decreasing, and the final 100 exactly when a hand-off happens |
| UploadController.CompletionMatchesHandoff | frontend/src/components/Upload.jsx:88-93 | the last progress is 100 exactly when the loop hands a result over |
| Processing.ReportsBefore | backend/CODE_BRAINSEG/UNET_for_Multimodal_Semantic_Segmentation/process_files.py:78-98 | every stage that can raise comes after at least two and at most five progress reports |
| Processing.Basename | backend/CODE_BRAINSEG/UNET_for_Multimodal_Semantic_Segmentation/process_files.py:72 | the base name has no `/` and ends the path |
| Processing.BasenameOfJoin | backend/CODE_BRAINSEG/UNET_for_Multimodal_Semantic_Segmentation/process_files.py:72 | the base name of the output directory is the batch id it was joined from |
| Processing.ImagesUpTo | backend/CODE_BRAINSEG/UNET_for_Multimodal_Semantic_Segmentation/process_files.py:82-84 | the first `n` pairs of the `zip` map the i-th modality name to the i-th path, and no other key is present |
| Processing.LoadScans | backend/CODE_BRAINSEG/UNET_for_Multimodal_Semantic_Segmentation/process_files.py:82-84 | the loading loop builds the `images` dictionary of the `zip`, which stops at the shorter list |
| Processing.Stacked | backend/CODE_BRAINSEG/UNET_for_Multimodal_Semantic_Segmentation/process_files.py:87-90 | stacking succeeds exactly when all four modalities are loaded, and channel i is modality i |
| Processing.StackedFollowsPaths | backend/CODE_BRAINSEG/UNET_for_Multimodal_Semantic_Segmentation/process_files.py:82-90 | with four or more paths, channel i holds the i-th path (later paths are ignored); with fewer, the stacking raises |
| Processing.LookupBatch | backend/CODE_BRAINSEG/UNET_for_Multimodal_Semantic_Segmentation/process_files.py:73 | no row exactly when no row has the batch; otherwise a newest row of the batch |
| Processing.UploadObj.constructor | backend/CODE_BRAINSEG/UNET_for_Multimodal_Semantic_Segmentation/process_files.py:73 | the instance carries the row's status, results and error message |
| Processing.UploadObj.Save | backend/CODE_BRAINSEG/UNET_for_Multimodal_Semantic_Segmentation/process_files.py:70 | one write of the current status, results and error message |
| Processing.UploadObj.UpdateProgress | backend/CODE_BRAINSEG/UNET_for_Multimodal_Semantic_Segmentation/process_files.py:63-70 | status `processing`, the progress object as results, error message unchanged, then one write |
| Processing.UploadObj.MarkFailed | backend/CODE_BRAINSEG/UNET_for_Multimodal_Semantic_Segmentation/process_files.py:118-121 | status `failed`, the message, results unchanged, then one write |
| Processing.Reports | backend/CODE_BRAINSEG/UNET_for_Multimodal_Semantic_Segmentation/process_files.py:78-98 | `n` steps write `n` progress reports |
| Processing.ReportsAt | backend/CODE_BRAINSEG/UNET_for_Multimodal_Semantic_Segmentation/process_files.py:78-98 | the i-th progress write reports the i-th step |
| Processing.ReportsProgress | backend/CODE_BRAINSEG/UNET_for_Multimodal_Semantic_Segmentation/process_files.py:63-98 | every progress report is a `processing` write that keeps the error message, and the reported progress strictly rises |
| Processing.ExpectedSavesSpec | backend/CODE_BRAINSEG/UNET_for_Multimodal_Semantic_Segmentation/process_files.py:61-122 | every write holds a declared status; progress strictly rises over the `processing` writes; a run ends `complete` at 100 or `failed` with the message and the last progress left in place |
| Processing.FailedRunSaves | backend/CODE_BRAINSEG/UNET_for_Multimodal_Semantic_Segmentation/process_files.py:116-122 | a run failing in a stage writes that stage's reports and then one `failed` write |
| Processing.ReportStep | backend/CODE_BRAINSEG/UNET_for_Multimodal_Semantic_Segmentation/process_files.py:78-98 | each `update_progress` call extends the writes by the next step |
| Processing.FailIn | backend/CODE_BRAINSEG/UNET_for_Multimodal_Semantic_Segmentation/process_files.py:116-122 | the failure handler completes a failed run's writes |
| Processing.FinishRun | backend/CODE_BRAINSEG/UNET_for_Multimodal_Semantic_Segmentation/process_files.py:101-114 | the success path stores the final results, saves once as `complete`, and returns those results |
| Processing.ProcessBrainScans | backend/CODE_BRAINSEG/UNET_for_Multimodal_Semantic_Segmentation/process_files.py:61-122 | without an instance it raises "Upload object not found" and writes nothing; otherwise it performs exactly the expected writes, leaves the row saved, and returns the final results or raises the stage's error |
| Processing.PreviewSlice | backend/CODE_BRAINSEG/UNET_for_Multimodal_Semantic_Segmentation/process_files.py:198 | the preview index is the middle of the counted axis: below the count when it is positive, and at most one off the centre |
| Processing.Forward | backend/CODE_BRAINSEG/UNET_for_Multimodal_Semantic_Segmentation/process_files.py:226-243 | five frames per sampled slice |
| Processing.Reverse | backend/CODE_BRAINSEG/UNET_for_Multimodal_Semantic_Segmentation/process_files.py:245 | the list read backwards |
| Processing.FrameScheduleSpec | backend/CODE_BRAINSEG/UNET_for_Multimodal_Semantic_Segmentation/process_files.py:223-245 | the animation is a palindrome of length 10 times the number of sampled slices; it shows only even slices below the depth and rises through its first half |
| Processing.CreateFrames | backend/CODE_BRAINSEG/UNET_for_Multimodal_Semantic_Segmentation/process_files.py:226-245 | the nested loop and the reverse extension build exactly the frame schedule |
| Processing.AsWrittenReadsPastLastSlice | backend/CODE_BRAINSEG/UNET_for_Multimodal_Semantic_Segmentation/process_files.py:226-230 | as written, a 240×240×144 volume makes animation frame 360 read slice 144, past the last slice 143 |
| Processing.VisualizationReadsOnlySlices | backend/CODE_BRAINSEG/UNET_for_Multimodal_Semantic_Segmentation/process_files.py:198-230 | counting slices along the third axis, every slice read exists |
| EndToEnd.ReceivedFiles | backend/api/views.py:77 | the view receives no more files than the body has parts |
| EndToEnd.FieldValue | backend/api/views.py:78-79 | nothing exactly when no text part has that name; otherwise the value of a text part with that name after which no part has it (the last one) |
| EndToEnd.FieldValueTakesLast | backend/api/views.py:78 | a repeated `user_id` reads as its second value |
| EndToEnd.SubmittedFormIsAccepted | backend/api/views.py:87-121 | a form the upload page lets the user submit passes both checks of the upload view, and the i-th row gets the modality of the slot its file was picked in |
| EndToEnd.SubmittablePageIsAccepted | frontend/src/components/Upload.jsx:197 | whenever the submit button is enabled for a signed-in user, the form the page sends passes both checks of the upload view (backend/api/views.py:87-101) |
| EndToEnd.NewBatchLookup | backend/api/views.py:110-137 | with increasing clock readings and a fresh batch id, the run's lookup (process_files.py:73) finds the FLAIR row, `uploads[3]`, not the row `uploads[0]` the status URL names |
| EndToEnd.BatchLoadsByModality | backend/api/views.py:106-121 | the i-th stored row has modality i, and the run (process_files.py:82-90) loads its path as that modality and stacks the stored paths in order |
| EndToEnd.RunAsPolled | frontend/src/components/Upload.jsx:82-99 | polling the row a run writes: every write but the last reschedules; the last navigates with the final results on success and stops on failure |
| EndToEnd.ArtifactPathFree | backend/CODE_BRAINSEG/UNET_for_Multimodal_Semantic_Segmentation/process_files.py:101-103 | an artifact path of a batch id without `:` holds no copy of the base and gets the base prepended by the serializer |
| EndToEnd.ArtifactDisplaysAlike | backend/CODE_BRAINSEG/UNET_for_Multimodal_Semantic_Segmentation/process_files.py:101-103 | the three routes to the results page display the same URL for each artifact of a finished run |
| EndToEnd.FinishedRunSerialized | backend/api/serializers.py:27-31 | a finished run's row serializes with both artifact paths made absolute on the base |

## Left out

- **I/O.** HTTP transport, `axios`, `localStorage` reads and writes, the Firebase calls and the React runtime are not modelled. The saved address list, the service answers and the HTTP replies are parameters; toasts and navigation are returned values.
- **Timers.** The one-second waits are not modelled. `Reschedule` and `Navigate` stand for the scheduled callbacks.
- **Google sign-in.** `handleGoogleSignIn` (SignIn.jsx:119-131) only calls the foreign sign-in popup, then toasts and navigates; it is not modelled.
- **Background processor.** `background_processor`, its thread, lock and queue draining are concurrency (views.py:38-69); the model stops at the queued task. That processor writes `processing`, then the results and `complete` or `failed`, to `uploads[0]` — the row the status URL names. `process_brain_scans` writes its progress to the newest row of the batch, which `EndToEnd.NewBatchLookup` shows is `uploads[3]`. The page therefore polls a row that sees none of the progress reports. `EndToEnd.RunAsPolled` is about polling the row the run writes.
- **Dead code.** `load_model` (views.py:32-36) is not modelled: it is never called and calls an undefined function.
- **Numeric work.** Loading, normalising, inference, metric drawing and image rendering are floating-point tensor code in foreign libraries. A stage either finishes or raises, as a parameter says. The pairing of paths with modalities and the stacking order are modelled on their own (`Processing.LoadScans`, `Processing.Stacked`), with each volume stood for by its path; `Processing.ProcessBrainScans` does not call them, and a `KeyError` from stacking is one of the failures its stage parameter covers.
- **Frames as indices.** Frames are represented by the slice index they show.
- Processing.ProcessBrainScans: a failure between the first two progress reports (choosing the torch device) is not a modelled stage.
- Processing.ProcessBrainScans: `calculate_metrics` and `time.time()` are parameters, and the time stamp is an integer rather than a float.
- **Numbers.** JSON numbers are integers. No modelled decision depends on a fractional part.
- **JSON arrays and floats.** JSON values are `null`, booleans, integers, strings and objects. An artifact entry that is a list or a float would raise the same `AttributeError` with the type name `'list'` or `'float'`; those values are not modelled.
- **`created_at` ties.** `auto_now_add` stamps each row when it is created, so the four rows of one upload get four clock readings, passed in as the parameter `times`; `EndToEnd.NewBatchLookup` assumes they strictly increase. Among rows with equal `created_at`, `Latest` and `NewestFirst` pick the earliest-listed row, and `UniqueBatches` orders batches with equal latest time by first appearance (the sort is stable, `Sorting.SortDescStable`). The database leaves both orders unspecified.
- **Storage.** Django's renaming of clashing file names is not modelled: a stored path is `uploads/` plus the received name.
- **Validators on create.** `validate_nifti` is not run by `objects.create`, so `upload_file` does not call it; the model keeps it as a separate function.
- **`get_upload_path`.** It is defined but not used by the field, whose `upload_to` is `'uploads/'`; it is modelled on its own.
- **Other upload errors.** Exceptions in `upload_file` other than a failing row creation (such as `os.makedirs`) are not modelled.
- **Unused progress state.** `calculateTotalProgress` and `processingSteps` (Upload.jsx:19-25, 70-74) are never used for display.
- **Password length.** JavaScript counts UTF-16 code units; the model counts characters.
- **Rendering.** JSX markup (spinners, empty-list messages, PDF download links) is not modelled.
- **Behaviour kept as the code has it:**
  - There is no cancellation and no guard against a stale poll loop, so the model has none: a poll keeps rescheduling after the page is left or a new upload starts. A re-submission's poll reads the progress its closure captured (`captured` in `Advance`).
  - A reply without `status_url` starts no poll, and the page stays in its uploading state.
  - Only the base `http://localhost:8000` is stripped or prepended; URLs on any other host are left as they are.

## Findings

| source | as written | input that shows it | evidently intended | confidence | as-written member | corrected member |
|---|---|---|---|---|---|---|
| backend/CODE_BRAINSEG/UNET_for_Multimodal_Semantic_Segmentation/process_files.py:198-230 | the slice count (preview index and animation range) is taken from `prediction.shape[0]`, the first axis, while slices are read as `img[:, :, z]` along the third | a 240×240×144 volume: animation frame 360 reads slice 144, past the last slice 143, so the visualization raises and the run fails. A 155-slice volume fails earlier, in inference: the network's four poolings and upsamplings (backend/CODE_BRAINSEG/UNET_for_Multimodal_Semantic_Segmentation/model.py:9-15, 48-51) need every axis to be a multiple of 16 | count slices along the axis they are read on, `shape[2]` | medium, not executed | Processing.AsWrittenReadsPastLastSlice | Processing.VisualizationReadsOnlySlices |
