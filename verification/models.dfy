/**
 * The `UserUpload` model: its columns, its status choices and default,
 * its default ordering, the NIfTI file-name validator and the upload-path
 * builder.
 */
module UploadModels {
  import opened Wrappers
  import opened Strings
  import opened JsonValues
  import Sorting

  /** `STATUS_CHOICES`: stored value and human label, in declaration order. */
  const StatusChoices: seq<(string, string)> := [
    ("uploaded", "Uploaded"),
    ("processing", "Processing"),
    ("analyzing", "Analyzing"),
    ("complete", "Complete"),
    ("failed", "Failed")
  ]

  /** The status a freshly created row gets. */
  const DefaultStatus: string := "uploaded"

  /** The message of the `ValidationError` raised for a non-NIfTI name. */
  const NiftiErrorMessage: string := "File must be a NIfTI file (.nii or .nii.gz)"

  /** `status` holds one of the declared stored values. */
  predicate IsStatusChoice(s: string) {
    exists i :: 0 <= i < |StatusChoices| && StatusChoices[i].0 == s
  }

  /** One `UserUpload` row. `results` is `None` for SQL NULL. */
  datatype Row = Row(
    id: nat,
    batchId: string,
    userId: string,
    email: string,
    niftiFile: string,
    fileType: Option<string>,
    createdAt: int,
    results: Option<JsonObject>,
    status: string,
    errorMessage: Option<string>)

  /** Python truthiness of the `results` column: `None` and `{}` are false. */
  predicate ResultsTruthy(results: Option<JsonObject>) {
    results.Some? && |results.value| > 0
  }

  /** The row `UserUpload.objects.create(...)` inserts: every column not given takes its default. */
  function NewRow(id: nat, batchId: string, userId: string, email: string,
                  niftiFile: string, fileType: string, now: int): (r: Row)
    ensures IsStatusChoice(r.status) && r.status == StatusChoices[0].0
    ensures r.results.None? && r.errorMessage.None? && r.createdAt == now
    ensures r.id == id && r.batchId == batchId && r.fileType == Some(fileType)
  {
    assert StatusChoices[0].0 == DefaultStatus;
    Row(id, batchId, userId, email, niftiFile, Some(fileType), now, None, DefaultStatus, None)
  }

  /** The creation time, the key of `ordering = ['-created_at']`. */
  function CreatedAt(r: Row): int { r.createdAt }

  /** The rows in the model's default order: newest `created_at` first. */
  function NewestFirst(rows: seq<Row>): (r: seq<Row>)
    ensures Sorting.SortedDesc(r, CreatedAt)
    ensures multiset(r) == multiset(rows)
  {
    Sorting.SortDesc(rows, CreatedAt)
  }

  /**
   * `os.path.splitext` (POSIX): the extension runs from the last dot of the
   * last path component, unless that component has only dots before it.
   */
  function Splitext(p: string): (string, string) {
    var start := match LastIndexOf(p, '/') case None => 0 case Some(k) => k + 1;
    match LastIndexOf(p, '.')
    case None => (p, "")
    case Some(d) =>
      if start <= d && exists k :: start <= k < d && p[k] != '.' then (p[..d], p[d..])
      else (p, "")
  }

  /** The extension `validate_nifti` looks at. */
  function Extension(name: string): string { Splitext(name).1 }

  /** An extension is empty, or one dot followed by dot-free text. */
  lemma ExtensionShape(name: string)
    ensures var e := Extension(name); e == "" || (e[0] == '.' && '.' !in e[1..])
  {
    match LastIndexOf(name, '.')
    case None =>
    case Some(d) =>
      var e := Extension(name);
      if e != "" {
        assert e == name[d..];
        forall k | 0 <= k < |e[1..]| ensures e[1..][k] != '.' {
          assert e[1..][k] == name[d + 1 + k];
        }
      }
  }

  /** A string with one leading dot and no other ends in a dot-led suffix only if it is that suffix. */
  lemma DotLedSuffix(e: string, suffix: string)
    requires |e| > 0 && e[0] == '.' && '.' !in e[1..]
    requires |suffix| > 0 && suffix[0] == '.' && EndsWith(e, suffix)
    ensures e == suffix
  {
    var k := |e| - |suffix|;
    assert e[k..][0] == '.';
    if k > 0 {
      assert false;
    }
  }

  /** `validate_nifti`: accepts when the extension ends in `.nii` or `.gz`, raises otherwise. */
  function ValidateNifti(name: string): Result<(), string> {
    var ext := Extension(name);
    if EndsWith(ext, ".nii") || EndsWith(ext, ".gz") then Ok(()) else Err(NiftiErrorMessage)
  }

  /**
   * The validator accepts exactly the names whose extension is `.nii` or
   * `.gz`, and a rejection always carries the fixed message.
   */
  lemma ValidateNiftiSpec(name: string)
    ensures ValidateNifti(name).Ok? <==> Extension(name) == ".nii" || Extension(name) == ".gz"
    ensures ValidateNifti(name).Err? ==> ValidateNifti(name).error == NiftiErrorMessage
  {
    var e := Extension(name);
    ExtensionShape(name);
    if EndsWith(e, ".nii") { DotLedSuffix(e, ".nii"); }
    if EndsWith(e, ".gz") { DotLedSuffix(e, ".gz"); }
  }

  /** A name with a stem and the final extension `.nii` or `.gz` passes the validator. */
  lemma ValidateNiftiAccepts(stem: string, ext: string)
    requires ext == ".nii" || ext == ".gz"
    requires '/' !in stem && |stem| > 0 && stem[0] != '.'
    ensures ValidateNifti(stem + ext).Ok?
  {
    var p := stem + ext;
    var d := |stem|;
    assert p[d] == '.';
    assert forall j :: d < j < |p| ==> p[j] != '.';
    assert LastIndexOf(p, '.') == Some(d);
    assert '/' !in p by {
      forall j | 0 <= j < |p| ensures p[j] != '/' {
        if j < d { assert p[j] == stem[j]; }
      }
    }
    assert p[0] != '.';
    assert p[d..] == ext;
  }

  /** An upper-case extension is rejected: `x.NII` has the extension `.NII`. */
  lemma ValidateNiftiRejectsUpperCase()
    ensures ValidateNifti("x.NII").Err?
  {
    var p := "x.NII";
    assert p[1] == '.' && p[2] != '.' && p[3] != '.' && p[4] != '.';
    assert '/' !in p;
    assert p[0] != '.';
    assert Extension(p) == ".NII";
  }

  /** A name without a dot has no extension and is rejected. */
  lemma ValidateNiftiRejectsNoExtension()
    ensures ValidateNifti("x").Err?
  {
    assert '.' !in "x";
  }

  /** A bare `.nii` is a hidden file's name, not an extension, and is rejected. */
  lemma ValidateNiftiRejectsBareExtension()
    ensures ValidateNifti(".nii").Err?
  {
    var p := ".nii";
    assert p[0] == '.' && p[1] != '.' && p[2] != '.' && p[3] != '.';
    assert Extension(p) == "";
  }

  /** `os.path.join(a, b)` with two components (POSIX). */
  function PathJoin(a: string, b: string): string {
    if StartsWith(b, "/") then b
    else if a == "" || EndsWith(a, "/") then a + b
    else a + "/" + b
  }

  /** `get_upload_path`: `uploads/<uuid>.<text after the last dot of the name>`. */
  function GetUploadPath(uuid: string, filename: string): string {
    var parts := Split(filename, '.');
    PathJoin("uploads", uuid + "." + parts[|parts| - 1])
  }

  /**
   * The stored name keeps only the text after the LAST dot: that text has
   * no dot, ends the original name, and follows a dot when there is one.
   */
  lemma GetUploadPathShape(uuid: string, filename: string)
    requires |uuid| > 0 && uuid[0] != '/'
    ensures exists ext ::
      && GetUploadPath(uuid, filename) == "uploads/" + uuid + "." + ext
      && '.' !in ext
      && EndsWith(filename, ext)
      && ('.' in filename ==> EndsWith(filename, "." + ext))
      && ('.' !in filename ==> ext == filename)
  {
    var parts := Split(filename, '.');
    var ext := parts[|parts| - 1];
    var b := uuid + "." + ext;
    assert !StartsWith(b, "/") by { assert b[0] == uuid[0]; }
    assert GetUploadPath(uuid, filename) == "uploads/" + uuid + "." + ext;
    JoinSplit(filename, '.');
    SplitSingle(filename, '.');
    if '.' in filename {
      JoinLast(parts, ".");
      var front := Join(parts[..|parts| - 1], ".");
      assert filename == front + "." + ext;
      assert filename[|filename| - |"." + ext|..] == "." + ext;
      assert filename[|filename| - |ext|..] == ext;
    } else {
      assert filename == ext;
    }
  }
}
