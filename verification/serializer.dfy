/**
 * `UserUploadSerializer`: the fields it exposes and its
 * `to_representation`, which turns relative artifact paths in `results`
 * into absolute URLs by editing the row's own `results` object.
 */
module UploadSerializer {
  import opened Wrappers
  import opened Strings
  import opened JsonValues
  import opened UploadModels
  import opened ArtifactUrls

  /** `Meta.fields`, in order: the keys of every serialized upload. */
  const Fields: seq<string> := ["id", "batch_id", "user_id", "email", "created_at", "results", "status", "error_message"]

  /** A serialized upload, one field per entry of `Fields`. */
  datatype Report = Report(
    id: nat,
    batchId: string,
    userId: string,
    email: string,
    createdAt: int,
    results: Option<JsonObject>,
    status: string,
    errorMessage: Option<string>)

  /** The fixed end of the `AttributeError` message. */
  const NoStartsWith: string := " object has no attribute 'startswith'"

  /** `str(e)` of the `AttributeError` raised when an artifact entry `v` is not a string. */
  function StartsWithError(v: Json): (m: string)
    ensures StartsWith(m, "'" + PyTypeName(v) + "'")
    ensures EndsWith(m, NoStartsWith)
  {
    var head := "'" + PyTypeName(v) + "'";
    var tail := NoStartsWith;
    var m := head + tail;
    assert m[..|head|] == head && m[|m| - |tail|..] == tail;
    m
  }

  /** The artifact keys the serializer rewrites, in the order it visits them. */
  const ArtifactKeys: seq<string> := ["static_image", "gif"]

  /** The plain field-by-field representation, before the artifact rewrite. */
  function Fieldwise(row: Row): Report {
    Report(row.id, row.batchId, row.userId, row.email, row.createdAt, row.results, row.status, row.errorMessage)
  }

  /**
   * One guarded rewrite: an absent key leaves the object alone, a string
   * not starting with `http` gets the base in front, and any other value
   * raises.
   */
  function PrefixEntry(results: JsonObject, key: string): (r: Result<JsonObject, string>)
    ensures r.Err? <==> key in results && !results[key].JStr?
    ensures r.Err? ==> r.error == StartsWithError(results[key])
    ensures r.Ok? ==> r.value.Keys == results.Keys
    ensures r.Ok? ==> forall k :: k in results && k != key ==> r.value[k] == results[k]
    ensures r.Ok? && key in results ==> r.value[key] == JStr(PrefixIfRelative(results[key].s))
  {
    if key !in results then Ok(results)
    else
      match results[key]
      case JStr(s) => Ok(results[key := JStr(PrefixIfRelative(s))])
      case _ => Err(StartsWithError(results[key]))
  }

  /** Both rewrites, `static_image` first; the first failure aborts. */
  function PrefixArtifacts(results: JsonObject): Result<JsonObject, string> {
    match PrefixEntry(results, "static_image")
    case Err(e) => Err(e)
    case Ok(m) => PrefixEntry(m, "gif")
  }

  /**
   * The rewrite succeeds exactly when each artifact entry present is a
   * string; it then keeps every key, touches no other entry, and leaves
   * each artifact entry as an absolute `http` URL.
   */
  lemma PrefixArtifactsSpec(results: JsonObject)
    ensures PrefixArtifacts(results).Ok? <==>
      (forall k :: k in ArtifactKeys && k in results ==> results[k].JStr?)
    ensures PrefixArtifacts(results).Ok? ==>
      var m := PrefixArtifacts(results).value;
      && m.Keys == results.Keys
      && (forall k :: k in results && k !in ArtifactKeys ==> m[k] == results[k])
      && (forall k :: k in ArtifactKeys && k in results ==>
            m[k] == JStr(PrefixIfRelative(results[k].s)) && StartsWith(m[k].s, "http"))
  {
    var first := PrefixEntry(results, "static_image");
    if first.Ok? {
      var m := PrefixArtifacts(results);
      if m.Ok? {
        forall k | k in ArtifactKeys && k in results
          ensures m.value[k] == JStr(PrefixIfRelative(results[k].s)) && StartsWith(m.value[k].s, "http")
        {
          PrefixIfRelativeIdempotent(results[k].s);
        }
      }
    }
  }

  /** Rewriting an already rewritten object changes nothing. */
  lemma PrefixArtifactsIdempotent(results: JsonObject)
    requires PrefixArtifacts(results).Ok?
    ensures PrefixArtifacts(PrefixArtifacts(results).value) == PrefixArtifacts(results)
  {
    var m := PrefixArtifacts(results).value;
    PrefixArtifactsSpec(results);
    PrefixArtifactsSpec(m);
    var m2 := PrefixArtifacts(m).value;
    forall k | k in ArtifactKeys && k in results ensures m2[k] == m[k] {
      PrefixIfRelativeIdempotent(results[k].s);
    }
    assert m2 == m;
  }

  /**
   * `to_representation`: a row with truthy `results` has its artifact
   * entries rewritten; a row with `None` or `{}` is represented as is.
   */
  function Represent(row: Row): (r: Result<Report, string>)
    ensures !ResultsTruthy(row.results) ==> r == Ok(Fieldwise(row))
    ensures ResultsTruthy(row.results) ==>
      (r.Ok? <==> PrefixArtifacts(row.results.value).Ok?) &&
      (r.Ok? ==> r.value == Fieldwise(row).(results := Some(PrefixArtifacts(row.results.value).value)))
  {
    if !ResultsTruthy(row.results) then Ok(Fieldwise(row))
    else
      match PrefixArtifacts(row.results.value)
      case Err(e) => Err(e)
      case Ok(m) => Ok(Fieldwise(row).(results := Some(m)))
  }

  /**
   * The row's `results` after `to_representation`: the rewrite edits the
   * row's own object, so a `gif` failure leaves `static_image` rewritten.
   */
  function ResultsAfter(results: Option<JsonObject>): Option<JsonObject> {
    if !ResultsTruthy(results) then results
    else
      match PrefixEntry(results.value, "static_image")
      case Err(_) => results
      case Ok(m) =>
        match PrefixEntry(m, "gif")
        case Err(_) => Some(m)
        case Ok(m2) => Some(m2)
  }

  /**
   * The representation shares its `results` with the row: when it is
   * produced, it carries exactly the row's edited object.
   */
  lemma RepresentAliasesRow(row: Row)
    ensures Represent(row).Ok? ==> Represent(row).value.results == ResultsAfter(row.results)
    ensures Represent(row).Ok? ==> Represent(row).value == Fieldwise(row.(results := ResultsAfter(row.results)))
  {
  }

  /** A failing `gif` entry still leaves the `static_image` edit on the row. */
  lemma PartialEditOnFailure()
    ensures var results := map["static_image" := JStr("/media/p.png"), "gif" := JNull];
      Represent(Row(1, "b", "u", "e", "f", None, 0, Some(results), "complete", None)) ==
        Err("'NoneType'" + NoStartsWith) &&
      ResultsAfter(Some(results)) == Some(results["static_image" := JStr(Base + "/media/p.png")])
  {
    var results := map["static_image" := JStr("/media/p.png"), "gif" := JNull];
    assert !StartsWith("/media/p.png", "http") by { assert "/media/p.png"[0] != "http"[0]; }
    assert ResultsTruthy(Some(results)) by { assert "gif" in results; }
    var m := results["static_image" := JStr(Base + "/media/p.png")];
    assert PrefixEntry(results, "static_image") == Ok(m);
    assert PrefixEntry(m, "gif") == Err(StartsWithError(JNull));
    assert "'" + PyTypeName(JNull) + "'" == "'NoneType'";
  }

  /** `many=True`: every row represented in order; the first failure aborts. */
  function RepresentAll(rows: seq<Row>): (r: Result<seq<Report>, string>)
    ensures r.Ok? <==> forall i :: 0 <= i < |rows| ==> Represent(rows[i]).Ok?
    ensures r.Ok? ==> |r.value| == |rows| && forall i :: 0 <= i < |rows| ==> r.value[i] == Represent(rows[i]).value
  {
    if rows == [] then Ok([])
    else
      match Represent(rows[0])
      case Err(e) => Err(e)
      case Ok(first) =>
        match RepresentAll(rows[1..])
        case Err(e) => Err(e)
        case Ok(rest) =>
          assert forall i :: 1 <= i < |rows| ==> rows[i] == rows[1..][i - 1];
          Ok([first] + rest)
  }

  /** A model instance whose `results` object the serializer edits in place. */
  class UploadInstance {
    var row: Row

    constructor (row: Row)
      ensures this.row == row
    {
      this.row := row;
    }

    /** `to_representation(instance)`, with its edits to the instance's `results`. */
    method ToRepresentation() returns (r: Result<Report, string>)
      modifies this
      ensures r == Represent(old(row))
      ensures row == old(row).(results := ResultsAfter(old(row.results)))
    {
      if ResultsTruthy(row.results) {
        var results := row.results.value;
        if "static_image" in results {
          match results["static_image"]
          case JStr(s) =>
            if !StartsWith(s, "http") {
              results := results["static_image" := JStr(Base + s)];
              row := row.(results := Some(results));
            } else {
              assert results["static_image" := JStr(PrefixIfRelative(s))] == results;
            }
          case _ =>
            return Err(StartsWithError(results["static_image"]));
        }
        if "gif" in results {
          match results["gif"]
          case JStr(s) =>
            if !StartsWith(s, "http") {
              results := results["gif" := JStr(Base + s)];
              row := row.(results := Some(results));
            } else {
              assert results["gif" := JStr(PrefixIfRelative(s))] == results;
            }
          case _ =>
            return Err(StartsWithError(results["gif"]));
        }
      }
      r := Ok(Fieldwise(row));
    }
  }
}
