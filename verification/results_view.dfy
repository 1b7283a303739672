/**
 * The results page: the decision taken when it mounts, the URLs it
 * displays, and the cache-busting source of its animation player.
 */
module ResultsView {
  import opened Wrappers
  import opened Strings
  import opened JsonValues
  import opened ArtifactUrls

  /** The router state handed to the page: `results` and the optional `isNewUpload` flag. */
  datatype NavState = NavState(results: Option<JsonObject>, isNewUpload: Option<bool>)

  /** What mounting the page does. */
  datatype Mount =
    | Redirect(path: string)
    | Show(results: JsonObject, toast: Option<string>)

  const CompletionToast: string := "Brain scan analysis complete!"

  /**
   * The mount effect: without results in the state the page goes back to
   * the upload page and keeps no results; otherwise it shows them, and it
   * announces completion only when `isNewUpload` is set.
   */
  function OnMount(state: Option<NavState>): (m: Mount)
    ensures m.Redirect? <==> state.None? || state.value.results.None?
    ensures m.Redirect? ==> m.path == "/upload"
    ensures m.Show? ==> m.results == state.value.results.value
    ensures m.Show? ==> (m.toast.Some? <==> state.value.isNewUpload == Some(true))
    ensures m.Show? && m.toast.Some? ==> m.toast.value == CompletionToast
  {
    match state
    case None => Redirect("/upload")
    case Some(NavState(results, isNew)) =>
      match results
      case None => Redirect("/upload")
      case Some(r) => Show(r, if isNew == Some(true) then Some(CompletionToast) else None)
  }

  /** The entry `key` of a results object, `undefined` when absent. */
  function Lookup(m: JsonObject, key: string): Option<Json> {
    if key in m then Some(m[key]) else None
  }

  /**
   * The two URLs the page renders, `getCleanUrl(results.static_image)` and
   * `getCleanUrl(results.gif)`; rendering throws when either is a truthy
   * non-string.
   */
  function DisplayedUrls(results: JsonObject): (r: Result<(string, string), string>)
    ensures r.Ok? ==> (r.value.0 == "" || StartsWith(r.value.0, Base)) && (r.value.1 == "" || StartsWith(r.value.1, Base))
    ensures r.Ok? <==> CleanUrlValue(Lookup(results, "static_image")).Ok? && CleanUrlValue(Lookup(results, "gif")).Ok?
  {
    var still := CleanUrlValue(Lookup(results, "static_image"));
    var anim := CleanUrlValue(Lookup(results, "gif"));
    if still.Err? then Err(still.error)
    else if anim.Err? then Err(anim.error)
    else
      CleanUrlStartsWithBase(Lookup(results, "static_image"));
      CleanUrlStartsWithBase(Lookup(results, "gif"));
      Ok((still.value, anim.value))
  }

  /** A cleaned value is empty or carries the base in front. */
  lemma CleanUrlStartsWithBase(v: Option<Json>)
    ensures CleanUrlValue(v).Ok? ==> CleanUrlValue(v).value == "" || StartsWith(CleanUrlValue(v).value, Base)
  {
    if v.Some? && v.value.JStr? { GetCleanUrlSpec(v.value.s); }
  }

  /** The `src` the animation player shows: the URL with a speed hint and the current time. */
  function GifSource(src: string, now: nat): string {
    src + "?speed=0.1&t=" + NatToString(now)
  }

  /** The player source keeps the URL in front, and two different times never give the same source. */
  lemma GifSourceBustsCache(src: string, t1: nat, t2: nat)
    ensures StartsWith(GifSource(src, t1), src + "?speed=0.1&t=")
    ensures t1 != t2 ==> GifSource(src, t1) != GifSource(src, t2)
  {
    var prefix := src + "?speed=0.1&t=";
    assert GifSource(src, t1) == prefix + NatToString(t1);
    assert (prefix + NatToString(t1))[..|prefix|] == prefix;
    if GifSource(src, t1) == GifSource(src, t2) {
      assert NatToString(t1) == GifSource(src, t1)[|prefix|..];
      assert NatToString(t2) == GifSource(src, t2)[|prefix|..];
      NatToStringInjective(t1, t2);
    }
  }
}
