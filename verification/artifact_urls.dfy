/**
 * The three rewritings that artifact URLs (the `static_image` and `gif`
 * entries of a job's results) go through: the server prefixes relative
 * paths, the history page and the results page normalise with
 * `getCleanUrl`, and the older reports page strips the base.
 */
module ArtifactUrls {
  import opened Wrappers
  import opened Strings
  import opened JsonValues

  /** The canonical base every displayed artifact URL carries. */
  const Base: string := "http://localhost:8000"

  /** The thrown `TypeError` when `replace` is called on a value that is not a string. */
  const ReplaceTypeError: string := "TypeError: url.replace is not a function"

  /**
   * `getCleanUrl` for a string argument: the empty string stays empty;
   * otherwise the first occurrence of the base is removed and the base is
   * put in front.
   */
  function GetCleanUrl(url: string): string {
    if url == "" then "" else Base + ReplaceFirst(url, Base, "")
  }

  /** What `getCleanUrl` returns, stated through occurrences of the base. */
  lemma GetCleanUrlSpec(url: string)
    ensures url == "" ==> GetCleanUrl(url) == ""
    ensures url != "" ==> StartsWith(GetCleanUrl(url), Base)
    ensures url != "" && Free(url, Base) ==> GetCleanUrl(url) == Base + url
    ensures forall i: nat :: OccursAt(url, Base, i) && (forall j :: 0 <= j < i ==> !OccursAt(url, Base, j)) ==>
              GetCleanUrl(url) == Base + url[..i] + url[i + |Base|..]
  {
    ReplaceFirstSpec(url, Base, "");
    if url != "" {
      var r := GetCleanUrl(url);
      assert r[..|Base|] == Base;
    }
  }

  /** `getCleanUrl` is idempotent: its output holds the base at index 0, the first occurrence it removes. */
  lemma GetCleanUrlIdempotent(url: string)
    ensures GetCleanUrl(GetCleanUrl(url)) == GetCleanUrl(url)
  {
    if url != "" {
      var t := ReplaceFirst(url, Base, "");
      RemoveLeadingOccurrence(Base, t);
    }
  }

  /** A doubly-prefixed URL stays doubly-prefixed: only one occurrence is removed. */
  lemma GetCleanUrlKeepsDoublePrefix(path: string)
    ensures GetCleanUrl(Base + Base + path) == Base + Base + path
  {
    RemoveLeadingOccurrence(Base, Base + path);
    assert Base + Base + path == Base + (Base + path);
  }

  /**
   * `getCleanUrl(v)` for any JavaScript value: a falsy or absent value gives
   * the empty string, a non-empty string is cleaned, and any other truthy
   * value makes `replace` throw.
   */
  function CleanUrlValue(v: Option<Json>): (r: Result<string, string>)
    ensures v.None? ==> r == Ok("")
    ensures v.Some? && !JsTruthy(v.value) ==> r == Ok("")
    ensures v.Some? && v.value.JStr? ==> r == Ok(GetCleanUrl(v.value.s))
    ensures r.Err? <==> v.Some? && JsTruthy(v.value) && !v.value.JStr?
  {
    match v
    case None => Ok("")
    case Some(j) =>
      if !JsTruthy(j) then Ok("")
      else if j.JStr? then Ok(GetCleanUrl(j.s))
      else Err(ReplaceTypeError)
  }

  /** `url.replace('http://localhost:8000', '')`: removes the first occurrence of the base. */
  function StripBase(url: string): string {
    ReplaceFirst(url, Base, "")
  }

  /** Stripping removes a leading base and leaves a base-free path alone. */
  lemma StripBaseSpec(path: string)
    ensures StripBase(Base + path) == path
    ensures Free(path, Base) ==> StripBase(path) == path
  {
    RemoveLeadingOccurrence(Base, path);
    if Free(path, Base) { ReplaceFirstAbsent(path, Base, ""); }
  }

  /**
   * `v.replace(...)` on any JavaScript value as the reports page calls it:
   * only a string has `replace`; anything else, `undefined` included, throws.
   */
  function StripBaseValue(v: Option<Json>): (r: Result<string, string>)
    ensures r.Ok? <==> v.Some? && v.value.JStr?
    ensures r.Ok? ==> r.value == StripBase(v.value.s)
  {
    match v
    case Some(JStr(s)) => Ok(StripBase(s))
    case _ => Err(ReplaceTypeError)
  }

  /** The serializer's rule: a value not starting with `http` gets the base prepended. */
  function PrefixIfRelative(url: string): string {
    if StartsWith(url, "http") then url else Base + url
  }

  /** Prefixing always yields a URL starting with `http`, so applying it twice equals applying it once. */
  lemma PrefixIfRelativeIdempotent(url: string)
    ensures StartsWith(PrefixIfRelative(url), "http")
    ensures PrefixIfRelative(PrefixIfRelative(url)) == PrefixIfRelative(url)
    ensures StartsWith(url, "http") ==> PrefixIfRelative(url) == url
  {
    if !StartsWith(url, "http") {
      var r := Base + url;
      assert r[..4] == "http";
    }
  }

  /**
   * Every route to the results page displays the same URL for a relative
   * server path `p` that holds no copy of the base: the raw status result
   * (upload page), the serializer's URL cleaned again (history page), and
   * the serializer's URL stripped (reports page) all become `Base + p`.
   */
  lemma AllRoutesDisplaySameUrl(p: string)
    requires p != "" && Free(p, Base) && !StartsWith(p, "http")
    ensures GetCleanUrl(p) == Base + p
    ensures GetCleanUrl(GetCleanUrl(PrefixIfRelative(p))) == Base + p
    ensures GetCleanUrl(StripBase(PrefixIfRelative(p))) == Base + p
  {
    GetCleanUrlSpec(p);
    RemoveLeadingOccurrence(Base, p);
    GetCleanUrlIdempotent(Base + p);
    StripBaseSpec(p);
  }
}
