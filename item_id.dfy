/**
 * Extraction of a listing's legacy item identifier from its URL: the text
 * after the first "/itm/" up to the next '/' or '?'.
 */
module ItemId {
  import opened Wrappers

  /** The path marker that precedes the identifier. */
  const Marker: string := "/itm/"

  /** The characters that end the identifier. */
  predicate IsSeparator(c: char) {
    c == '/' || c == '?'
  }

  predicate NoSeparator(s: string) {
    forall i :: 0 <= i < |s| ==> !IsSeparator(s[i])
  }

  /** `pat` occurs in `s` starting at index `k`. */
  predicate OccursAt(s: string, pat: string, k: int) {
    0 <= k && k + |pat| <= |s| && s[k..k + |pat|] == pat
  }

  /** The first index at or after `from` where `pat` occurs in `s` (`str::find`). */
  function FindFrom(s: string, pat: string, from: nat): (r: Option<nat>)
    ensures r.Some? ==> from <= r.value && OccursAt(s, pat, r.value)
    ensures r.Some? ==> forall j :: from <= j < r.value ==> !OccursAt(s, pat, j)
    ensures r.None? ==> forall j :: from <= j ==> !OccursAt(s, pat, j)
    decreases |s| - from
  {
    if from + |pat| > |s| then None
    else if s[from..from + |pat|] == pat then Some(from)
    else FindFrom(s, pat, from + 1)
  }

  function Find(s: string, pat: string): Option<nat> {
    FindFrom(s, pat, 0)
  }

  /**
   * The first piece of `s` split at '/' and '?': the longest prefix
   * without a separator (`split(..).next()`, which always yields a piece).
   */
  function FirstPiece(s: string): (r: string)
    ensures r <= s && NoSeparator(r)
    ensures |r| < |s| ==> IsSeparator(s[|r|])
  {
    if s == [] || IsSeparator(s[0]) then [] else [s[0]] + FirstPiece(s[1..])
  }

  /** The identifier in `url`, or `None` when there is no marker or the piece after it is empty. */
  function ExtractItemId(url: string): (r: Option<string>)
    ensures (forall k :: !OccursAt(url, Marker, k)) ==> r == None
    ensures r.Some? ==> r.value != [] && NoSeparator(r.value)
  {
    match Find(url, Marker)
    case None => None
    case Some(idx) =>
      var idPart := FirstPiece(url[idx + |Marker|..]);
      if idPart != [] then Some(idPart) else None
  }

  /** `FirstPiece` is the only prefix without separators that stops at a separator or the end. */
  lemma FirstPieceUnique(s: string, t: string)
    requires t <= s && NoSeparator(t)
    requires |t| < |s| ==> IsSeparator(s[|t|])
    ensures FirstPiece(s) == t
  {
  }

  /**
   * The result of `ExtractItemId` in terms of the first occurrence `k` of the
   * marker: `None` exactly when the text after it is empty or starts with a
   * separator, and otherwise the separator-free prefix of that text that
   * stops at a separator or at the end.
   */
  lemma ExtractAtFirstMarker(url: string, k: nat)
    requires OccursAt(url, Marker, k)
    requires forall j :: 0 <= j < k ==> !OccursAt(url, Marker, j)
    ensures var after := url[k + |Marker|..];
      && (ExtractItemId(url) == None <==> after == [] || IsSeparator(after[0]))
      && (ExtractItemId(url).Some? ==>
            var id := ExtractItemId(url).value;
            id <= after && (|id| < |after| ==> IsSeparator(after[|id|])))
  {
    assert Find(url, Marker) == Some(k);
    var after := url[k + |Marker|..];
    if after != [] && !IsSeparator(after[0]) {
      assert FirstPiece(after)[0] == after[0];
    }
  }

  /** Appending text after the marker does not change where the marker is first found. */
  lemma FindExtended(host: string, rest: string)
    requires forall j :: 0 <= j < |host| ==> !OccursAt(host + Marker, Marker, j)
    ensures Find(host + Marker + rest, Marker) == Some(|host|)
  {
    var url := host + Marker + rest;
    assert OccursAt(url, Marker, |host|) by {
      assert url[|host|..|host| + |Marker|] == Marker;
    }
    forall j | 0 <= j < |host|
      ensures !OccursAt(url, Marker, j)
    {
      assert !OccursAt(host + Marker, Marker, j);
      assert url[j..j + |Marker|] == (host + Marker)[j..j + |Marker|];
    }
  }

  /**
   * A listing URL built from a host part without the marker, the marker, a
   * non-empty identifier and a tail that is empty or starts with a separator
   * yields exactly that identifier.
   */
  lemma ExtractFromListingUrl(host: string, id: string, tail: string)
    requires forall j :: 0 <= j < |host| ==> !OccursAt(host + Marker, Marker, j)
    requires id != [] && NoSeparator(id)
    requires tail == [] || IsSeparator(tail[0])
    ensures ExtractItemId(host + Marker + id + tail) == Some(id)
  {
    var url := host + Marker + id + tail;
    assert url == host + Marker + (id + tail);
    FindExtended(host, id + tail);
    assert url[|host| + |Marker|..] == id + tail;
    FirstPieceUnique(id + tail, id);
  }

  /** A host part without any '/' cannot hold the marker. */
  lemma SlashFreeHost(host: string)
    requires '/' !in host
    ensures forall j :: 0 <= j < |host| ==> !OccursAt(host + Marker, Marker, j)
  {
    forall j | 0 <= j < |host|
      ensures !OccursAt(host + Marker, Marker, j)
    {
      assert (host + Marker)[j] == host[j];
    }
  }

  /** The identifier of a typical listing link. */
  lemma ExtractExample()
    ensures ExtractItemId("www.ebay.com" + Marker + "256012345678" + "?hash=item3b") == Some("256012345678")
  {
    var host := "www.ebay.com";
    assert '/' !in host;
    SlashFreeHost(host);
    assert NoSeparator("256012345678");
    ExtractFromListingUrl(host, "256012345678", "?hash=item3b");
  }

  /** A link whose identifier piece is empty yields no identifier. */
  lemma ExtractEmptyPiece()
    ensures ExtractItemId("ebay.com" + Marker + "?q=1") == None
  {
    var host := "ebay.com";
    SlashFreeHost(host);
    FindExtended(host, "?q=1");
  }
}
