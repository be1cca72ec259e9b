/**
 * The small pure helpers of the two servers: the client key of a request
 * (upload token in backend.py, client IP in app.py), the `/download/`
 * filename, the stored-file naming scheme and its inverse used for
 * display, the flag image markup, and the static-file whitelist.
 */
module Requests {
  import opened Wrappers
  import opened Text

  /** A header value counts only when present and non-empty (Python truthiness). */
  predicate Given(h: Option<string>) {
    h.Some? && h.value != []
  }

  /** The index of the first `token=` part, if any. */
  function FirstTokenPart(parts: seq<string>): (r: Option<nat>)
    ensures r.Some? ==> r.value < |parts| && StartsWith(parts[r.value], "token=")
    ensures r.Some? ==> forall j :: 0 <= j < r.value ==> !StartsWith(parts[j], "token=")
    ensures r.None? ==> forall j :: 0 <= j < |parts| ==> !StartsWith(parts[j], "token=")
  {
    if parts == [] then None
    else if StartsWith(parts[0], "token=") then Some(0)
    else match FirstTokenPart(parts[1..])
      case None => None
      case Some(i) => Some(i + 1)
  }

  /** The `&`-separated parts of the text after the first `?` of the path. */
  function QueryParts(path: string): seq<string> {
    match IndexOf(path, '?')
    case None => []
    case Some(q) => Split(path[q + 1..], '&')
  }

  /**
   * `get_token_from_request`: a non-empty `X-Upload-Token` header wins and
   * is stripped; otherwise the first query part starting with `token=`
   * gives the text after its first `=`, stripped; otherwise there is none.
   */
  function GetTokenFromRequest(header: Option<string>, path: string): (r: Option<string>)
    ensures Given(header) ==> r == Some(Strip(header.value))
    ensures !Given(header) && '?' !in path ==> r == None
    ensures !Given(header) ==> (r.Some? <==> FirstTokenPart(QueryParts(path)).Some?)
    ensures !Given(header) && r.Some? ==>
      exists i :: 0 <= i < |QueryParts(path)| && FirstTokenPart(QueryParts(path)) == Some(i)
                  && r.value == Strip(QueryParts(path)[i][|"token="|..])
  {
    if Given(header) then Some(Strip(header.value))
    else
      var parts := QueryParts(path);
      match FirstTokenPart(parts)
      case None => None
      // `part.split('=', 1)[1]`: the part starts with `token=`, so its first `=` is at index 5
      case Some(i) => Some(Strip(parts[i][|"token="|..]))
  }

  /**
   * A token sent as the only query parameter comes back as it was sent,
   * provided it has no `&` and no surrounding whitespace.
   */
  lemma QueryTokenRoundTrip(route: string, token: string)
    requires '?' !in route && '&' !in token
    requires token == [] || (!IsSpace(token[0]) && !IsSpace(token[|token| - 1]))
    ensures GetTokenFromRequest(None, route + "?token=" + token) == Some(token)
  {
    var path := route + "?token=" + token;
    var part := "token=" + token;
    assert path == route + ['?'] + part;
    IndexOfAfter(route, '?', part);
    assert path[|route| + 1..] == part;
    assert '&' !in part;
    assert IndexOf(part, '&') == None;
    assert QueryParts(path) == [part];
    assert StartsWith(part, "token=");
    assert part[|"token="|..] == token;
    StripTrimmed(token);
  }

  /** A non-empty header beats any token in the query string. */
  lemma HeaderWins(header: string, path: string)
    requires header != []
    ensures GetTokenFromRequest(Some(header), path) == Some(Strip(header))
  {
  }

  /**
   * `get_client_ip`: a non-empty `X-Real-IP` (stripped) wins; then the
   * first comma-separated element of a non-empty `X-Forwarded-For`
   * (stripped); then the socket peer address.
   */
  function GetClientIp(realIp: Option<string>, forwardedFor: Option<string>, peer: string): (ip: string)
    ensures Given(realIp) ==> ip == Strip(realIp.value)
    ensures !Given(realIp) && Given(forwardedFor) ==> ',' !in ip
    ensures !Given(realIp) && !Given(forwardedFor) ==> ip == peer
  {
    if Given(realIp) then Strip(realIp.value)
    else if Given(forwardedFor) then
      var first := Split(forwardedFor.value, ',')[0];
      assert ',' !in first;
      assert forall i :: 0 <= i < |Strip(first)| ==> Strip(first)[i] in first by {
        var n := LeadingSpaces(first);
        assert forall i :: 0 <= i < |Strip(first)| ==> Strip(first)[i] == first[n + i];
      }
      Strip(first)
  else peer
  }

  /**
   * Behind a chain of proxies `X-Forwarded-For` reads `client, proxy1,
   * proxy2`; the key is the client hop, stripped.
   */
  lemma {:induction false} ForwardedClientHop(hops: seq<string>, peer: string)
    requires |hops| >= 1 && Join(hops, ',') != []
    requires forall i :: 0 <= i < |hops| ==> ',' !in hops[i]
    ensures GetClientIp(None, Some(Join(hops, ',')), peer) == Strip(hops[0])
  {
    var xff := Join(hops, ',');
    if |hops| == 1 {
      assert IndexOf(xff, ',') == None;
    } else {
      assert xff == hops[0] + [','] + Join(hops[1..], ',');
      IndexOfAfter(hops[0], ',', Join(hops[1..], ','));
      assert xff[..|hops[0]|] == hops[0];
    }
  }

  /** `self.path[len('/download/'):].split('?')[0]`: the name between the prefix and any query. */
  function DownloadName(path: string): (name: string)
    requires StartsWith(path, "/download/")
    ensures '?' !in name
    ensures StartsWith(path, "/download/" + name)
    ensures |"/download/" + name| == |path| || path[|"/download/" + name|] == '?'
  {
    var rest := path[|"/download/"|..];
    var name := FirstField(rest, '?');
    assert path == "/download/" + rest;
    assert (path[..|"/download/" + name|] == "/download/" + name) by {
      assert rest[..|name|] == name;
    }
    name
  }

  /** The download link handed out for a stored file leads back to that file, with or without a query. */
  lemma DownloadLinkRoundTrip(name: string, query: string)
    requires '?' !in name
    ensures DownloadName("/download/" + name) == name
    ensures DownloadName("/download/" + name + "?" + query) == name
  {
    var p1 := "/download/" + name;
    assert p1[|"/download/"|..] == name;
    assert IndexOf(name, '?') == None;
    var p2 := "/download/" + name + "?" + query;
    var rest := name + "?" + query;
    assert p2[|"/download/"|..] == rest;
    assert rest == name + ['?'] + query;
    IndexOfAfter(name, '?', query);
  }

  /** A download link is none of the other GET routes, and it names its file. */
  lemma DownloadPathRoutes(name: string)
    requires '?' !in name
    ensures var path := "/download/" + name;
      && StartsWith(path, "/download/") && DownloadName(path) == name
      && path != "/" && path != "/index.html" && path != "/upload.sh"
      && !StartsWith(path, "/static/")
  {
    var path := "/download/" + name;
    DownloadLinkRoundTrip(name, "");
    assert path[1] == 'd';
    assert path[..|"/download/"|] == "/download/";
  }

  predicate IsLowerHex(c: char) {
    '0' <= c <= '9' || 'a' <= c <= 'f'
  }

  /** `uuid.uuid4().hex`: 32 lower-case hexadecimal digits. */
  predicate IsHex32(s: string) {
    |s| == 32 && forall i :: 0 <= i < 32 ==> IsLowerHex(s[i])
  }

  /**
   * The stored filename of an upload: `<uuid4 hex>_<client filename>` when
   * the multipart part carries a filename, else `<uuid4>.bin` (also for a
   * raw, non-multipart body). Both uuids are supplied by the caller.
   */
  function StoredName(hex: string, uuidText: string, clientName: string): (name: string)
    ensures clientName != [] ==> |name| == |hex| + 1 + |clientName| && name[..|hex|] == hex
                                 && name[|hex|] == '_' && name[|hex| + 1..] == clientName
    ensures clientName == [] ==> |name| == |uuidText| + 4 && name[..|uuidText|] == uuidText
                                 && name[|uuidText|..] == ".bin"
  {
    if clientName != [] then hex + "_" + clientName else uuidText + ".bin"
  }

  /** The test `clean_display_name` applies: longer than 33, `_` at 32, 32 lower-case hex digits before it. */
  predicate HasUploadPrefix(name: string) {
    |name| > 33 && name[32] == '_' && forall i :: 0 <= i < 32 ==> IsLowerHex(name[i])
  }

  /** `clean_display_name`: the client's filename, recovered from a stored name. */
  function CleanDisplayName(name: string): (r: string)
    ensures |r| <= |name| && r == name[|name| - |r|..]
    ensures r != [] || name == []
  {
    if HasUploadPrefix(name) then name[33..] else name
  }

  /** Naming round trip: the display name of a stored `hex_name` upload is the client's filename. */
  lemma NamingRoundTrip(hex: string, uuidText: string, clientName: string)
    requires IsHex32(hex) && clientName != []
    ensures CleanDisplayName(StoredName(hex, uuidText, clientName)) == clientName
  {
    var stored := StoredName(hex, uuidText, clientName);
    assert stored == hex + "_" + clientName;
    assert forall i :: 0 <= i < 32 ==> stored[i] == hex[i];
    assert stored[33..] == clientName;
  }

  /** `str(uuid.uuid4())`: 8-4-4-4-12 lower-case hexadecimal digits and dashes. */
  predicate IsUuidText(s: string) {
    && |s| == 36
    && (forall i :: 0 <= i < 36 ==> if i in {8, 13, 18, 23} then s[i] == '-' else IsLowerHex(s[i]))
  }

  /** A `.bin` name has a dash among its first 32 characters, so it is shown unchanged. */
  lemma BinNameShownAsIs(hex: string, uuidText: string)
    requires IsUuidText(uuidText)
    ensures CleanDisplayName(StoredName(hex, uuidText, "")) == uuidText + ".bin"
  {
    var stored := uuidText + ".bin";
    assert stored[8] == uuidText[8] == '-';
  }

  /** Any name not of the `hex_rest` form is shown as it is; one of that form loses its prefix. */
  lemma CleanDisplayNameCases(name: string)
    ensures CleanDisplayName(name) == name <==> !HasUploadPrefix(name)
  {
    if HasUploadPrefix(name) {
      assert |CleanDisplayName(name)| == |name| - 33;
    }
  }

  const FlagPrefix := "<img class=\"flag-img\" src=\"https://flagcdn.com/w20/"
  const FlagMiddle := ".png\" alt=\""
  const FlagSuffix := " flag\">"

  /**
   * `country_code_to_flag`: empty unless the code has exactly two
   * characters; otherwise the image tag with the lower-case code in the URL
   * and the upper-case code in the alt text.
   */
  function CountryCodeToFlag(code: Option<string>): (html: string)
    ensures html == [] <==> code.None? || |code.value| != 2
    ensures code.Some? && |code.value| == 2 ==>
      html == FlagPrefix + Lower(code.value) + FlagMiddle + Upper(code.value) + FlagSuffix
  {
    if code.None? || |code.value| != 2 then ""
    else FlagPrefix + Lower(code.value) + FlagMiddle + Upper(code.value) + FlagSuffix
  }

  /** The flag does not depend on the letter case the lookup service returns. */
  lemma FlagIgnoresCase(code: string)
    ensures CountryCodeToFlag(Some(Lower(code))) == CountryCodeToFlag(Some(code))
    ensures CountryCodeToFlag(Some(Upper(code))) == CountryCodeToFlag(Some(code))
  {
    LowerOfUpper(code);
    UpperOfLower(code);
    assert Lower(Lower(code)) == Lower(code);
    assert Upper(Upper(code)) == Upper(code);
  }

  datatype Asset = Missing | Asset(name: string, contentType: string)

  /**
   * The `/static/` branch of app.py: only `styles.css` and `app.js` are
   * served, and only when present in the static directory; `.css` files
   * go out as `text/css`, the rest as JavaScript.
   */
  function StaticAsset(rel: string, present: set<string>): (a: Asset)
    ensures a.Asset? <==> (rel == "styles.css" || rel == "app.js") && rel in present
    ensures a.Asset? ==> a.name == rel
    ensures a.Asset? ==> (a.contentType == "text/css" <==> rel == "styles.css")
  {
    if rel != "styles.css" && rel != "app.js" then Missing
    else if rel !in present then Missing
    else Asset(rel, if |rel| >= 4 && rel[|rel| - 4..] == ".css" then "text/css" else "application/javascript")
  }
}
