/** `getFileUrl` of api.js: how a stored file path (an avatar, an uploaded
    audio file) becomes a URL the browser can load, relative to the API's
    base URL. */
module FileUrls {

  import opened Outcomes
  import opened JsStrings

  /** The base URL used when the build sets none. */
  const DefaultApiUrl := "http://localhost:5001"

  /** `process.env.REACT_APP_API_URL || 'http://localhost:5001'`. */
  function ApiUrl(configured: Option<string>): (r: string)
    ensures configured.Some? && configured.value != "" ==> r == configured.value
    ensures configured.None? || configured.value == "" ==> r == DefaultApiUrl
  {
    if configured.Some? && configured.value != "" then configured.value else DefaultApiUrl
  }

  predicate IsFullUrl(s: string)
  {
    StartsWith(s, "http://") || StartsWith(s, "https://")
  }

  /** `getFileUrl(filePath)`: a missing or empty path gives ''; a full URL is
      kept as it is; a path is appended to the base URL, with a '/' between
      them unless the path starts with one. */
  function GetFileUrl(apiUrl: string, filePath: Option<string>): (r: string)
    ensures filePath.None? || filePath.value == "" ==> r == ""
    ensures filePath.Some? && IsFullUrl(filePath.value) ==> r == filePath.value
    ensures filePath.Some? && filePath.value != "" && !IsFullUrl(filePath.value) ==>
              StartsWith(r, apiUrl) &&
              (StartsWith(filePath.value, "/") ==> |r| == |apiUrl| + |filePath.value|) &&
              (!StartsWith(filePath.value, "/") ==> |r| == |apiUrl| + 1 + |filePath.value| && r[|apiUrl|] == '/')
    ensures filePath.Some? ==> EndsWith(r, filePath.value)
  {
    if filePath.None? || filePath.value == "" then ""
    else
      var p := filePath.value;
      if IsFullUrl(p) then
        assert p[|p| - |p|..] == p;
        p
      else if StartsWith(p, "/") then
        StartsWithConcat(apiUrl, p, apiUrl);
        EndsWithConcat(apiUrl, p);
        apiUrl + p
      else
        StartsWithConcat(apiUrl, "/" + p, apiUrl);
        EndsWithConcat(apiUrl + "/", p);
        assert apiUrl + "/" + p == apiUrl + ("/" + p);
        assert (apiUrl + "/" + p)[|apiUrl|] == '/';
        apiUrl + "/" + p
  }

  /** With a full base URL every result is a full URL or empty, so resolving
      a resolved path again changes nothing. */
  lemma {:induction false} GetFileUrlIdempotent(apiUrl: string, filePath: Option<string>)
    requires IsFullUrl(apiUrl)
    ensures GetFileUrl(apiUrl, Some(GetFileUrl(apiUrl, filePath))) == GetFileUrl(apiUrl, filePath)
  {
    var r := GetFileUrl(apiUrl, filePath);
    if r != "" && !IsFullUrl(filePath.value) {
      if StartsWith(apiUrl, "http://") {
        StartsWithTransitive(r, apiUrl, "http://");
      } else {
        StartsWithTransitive(r, apiUrl, "https://");
      }
    }
  }

  lemma StartsWithTransitive(s: string, t: string, u: string)
    requires StartsWith(s, t) && StartsWith(t, u)
    ensures StartsWith(s, u)
  {
    assert s[..|u|] == t[..|t|][..|u|];
  }

  /** The default base URL is a full one, so its resolution is idempotent. */
  lemma DefaultResolutionIdempotent(filePath: Option<string>)
    ensures GetFileUrl(ApiUrl(None), Some(GetFileUrl(ApiUrl(None), filePath))) == GetFileUrl(ApiUrl(None), filePath)
  {
    assert DefaultApiUrl[..7] == "http://";
    GetFileUrlIdempotent(DefaultApiUrl, filePath);
  }
}
