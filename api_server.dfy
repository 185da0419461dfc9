/** The server-side fetch helpers of the web client (client/src/lib/api.server.ts):
    how the backend's base URL is resolved from the environment, the URLs it
    builds, and what a failed response turns into. The fetch itself is an
    input. */
module ApiServer {
  import opened Wrappers
  import opened Text
  import opened Schema

  const DefaultBase: string := "http://localhost:3000"

  /** `process.env.X || default`: an unset or empty variable gives the default. */
  function OrDefault(env: Option<string>, default: string): (r: string)
    ensures env.Some? && env.value != "" ==> r == env.value
    ensures env.None? || env.value == "" ==> r == default
  {
    if env.Some? && env.value != "" then env.value else default
  }

  const Quotes: set<char> := {'"', '\''}

  /** `s.replace(/["']/g, '').trim()`. */
  function Clean(s: string): (r: string)
    ensures IsTrimmed(r)
    ensures forall k :: 0 <= k < |r| ==> r[k] !in Quotes
    ensures r == Trim(RemoveChars(s, Quotes))
    ensures IsTrimmed(s) && (forall k :: 0 <= k < |s| ==> s[k] !in Quotes) ==> r == s
  {
    var u := RemoveChars(s, Quotes);
    assert IsTrimmed(s) && (forall k :: 0 <= k < |s| ==> s[k] !in Quotes) ==> Trim(u) == s by {
      if IsTrimmed(s) && forall k :: 0 <= k < |s| ==> s[k] !in Quotes {
        RemoveCharsAbsent(s, Quotes);
        TrimOfTrimmed(s);
      }
    }
    assert forall c :: c in u ==> c !in Quotes;
    TrimKeepsOut(u, '"');
    TrimKeepsOut(u, '\'');
    Trim(u)
  }

  /** Cleaning a cleaned URL changes nothing. */
  lemma CleanIdempotent(s: string)
    ensures Clean(Clean(s)) == Clean(s)
  {
    var c := Clean(s);
    RemoveCharsAbsent(c, Quotes);
    TrimOfTrimmed(c);
  }

  /** `getApiUrl`: `NEXT_PUBLIC_API_URL` (or the default) cleaned of quotes and
      whitespace; a relative value (starting with `/`) is replaced by
      `BACKEND_URL` (or the default), which is used as it is. */
  function GetApiUrl(publicUrl: Option<string>, backendUrl: Option<string>): (r: string)
    ensures var c := Clean(OrDefault(publicUrl, DefaultBase));
      if StartsWith(c, "/") then r == OrDefault(backendUrl, DefaultBase) else r == c
  {
    var envUrl := Clean(OrDefault(publicUrl, DefaultBase));
    if StartsWith(envUrl, "/") then OrDefault(backendUrl, DefaultBase) else envUrl
  }

  /** The resolved URL is never relative unless `BACKEND_URL` itself is. */
  lemma ResolvedUrlIsAbsolute(publicUrl: Option<string>, backendUrl: Option<string>)
    requires backendUrl.None? || !StartsWith(backendUrl.value, "/")
    ensures !StartsWith(GetApiUrl(publicUrl, backendUrl), "/")
  {
    assert DefaultBase[..1] == "h";
  }

  /** A URL taken from `NEXT_PUBLIC_API_URL` has no quotes and no surrounding
      whitespace, and resolving it again gives it back. */
  lemma PublicUrlIsClean(publicUrl: Option<string>, backendUrl: Option<string>)
    requires !StartsWith(Clean(OrDefault(publicUrl, DefaultBase)), "/")
    ensures var r := GetApiUrl(publicUrl, backendUrl);
      && IsTrimmed(r) && (forall k :: 0 <= k < |r| ==> r[k] !in Quotes)
      && (r != "" ==> GetApiUrl(Some(r), backendUrl) == r)
  {
    var c := Clean(OrDefault(publicUrl, DefaultBase));
    assert GetApiUrl(publicUrl, backendUrl) == c;
    if c != "" {
      assert OrDefault(Some(c), DefaultBase) == c;
      assert Clean(c) == c;
      assert GetApiUrl(Some(c), backendUrl) == c;
    }
  }

  /** A value made only of quotes and whitespace is not replaced by the
      default: it resolves to the empty base URL. */
  lemma QuotesOnlyGiveEmptyBase(backendUrl: Option<string>)
    ensures GetApiUrl(Some("\"\""), backendUrl) == ""
  {
    assert RemoveChars("\"\"", Quotes) == [];
  }

  function ListUrl(base: string): (r: string)
    ensures |r| == |base| + 4 && r[..|base|] == base && r[|base|..] == "/ipo"
  {
    base + "/ipo"
  }

  function DetailUrl(base: string, id: string): (r: string)
    ensures r == ListUrl(base) + "/" + id
  {
    base + "/ipo/" + id
  }

  /** The two endpoints differ for every base and id, so a detail request
      never reads the list. */
  lemma ListAndDetailDiffer(base: string, id: string)
    ensures ListUrl(base) != DetailUrl(base, id)
    ensures StartsWith(DetailUrl(base, id), ListUrl(base) + "/")
  {
    assert |DetailUrl(base, id)| >= |ListUrl(base) + "/"|;
    assert DetailUrl(base, id)[..|ListUrl(base) + "/"|] == ListUrl(base) + "/";
  }

  /** The outcome of `fetch`: the request failed, or a response with its `ok`
      flag and its decoded body. */
  datatype Fetched<T> = NetworkError | Response(ok: bool, body: T)

  datatype FetchError = NetworkFailure | ListFetchFailed

  /** `getIpoListServer`: a non-ok response is an error. */
  function GetIpoListServer(f: Fetched<seq<Ipo>>): (r: Result<seq<Ipo>, FetchError>)
    ensures r.Success? <==> f.Response? && f.ok
    ensures r.Success? ==> r.value == f.body
    ensures f.Response? && !f.ok ==> r == Failure(ListFetchFailed)
  {
    match f
    case NetworkError => Failure(NetworkFailure)
    case Response(ok, body) => if ok then Success(body) else Failure(ListFetchFailed)
  }

  /** `getIpoDetailServer`: a non-ok response means "no such IPO", not an error. */
  function GetIpoDetailServer(f: Fetched<Option<Ipo>>): (r: Result<Option<Ipo>, FetchError>)
    ensures r.Failure? <==> f.NetworkError?
    ensures f.Response? && !f.ok ==> r == Success(None)
    ensures f.Response? && f.ok ==> r == Success(f.body)
  {
    match f
    case NetworkError => Failure(NetworkFailure)
    case Response(ok, body) => if ok then Success(body) else Success(None)
  }
}
