/**
 * The GitHub records the tool executor sends and receives, the JSON form of
 * the create-repository request body, and the executor's own error type.
 */
module GitHubModels {
  import opened Wrappers
  import opened Text

  // ---------------------------------------------------------------------------
  // JSON values

  /**
   * A JSON value as the app handles it untyped (`Any` inside `[String: Any]`).
   * Arrays, objects and non-integral numbers are lumped together as `JOther`:
   * no code path here looks inside them. A `JInt` holds the integer as
   * written, of any size; whether Swift's `Int` can hold it is `IsInt64`.
   */
  datatype Json = JNull | JBool(b: bool) | JInt(i: int) | JString(s: string) | JOther

  /** The range of Swift's 64-bit `Int`: `as? Int` fails for a JSON integer outside it. */
  predicate IsInt64(i: int) {
    -0x8000_0000_0000_0000 <= i < 0x8000_0000_0000_0000
  }

  /** A JSON object. */
  type JsonObject = map<string, Json>

  // ---------------------------------------------------------------------------
  // Records

  /** Body of `POST /user/repos` (`GitHubRepository`). */
  datatype RepositoryRequest = RepositoryRequest(name: string, description: Option<string>, isPrivate: bool, autoInit: bool)

  /** A repository as GitHub returns it (`GitHubResponse`). */
  datatype Repository = Repository(
    id: int, name: string, fullName: string, description: Option<string>,
    htmlUrl: string, cloneUrl: string, isPrivate: bool, createdAt: string)

  /** The authenticated user (`GitHubUser`). */
  datatype User = User(login: string, id: int, name: Option<string>, email: Option<string>, avatarUrl: string)

  /** One page of repository search results (`GitHubSearchResponse`). */
  datatype SearchResponse = SearchResponse(totalCount: int, items: seq<Repository>)

  /** The author of an issue (`GitHubIssueUser`). */
  datatype IssueUser = IssueUser(login: string, id: int, avatarUrl: string)

  /** An issue label (`GitHubLabel`). */
  datatype Label = Label(id: int, name: string, color: string, description: Option<string>)

  /** An issue (`GitHubIssue`). */
  datatype Issue = Issue(
    id: int, number: int, title: string, body: Option<string>, state: string,
    htmlUrl: string, createdAt: string, updatedAt: string, user: IssueUser, labels: seq<Label>)

  // ---------------------------------------------------------------------------
  // The create-repository request body on the wire

  /**
   * `JSONEncoder().encode(_:)` of a `GitHubRepository` under its coding keys:
   * `isPrivate` is written as "private", `autoInit` as "auto_init", and a nil
   * description is left out (synthesised `Encodable` uses `encodeIfPresent`).
   */
  function EncodeRepositoryRequest(r: RepositoryRequest): (body: JsonObject)
    ensures body.Keys == {"name", "private", "auto_init"} + (if r.description.Some? then {"description"} else {})
    ensures body["name"] == JString(r.name)
    ensures body["private"] == JBool(r.isPrivate)
    ensures body["auto_init"] == JBool(r.autoInit)
    ensures r.description.Some? ==> body["description"] == JString(r.description.value)
  {
    var fields := map["name" := JString(r.name), "private" := JBool(r.isPrivate), "auto_init" := JBool(r.autoInit)];
    match r.description
    case Some(d) => fields["description" := JString(d)]
    case None => fields
  }

  /**
   * `JSONDecoder().decode(GitHubRepository.self, from:)` under the same coding
   * keys: the three required keys must hold the right kind of value, and the
   * description may be absent or null.
   */
  function DecodeRepositoryRequest(body: JsonObject): Option<RepositoryRequest> {
    if && "name" in body && body["name"].JString?
       && "private" in body && body["private"].JBool?
       && "auto_init" in body && body["auto_init"].JBool?
    then
      if "description" !in body || body["description"].JNull? then
        Some(RepositoryRequest(body["name"].s, None, body["private"].b, body["auto_init"].b))
      else if body["description"].JString? then
        Some(RepositoryRequest(body["name"].s, Some(body["description"].s), body["private"].b, body["auto_init"].b))
      else None
    else None
  }

  /** Decoding an encoded request body gives the request back. */
  lemma RepositoryRequestRoundTrip(r: RepositoryRequest)
    ensures DecodeRepositoryRequest(EncodeRepositoryRequest(r)) == Some(r)
  {
  }

  // ---------------------------------------------------------------------------
  // Errors

  /** `GitHubMCPError` */
  datatype GitHubMCPError = InvalidURL | InvalidResponse | HttpError(code: int) | ApiError(message: string)

  const InvalidURLText: string := "Неверный URL"
  const InvalidResponseText: string := "Неверный ответ от сервера"
  const HttpErrorPrefix: string := "HTTP ошибка: "
  const ApiErrorPrefix: string := "GitHub API ошибка: "

  /** `errorDescription`: a fixed text per case, carrying the status code or GitHub's message. */
  function ErrorDescription(e: GitHubMCPError): (r: string)
    ensures e == InvalidURL ==> r == InvalidURLText
    ensures e == InvalidResponse ==> r == InvalidResponseText
    ensures e.HttpError? ==> StartsWith(r, HttpErrorPrefix) && ParseLeadingInt(r[|HttpErrorPrefix|..]) == Some(e.code)
    ensures e.ApiError? ==> StartsWith(r, ApiErrorPrefix) && r[|ApiErrorPrefix|..] == e.message
  {
    match e
    case InvalidURL => InvalidURLText
    case InvalidResponse => InvalidResponseText
    case HttpError(code) =>
      var r := HttpErrorPrefix + IntToString(code);
      assert r[|HttpErrorPrefix|..] == IntToString(code) + "";
      IntToStringParses(code, "");
      r
    case ApiError(message) =>
      var r := ApiErrorPrefix + message;
      assert r[..|ApiErrorPrefix|] == ApiErrorPrefix;
      r
  }

  /** Different errors are described differently, so the text identifies the error. */
  lemma ErrorDescriptionInjective(e1: GitHubMCPError, e2: GitHubMCPError)
    requires ErrorDescription(e1) == ErrorDescription(e2)
    ensures e1 == e2
  {
    var d := ErrorDescription(e1);
    match e1
    case InvalidURL =>
      assert d[0] == 'Н' && d[9] == 'U';
    case InvalidResponse =>
      assert d[0] == 'Н' && d[9] == 'о';
    case HttpError(c) =>
      assert d[0] == 'H';
    case ApiError(m) =>
      assert d[0] == 'G';
  }

  /** Any error the app reports through `localizedDescription`. */
  datatype Failure =
    | ServiceError(error: GitHubMCPError)
    | SystemError(description: string)  // a URLSession, encoding or decoding error, with its system description

  /** `error.localizedDescription` */
  function LocalizedDescription(f: Failure): string {
    match f
    case ServiceError(e) => ErrorDescription(e)
    case SystemError(d) => d
  }
}
