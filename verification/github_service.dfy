/**
 * `MCPGitHubService`: the GitHub call behind each tool, how an HTTP outcome
 * becomes a record or a `GitHubMCPError`, how a tool call's untyped
 * arguments are validated and defaulted, the text each tool replies with,
 * and `executeTool`'s dispatch by name.
 *
 * The network is abstract: a `GitHubApi` value says, for each endpoint, what
 * outcome a given request gets. Everything after that is pure.
 */
module GitHubService {
  import opened Wrappers
  import opened Text
  import opened GitHubModels

  // ---------------------------------------------------------------------------
  // MCP protocol structures

  datatype McpToolCall = McpToolCall(name: string, arguments: map<string, string>)

  /** `MCPContent`; its `type` field is called `kind` here. */
  datatype McpContent = McpContent(kind: string, text: Option<string>, toolCalls: Option<seq<McpToolCall>>)

  datatype McpResult = McpResult(content: seq<McpContent>)

  /** The only shape of result the executor produces: one text content. */
  function TextResult(t: string): McpResult {
    McpResult([McpContent("text", Some(t), None)])
  }

  predicate IsTextResult(r: McpResult) {
    && |r.content| == 1
    && r.content[0].kind == "text"
    && r.content[0].text.Some?
    && r.content[0].toolCalls.None?
  }

  function ResultText(r: McpResult): string
    requires IsTextResult(r)
  {
    r.content[0].text.value
  }

  /** `result.content.first?.text` */
  function FirstText(r: McpResult): Option<string> {
    if |r.content| == 0 then None else r.content[0].text
  }

  // ---------------------------------------------------------------------------
  // HTTP, abstractly

  /** What the client puts on the wire, headers and host aside. */
  datatype HttpRequest = HttpRequest(verb: string, path: string, query: seq<(string, string)>, body: Option<JsonObject>)

  /**
   * What one request produced: `URLSession` threw; the response was not an
   * HTTP response; or a status code, together with the body decoded as the
   * endpoint's record (or the decoder's error description) and the body's
   * string `message` field if it is a JSON object that has one.
   */
  datatype HttpOutcome<T> =
    | Threw(description: string)
    | NotHttp
    | Status(code: int, decoded: Result<T, string>, message: Option<string>)

  /** The GitHub REST API as the executor sees it: the outcome of each request, per endpoint. */
  datatype GitHubApi = GitHubApi(
    createRepository: HttpRequest -> HttpOutcome<Repository>,
    getUserInfo: HttpRequest -> HttpOutcome<User>,
    getUserRepositories: HttpRequest -> HttpOutcome<seq<Repository>>,
    searchRepositories: HttpRequest -> HttpOutcome<SearchResponse>,
    getIssues: HttpRequest -> HttpOutcome<seq<Issue>>)

  /** The value of the first query item called `key`. */
  function QueryValue(query: seq<(string, string)>, key: string): Option<string>
    decreases |query|
  {
    if |query| == 0 then None
    else if query[0].0 == key then Some(query[0].1)
    else QueryValue(query[1..], key)
  }

  /** The query item called `key`, read as a decimal integer. */
  function QueryInt(query: seq<(string, string)>, key: string): Option<int> {
    match QueryValue(query, key)
    case Some(v) => ParseLeadingInt(v)
    case None => None
  }

  // ---------------------------------------------------------------------------
  // Requests

  /** `createRepository`: `POST /user/repos` with `autoInit` always true. */
  function CreateRepositoryRequest(name: string, description: Option<string>, isPrivate: bool): HttpRequest {
    HttpRequest("POST", "/user/repos", [], Some(EncodeRepositoryRequest(RepositoryRequest(name, description, isPrivate, true))))
  }

  /** `getUserInfo`: `GET /user`. */
  const UserRequest: HttpRequest := HttpRequest("GET", "/user", [], None)

  /** `getUserRepositories`: `GET /user/repos`, most recently updated first. */
  function UserRepositoriesRequest(page: int, perPage: int): HttpRequest {
    HttpRequest("GET", "/user/repos",
      [("sort", "updated"), ("direction", "desc"), ("page", IntToString(page)), ("per_page", IntToString(perPage))], None)
  }

  /** `searchRepositories`: `GET /search/repositories`. */
  function SearchRequest(query: string, page: int, perPage: int): HttpRequest {
    HttpRequest("GET", "/search/repositories",
      [("q", query), ("page", IntToString(page)), ("per_page", IntToString(perPage))], None)
  }

  /** `getIssues`: `GET /repos/{owner}/{repo}/issues`. */
  function IssuesRequest(owner: string, repo: string, state: string, page: int, perPage: int): HttpRequest {
    HttpRequest("GET", "/repos/" + owner + "/" + repo + "/issues",
      [("state", state), ("page", IntToString(page)), ("per_page", IntToString(perPage))], None)
  }

  /** The create request posts the repository with `auto_init` true, under GitHub's key names. */
  lemma CreateRequestBody(name: string, description: Option<string>, isPrivate: bool)
    ensures var req := CreateRepositoryRequest(name, description, isPrivate);
      && req.verb == "POST" && req.path == "/user/repos" && req.body.Some?
      && req.body.value["auto_init"] == JBool(true)
      && req.body.value["private"] == JBool(isPrivate)
      && ("description" in req.body.value <==> description.Some?)
      && DecodeRepositoryRequest(req.body.value) == Some(RepositoryRequest(name, description, isPrivate, true))
  {
    RepositoryRequestRoundTrip(RepositoryRequest(name, description, isPrivate, true));
  }

  lemma QueryIntOfRendered(n: int)
    ensures ParseLeadingInt(IntToString(n)) == Some(n)
  {
    IntToStringParses(n, "");
    assert IntToString(n) + "" == IntToString(n);
  }

  /** The repository listing asks for `sort=updated`, `direction=desc` and the given page. */
  lemma UserRepositoriesQuery(page: int, perPage: int)
    ensures var q := UserRepositoriesRequest(page, perPage).query;
      && QueryValue(q, "sort") == Some("updated")
      && QueryValue(q, "direction") == Some("desc")
      && QueryInt(q, "page") == Some(page)
      && QueryInt(q, "per_page") == Some(perPage)
  {
    var q := UserRepositoriesRequest(page, perPage).query;
    assert q[1..][1..] == q[2..] && q[2..][1..] == q[3..];
    assert QueryValue(q, "page") == QueryValue(q[1..], "page") == QueryValue(q[2..], "page") == Some(IntToString(page));
    assert QueryValue(q, "per_page") == QueryValue(q[1..], "per_page") == QueryValue(q[2..], "per_page")
      == QueryValue(q[3..], "per_page") == Some(IntToString(perPage));
    QueryIntOfRendered(page);
    QueryIntOfRendered(perPage);
  }

  /** The search request carries the query text and the given page. */
  lemma SearchQuery(query: string, page: int, perPage: int)
    ensures var q := SearchRequest(query, page, perPage).query;
      && QueryValue(q, "q") == Some(query)
      && QueryInt(q, "page") == Some(page)
      && QueryInt(q, "per_page") == Some(perPage)
  {
    var q := SearchRequest(query, page, perPage).query;
    assert q[1..][1..] == q[2..];
    assert QueryValue(q, "page") == QueryValue(q[1..], "page") == Some(IntToString(page));
    assert QueryValue(q, "per_page") == QueryValue(q[1..], "per_page") == QueryValue(q[2..], "per_page")
      == Some(IntToString(perPage));
    QueryIntOfRendered(page);
    QueryIntOfRendered(perPage);
  }

  // ---------------------------------------------------------------------------
  // Status classification

  /**
   * Turns an HTTP outcome into a result: only the endpoint's success code
   * with a decodable body succeeds; any other status is an `apiError` with
   * GitHub's message when the endpoint reads it and one is present, and an
   * `httpError` with the code otherwise.
   */
  function Classify<T>(o: HttpOutcome<T>, expected: int, readsMessage: bool): (r: Result<T, Failure>)
    ensures r.Ok? <==> o.Status? && o.code == expected && o.decoded.Ok?
    ensures r.Ok? ==> r.value == o.decoded.value
    ensures o.Threw? ==> r == Err(SystemError(o.description))
    ensures o.NotHttp? ==> r == Err(ServiceError(InvalidResponse))
    ensures o.Status? && o.code == expected && o.decoded.Err? ==> r == Err(SystemError(o.decoded.error))
    ensures o.Status? && o.code != expected && readsMessage && o.message.Some? ==> r == Err(ServiceError(ApiError(o.message.value)))
    ensures o.Status? && o.code != expected && !(readsMessage && o.message.Some?) ==> r == Err(ServiceError(HttpError(o.code)))
  {
    match o
    case Threw(d) => Err(SystemError(d))
    case NotHttp => Err(ServiceError(InvalidResponse))
    case Status(code, decoded, message) =>
      if code == expected then
        match decoded
        case Ok(v) => Ok(v)
        case Err(d) => Err(SystemError(d))
      else if readsMessage && message.Some? then Err(ServiceError(ApiError(message.value)))
      else Err(ServiceError(HttpError(code)))
  }

  /** `createRepository`: succeeds on 201 only. */
  function CreateRepository(api: GitHubApi, name: string, description: Option<string>, isPrivate: bool): (r: Result<Repository, Failure>)
    ensures var o := api.createRepository(CreateRepositoryRequest(name, description, isPrivate));
      && (r.Ok? <==> o.Status? && o.code == 201 && o.decoded.Ok?)
      && (o.Status? && o.code != 201 && o.message.Some? ==> r == Err(ServiceError(ApiError(o.message.value))))
      && (o.Status? && o.code != 201 && o.message.None? ==> r == Err(ServiceError(HttpError(o.code))))
  {
    Classify(api.createRepository(CreateRepositoryRequest(name, description, isPrivate)), 201, true)
  }

  /** `getUserInfo`: succeeds on 200 only, and never reads GitHub's message. */
  function GetUserInfo(api: GitHubApi): (r: Result<User, Failure>)
    ensures var o := api.getUserInfo(UserRequest);
      && (r.Ok? <==> o.Status? && o.code == 200 && o.decoded.Ok?)
      && (o.Status? && o.code != 200 ==> r == Err(ServiceError(HttpError(o.code))))
    ensures !(r.Err? && r.error.ServiceError? && r.error.error.ApiError?)
  {
    Classify(api.getUserInfo(UserRequest), 200, false)
  }

  /** `getUserRepositories`: succeeds on 200 only. */
  function GetUserRepositories(api: GitHubApi, page: int, perPage: int): (r: Result<seq<Repository>, Failure>)
    ensures var o := api.getUserRepositories(UserRepositoriesRequest(page, perPage));
      && (r.Ok? <==> o.Status? && o.code == 200 && o.decoded.Ok?)
      && (o.Status? && o.code != 200 && o.message.Some? ==> r == Err(ServiceError(ApiError(o.message.value))))
      && (o.Status? && o.code != 200 && o.message.None? ==> r == Err(ServiceError(HttpError(o.code))))
  {
    Classify(api.getUserRepositories(UserRepositoriesRequest(page, perPage)), 200, true)
  }

  /** `searchRepositories`: succeeds on 200 only. */
  function SearchRepositories(api: GitHubApi, query: string, page: int, perPage: int): (r: Result<SearchResponse, Failure>)
    ensures var o := api.searchRepositories(SearchRequest(query, page, perPage));
      && (r.Ok? <==> o.Status? && o.code == 200 && o.decoded.Ok?)
      && (o.Status? && o.code != 200 && o.message.Some? ==> r == Err(ServiceError(ApiError(o.message.value))))
      && (o.Status? && o.code != 200 && o.message.None? ==> r == Err(ServiceError(HttpError(o.code))))
  {
    Classify(api.searchRepositories(SearchRequest(query, page, perPage)), 200, true)
  }

  /** `getIssues`: succeeds on 200 only. */
  function GetIssues(api: GitHubApi, owner: string, repo: string, state: string, page: int, perPage: int): (r: Result<seq<Issue>, Failure>)
    ensures var o := api.getIssues(IssuesRequest(owner, repo, state, page, perPage));
      && (r.Ok? <==> o.Status? && o.code == 200 && o.decoded.Ok?)
      && (o.Status? && o.code != 200 && o.message.Some? ==> r == Err(ServiceError(ApiError(o.message.value))))
      && (o.Status? && o.code != 200 && o.message.None? ==> r == Err(ServiceError(HttpError(o.code))))
  {
    Classify(api.getIssues(IssuesRequest(owner, repo, state, page, perPage)), 200, true)
  }

  // ---------------------------------------------------------------------------
  // Tool arguments

  /** `arguments[key] as? String` */
  function StringArg(args: JsonObject, key: string): Option<string> {
    if key in args && args[key].JString? then Some(args[key].s) else None
  }

  /** `arguments[key] as? Int` succeeds: the value is an integer that fits in 64 bits. */
  predicate HasIntArg(args: JsonObject, key: string) {
    key in args && args[key].JInt? && IsInt64(args[key].i)
  }

  /** `arguments[key] as? Int ?? default` */
  function IntArg(args: JsonObject, key: string, default: int): int {
    if HasIntArg(args, key) then args[key].i else default
  }

  /** `arguments[key] as? Bool ?? default` */
  function BoolArg(args: JsonObject, key: string, default: bool): bool {
    if key in args && args[key].JBool? then args[key].b else default
  }

  datatype CreateArguments = CreateArguments(name: string, description: Option<string>, isPrivate: bool)

  /** `create_repository` needs a string `name`; `description` defaults to nil and `isPrivate` to false. */
  function ReadCreateArguments(args: JsonObject): (r: Option<CreateArguments>)
    ensures r.Some? <==> "name" in args && args["name"].JString?
    ensures r.Some? ==> args["name"] == JString(r.value.name)
    ensures r.Some? ==> (r.value.description.Some? <==> "description" in args && args["description"].JString?)
    ensures r.Some? && r.value.description.Some? ==> args["description"] == JString(r.value.description.value)
    ensures r.Some? ==> (r.value.isPrivate <==> "isPrivate" in args && args["isPrivate"] == JBool(true))
  {
    match StringArg(args, "name")
    case None => None
    case Some(name) => Some(CreateArguments(name, StringArg(args, "description"), BoolArg(args, "isPrivate", false)))
  }

  datatype SearchArguments = SearchArguments(query: string, page: int, perPage: int)

  /** `search_repositories` needs a string `query`; `page` defaults to 1 and `perPage` to 10. */
  function ReadSearchArguments(args: JsonObject): (r: Option<SearchArguments>)
    ensures r.Some? <==> "query" in args && args["query"].JString?
    ensures r.Some? ==> args["query"] == JString(r.value.query)
    ensures r.Some? && HasIntArg(args, "page") ==> r.value.page == args["page"].i
    ensures r.Some? && !HasIntArg(args, "page") ==> r.value.page == 1
    ensures r.Some? && HasIntArg(args, "perPage") ==> r.value.perPage == args["perPage"].i
    ensures r.Some? && !HasIntArg(args, "perPage") ==> r.value.perPage == 10
  {
    match StringArg(args, "query")
    case None => None
    case Some(query) => Some(SearchArguments(query, IntArg(args, "page", 1), IntArg(args, "perPage", 10)))
  }

  /** An integer too wide for Swift's `Int` is not taken: the page falls back to 1. */
  lemma WidePageFallsBack(args: JsonObject)
    requires "page" in args && args["page"] == JInt(0x8000_0000_0000_0000)
    ensures ReadRepositoriesArguments(args).page == 1
    ensures "query" in args && args["query"].JString? ==> ReadSearchArguments(args).value.page == 1
  {
  }

  datatype PageArguments = PageArguments(page: int, perPage: int)

  /** `get_user_repositories` takes no required argument; `page` defaults to 1 and `perPage` to 30. */
  function ReadRepositoriesArguments(args: JsonObject): (r: PageArguments)
    ensures HasIntArg(args, "page") ==> r.page == args["page"].i
    ensures !HasIntArg(args, "page") ==> r.page == 1
    ensures HasIntArg(args, "perPage") ==> r.perPage == args["perPage"].i
    ensures !HasIntArg(args, "perPage") ==> r.perPage == 30
  {
    PageArguments(IntArg(args, "page", 1), IntArg(args, "perPage", 30))
  }

  /**
   * Every error reply starts with a cross mark, and most go on with the word
   * "Ошибка". The texts are built from these pieces so that the verifier can
   * look at their first characters.
   */
  const ErrorMark: string := "❌ "
  const ErrorWord: string := "Ошибка"

  datatype IssuesArguments = IssuesArguments(owner: string, repo: string, state: string)

  const MissingOwnerText: string := ErrorMark + "Не указан owner репозитория"
  const MissingRepoText: string := ErrorMark + "Не указан repo репозитория"

  /** `get_issues` checks `owner` before `repo`, each with its own error; `state` defaults to "open". */
  function ReadIssuesArguments(args: JsonObject): (r: Result<IssuesArguments, string>)
    ensures !("owner" in args && args["owner"].JString?) ==> r == Err(MissingOwnerText)
    ensures "owner" in args && args["owner"].JString? && !("repo" in args && args["repo"].JString?) ==> r == Err(MissingRepoText)
    ensures r.Ok? <==> "owner" in args && args["owner"].JString? && "repo" in args && args["repo"].JString?
    ensures r.Ok? ==> args["owner"] == JString(r.value.owner) && args["repo"] == JString(r.value.repo)
    ensures r.Ok? && "state" in args && args["state"].JString? ==> r.value.state == args["state"].s
    ensures r.Ok? && !("state" in args && args["state"].JString?) ==> r.value.state == "open"
  {
    match StringArg(args, "owner")
    case None => Err(MissingOwnerText)
    case Some(owner) =>
      match StringArg(args, "repo")
      case None => Err(MissingRepoText)
      case Some(repo) => Ok(IssuesArguments(owner, repo, StringArg(args, "state").GetOr("open")))
  }

  // ---------------------------------------------------------------------------
  // Reply texts

  /** A counted list: a header, the count, a blank line, then the entries separated by blank lines. */
  function CountedList(header: string, count: int, entries: seq<string>): string {
    header + IntToString(count) + "\n\n" + Join(entries, "\n\n")
  }

  /** Where entry `i` of a counted list starts. */
  function EntryPosition(header: string, count: int, entries: seq<string>, i: nat): nat
    requires i <= |entries|
  {
    |header| + |IntToString(count)| + 2 + JoinOffset(entries, "\n\n", i)
  }

  const SuccessMark: string := "✅"

  const MissingNameText: string := ErrorMark + ErrorWord + ": не указано название репозитория"
  const CreateFailurePrefix: string := ErrorMark + ErrorWord + " при создании репозитория: "

  function CreatedText(repo: Repository): string {
    SuccessMark + " Репозиторий успешно создан!\n\n📁 Название: " + repo.name
    + "\n🔗 URL: " + repo.htmlUrl
    + "\n📋 Описание: " + repo.description.GetOr("Не указано")
    + "\n🔒 Приватный: " + (if repo.isPrivate then "Да" else "Нет")
    + "\n📅 Создан: " + repo.createdAt
    + "\n\nДля клонирования используйте:\ngit clone " + repo.cloneUrl
  }

  const UserFailurePrefix: string := ErrorMark + ErrorWord + " при получении информации о пользователе: "

  function UserText(user: User): string {
    "👤 Информация о пользователе GitHub:\n\n"
    + "🏷\U{FE0F} Логин: " + user.login
    + "\n📝 Имя: " + user.name.GetOr("Не указано")
    + "\n📧 Email: " + user.email.GetOr("Не указан")
    + "\n🆔 ID: " + IntToString(user.id)
  }

  const MissingQueryText: string := ErrorMark + ErrorWord + ": не указан поисковый запрос"
  const SearchFailurePrefix: string := ErrorMark + ErrorWord + " при поиске репозиториев: "

  /** How many search hits the reply lists. */
  const SearchShownLimit: nat := 5

  function SearchEntry(repo: Repository): string {
    "📁 " + repo.name + "\n🔗 " + repo.htmlUrl + "\n📋 " + repo.description.GetOr("Без описания")
  }

  function SearchEntries(repos: seq<Repository>): (r: seq<string>)
    ensures |r| == |repos| && forall i :: 0 <= i < |repos| ==> r[i] == SearchEntry(repos[i])
  {
    seq(|repos|, i requires 0 <= i < |repos| => SearchEntry(repos[i]))
  }

  function SearchHeader(query: string): string {
    "🔍 Результаты поиска репозиториев для \"" + query + "\":\n\nВсего найдено: "
  }

  /** `items.prefix(5)` */
  function SearchShown(items: seq<Repository>): seq<Repository> {
    if |items| <= SearchShownLimit then items else items[..SearchShownLimit]
  }

  function SearchText(query: string, response: SearchResponse): string {
    CountedList(SearchHeader(query), response.totalCount, SearchEntries(SearchShown(response.items)))
  }

  const RepositoriesTitle: string := "📁 Ваши репозитории"
  const NoRepositoriesText: string := RepositoriesTitle + ":\n\nУ вас пока нет репозиториев."
  const RepositoriesHeader: string := RepositoriesTitle + " (последние обновленные):\n\n" + "Всего репозиториев: "
  const RepositoriesFailurePrefix: string := ErrorMark + ErrorWord + " при получении репозиториев: "

  /** One listed repository; the "updated" line shows `createdAt`, the only date the record has. */
  function RepositoryEntry(repo: Repository): string {
    "📁 " + repo.name + "\n🔗 " + repo.htmlUrl + "\n📋 " + repo.description.GetOr("Без описания")
    + "\n🔒 " + (if repo.isPrivate then "Приватный" else "Публичный")
    + "\n📅 Обновлен: " + repo.createdAt
  }

  function RepositoryEntries(repos: seq<Repository>): (r: seq<string>)
    ensures |r| == |repos| && forall i :: 0 <= i < |repos| ==> r[i] == RepositoryEntry(repos[i])
  {
    seq(|repos|, i requires 0 <= i < |repos| => RepositoryEntry(repos[i]))
  }

  function RepositoriesText(repos: seq<Repository>): string {
    if |repos| == 0 then NoRepositoriesText
    else CountedList(RepositoriesHeader, |repos|, RepositoryEntries(repos))
  }

  const IssuesFailurePrefix: string := ErrorMark + ErrorWord + " при получении Issues: "

  function IssuesTitle(owner: string, repo: string): string {
    "📋 Issues в репозитории " + owner + "/" + repo + ":\n\n"
  }

  const NoIssuesLine: string := "Нет открытых Issues в репозитории."
  const IssuesCountLabel: string := "Всего Issues: "

  function NoIssuesText(owner: string, repo: string): string {
    IssuesTitle(owner, repo) + NoIssuesLine
  }

  function IssuesHeader(owner: string, repo: string): string {
    IssuesTitle(owner, repo) + IssuesCountLabel
  }

  function IssueEntry(issue: Issue): string {
    "🔢 #" + IntToString(issue.number) + " - " + issue.title
    + "\n📝 " + issue.body.GetOr("Без описания")
    + "\n👤 Автор: " + issue.user.login
    + "\n📅 Создан: " + issue.createdAt
    + "\n🔗 URL: " + issue.htmlUrl
  }

  function IssueEntries(issues: seq<Issue>): (r: seq<string>)
    ensures |r| == |issues| && forall i :: 0 <= i < |issues| ==> r[i] == IssueEntry(issues[i])
  {
    seq(|issues|, i requires 0 <= i < |issues| => IssueEntry(issues[i]))
  }

  function IssuesText(owner: string, repo: string, issues: seq<Issue>): string {
    if |issues| == 0 then NoIssuesText(owner, repo)
    else CountedList(IssuesHeader(owner, repo), |issues|, IssueEntries(issues))
  }

  /** The names `executeTool` dispatches, in the order its unknown-tool reply lists them. */
  const ToolNames: seq<string> := ["create_repository", "get_user_info", "get_user_repositories", "search_repositories", "get_issues"]

  const UnknownToolPrefix: string := ErrorMark + "Неизвестный инструмент: "

  function UnknownToolText(name: string): string {
    UnknownToolPrefix + name + ". Доступные инструменты: " + Join(ToolNames, ", ")
  }

  /** A reply text that reads as the unknown-tool reply. */
  predicate ReadsAsUnknownTool(t: string) {
    StartsWith(t, UnknownToolPrefix)
  }

  /** A text that differs from the unknown-tool prefix at position 0, 2 or 4 does not read as it. */
  lemma NotUnknownTool(t: string)
    requires |t| > 4 && (t[0] != '❌' || t[2] != 'Н' || t[4] != 'и')
    ensures !ReadsAsUnknownTool(t)
  {
    if t[0] != '❌' {
      NotStartsWithAt(t, UnknownToolPrefix, 0);
    } else if t[2] != 'Н' {
      NotStartsWithAt(t, UnknownToolPrefix, 2);
    } else {
      NotStartsWithAt(t, UnknownToolPrefix, 4);
    }
  }

  /** A reply made of a prefix that does not read as the unknown-tool reply and anything after it. */
  lemma NotUnknownToolAfter(p: string, x: string)
    requires |p| > 4 && (p[0] != '❌' || p[2] != 'Н' || p[4] != 'и')
    ensures !ReadsAsUnknownTool(p + x)
  {
    var t := p + x;
    assert t[0] == p[0] && t[2] == p[2] && t[4] == p[4];
    NotUnknownTool(t);
  }

  lemma StartsWithConcat(p: string, x: string)
    ensures StartsWith(p + x, p)
  {
    assert (p + x)[..|p|] == p;
  }

  // ---------------------------------------------------------------------------
  // What the reply texts show

  /** A counted list starts with its header, and the count that follows reads back as the number given. */
  lemma CountedListCount(header: string, count: int, entries: seq<string>)
    ensures var t := CountedList(header, count, entries);
      StartsWith(t, header) && ParseLeadingInt(t[|header|..]) == Some(count)
  {
    var t := CountedList(header, count, entries);
    var n := IntToString(count);
    var body := Join(entries, "\n\n");
    var rest := "\n\n" + body;
    AppendAssociative(header + n, "\n\n", body);
    AppendAssociative(header, n, rest);
    assert t == header + (n + rest);
    assert t[|header|..] == n + rest;
    IntToStringParses(count, rest);
    StartsWithConcat(header, n + rest);
  }

  /** Every entry of a counted list appears whole at its position, and later entries come strictly later. */
  lemma CountedListEntries(header: string, count: int, entries: seq<string>, i: nat)
    requires i < |entries|
    ensures OccursAt(CountedList(header, count, entries), entries[i], EntryPosition(header, count, entries, i))
    ensures forall j :: i < j < |entries| ==>
      EntryPosition(header, count, entries, i) + |entries[i]| < EntryPosition(header, count, entries, j)
  {
    var a := header + IntToString(count) + "\n\n";
    var body := Join(entries, "\n\n");
    assert CountedList(header, count, entries) == a + body;
    JoinElementAt(entries, "\n\n", i);
    OccursShiftRight(a, body, entries[i], JoinOffset(entries, "\n\n", i));
    forall j | i < j < |entries|
      ensures EntryPosition(header, count, entries, i) + |entries[i]| < EntryPosition(header, count, entries, j)
    {
      JoinOffsetMonotone(entries, "\n\n", i, j);
    }
  }

  lemma CountedListContains(header: string, count: int, entries: seq<string>, i: nat)
    requires i < |entries|
    ensures Contains(CountedList(header, count, entries), entries[i])
  {
    CountedListEntries(header, count, entries, i);
    OccursContains(CountedList(header, count, entries), entries[i], EntryPosition(header, count, entries, i));
  }

  /** The success reply to `create_repository` shows both the page URL and the clone URL. */
  lemma CreatedTextShowsLinks(repo: Repository)
    ensures Contains(CreatedText(repo), repo.htmlUrl)
    ensures Contains(CreatedText(repo), repo.cloneUrl)
  {
    var t := CreatedText(repo);
    var a := SuccessMark + " Репозиторий успешно создан!\n\n📁 Название: " + repo.name + "\n🔗 URL: ";
    var b := "\n📋 Описание: " + repo.description.GetOr("Не указано")
      + "\n🔒 Приватный: " + (if repo.isPrivate then "Да" else "Нет")
      + "\n📅 Создан: " + repo.createdAt
      + "\n\nДля клонирования используйте:\ngit clone ";
    assert t == a + repo.htmlUrl + (b + repo.cloneUrl);
    ContainsMiddle(a, repo.htmlUrl, b + repo.cloneUrl);
    assert t == (a + repo.htmlUrl + b) + repo.cloneUrl + [];
    ContainsMiddle(a + repo.htmlUrl + b, repo.cloneUrl, []);
  }

  /** The search reply reports GitHub's total count, which may exceed the hits it lists, and lists the first five hits. */
  lemma SearchTextShape(query: string, response: SearchResponse)
    ensures var t := SearchText(query, response);
      && StartsWith(t, SearchHeader(query))
      && ParseLeadingInt(t[|SearchHeader(query)|..]) == Some(response.totalCount)
    ensures forall i :: 0 <= i < |response.items| && i < SearchShownLimit ==>
      Contains(SearchText(query, response), SearchEntry(response.items[i]))
  {
    var entries := SearchEntries(SearchShown(response.items));
    CountedListCount(SearchHeader(query), response.totalCount, entries);
    forall i | 0 <= i < |response.items| && i < SearchShownLimit
      ensures Contains(SearchText(query, response), SearchEntry(response.items[i]))
    {
      CountedListContains(SearchHeader(query), response.totalCount, entries, i);
    }
  }

  /** Hits after the fifth do not change the search reply. */
  lemma SearchTextIgnoresTail(query: string, response: SearchResponse)
    requires |response.items| > SearchShownLimit
    ensures SearchText(query, response) == SearchText(query, SearchResponse(response.totalCount, response.items[..SearchShownLimit]))
  {
  }

  /** The search reply names the query between quotes. */
  lemma SearchTextQuotesQuery(query: string, response: SearchResponse)
    ensures Contains(SearchText(query, response), "\"" + query + "\"")
  {
    var a := "🔍 Результаты поиска репозиториев для ";
    var b := ":\n\nВсего найдено: " + IntToString(response.totalCount) + "\n\n"
      + Join(SearchEntries(SearchShown(response.items)), "\n\n");
    assert SearchText(query, response) == a + ("\"" + query + "\"") + b;
    ContainsMiddle(a, "\"" + query + "\"", b);
  }

  /**
   * The repository listing is the fixed "no repositories" text exactly when
   * there are none; otherwise it counts them and shows each one.
   */
  lemma RepositoriesTextShape(repos: seq<Repository>)
    ensures RepositoriesText(repos) == NoRepositoriesText <==> |repos| == 0
    ensures |repos| > 0 ==>
      && StartsWith(RepositoriesText(repos), RepositoriesHeader)
      && ParseLeadingInt(RepositoriesText(repos)[|RepositoriesHeader|..]) == Some(|repos|)
    ensures forall i :: 0 <= i < |repos| ==> Contains(RepositoriesText(repos), RepositoryEntry(repos[i]))
  {
    if |repos| > 0 {
      var entries := RepositoryEntries(repos);
      CountedListCount(RepositoriesHeader, |repos|, entries);
      var t := RepositoriesText(repos);
      var n := |RepositoriesTitle|;
      assert t[n] == RepositoriesHeader[n] == ' ';
      assert NoRepositoriesText[n] == ':';
      forall i | 0 <= i < |repos|
        ensures Contains(RepositoriesText(repos), RepositoryEntry(repos[i]))
      {
        CountedListContains(RepositoriesHeader, |repos|, entries, i);
      }
    }
  }

  /** Two texts with a common prefix that differ right after it. */
  lemma DifferAfterPrefix(p: string, a: string, x: string, b: string)
    requires |a| > 0 && |b| > 0 && a[0] != b[0]
    ensures StartsWith(p + a + x, p) && p + a + x != p + b
  {
    assert (p + a + x)[..|p|] == p;
    assert (p + a + x)[|p|] == a[0];
    assert (p + b)[|p|] == b[0];
  }

  /** A counted list under a title and a lead-in starts with the title, and differs from the title followed by a line that starts differently from the lead-in. */
  lemma TitledListShape(title: string, lead: string, other: string, count: int, entries: seq<string>)
    requires |lead| > 0 && |other| > 0 && lead[0] != other[0]
    ensures StartsWith(CountedList(title + lead, count, entries), title)
    ensures CountedList(title + lead, count, entries) != title + other
  {
    var rest := IntToString(count) + "\n\n" + Join(entries, "\n\n");
    assert CountedList(title + lead, count, entries) == title + lead + rest;
    DifferAfterPrefix(title, lead, rest, other);
  }

  /** The issue listing names `owner/repo` first, and is the fixed "no open issues" text exactly when there are none. */
  lemma IssuesTextShape(owner: string, repo: string, issues: seq<Issue>)
    ensures StartsWith(IssuesText(owner, repo, issues), IssuesTitle(owner, repo))
    ensures IssuesText(owner, repo, issues) == NoIssuesText(owner, repo) <==> |issues| == 0
  {
    var title := IssuesTitle(owner, repo);
    if |issues| == 0 {
      StartsWithConcat(title, NoIssuesLine);
    } else {
      TitledListShape(title, IssuesCountLabel, NoIssuesLine, |issues|, IssueEntries(issues));
    }
  }

  /** A non-empty issue listing counts the issues and shows each one. */
  lemma IssuesTextLists(owner: string, repo: string, issues: seq<Issue>)
    requires |issues| > 0
    ensures ParseLeadingInt(IssuesText(owner, repo, issues)[|IssuesHeader(owner, repo)|..]) == Some(|issues|)
    ensures forall i :: 0 <= i < |issues| ==> Contains(IssuesText(owner, repo, issues), IssueEntry(issues[i]))
  {
    var entries := IssueEntries(issues);
    CountedListCount(IssuesHeader(owner, repo), |issues|, entries);
    forall i | 0 <= i < |issues|
      ensures Contains(IssuesText(owner, repo, issues), IssueEntry(issues[i]))
    {
      CountedListContains(IssuesHeader(owner, repo), |issues|, entries, i);
    }
  }

  /** An issue's entry starts with its number, readable back. */
  lemma IssueEntryNumber(issue: Issue)
    ensures ParseLeadingInt(IssueEntry(issue)[3..]) == Some(issue.number)
  {
    var rest := " - " + issue.title
      + "\n📝 " + issue.body.GetOr("Без описания")
      + "\n👤 Автор: " + issue.user.login
      + "\n📅 Создан: " + issue.createdAt
      + "\n🔗 URL: " + issue.htmlUrl;
    assert IssueEntry(issue) == "🔢 #" + (IntToString(issue.number) + rest);
    assert IssueEntry(issue)[3..] == IntToString(issue.number) + rest;
    IntToStringParses(issue.number, rest);
  }

  /** The unknown-tool reply names the tool asked for and every tool there is. */
  lemma UnknownToolTextNames(name: string)
    ensures Contains(UnknownToolText(name), name)
  {
    ContainsSecond(UnknownToolPrefix, name, ". Доступные инструменты: ", Join(ToolNames, ", "));
  }

  lemma UnknownToolTextLists(name: string, i: nat)
    requires i < |ToolNames|
    ensures Contains(UnknownToolText(name), ToolNames[i])
  {
    JoinContainsAfter(UnknownToolPrefix + name + ". Доступные инструменты: ", ToolNames, ", ", i);
  }

  // ---------------------------------------------------------------------------
  // Tool handlers

  /** `handleCreateRepository` */
  function HandleCreateRepository(api: GitHubApi, args: JsonObject): (r: McpResult)
    ensures IsTextResult(r) && !ReadsAsUnknownTool(ResultText(r))
    ensures ReadCreateArguments(args).None? ==> ResultText(r) == MissingNameText
    ensures ReadCreateArguments(args).Some? ==>
      var a := ReadCreateArguments(args).value;
      var created := CreateRepository(api, a.name, a.description, a.isPrivate);
      && (StartsWith(ResultText(r), SuccessMark) <==> created.Ok?)
      && (created.Ok? ==> ResultText(r) == CreatedText(created.value))
      && (created.Err? ==> ResultText(r) == CreateFailurePrefix + LocalizedDescription(created.error))
  {
    match ReadCreateArguments(args)
    case None =>
      NotUnknownTool(MissingNameText);
      TextResult(MissingNameText)
    case Some(a) =>
      match CreateRepository(api, a.name, a.description, a.isPrivate)
      case Ok(repo) =>
        var t := CreatedText(repo);
        NotUnknownTool(t);
        assert t == SuccessMark + (t[|SuccessMark|..]);
        StartsWithConcat(SuccessMark, t[|SuccessMark|..]);
        TextResult(t)
      case Err(e) =>
        var t := CreateFailurePrefix + LocalizedDescription(e);
        NotUnknownToolAfter(CreateFailurePrefix, LocalizedDescription(e));
        NotStartsWithAt(t, SuccessMark, 0);
        TextResult(t)
  }

  /** `handleGetUserInfo`: takes no arguments. */
  function HandleGetUserInfo(api: GitHubApi): (r: McpResult)
    ensures IsTextResult(r) && !ReadsAsUnknownTool(ResultText(r))
    ensures GetUserInfo(api).Ok? ==> ResultText(r) == UserText(GetUserInfo(api).value)
    ensures GetUserInfo(api).Err? ==> ResultText(r) == UserFailurePrefix + LocalizedDescription(GetUserInfo(api).error)
  {
    match GetUserInfo(api)
    case Ok(user) =>
      NotUnknownTool(UserText(user));
      TextResult(UserText(user))
    case Err(e) =>
      var t := UserFailurePrefix + LocalizedDescription(e);
      NotUnknownToolAfter(UserFailurePrefix, LocalizedDescription(e));
      TextResult(t)
  }

  /** `handleSearchRepositories` */
  function HandleSearchRepositories(api: GitHubApi, args: JsonObject): (r: McpResult)
    ensures IsTextResult(r) && !ReadsAsUnknownTool(ResultText(r))
    ensures ReadSearchArguments(args).None? ==> ResultText(r) == MissingQueryText
    ensures ReadSearchArguments(args).Some? ==>
      var a := ReadSearchArguments(args).value;
      var found := SearchRepositories(api, a.query, a.page, a.perPage);
      && (found.Ok? ==> ResultText(r) == SearchText(a.query, found.value))
      && (found.Err? ==> ResultText(r) == SearchFailurePrefix + LocalizedDescription(found.error))
  {
    match ReadSearchArguments(args)
    case None =>
      NotUnknownTool(MissingQueryText);
      TextResult(MissingQueryText)
    case Some(a) =>
      match SearchRepositories(api, a.query, a.page, a.perPage)
      case Ok(response) =>
        var t := SearchText(a.query, response);
        NotUnknownTool(t);
        TextResult(t)
      case Err(e) =>
        var t := SearchFailurePrefix + LocalizedDescription(e);
        NotUnknownToolAfter(SearchFailurePrefix, LocalizedDescription(e));
        TextResult(t)
  }

  /** `handleGetUserRepositories` */
  function HandleGetUserRepositories(api: GitHubApi, args: JsonObject): (r: McpResult)
    ensures IsTextResult(r) && !ReadsAsUnknownTool(ResultText(r))
    ensures
      var a := ReadRepositoriesArguments(args);
      var listed := GetUserRepositories(api, a.page, a.perPage);
      && (listed.Ok? ==> ResultText(r) == RepositoriesText(listed.value))
      && (listed.Err? ==> ResultText(r) == RepositoriesFailurePrefix + LocalizedDescription(listed.error))
  {
    var a := ReadRepositoriesArguments(args);
    match GetUserRepositories(api, a.page, a.perPage)
    case Ok(repos) =>
      var t := RepositoriesText(repos);
      NotUnknownTool(t);
      TextResult(t)
    case Err(e) =>
      var t := RepositoriesFailurePrefix + LocalizedDescription(e);
      NotUnknownToolAfter(RepositoriesFailurePrefix, LocalizedDescription(e));
      TextResult(t)
  }

  /** `handleGetIssues`: the issues of `owner/repo` in the requested state, first page of 30. */
  function HandleGetIssues(api: GitHubApi, args: JsonObject): (r: McpResult)
    ensures IsTextResult(r) && !ReadsAsUnknownTool(ResultText(r))
    ensures ReadIssuesArguments(args).Err? ==> ResultText(r) == ReadIssuesArguments(args).error
    ensures ReadIssuesArguments(args).Ok? ==>
      var a := ReadIssuesArguments(args).value;
      var listed := GetIssues(api, a.owner, a.repo, a.state, 1, 30);
      && (listed.Ok? ==> ResultText(r) == IssuesText(a.owner, a.repo, listed.value))
      && (listed.Err? ==> ResultText(r) == IssuesFailurePrefix + LocalizedDescription(listed.error))
  {
    match ReadIssuesArguments(args)
    case Err(message) =>
      NotUnknownTool(message);
      TextResult(message)
    case Ok(a) =>
      match GetIssues(api, a.owner, a.repo, a.state, 1, 30)
      case Ok(issues) =>
        var t := IssuesText(a.owner, a.repo, issues);
        NotUnknownTool(t);
        TextResult(t)
      case Err(e) =>
        var t := IssuesFailurePrefix + LocalizedDescription(e);
        NotUnknownToolAfter(IssuesFailurePrefix, LocalizedDescription(e));
        TextResult(t)
  }

  // ---------------------------------------------------------------------------
  // Dispatch

  lemma UnknownToolTextReads(name: string)
    ensures ReadsAsUnknownTool(UnknownToolText(name))
  {
    AppendAssociative(UnknownToolPrefix, name, ". Доступные инструменты: ");
    AppendAssociative(UnknownToolPrefix, name + ". Доступные инструменты: ", Join(ToolNames, ", "));
    StartsWithConcat(UnknownToolPrefix, name + ". Доступные инструменты: " + Join(ToolNames, ", "));
  }

  /**
   * `executeTool`: routes the five tool names to their handlers; any other
   * name gets one text that names it and lists the five valid names.
   */
  function ExecuteTool(api: GitHubApi, name: string, args: JsonObject): (r: McpResult)
    ensures IsTextResult(r)
    ensures name !in ToolNames ==> ResultText(r) == UnknownToolText(name)
    ensures name == "create_repository" ==> r == HandleCreateRepository(api, args)
    ensures name == "get_user_info" ==> r == HandleGetUserInfo(api)
    ensures name == "get_user_repositories" ==> r == HandleGetUserRepositories(api, args)
    ensures name == "search_repositories" ==> r == HandleSearchRepositories(api, args)
    ensures name == "get_issues" ==> r == HandleGetIssues(api, args)
  {
    if name == "create_repository" then HandleCreateRepository(api, args)
    else if name == "get_user_info" then HandleGetUserInfo(api)
    else if name == "get_user_repositories" then HandleGetUserRepositories(api, args)
    else if name == "search_repositories" then HandleSearchRepositories(api, args)
    else if name == "get_issues" then HandleGetIssues(api, args)
    else
      UnknownToolTextReads(name);
      TextResult(UnknownToolText(name))
  }

  /** A reply reads as the unknown-tool reply exactly when the tool name is not one of the five. */
  lemma UnknownReplyIffUnknownName(api: GitHubApi, name: string, args: JsonObject)
    ensures ReadsAsUnknownTool(ResultText(ExecuteTool(api, name, args))) <==> name !in ToolNames
  {
    if name in ToolNames {
      var i :| 0 <= i < |ToolNames| && ToolNames[i] == name;
      if i == 0 {
      } else if i == 1 {
      } else if i == 2 {
      } else if i == 3 {
      } else {
      }
    } else {
      UnknownToolTextReads(name);
    }
  }

  /** A call the executor answers without asking GitHub: an unknown tool, or a required argument missing. */
  predicate RejectedLocally(name: string, args: JsonObject) {
    || name !in ToolNames
    || (name == "create_repository" && ReadCreateArguments(args).None?)
    || (name == "search_repositories" && ReadSearchArguments(args).None?)
    || (name == "get_issues" && ReadIssuesArguments(args).Err?)
  }

  /** Such a call gets the same reply whatever GitHub would have answered. */
  lemma RejectedCallsIgnoreGitHub(api1: GitHubApi, api2: GitHubApi, name: string, args: JsonObject)
    requires RejectedLocally(name, args)
    ensures ExecuteTool(api1, name, args) == ExecuteTool(api2, name, args)
  {
  }
}
