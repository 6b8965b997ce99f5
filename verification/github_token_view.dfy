/**
 * `GitHubTokenView.validateToken`: the format check of a GitHub token and
 * the view state it leaves, before and after the `getUserInfo` check.
 */
module GitHubTokenView {
  import opened Wrappers
  import opened Text
  import opened GitHubModels
  import opened GitHubService

  /** The view's state that `validateToken` reads and writes. */
  datatype TokenState = TokenState(githubToken: string, isTokenValid: bool, isLoading: bool, errorMessage: string)

  const ValidPrefixes: seq<string> := ["ghp_", "github_pat_", "gho_", "ghu_", "ghs_", "ghr_"]

  /** Fewest characters a token may have. */
  const MinimumLength: nat := 40

  const FormatErrorText: string :=
    "Токен должен начинаться с 'ghp_', 'github_pat_', 'gho_', 'ghu_', 'ghs_' или 'ghr_' и содержать минимум 40 символов"

  const CheckErrorPrefix: string := "Ошибка: "

  predicate HasValidPrefix(token: string) {
    exists i :: 0 <= i < |ValidPrefixes| && StartsWith(token, ValidPrefixes[i])
  }

  predicate HasValidFormat(token: string) {
    HasValidPrefix(token) && |token| >= MinimumLength
  }

  /** What the synchronous part of `validateToken` leaves, and whether it goes on to ask GitHub. */
  datatype ValidationStart = ValidationStart(state: TokenState, checks: bool)

  /**
   * The synchronous part of `validateToken`: an empty token changes nothing;
   * a badly formed one is marked invalid with the format message and never
   * checked; a well-formed one starts loading with the message cleared.
   */
  function BeginValidation(s: TokenState): (r: ValidationStart)
    ensures r.checks <==> HasValidFormat(s.githubToken)
    ensures s.githubToken == [] ==> r.state == s
    ensures s.githubToken != [] && !HasValidFormat(s.githubToken) ==>
      r.state == s.(isTokenValid := false, errorMessage := FormatErrorText)
    ensures r.checks ==> r.state == s.(isLoading := true, errorMessage := "")
    ensures r.state.githubToken == s.githubToken
  {
    if s.githubToken == [] then ValidationStart(s, false)
    else if !HasValidFormat(s.githubToken) then ValidationStart(s.(isTokenValid := false, errorMessage := FormatErrorText), false)
    else ValidationStart(s.(isLoading := true, errorMessage := ""), true)
  }

  /** The end of the check: loading stops; a success marks the token valid, a failure invalid with its description. */
  function FinishValidation(s: TokenState, result: Result<User, Failure>): (r: TokenState)
    ensures !r.isLoading && r.githubToken == s.githubToken
    ensures r.isTokenValid <==> result.Ok?
    ensures result.Ok? ==> r.errorMessage == ""
    ensures result.Err? ==>
      && StartsWith(r.errorMessage, CheckErrorPrefix)
      && r.errorMessage[|CheckErrorPrefix|..] == LocalizedDescription(result.error)
  {
    match result
    case Ok(_) => s.(isLoading := false, isTokenValid := true, errorMessage := "")
    case Err(e) =>
      var m := CheckErrorPrefix + LocalizedDescription(e);
      assert m[..|CheckErrorPrefix|] == CheckErrorPrefix;
      s.(isLoading := false, isTokenValid := false, errorMessage := m)
  }

  /** `validateToken` run to completion, with `api` answering the check. */
  function ValidateToken(s: TokenState, api: GitHubApi): (r: TokenState)
    ensures r.githubToken == s.githubToken
    ensures s.githubToken != [] ==> (r.isTokenValid <==> HasValidFormat(s.githubToken) && GetUserInfo(api).Ok?)
    ensures HasValidFormat(s.githubToken) ==> !r.isLoading && (r.errorMessage == "" <==> GetUserInfo(api).Ok?)
    ensures !HasValidFormat(s.githubToken) ==> r.isLoading == s.isLoading
  {
    var start := BeginValidation(s);
    if start.checks then FinishValidation(start.state, GetUserInfo(api)) else start.state
  }

  /** A token ends up valid only if it is well formed, or it was empty and already marked valid. */
  lemma ValidTokenIsWellFormed(s: TokenState, api: GitHubApi)
    requires ValidateToken(s, api).isTokenValid
    ensures HasValidFormat(s.githubToken) || (s.githubToken == [] && s.isTokenValid)
  {
  }

  /** A badly formed token never reaches GitHub: the outcome is the same whatever GitHub would answer. */
  lemma MalformedTokenIsNotChecked(s: TokenState, api1: GitHubApi, api2: GitHubApi)
    requires !HasValidFormat(s.githubToken)
    ensures ValidateToken(s, api1) == ValidateToken(s, api2)
  {
  }

  /** Each listed prefix is accepted once the token is long enough. */
  lemma ListedPrefixesAccepted(token: string, i: nat)
    requires i < |ValidPrefixes| && StartsWith(token, ValidPrefixes[i]) && |token| >= MinimumLength
    ensures HasValidFormat(token)
  {
  }

  /** A token shorter than 40 characters is refused whatever its prefix. */
  lemma ShortTokenRefused(token: string)
    requires |token| < MinimumLength
    ensures !HasValidFormat(token)
  {
  }
}
