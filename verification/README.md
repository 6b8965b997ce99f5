# AIChat GitHub agent, modelled in Dafny

AIChat is an iOS chat app whose assistant can act on GitHub. The model covers
four deterministic parts of it:

- **The GitHub tool executor** (`MCPGitHubService`). `executeTool` routes a tool
  name to one of five handlers. Each handler validates and defaults the untyped
  JSON arguments, calls one GitHub endpoint and formats the outcome as a single
  text reply. The endpoint wrappers turn an HTTP outcome into a record or a
  `GitHubMCPError`.
- **The tool-calling agent** (`MCPGitHubAgent`). It builds the chat-completion
  request: system prompt, conversation, and three declared tools. It runs the
  model's tool calls in order and joins their texts. When the model answers in
  plain text instead, a hand-written parser extracts a repository name, a
  description and a privacy flag, and creates the repository.
- **Chat turns** (`ChatViewModel`). Input is trimmed and blank input is refused.
  The message list only grows. `<MCP_SUGGESTION>…</MCP_SUGGESTION>` spans are
  detected and stripped from the agent's answer.
- **Token validation** (`GitHubTokenView.validateToken`). A token must have one
  of six prefixes and at least 40 characters. The state then follows the
  result of a `GET /user` check.

The network is abstract. `GitHubService.GitHubApi` holds, per endpoint, a
function from the request to its outcome: the client threw, the response was
not HTTP, or a status code with the decoded body and the body's optional
`message` field. The completion service is a function from the request payload
to a `GitHubAgent.Completion`. The chat service seen by the view model is a
function from the conversation to an optional answer.

Files, one module each:

- `wrappers.dfy`: `Option`, `Result`.
- `text.dfy`: the string operations used, with their laws. These are Foundation's
  character sets, trimming, splitting, joining, substring search, replacement
  and decimal rendering of integers.
- `messages.dfy`: the chat message record.
- `github_models.dfy`: the GitHub records, the create-request body and its
  coding keys, and `GitHubMCPError`.
- `github_service.dfy`: the executor.
- `github_agent.dfy`: the agent.
- `chat_view_model.dfy`: the view model.
- `github_token_view.dfy`: the token check.

Three details of the executor, as the code has them:

- `search_repositories` defaults `perPage` to 10.
- A successful search with no hits shows "Всего найдено: 0" and no
  "nothing found" text.
- The repository listing labels `createdAt` as "Обновлен".

`ChatMessage.swift` declares only `content` and `isUser`, but
`ChatViewModel.swift` builds messages with an `author` as well. The record
is modelled the way the view model uses it.

## Model

| member | source | states |
|---|---|---|
| GitHubModels.EncodeRepositoryRequest | AIChat/Services/MCPGitHubService.swift:590-601 | the create body has exactly the keys name, private, auto_init, plus description only when one is given, each holding the matching field |
| GitHubModels.RepositoryRequestRoundTrip | AIChat/Services/MCPGitHubService.swift:590-601 | decoding an encoded create body under the same coding keys gives the request back |
| GitHubModels.ErrorDescription | AIChat/Services/MCPGitHubService.swift:685-703 | invalidURL and invalidResponse have fixed texts; httpError's text is "HTTP ошибка: " followed by the code, which reads back as that number; apiError's text is "GitHub API ошибка: " followed by exactly the message |
| GitHubModels.ErrorDescriptionInjective | AIChat/Services/MCPGitHubService.swift:691-702 | two errors with the same description are the same error |
| GitHubService.CreateRequestBody | AIChat/Services/MCPGitHubService.swift:39-58 | the create call is POST /user/repos with auto_init true, private as given, a description key only when one is given, and a body that decodes back to the request |
| GitHubService.UserRepositoriesQuery | AIChat/Services/MCPGitHubService.swift:127-134 | the repository listing queries sort=updated, direction=desc, and page and per_page that read back as the numbers given |
| GitHubService.SearchQuery | AIChat/Services/MCPGitHubService.swift:176-182 | the search queries q as given, and page and per_page that read back as the numbers given |
| GitHubService.Classify | AIChat/Services/MCPGitHubService.swift:67-97 | success exactly on the expected status with a decodable body; a throw keeps its description; a non-HTTP response is invalidResponse; another status is apiError with GitHub's message when the endpoint reads one and one is present, else httpError with the code |
| GitHubService.CreateRepository | AIChat/Services/MCPGitHubService.swift:80-92 | succeeds exactly on 201 with a decodable body; any other status gives apiError(message) when the body has a message, else httpError(status) |
| GitHubService.GetUserInfo | AIChat/Services/MCPGitHubService.swift:116-121 | succeeds exactly on 200 with a decodable body; any other status is httpError(status), and the result is never an apiError |
| GitHubService.GetUserRepositories | AIChat/Services/MCPGitHubService.swift:156-168 | succeeds exactly on 200 with a decodable body; otherwise apiError(message) or httpError(status) |
| GitHubService.SearchRepositories | AIChat/Services/MCPGitHubService.swift:199-208 | succeeds exactly on 200 with a decodable body; otherwise apiError(message) or httpError(status) |
| GitHubService.GetIssues | AIChat/Services/MCPGitHubService.swift:244-256 | succeeds exactly on 200 with a decodable body; otherwise apiError(message) or httpError(status) |
| GitHubService.ReadCreateArguments | AIChat/Services/MCPGitHubService.swift:300-312 | arguments are accepted exactly when name is a string; description is present exactly when it is a string; isPrivate is true exactly when it is the boolean true |
| GitHubService.ReadSearchArguments | AIChat/Services/MCPGitHubService.swift:389-400 | accepted exactly when query is a string; page is the given integer when it fits in 64 bits, else 1; perPage likewise, else 10 |
| GitHubService.ReadRepositoriesArguments | AIChat/Services/MCPGitHubService.swift:447-448 | page is the given integer when it fits in 64 bits, else 1; perPage likewise, else 30 |
| GitHubService.WidePageFallsBack | AIChat/Services/MCPGitHubService.swift:447-448 | a page number of 2^63, too wide for Swift's `Int`, is not taken, and the page falls back to 1 |
| GitHubService.ReadIssuesArguments | AIChat/Services/MCPGitHubService.swift:508-530 | a missing owner gives its error before repo is looked at; a missing repo gives its own error; both present is success, with state as given or "open" |
| GitHubService.CountedListCount | AIChat/Services/MCPGitHubService.swift:483-489 | a counted reply starts with its header, and the count after it reads back as the number given |
| GitHubService.CountedListEntries | AIChat/Services/MCPGitHubService.swift:470-478 | every entry appears whole in the reply, and each later entry starts strictly after the earlier one ends, so entries appear in input order |
| GitHubService.CountedListContains | AIChat/Services/MCPGitHubService.swift:470-489 | every entry of a counted reply occurs in it |
| GitHubService.CreatedTextShowsLinks | AIChat/Services/MCPGitHubService.swift:330-341 | the creation reply shows the repository's page URL and its clone URL |
| GitHubService.SearchTextShape | AIChat/Services/MCPGitHubService.swift:409-428 | the search reply reports GitHub's total count, however many hits are listed, and shows each of the first five hits |
| GitHubService.SearchTextIgnoresTail | AIChat/Services/MCPGitHubService.swift:410 | hits after the fifth do not change the search reply |
| GitHubService.SearchTextQuotesQuery | AIChat/Services/MCPGitHubService.swift:423 | the search reply names the query between double quotes |
| GitHubService.RepositoriesTextShape | AIChat/Services/MCPGitHubService.swift:456-492 | the listing is the fixed "no repositories" text exactly when the list is empty; otherwise the reported count is the list's length and every repository is shown |
| GitHubService.IssuesTextShape | AIChat/Services/MCPGitHubService.swift:538-574 | the issue reply starts with the title "📋 Issues в репозитории owner/repo:", and is the fixed "no open issues" text exactly when there are none, so it is never empty |
| GitHubService.IssuesTextLists | AIChat/Services/MCPGitHubService.swift:552-571 | a non-empty issue reply reports the number of issues and shows each issue |
| GitHubService.IssueEntryNumber | AIChat/Services/MCPGitHubService.swift:554 | an issue's entry starts with its number, which reads back |
| GitHubService.UnknownToolTextNames | AIChat/Services/MCPGitHubService.swift:290 | the unknown-tool reply names the tool asked for |
| GitHubService.UnknownToolTextLists | AIChat/Services/MCPGitHubService.swift:290 | the unknown-tool reply names every one of the five tools |
| GitHubService.HandleCreateRepository | AIChat/Services/MCPGitHubService.swift:297-355 | one text content; without a string name the fixed error and no call; otherwise the reply starts with ✅ exactly when creation succeeded, and shows the repository or the error's description |
| GitHubService.HandleGetUserInfo | AIChat/Services/MCPGitHubService.swift:357-386 | one text content: the user's details on success, the error prefix plus the description on failure |
| GitHubService.HandleSearchRepositories | AIChat/Services/MCPGitHubService.swift:388-442 | one text content; without a query the fixed error and no call; otherwise the search reply or the error prefix plus the description |
| GitHubService.HandleGetUserRepositories | AIChat/Services/MCPGitHubService.swift:444-503 | one text content: the repository listing for the defaulted page, or the error prefix plus the description |
| GitHubService.HandleGetIssues | AIChat/Services/MCPGitHubService.swift:505-585 | one text content; a missing owner or repo gives its error text and no call; otherwise the issues of the first page of 30 in the given state, or the error prefix plus the description |
| GitHubService.ExecuteTool | AIChat/Services/MCPGitHubService.swift:266-295 | always exactly one text content with text and no tool calls; each of the five names goes to its own handler; any other name gets the unknown-tool reply |
| GitHubService.UnknownReplyIffUnknownName | AIChat/Services/MCPGitHubService.swift:269-293 | a reply reads as the unknown-tool reply exactly when the tool name is not one of the five, so no handler's reply can be mistaken for it |
| GitHubService.RejectedCallsIgnoreGitHub | AIChat/Services/MCPGitHubService.swift:285-293 | an unknown tool, or a call missing a required argument, gets the same reply whatever GitHub would answer, so no call is made |
| GitHubAgent.DeclaredToolsAreDispatched | AIChat/Services/MCPGitHubAgent.swift:29-92 | every tool declared to the model is one the executor dispatches, and each required argument is one of the tool's parameters |
| GitHubAgent.MissingRequiredArgumentIsRejected | AIChat/Services/MCPGitHubAgent.swift:51 | a declared tool called without one of its required arguments is answered without asking GitHub |
| GitHubAgent.AllMessages | AIChat/Services/MCPGitHubAgent.swift:114-116 | n messages become n+1: the system prompt first, then each message in order with its content, role "user" exactly when it is the user's and "assistant" otherwise |
| GitHubAgent.Payload | AIChat/Services/MCPGitHubAgent.swift:118-123 | the request uses gpt-3.5-turbo, forces tool_choice "required", and carries the declared tools and the message list |
| GitHubAgent.ToolTextsAppend | AIChat/Services/MCPGitHubAgent.swift:142-160 | running two batches of tool calls one after the other collects the first batch's texts, then the second's |
| GitHubAgent.WellFormedCalls | AIChat/Services/MCPGitHubAgent.swift:143-147 | the kept calls are among the given ones and all have a name and parsed arguments; when every call is well formed, all are kept |
| GitHubAgent.WellFormedCallsExact | AIChat/Services/MCPGitHubAgent.swift:142-160 | exactly the well-formed calls are kept, each as many times as it was given, and no malformed call is kept |
| GitHubAgent.ToolTextsSkipMalformed | AIChat/Services/MCPGitHubAgent.swift:139-160 | there are as many collected texts as well-formed calls, and the i-th text is the reply to the i-th well-formed call in emitted order; malformed calls contribute nothing |
| GitHubAgent.RunToolCalls | AIChat/Services/MCPGitHubAgent.swift:140-162 | the loop's answer is the collected texts joined with blank lines |
| GitHubAgent.Reply | AIChat/Services/MCPGitHubAgent.swift:129-172 | an answer exists only for status 200 with a message; tool calls give their joined texts; otherwise text content goes to the command parser; no content gives no answer |
| GitHubAgent.PerformRequest | AIChat/Services/MCPGitHubAgent.swift:129-172 | the method, using the tool-call loop, answers what Reply describes |
| GitHubAgent.SendMessage | AIChat/Services/MCPGitHubAgent.swift:21-127 | the answer is Reply's for what the service returns for the payload of the conversation, and exists only for a status-200 response |
| GitHubAgent.KeywordIndex | AIChat/Services/MCPGitHubAgent.swift:187 | finds the first word equal to "репозиторий" or "repository", ignoring case, or reports that there is none |
| GitHubAgent.NameAfterKeyword | AIChat/Services/MCPGitHubAgent.swift:186-191 | the word right after the first keyword; "" when the keyword is the last word or there is none |
| GitHubAgent.PhraseEnd | AIChat/Services/MCPGitHubAgent.swift:199 | found exactly when "с названием" or "with name" occurs; the end of the first "с названием" when it occurs, else the end of the first "with name" |
| GitHubAgent.DropLeadingSpaces | AIChat/Services/MCPGitHubAgent.swift:201-202 | a suffix of the input that starts with no space, and only spaces were dropped |
| GitHubAgent.DescriptionOf | AIChat/Services/MCPGitHubAgent.swift:198-204 | none when no phrase occurs or only spaces follow it; otherwise the text after the phrase with its leading spaces dropped, up to the end of the command |
| GitHubAgent.FallbackName | AIChat/Services/MCPGitHubAgent.swift:206-212 | the first word of the command once both trigger phrases are removed and the rest trimmed: a prefix ending at the first whitespace or at the end, never empty and holding no whitespace; "new-repo" when nothing is left |
| GitHubAgent.ParseCreate | AIChat/Services/MCPGitHubAgent.swift:181-212 | the name is the word after the keyword when there is one, else the fallback name, so it is one non-empty word; isPrivate exactly when "приватный" or "private" occurs, ignoring case; the description as above |
| GitHubAgent.EmptyNameAsWritten | AIChat/Services/MCPGitHubAgent.swift:207-212 | for "create repository" the code as written names the repository "", where the intended default is "new-repo" |
| GitHubAgent.CommandArgumentsRoundTrip | AIChat/Services/MCPGitHubAgent.swift:217-221 | the executor reads back exactly the name, description and privacy the parser passed |
| GitHubAgent.ParseAndExecuteCommand | AIChat/Services/MCPGitHubAgent.swift:174-227 | text that is not a create command is answered "❌ Не удалось распознать команду: " plus the command; a create command creates the parsed repository and answers with the creation reply or the failure text |
| ChatViewModel.StripMCPTags | AIChat/ChatViewModel.swift:60-65 | the stripped text is never longer than the input |
| ChatViewModel.StripShortens | AIChat/ChatViewModel.swift:60-65 | text holding a tag span becomes strictly shorter |
| ChatViewModel.StripWithoutSpan | AIChat/ChatViewModel.swift:60-65 | text with no tag span is returned unchanged |
| ChatViewModel.StripChangesIffSpan | AIChat/ChatViewModel.swift:60-65 | stripping changes the text exactly when it holds an opening tag followed by a closing tag |
| ChatViewModel.StripKeepsPlainPrefix | AIChat/ChatViewModel.swift:60-65 | text in which no match starts is kept as it is, even when it holds '<' |
| ChatViewModel.StripRemovesSpan | AIChat/ChatViewModel.swift:60-65 | after text in which no match starts ('<' allowed), a span from an opening tag to the first closing tag after it is removed whole, whatever its body holds, newlines included, and scanning goes on after it |
| ChatViewModel.SpanHasSuggestion | AIChat/ChatViewModel.swift:68-70 | text holding a tag span has a suggestion, so the check never hides a span |
| ChatViewModel.DisplayContentChangesIffSpan | AIChat/ChatViewModel.swift:47-52 | the shown text differs from the answer exactly when the answer holds a span, and is never longer |
| ChatViewModel.SendUserMessage | AIChat/ChatViewModel.swift:25-35 | blank input after trimming changes nothing; otherwise exactly one user message is appended and the input cleared; the message's content is exactly the trimmed input: a non-empty slice with only whitespace and newlines before and after it, and none at either end |
| ChatViewModel.BeginProcessing | AIChat/ChatViewModel.swift:39-40 | loading starts and the agent becomes the current author; nothing else changes |
| ChatViewModel.FinishProcessing | AIChat/ChatViewModel.swift:45-55 | no answer appends nothing; an answer appends exactly one non-user agent message with the shown text; earlier messages are kept; loading ends |
| ChatViewModel.ProcessMessage | AIChat/ChatViewModel.swift:37-57 | appends at most one message and keeps the earlier ones; it appends nothing exactly when the service gives no answer |
| ChatViewModel.Turn | AIChat/ChatViewModel.swift:25-57 | a turn keeps earlier messages and adds at most two; blank input changes nothing; accepted input adds the user's message first and clears the input |
| ChatViewModel.ExtendsTransitive | AIChat/ChatViewModel.swift:30 | appending twice still only appends |
| ChatViewModel.SessionAppendOnly | AIChat/ChatViewModel.swift:25-57 | over any sequence of turns no message is changed or removed, and each input adds at most two |
| GitHubTokenView.BeginValidation | AIChat/GitHubTokenView.swift:126-140 | an empty token changes nothing; a badly formed one is marked invalid with the format message and not checked; a well-formed one starts loading with the message cleared, and only then is it checked |
| GitHubTokenView.FinishValidation | AIChat/GitHubTokenView.swift:146-156 | loading ends; the token is valid exactly when the check succeeded; success clears the message; failure sets "Ошибка: " plus the error's description |
| GitHubTokenView.ValidateToken | AIChat/GitHubTokenView.swift:126-159 | a non-empty token ends up valid exactly when it is well formed and GitHub accepts it; a well-formed token ends with loading off and an empty message exactly on success; a malformed one leaves loading as it was |
| GitHubTokenView.ValidTokenIsWellFormed | AIChat/GitHubTokenView.swift:127-137 | a token that ends up valid is well formed, or was empty and already valid |
| GitHubTokenView.MalformedTokenIsNotChecked | AIChat/GitHubTokenView.swift:133-137 | a malformed token has the same outcome whatever GitHub would answer |
| GitHubTokenView.ListedPrefixesAccepted | AIChat/GitHubTokenView.swift:130-133 | any of the six prefixes is accepted once the token has at least 40 characters |
| GitHubTokenView.ShortTokenRefused | AIChat/GitHubTokenView.swift:133 | a token shorter than 40 characters is refused whatever its prefix |
| Text.SplitJoinRoundTrip | AIChat/Services/MCPGitHubAgent.swift:181 | for text whose only whitespace is spaces, joining the pieces of a split with a space gives the text back |
| Text.IntToStringParses | AIChat/Services/MCPGitHubService.swift:698 | an integer rendered in decimal reads back as itself when no digit follows it |
| Text.IntToStringInjective | AIChat/Services/MCPGitHubService.swift:698 | different integers are rendered differently |
| Text.Trim | AIChat/ChatViewModel.swift:26 | trimming leaves a contiguous slice of the input with only trimmed characters before and after it and none at either end; the result is empty exactly when every character is trimmed |
| Text.TrimUnique | AIChat/ChatViewModel.swift:26 | any slice with only trimmed characters around it and none at its ends is the trimmed text, so those properties fix the result |
| Text.Split | AIChat/Services/MCPGitHubAgent.swift:181 | splitting always gives at least one piece; no piece holds a separator; the first piece is the text up to the first separator |
| Text.SplitJoinMarks | AIChat/Services/MCPGitHubAgent.swift:181 | joining the pieces with a space gives the text with each separator turned into a space; as no piece holds a space, this fixes every piece and their number |

## Left out

- URLSession, request headers, URL construction and `components.url` failure (`invalidURL`), and JSON decoding of GitHub's responses. Each endpoint's outcome is an abstract input with the body already decoded.
- `localizedDescription` of system errors (URLError, DecodingError, encoding errors) is an opaque string carried in the outcome.
- `print` logging, `UserDefaults`, and the `Task`/`MainActor` plumbing. A turn is a sequence of state transitions, with the service's answer as an input.
- Chat service routing (`ChatService`), the SwiftUI views, `JSONTextView`, `StructuredResponse` and `JSONToken` are not part of this model.
- Swift strings are sequences of `Character`s (grapheme clusters); the model's strings are sequences of Unicode scalars. Counting and stepping through characters therefore differ whenever scalars combine into one cluster. Even in ASCII text "\r\n" is one `Character` but two scalars, so the 40-character bound on tokens is stated in scalars. Likewise `firstIndex(where: { $0 != " " })` at MCPGitHubAgent.swift:201 steps over whole characters: for " \u{301}x" Swift keeps the space, which forms one character with the accent, while `DropLeadingSpaces` drops it.
- Swift's `==`, `contains`, `range(of:)` and `hasPrefix` compare strings up to Unicode canonical equivalence; the model compares scalar by scalar. For example, "репозиторий" spelled with a decomposed "й" (и plus a combining breve) counts as the keyword in MCPGitHubAgent.swift:187 but fails `IsKeyword`. The same holds for the trigger phrases (lines 179 and 199), the privacy words, the tool names and the token prefixes.
- GitHubAgent.ParseAndExecuteCommand: the command path uses the corrected parser `ParseCreate` (see "## Findings"). When no name follows the keyword and nothing is left after cleaning, as for "create repository", the model creates "new-repo". The code as written (MCPGitHubAgent.swift:207-211) sends the name "". `ParseCreateAsWritten` and `EmptyNameAsWritten` keep the as-written behaviour.
- `lowercased()` is modelled for ASCII and basic Cyrillic (U+0400–U+042F) only, with full Unicode case mapping left out.
- `as? Int` and `as? Bool` accept only JSON integers and booleans, so Foundation's bridging of numbers between the two is left out. The 64-bit range of `Int` is modelled: a wider JSON integer falls back to the default.
- The regular expression in `stripMCPTags` works on UTF-16 code units; the model works on Unicode scalars. Matches are the same, because the tags are ASCII.
- `McpToolCall.arguments` and `MCPContent.toolCalls` are never filled in by the executor and are modelled as data only.
- The `"❌ Ошибка создания репозитория"` fallback in `parseAndExecuteCommand` is unreachable, because every executor reply has a text. `ParseAndExecuteCommand` states the reply without it.
- The ids of `ChatMessage` (a random UUID) are not modelled.
- `SendUserMessage` stops at the hand-off to `processMessage`; `Turn` composes the two.
- GitHubAgent.PerformRequest: the shape of the completion JSON (`choices.first.message`, `tool_calls`, the arguments string) is an abstract input (`Completion`, `RawToolCall`), so what counts as malformed is stated on that abstraction.

## Findings

| source | as written | input that shows it | evidently intended | confidence | as-written member | corrected member |
|---|---|---|---|---|---|---|
| AIChat/Services/MCPGitHubAgent.swift:207-212 | when no word follows the keyword, the name is the first piece of the cleaned command, with `?? "new-repo"` as a default; `components(separatedBy:)` never returns an empty array, so the default is dead and an empty cleaned command yields the name "" | the command "create repository" | a command that names no repository creates one called "new-repo" | not executed | GitHubAgent.EmptyNameAsWritten | GitHubAgent.ParseCreate |
