/**
 * `MCPGitHubAgent`: the chat-completion request it sends (system prompt,
 * conversation, declared tools), how it turns the model's reply into a text
 * (running every well-formed tool call in order, or parsing a free-text
 * command by hand), and that hand-written command parser.
 *
 * The completion service is abstract: `SendMessage` takes a function from
 * the request to what came back.
 */
module GitHubAgent {
  import opened Wrappers
  import opened Text
  import opened Messages
  import opened GitHubModels
  import opened GitHubService

  // ---------------------------------------------------------------------------
  // Tools declared to the model

  /** One property of a tool's JSON-schema `parameters` object. */
  datatype ToolParameter = ToolParameter(name: string, kind: string, description: string)

  /** One `{"type": "function", "function": …}` entry of the request's `tools`. */
  datatype ToolDeclaration = ToolDeclaration(name: string, description: string, parameters: seq<ToolParameter>, required: seq<string>)

  const DeclaredTools: seq<ToolDeclaration> := [
    ToolDeclaration(
      "create_repository",
      "Создает новый GitHub репозиторий. ВСЕГДА используй этот инструмент для создания репозиториев.",
      [ ToolParameter("name", "string", "Название репозитория (обязательно)"),
        ToolParameter("description", "string", "Описание репозитория (необязательно, может быть null)"),
        ToolParameter("isPrivate", "boolean", "Приватный репозиторий (по умолчанию false - публичный)") ],
      ["name"]),
    ToolDeclaration(
      "get_user_info",
      "Получает информацию о текущем пользователе GitHub",
      [],
      []),
    ToolDeclaration(
      "search_repositories",
      "Поиск репозиториев на GitHub",
      [ ToolParameter("query", "string", "Поисковый запрос"),
        ToolParameter("page", "integer", "Номер страницы"),
        ToolParameter("perPage", "integer", "Количество результатов на странице") ],
      ["query"])
  ]

  /** Every tool offered to the model is one the executor dispatches, and its required arguments are among its parameters. */
  lemma DeclaredToolsAreDispatched()
    ensures forall i :: 0 <= i < |DeclaredTools| ==> DeclaredTools[i].name in ToolNames
    ensures forall i, k :: 0 <= i < |DeclaredTools| && 0 <= k < |DeclaredTools[i].required| ==>
      exists p :: 0 <= p < |DeclaredTools[i].parameters| && DeclaredTools[i].parameters[p].name == DeclaredTools[i].required[k]
  {
    assert DeclaredTools[0].parameters[0].name == DeclaredTools[0].required[0];
    assert DeclaredTools[2].parameters[0].name == DeclaredTools[2].required[0];
  }

  /** A declared tool called without one of its required arguments is answered without asking GitHub. */
  lemma MissingRequiredArgumentIsRejected(i: nat, args: JsonObject, k: nat)
    requires i < |DeclaredTools| && k < |DeclaredTools[i].required|
    requires DeclaredTools[i].required[k] !in args
    ensures RejectedLocally(DeclaredTools[i].name, args)
  {
  }

  const SystemPrompt: string :=
    "ROLE: MCP GitHub Agent\n"
    + "PURPOSE: Process GitHub commands using MCP (Model Context Protocol) tools.\n"
    + "\n"
    + "AVAILABLE MCP TOOLS:\n"
    + "- create_repository: Создает новый GitHub репозиторий\n"
    + "- get_user_info: Получает информацию о текущем пользователе GitHub\n"
    + "- search_repositories: Поиск репозиториев на GitHub\n"
    + "\n"
    + "RULES:\n"
    + "- ВСЕГДА используй MCP инструменты для выполнения команд\n"
    + "- НЕ отвечай текстом, если можешь использовать инструмент\n"
    + "- Для создания репозитория ВСЕГДА используй create_repository\n"
    + "- Извлекай название репозитория из команды пользователя\n"
    + "- Если описание не указано, используй null\n"
    + "- Если приватность не указана, используй false (публичный)\n"
    + "- Отвечай на русском языке\n"
    + "- Выполняй команды немедленно, не задавай дополнительных вопросов"

  // ---------------------------------------------------------------------------
  // The outgoing request

  datatype OutgoingMessage = OutgoingMessage(role: string, content: string)

  function Role(m: ChatMessage): string {
    if m.isUser then "user" else "assistant"
  }

  /** `allMessages`: the system prompt, then the conversation in order with its roles mapped. */
  function AllMessages(messages: seq<ChatMessage>): (r: seq<OutgoingMessage>)
    ensures |r| == |messages| + 1
    ensures r[0] == OutgoingMessage("system", SystemPrompt)
    ensures forall i :: 0 <= i < |messages| ==> r[i + 1].content == messages[i].content
    ensures forall i :: 0 <= i < |messages| ==>
      && (r[i + 1].role == "user" || r[i + 1].role == "assistant")
      && (r[i + 1].role == "user" <==> messages[i].isUser)
  {
    [OutgoingMessage("system", SystemPrompt)]
    + seq(|messages|, i requires 0 <= i < |messages| => OutgoingMessage(Role(messages[i]), messages[i].content))
  }

  /** The payload of `POST chat/completions`. */
  datatype ChatRequest = ChatRequest(model: string, messages: seq<OutgoingMessage>, tools: seq<ToolDeclaration>, toolChoice: string)

  function Payload(messages: seq<ChatMessage>): (r: ChatRequest)
    ensures r.model == "gpt-3.5-turbo" && r.toolChoice == "required" && r.tools == DeclaredTools
    ensures r.messages == AllMessages(messages)
  {
    ChatRequest("gpt-3.5-turbo", AllMessages(messages), DeclaredTools, "required")
  }

  // ---------------------------------------------------------------------------
  // The completion

  /**
   * One entry of the reply's `tool_calls`: `name` is present when the entry
   * has a `function` object with a string `name`; `arguments` is present when
   * that object's `arguments` string parses as a JSON object.
   */
  datatype RawToolCall = RawToolCall(name: Option<string>, arguments: Option<JsonObject>)

  /** `choices.first.message`: its `tool_calls` when that is an array of objects, and its string `content`. */
  datatype AssistantMessage = AssistantMessage(toolCalls: Option<seq<RawToolCall>>, content: Option<string>)

  /**
   * What the completion request produced: the request threw or the response
   * was not HTTP; or a status code with the first choice's message, absent
   * when the body is not JSON or has no such message.
   */
  datatype Completion = Failed | Responded(status: int, message: Option<AssistantMessage>)

  predicate WellFormed(c: RawToolCall) {
    c.name.Some? && c.arguments.Some?
  }

  /** The texts one tool call contributes: none when it is malformed, else the first text of its result. */
  function CallTexts(api: GitHubApi, c: RawToolCall): seq<string> {
    if WellFormed(c) then
      match FirstText(ExecuteTool(api, c.name.value, c.arguments.value))
      case Some(t) => [t]
      case None => []
    else []
  }

  /** The texts the loop in `performRequest` collects from `calls`, in order. */
  function ToolTexts(api: GitHubApi, calls: seq<RawToolCall>): seq<string>
    decreases |calls|
  {
    if |calls| == 0 then []
    else ToolTexts(api, calls[..|calls| - 1]) + CallTexts(api, calls[|calls| - 1])
  }

  /** Running two batches of calls one after the other collects the texts of the first, then those of the second. */
  lemma {:induction false} ToolTextsAppend(api: GitHubApi, a: seq<RawToolCall>, b: seq<RawToolCall>)
    ensures ToolTexts(api, a + b) == ToolTexts(api, a) + ToolTexts(api, b)
    decreases |b|
  {
    if |b| == 0 {
      assert a + b == a;
    } else {
      var b' := b[..|b| - 1];
      assert (a + b)[..|a + b| - 1] == a + b';
      assert (a + b)[|a + b| - 1] == b[|b| - 1];
      ToolTextsAppend(api, a, b');
    }
  }

  /** The well-formed calls among `calls`, in order. */
  function WellFormedCalls(calls: seq<RawToolCall>): (r: seq<RawToolCall>)
    ensures |r| <= |calls|
    ensures forall i :: 0 <= i < |r| ==> WellFormed(r[i]) && r[i] in calls
    ensures (forall i :: 0 <= i < |calls| ==> WellFormed(calls[i])) ==> r == calls
    decreases |calls|
  {
    if |calls| == 0 then []
    else
      var init := calls[..|calls| - 1];
      var last := calls[|calls| - 1];
      assert calls == init + [last];
      WellFormedCalls(init) + (if WellFormed(last) then [last] else [])
  }

  /** Exactly the well-formed calls are kept, each as often as it was given. */
  lemma {:induction false} WellFormedCallsExact(calls: seq<RawToolCall>)
    ensures forall c :: multiset(WellFormedCalls(calls))[c] == (if WellFormed(c) then multiset(calls)[c] else 0)
    decreases |calls|
  {
    if |calls| > 0 {
      var init := calls[..|calls| - 1];
      var last := calls[|calls| - 1];
      assert calls == init + [last];
      WellFormedCallsExact(init);
      assert multiset(calls) == multiset(init) + multiset{last};
      var kept := if WellFormed(last) then [last] else [];
      assert WellFormedCalls(calls) == WellFormedCalls(init) + kept;
      assert multiset(WellFormedCalls(calls)) == multiset(WellFormedCalls(init)) + multiset(kept);
    }
  }

  /** The reply text of a well-formed call. */
  function CallText(api: GitHubApi, c: RawToolCall): string
    requires WellFormed(c)
  {
    ResultText(ExecuteTool(api, c.name.value, c.arguments.value))
  }

  /** The loop's texts are exactly the replies to the well-formed calls, in the order the model emitted them. */
  lemma {:induction false} ToolTextsSkipMalformed(api: GitHubApi, calls: seq<RawToolCall>)
    ensures var w := WellFormedCalls(calls);
      && |ToolTexts(api, calls)| == |w|
      && forall i :: 0 <= i < |w| ==> ToolTexts(api, calls)[i] == CallText(api, w[i])
    decreases |calls|
  {
    if |calls| > 0 {
      var init := calls[..|calls| - 1];
      var last := calls[|calls| - 1];
      ToolTextsSkipMalformed(api, init);
      var before := ToolTexts(api, init);
      assert ToolTexts(api, calls) == before + CallTexts(api, last);
      if WellFormed(last) {
        var r := ExecuteTool(api, last.name.value, last.arguments.value);
        assert FirstText(r) == Some(ResultText(r));
        assert CallTexts(api, last) == [CallText(api, last)];
      }
    }
  }

  /** The tool-call loop of `performRequest`, joining the collected texts with blank lines. */
  method RunToolCalls(api: GitHubApi, calls: seq<RawToolCall>) returns (joined: string)
    ensures joined == Join(ToolTexts(api, calls), "\n\n")
  {
    var results: seq<string> := [];
    var i := 0;
    while i < |calls|
      invariant 0 <= i <= |calls|
      invariant results == ToolTexts(api, calls[..i])
    {
      var c := calls[i];
      if c.name.Some? && c.arguments.Some? {
        var result := ExecuteTool(api, c.name.value, c.arguments.value);
        match FirstText(result) {
          case Some(t) => results := results + [t];
          case None =>
        }
      }
      assert calls[..i + 1][..i] == calls[..i];
      i := i + 1;
    }
    assert calls[..|calls|] == calls;
    joined := Join(results, "\n\n");
  }

  /**
   * What `performRequest` answers for a completion: nothing unless the status
   * is 200 and the reply has a message; the joined tool texts when the
   * message has tool calls; else the hand-parsed command when it has text.
   */
  function Reply(api: GitHubApi, completion: Completion): (r: Option<string>)
    ensures r.Some? ==> completion.Responded? && completion.status == 200 && completion.message.Some?
    ensures completion.Responded? && completion.status == 200 && completion.message.Some? ==>
      var m := completion.message.value;
      && (m.toolCalls.Some? ==> r == Some(Join(ToolTexts(api, m.toolCalls.value), "\n\n")))
      && (m.toolCalls.None? && m.content.Some? ==> r == Some(ParseAndExecuteCommand(api, m.content.value)))
      && (m.toolCalls.None? && m.content.None? ==> r.None?)
  {
    match completion
    case Failed => None
    case Responded(status, message) =>
      if status != 200 || message.None? then None
      else if message.value.toolCalls.Some? then Some(Join(ToolTexts(api, message.value.toolCalls.value), "\n\n"))
      else if message.value.content.Some? then Some(ParseAndExecuteCommand(api, message.value.content.value))
      else None
  }

  /** `performRequest` */
  method PerformRequest(api: GitHubApi, completion: Completion) returns (r: Option<string>)
    ensures r == Reply(api, completion)
  {
    if !(completion.Responded? && completion.status == 200 && completion.message.Some?) {
      return None;
    }
    var m := completion.message.value;
    if m.toolCalls.Some? {
      var joined := RunToolCalls(api, m.toolCalls.value);
      r := Some(joined);
    } else if m.content.Some? {
      r := Some(ParseAndExecuteCommand(api, m.content.value));
    } else {
      r := None;
    }
  }

  /** `sendMessage`: sends the payload for `messages` and answers from what came back. */
  method SendMessage(api: GitHubApi, complete: ChatRequest -> Completion, messages: seq<ChatMessage>) returns (r: Option<string>)
    ensures r == Reply(api, complete(Payload(messages)))
    ensures r.Some? ==> complete(Payload(messages)).Responded? && complete(Payload(messages)).status == 200
  {
    r := PerformRequest(api, complete(Payload(messages)));
  }

  // ---------------------------------------------------------------------------
  // The hand-written command parser

  const CreateTriggerRu: string := "создай репозиторий"
  const CreateTriggerEn: string := "create repository"
  const KeywordRu: string := "репозиторий"
  const KeywordEn: string := "repository"
  const PrivateRu: string := "приватный"
  const PrivateEn: string := "private"
  const NamePhraseRu: string := "с названием"
  const NamePhraseEn: string := "with name"
  const DefaultName: string := "new-repo"
  const UnrecognisedPrefix: string := "❌ Не удалось распознать команду: "
  const CreateFailedText: string := "❌ Ошибка создания репозитория"

  /** The lowercased command asks to create a repository. */
  predicate IsCreateCommand(command: string) {
    Contains(Lower(command), CreateTriggerRu) || Contains(Lower(command), CreateTriggerEn)
  }

  predicate IsKeyword(w: string) {
    Lower(w) == KeywordRu || Lower(w) == KeywordEn
  }

  /** `k` is the first word equal to "репозиторий" or "repository", ignoring case. */
  predicate FirstKeywordAt(words: seq<string>, k: int) {
    0 <= k < |words| && IsKeyword(words[k]) && forall j :: 0 <= j < k ==> !IsKeyword(words[j])
  }

  function KeywordIndex(words: seq<string>): (r: Option<nat>)
    ensures r.Some? ==> FirstKeywordAt(words, r.value)
    ensures r.None? ==> forall k :: 0 <= k < |words| ==> !IsKeyword(words[k])
    decreases |words|
  {
    if |words| == 0 then None
    else if IsKeyword(words[0]) then Some(0)
    else match KeywordIndex(words[1..])
      case Some(k) => Some(k + 1)
      case None => None
  }

  /** The word right after the first keyword, or "" when there is no keyword or it is the last word. */
  function NameAfterKeyword(words: seq<string>): (r: string)
    ensures forall k :: FirstKeywordAt(words, k) ==> r == (if k + 1 < |words| then words[k + 1] else "")
    ensures (forall k :: 0 <= k < |words| ==> !IsKeyword(words[k])) ==> r == ""
  {
    match KeywordIndex(words)
    case Some(k) => if k + 1 < |words| then words[k + 1] else ""
    case None => ""
  }

  /** The command mentions privacy, ignoring case. */
  predicate MentionsPrivate(command: string) {
    Contains(Lower(command), PrivateRu) || Contains(Lower(command), PrivateEn)
  }

  /** Where the text after the first "с названием" starts, or else after the first "with name"; case matters. */
  function PhraseEnd(command: string): (r: Option<nat>)
    ensures r.Some? <==> Contains(command, NamePhraseRu) || Contains(command, NamePhraseEn)
    ensures r.Some? ==> r.value <= |command|
    ensures Contains(command, NamePhraseRu) ==>
      r.value >= |NamePhraseRu| && OccursAt(command, NamePhraseRu, r.value - |NamePhraseRu|)
      && forall j :: 0 <= j < r.value - |NamePhraseRu| ==> !OccursAt(command, NamePhraseRu, j)
    ensures !Contains(command, NamePhraseRu) && Contains(command, NamePhraseEn) ==>
      r.value >= |NamePhraseEn| && OccursAt(command, NamePhraseEn, r.value - |NamePhraseEn|)
      && forall j :: 0 <= j < r.value - |NamePhraseEn| ==> !OccursAt(command, NamePhraseEn, j)
  {
    match IndexOf(command, NamePhraseRu)
    case Some(k) => Some(k + |NamePhraseRu|)
    case None =>
      match IndexOf(command, NamePhraseEn)
      case Some(k) => Some(k + |NamePhraseEn|)
      case None => None
  }

  /** `s` without its leading spaces (only U+0020). */
  function DropLeadingSpaces(s: string): (r: string)
    ensures |r| <= |s| && r == s[|s| - |r|..]
    ensures forall k :: 0 <= k < |s| - |r| ==> s[k] == ' '
    ensures r == [] || r[0] != ' '
    decreases |s|
  {
    if |s| > 0 && s[0] == ' ' then DropLeadingSpaces(s[1..]) else s
  }

  /** Dropping the leading spaces of the text from `e` on leaves a suffix of `command` with only spaces before it. */
  lemma DropLeadingSpacesOfSuffix(command: string, e: nat)
    requires e <= |command|
    ensures var d := DropLeadingSpaces(command[e..]);
      && e + |d| <= |command|
      && d == command[|command| - |d|..]
      && forall k :: e <= k < |command| - |d| ==> command[k] == ' '
  {
    var after := command[e..];
    var d := DropLeadingSpaces(after);
    assert d == after[|after| - |d|..];
    assert after[|after| - |d|..] == command[|command| - |d|..];
    forall k | e <= k < |command| - |d| ensures command[k] == ' ' {
      assert command[k] == after[k - e];
    }
  }

  /**
   * The description: what follows the name phrase, leading spaces dropped;
   * none when there is no phrase or only spaces follow it.
   */
  function DescriptionOf(command: string): (r: Option<string>)
    ensures PhraseEnd(command).None? ==> r.None?
    ensures PhraseEnd(command).Some? && r.None? ==>
      forall k :: PhraseEnd(command).value <= k < |command| ==> command[k] == ' '
    ensures r.Some? ==>
      && PhraseEnd(command).Some?
      && r.value != [] && r.value[0] != ' '
      && PhraseEnd(command).value + |r.value| <= |command|
      && r.value == command[|command| - |r.value|..]
      && forall k :: PhraseEnd(command).value <= k < |command| - |r.value| ==> command[k] == ' '
  {
    match PhraseEnd(command)
    case None => None
    case Some(e) => DescriptionFrom(command, e)
  }

  /** The text of `command` from `e` on with its leading spaces dropped, or none when only spaces are left. */
  function DescriptionFrom(command: string, e: nat): (r: Option<string>)
    requires e <= |command|
    ensures r.None? ==> forall k :: e <= k < |command| ==> command[k] == ' '
    ensures r.Some? ==>
      && r.value != [] && r.value[0] != ' '
      && e + |r.value| <= |command|
      && r.value == command[|command| - |r.value|..]
      && forall k :: e <= k < |command| - |r.value| ==> command[k] == ' '
  {
    var d := DropLeadingSpaces(command[e..]);
    DropLeadingSpacesOfSuffix(command, e);
    if d == [] then None else Some(d)
  }

  /** The command with both trigger phrases removed (case matters) and trimmed of spaces and tabs. */
  function CleanCommand(command: string): string {
    Trim(RemoveAll(RemoveAll(command, CreateTriggerRu), CreateTriggerEn), Whitespaces)
  }

  /** The name used when none follows the keyword, as written: the first piece of the cleaned command, "" when that is empty. */
  function FallbackNameAsWritten(command: string): string {
    Split(CleanCommand(command), Whitespaces)[0]
  }

  /** The name used when none follows the keyword: the first word of the cleaned command, or "new-repo" when nothing is left. */
  function FallbackName(command: string): (r: string)
    ensures r != [] && NoWhitespace(r)
    ensures CleanCommand(command) == [] ==> r == DefaultName
    ensures CleanCommand(command) != [] ==>
      && StartsWith(CleanCommand(command), r)
      && (|r| == |CleanCommand(command)| || InClass(CleanCommand(command)[|r|], Whitespaces))
  {
    var clean := CleanCommand(command);
    if clean == [] then
      DefaultNameIsWord();
      DefaultName
    else FirstWord(clean)
  }

  lemma DefaultNameIsWord()
    ensures DefaultName != [] && NoWhitespace(DefaultName)
  {
    forall k | 0 <= k < |DefaultName| ensures !InClass(DefaultName[k], Whitespaces) {
      assert DefaultName[k] in "new-repo";
    }
  }

  /** The first piece of a text that starts with a non-whitespace character: a whole, non-empty word. */
  function FirstWord(t: string): (r: string)
    requires t != [] && !InClass(t[0], Whitespaces)
    ensures r != [] && NoWhitespace(r) && StartsWith(t, r)
    ensures |r| == |t| || InClass(t[|r|], Whitespaces)
  {
    Split(t, Whitespaces)[0]
  }

  datatype CreateCommand = CreateCommand(name: string, description: Option<string>, isPrivate: bool)

  function AssembleCommand(command: string, fallback: string): CreateCommand {
    var named := NameAfterKeyword(Split(command, Whitespaces));
    CreateCommand(if named == "" then fallback else named, DescriptionOf(command), MentionsPrivate(command))
  }

  /** The parser exactly as written, with its dead "new-repo" default. */
  function ParseCreateAsWritten(command: string): CreateCommand {
    AssembleCommand(command, FallbackNameAsWritten(command))
  }

  /**
   * The parser as intended: the word after the first keyword; else the first
   * word of the cleaned command; else "new-repo". The name is always one
   * non-empty word.
   */
  function ParseCreate(command: string): (r: CreateCommand)
    ensures r.name != []
    ensures forall k :: 0 <= k < |r.name| ==> !InClass(r.name[k], Whitespaces)
    ensures NameAfterKeyword(Split(command, Whitespaces)) != "" ==> r.name == NameAfterKeyword(Split(command, Whitespaces))
    ensures NameAfterKeyword(Split(command, Whitespaces)) == "" ==> r.name == FallbackName(command)
    ensures r.isPrivate <==> MentionsPrivate(command)
    ensures r.description == DescriptionOf(command)
  {
    var words := Split(command, Whitespaces);
    var named := NameAfterKeyword(words);
    assert named != "" ==> exists k :: 0 <= k < |words| && named == words[k];
    AssembleCommand(command, FallbackName(command))
  }

  lemma LowerOfLowercase(s: string)
    requires forall k :: 0 <= k < |s| ==> !IsUpper(s[k])
    ensures Lower(s) == s
  {
  }

  predicate NoWhitespace(s: string) {
    forall k :: 0 <= k < |s| ==> !InClass(s[k], Whitespaces)
  }

  /** Two words with one space between them split into those two words. */
  lemma SplitTwoWords(a: string, b: string)
    requires NoWhitespace(a) && NoWhitespace(b)
    ensures Split(a + " " + b, Whitespaces) == [a, b]
  {
    var s := a + " " + b;
    assert s[|a|] == ' ';
    assert forall k :: 0 <= k < |a| ==> s[k] == a[k];
    assert FirstInClass(s, Whitespaces) == Some(|a|);
    assert s[..|a|] == a;
    assert s[|a| + 1..] == b;
  }

  /** "create repository" splits into the words "create" and "repository". */
  lemma CreateRepositoryWords()
    ensures Split(CreateTriggerEn, Whitespaces) == ["create", KeywordEn]
  {
    assert CreateTriggerEn == "create" + " " + KeywordEn;
    SplitTwoWords("create", KeywordEn);
  }

  /** Removing the trigger phrases from "create repository" leaves nothing. */
  lemma CreateRepositoryCleansToEmpty()
    ensures CleanCommand(CreateTriggerEn) == []
  {
    NotContainsLonger(CreateTriggerEn, CreateTriggerRu);
    RemoveAllAbsent(CreateTriggerEn, CreateTriggerRu);
    RemoveAllSelf(CreateTriggerEn);
  }

  lemma CreateTriggerIsCreateCommand()
    ensures IsCreateCommand(CreateTriggerEn)
  {
    LowerOfLowercase(CreateTriggerEn);
    assert OccursAt(CreateTriggerEn, CreateTriggerEn, 0);
    OccursContains(Lower(CreateTriggerEn), CreateTriggerEn, 0);
  }

  /** When the keyword is the last of two words, no name follows it. */
  lemma KeywordLast(words: seq<string>)
    requires |words| == 2 && !IsKeyword(words[0]) && IsKeyword(words[1])
    ensures NameAfterKeyword(words) == ""
  {
    assert FirstKeywordAt(words, 1);
  }

  lemma EnglishKeywordIsKeyword(words: seq<string>)
    requires words == ["create", KeywordEn]
    ensures IsKeyword(words[1]) && !IsKeyword(words[0])
  {
    LowerOfLowercase(KeywordEn);
    assert |Lower("create")| == 6;
  }

  /** In "create repository" the keyword is the last word, so no name follows it. */
  lemma CreateTriggerHasNoNamedWord(words: seq<string>)
    requires words == Split(CreateTriggerEn, Whitespaces)
    ensures NameAfterKeyword(words) == ""
  {
    CreateRepositoryWords();
    EnglishKeywordIsKeyword(words);
    KeywordLast(words);
  }

  /** As written, the command "create repository" asks GitHub for a repository with an empty name; as intended it is called "new-repo". */
  lemma EmptyNameAsWritten(command: string)
    requires command == CreateTriggerEn
    ensures IsCreateCommand(command)
    ensures ParseCreateAsWritten(command).name == ""
    ensures ParseCreate(command).name == DefaultName
  {
    CreateTriggerIsCreateCommand();
    CreateTriggerHasNoNamedWord(Split(command, Whitespaces));
    CreateRepositoryCleansToEmpty();
    assert Split([], Whitespaces) == [[]];
  }

  /** The arguments the parser hands to `create_repository`; a missing description is passed as null. */
  function CommandArguments(c: CreateCommand): JsonObject {
    map[
      "name" := JString(c.name),
      "description" := (match c.description case Some(d) => JString(d) case None => JNull),
      "isPrivate" := JBool(c.isPrivate)]
  }

  /** The executor reads back exactly what the parser passed. */
  lemma CommandArgumentsRoundTrip(c: CreateCommand)
    ensures ReadCreateArguments(CommandArguments(c)) == Some(CreateArguments(c.name, c.description, c.isPrivate))
  {
  }

  /**
   * `parseAndExecuteCommand` (with the intended name default): a create
   * command is sent to `create_repository` and answered with its reply; any
   * other text is reported as not recognised.
   */
  function ParseAndExecuteCommand(api: GitHubApi, command: string): (r: string)
    ensures !IsCreateCommand(command) ==> r == UnrecognisedPrefix + command
    ensures IsCreateCommand(command) ==>
      var c := ParseCreate(command);
      var created := CreateRepository(api, c.name, c.description, c.isPrivate);
      && (created.Ok? ==> r == CreatedText(created.value))
      && (created.Err? ==> r == CreateFailurePrefix + LocalizedDescription(created.error))
  {
    if IsCreateCommand(command) then
      var c := ParseCreate(command);
      CommandArgumentsRoundTrip(c);
      FirstText(ExecuteTool(api, "create_repository", CommandArguments(c))).GetOr(CreateFailedText)
    else UnrecognisedPrefix + command
  }
}
