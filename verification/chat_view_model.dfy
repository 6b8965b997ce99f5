/**
 * `ChatViewModel`: accepting the user's input as a message, appending the
 * agent's answer, and the handling of `<MCP_SUGGESTION>` spans in that
 * answer. The asynchronous turn is modelled as two sequential steps, and the
 * chat service as a function from the conversation to its optional answer.
 */
module ChatViewModel {
  import opened Wrappers
  import opened Text
  import opened Messages

  // ---------------------------------------------------------------------------
  // MCP suggestion spans

  const Open: string := "<MCP_SUGGESTION>"
  const Close: string := "</MCP_SUGGESTION>"

  /** `hasMCPSuggestion`: both tags occur somewhere, in either order. */
  predicate HasMCPSuggestion(text: string) {
    Contains(text, Open) && Contains(text, Close)
  }

  /** An opening tag at `i` with a closing tag somewhere after it: where the pattern matches. */
  predicate SpanAt(s: string, i: int) {
    OccursAt(s, Open, i) && Contains(s[i + |Open|..], Close)
  }

  predicate HasSpan(s: string) {
    exists i :: 0 <= i < |s| && SpanAt(s, i)
  }

  /**
   * `stripMCPTags`: deletes every match of `<MCP_SUGGESTION>.*?</MCP_SUGGESTION>`
   * with `.` matching line separators, scanning left to right; each match
   * runs from an opening tag to the first closing tag after it.
   */
  function StripMCPTags(s: string): (r: string)
    ensures |r| <= |s|
    decreases |s|
  {
    if |s| == 0 then s
    else if StartsWith(s, Open) && Contains(s[|Open|..], Close) then
      var k := IndexOf(s[|Open|..], Close).value;
      StripMCPTags(s[|Open| + k + |Close|..])
    else [s[0]] + StripMCPTags(s[1..])
  }

  lemma SpanAtTail(s: string, i: int)
    requires |s| > 0 && i >= 1
    ensures SpanAt(s, i) <==> SpanAt(s[1..], i - 1)
  {
    OccursAtTail(s, Open);
    if OccursAt(s, Open, i) {
      assert s[i + |Open|..] == s[1..][i - 1 + |Open|..];
    }
  }

  /** A text that does not start a match at its first character. */
  lemma NoSpanAtStart(s: string)
    requires |s| > 0 && !(StartsWith(s, Open) && Contains(s[|Open|..], Close))
    ensures !SpanAt(s, 0)
  {
    if OccursAt(s, Open, 0) {
      assert s[..|Open|] == s[0..|Open|];
    }
  }

  /** A match strictly shortens the text. */
  lemma {:induction false} StripShortens(s: string)
    requires HasSpan(s)
    ensures |StripMCPTags(s)| < |s|
    decreases |s|
  {
    var i :| 0 <= i < |s| && SpanAt(s, i);
    if !(StartsWith(s, Open) && Contains(s[|Open|..], Close)) {
      NoSpanAtStart(s);
      SpanAtTail(s, i);
      StripShortens(s[1..]);
    }
  }

  /** Text without a match is left as it is. */
  lemma {:induction false} StripWithoutSpan(s: string)
    requires !HasSpan(s)
    ensures StripMCPTags(s) == s
    decreases |s|
  {
    if |s| > 0 {
      assert !SpanAt(s, 0);
      if StartsWith(s, Open) {
        assert s[0..|Open|] == s[..|Open|];
      }
      forall j | 0 <= j < |s| - 1
        ensures !SpanAt(s[1..], j)
      {
        SpanAtTail(s, j + 1);
      }
      StripWithoutSpan(s[1..]);
      assert s == [s[0]] + s[1..];
    }
  }

  /** Stripping changes the text exactly when there is something to strip. */
  lemma StripChangesIffSpan(s: string)
    ensures StripMCPTags(s) == s <==> !HasSpan(s)
  {
    if HasSpan(s) {
      StripShortens(s);
    } else {
      StripWithoutSpan(s);
    }
  }

  /** A text that does not start a match keeps its first character. */
  lemma StripPlainStep(t: string)
    requires |t| > 0 && !SpanAt(t, 0)
    ensures StripMCPTags(t) == [t[0]] + StripMCPTags(t[1..])
  {
    MatchStartIsSpan(t);
  }

  /** Where the scan starts a match, there is a span. */
  lemma MatchStartIsSpan(t: string)
    ensures StartsWith(t, Open) && Contains(t[|Open|..], Close) ==> SpanAt(t, 0)
  {
    if StartsWith(t, Open) {
      assert t[..|Open|] == t[0..|Open|];
    }
  }

  /** Text in which no match starts passes through untouched, whatever '<' it holds. */
  lemma {:induction false} StripKeepsPlainPrefix(p: string, s: string)
    requires forall j :: 0 <= j < |p| ==> !SpanAt(p + s, j)
    ensures StripMCPTags(p + s) == p + StripMCPTags(s)
    decreases |p|
  {
    if |p| == 0 {
      assert p + s == s;
      assert p + StripMCPTags(s) == StripMCPTags(s);
    } else {
      var t := p + s;
      assert t[0] == p[0];
      StripPlainStep(t);
      assert t[1..] == p[1..] + s;
      forall j | 0 <= j < |p| - 1 ensures !SpanAt(p[1..] + s, j) {
        SpanAtTail(t, j + 1);
      }
      StripKeepsPlainPrefix(p[1..], s);
      AppendAssociative([p[0]], p[1..], StripMCPTags(s));
      assert [p[0]] + p[1..] == p;
    }
  }

  /**
   * After text in which no match starts, a span from an opening tag to the
   * first closing tag after it, newlines included, is removed whole, and the
   * scan goes on after it.
   */
  lemma StripRemovesSpan(p: string, body: string, rest: string)
    requires forall j :: 0 <= j < |p| ==> !SpanAt(p + (Open + body + Close + rest), j)
    requires forall j :: 0 <= j < |body| ==> !OccursAt(body + Close + rest, Close, j)
    ensures StripMCPTags(p + (Open + body + Close + rest)) == p + StripMCPTags(rest)
  {
    StripSpanAtStart(body, rest);
    StripKeepsPlainPrefix(p, Open + body + Close + rest);
  }

  /** A text that starts with a span up to the first closing tag strips to what follows it. */
  lemma StripSpanAtStart(body: string, rest: string)
    requires forall j :: 0 <= j < |body| ==> !OccursAt(body + Close + rest, Close, j)
    ensures StripMCPTags(Open + body + Close + rest) == StripMCPTags(rest)
  {
    var s := Open + body + Close + rest;
    var after := body + Close + rest;
    assert s[..|Open|] == Open;
    assert s[|Open|..] == after;
    assert OccursAt(after, Close, |body|) by {
      assert after[|body|..|body| + |Close|] == Close;
    }
    assert IndexOf(after, Close) == Some(|body|);
    assert s[|Open| + |body| + |Close|..] == rest;
  }

  /** Every match contains both tags, so a text with a match has a suggestion. */
  lemma SpanHasSuggestion(s: string)
    requires HasSpan(s)
    ensures HasMCPSuggestion(s)
  {
    var i :| 0 <= i < |s| && SpanAt(s, i);
    OccursContains(s, Open, i);
    var k := IndexOf(s[i + |Open|..], Close).value;
    OccursInSuffix(s, i + |Open|, Close, k);
    OccursContains(s, Close, i + |Open| + k);
  }

  /** The text shown for an answer: stripped when it has a suggestion, as received otherwise. */
  function DisplayContent(result: string): string {
    if HasMCPSuggestion(result) then StripMCPTags(result) else result
  }

  /** The shown text differs from the answer exactly when the answer holds a match. */
  lemma DisplayContentChangesIffSpan(result: string)
    ensures DisplayContent(result) != result <==> HasSpan(result)
    ensures |DisplayContent(result)| <= |result|
  {
    StripChangesIffSpan(result);
    if HasSpan(result) {
      SpanHasSuggestion(result);
    }
  }

  // ---------------------------------------------------------------------------
  // Turns

  datatype ChatState = ChatState(messages: seq<ChatMessage>, inputText: string, isLoading: bool, currentAgent: Author)

  /** `messages` only ever grows at its end. */
  predicate Extends(before: seq<ChatMessage>, after: seq<ChatMessage>) {
    |before| <= |after| && after[..|before|] == before
  }

  /**
   * `sendUserMessage` up to the hand-off to `processMessage`: input that is
   * blank after trimming changes nothing; otherwise the trimmed text is
   * appended as the user's message and the input is cleared.
   */
  function SendUserMessage(s: ChatState): (r: ChatState)
    ensures Trim(s.inputText, WhitespacesAndNewlines) == [] ==> r == s
    ensures Trim(s.inputText, WhitespacesAndNewlines) != [] ==>
      && |r.messages| == |s.messages| + 1
      && Extends(s.messages, r.messages)
      && r.inputText == ""
      && r.isLoading == s.isLoading && r.currentAgent == s.currentAgent
    ensures |r.messages| == |s.messages| + 1 ==>
      var m := r.messages[|s.messages|];
      && m.author == User && m.isUser
      && m.content == Trim(s.inputText, WhitespacesAndNewlines)
      && m.content != [] && (exists i :: TrimmedAt(m.content, s.inputText, i, WhitespacesAndNewlines))
      && !InClass(m.content[0], WhitespacesAndNewlines)
      && !InClass(m.content[|m.content| - 1], WhitespacesAndNewlines)
  {
    var trimmed := Trim(s.inputText, WhitespacesAndNewlines);
    if trimmed == [] then s
    else
      var m := ChatMessage(User, trimmed, true);
      var r := s.(messages := s.messages + [m], inputText := "");
      assert r.messages[..|s.messages|] == s.messages;
      assert r.messages[|s.messages|] == m;
      r
  }

  /** The start of `processMessage`'s task. */
  function BeginProcessing(s: ChatState): (r: ChatState)
    ensures r.isLoading && r.currentAgent == AiAgent
    ensures r.messages == s.messages && r.inputText == s.inputText
  {
    s.(isLoading := true, currentAgent := AiAgent)
  }

  /**
   * The end of `processMessage`'s task: no answer appends nothing; an answer
   * appends one agent message with the shown text; loading ends either way.
   */
  function FinishProcessing(s: ChatState, result: Option<string>): (r: ChatState)
    ensures !r.isLoading && r.inputText == s.inputText && r.currentAgent == s.currentAgent
    ensures Extends(s.messages, r.messages)
    ensures result.None? ==> r.messages == s.messages
    ensures result.Some? ==>
      && |r.messages| == |s.messages| + 1
      && r.messages[|s.messages|] == ChatMessage(AiAgent, DisplayContent(result.value), false)
  {
    match result
    case None => s.(isLoading := false)
    case Some(text) =>
      var r := s.(messages := s.messages + [ChatMessage(AiAgent, DisplayContent(text), false)], isLoading := false);
      assert r.messages[..|s.messages|] == s.messages;
      r
  }

  /** `processMessage`: the service answers for the whole conversation so far. */
  function ProcessMessage(s: ChatState, service: seq<ChatMessage> -> Option<string>): (r: ChatState)
    ensures Extends(s.messages, r.messages) && |r.messages| <= |s.messages| + 1
    ensures !r.isLoading && r.currentAgent == AiAgent && r.inputText == s.inputText
    ensures service(s.messages).None? <==> r.messages == s.messages
  {
    FinishProcessing(BeginProcessing(s), service(s.messages))
  }

  /** One turn: send the input and, when it was accepted, process the conversation. */
  function Turn(s: ChatState, service: seq<ChatMessage> -> Option<string>): (r: ChatState)
    ensures Extends(s.messages, r.messages) && |r.messages| <= |s.messages| + 2
    ensures Trim(s.inputText, WhitespacesAndNewlines) == [] ==> r == s
    ensures Trim(s.inputText, WhitespacesAndNewlines) != [] ==>
      |r.messages| > |s.messages| && r.messages[|s.messages|].isUser && r.inputText == ""
  {
    if Trim(s.inputText, WhitespacesAndNewlines) == [] then s
    else
      var sent := SendUserMessage(s);
      var r := ProcessMessage(sent, service);
      ExtendsTransitive(s.messages, sent.messages, r.messages);
      assert r.messages[|s.messages|] == r.messages[..|sent.messages|][|s.messages|];
      r
  }

  lemma ExtendsTransitive(a: seq<ChatMessage>, b: seq<ChatMessage>, c: seq<ChatMessage>)
    requires Extends(a, b) && Extends(b, c)
    ensures Extends(a, c)
  {
    assert c[..|a|] == c[..|b|][..|a|];
  }

  /** A session: each input typed and sent in turn. */
  function Session(s: ChatState, inputs: seq<string>, service: seq<ChatMessage> -> Option<string>): ChatState
    decreases |inputs|
  {
    if |inputs| == 0 then s
    else Session(Turn(s.(inputText := inputs[0]), service), inputs[1..], service)
  }

  /** Over a whole session no message is ever changed or removed, and each input adds at most two. */
  lemma {:induction false} SessionAppendOnly(s: ChatState, inputs: seq<string>, service: seq<ChatMessage> -> Option<string>)
    ensures Extends(s.messages, Session(s, inputs, service).messages)
    ensures |Session(s, inputs, service).messages| <= |s.messages| + 2 * |inputs|
    decreases |inputs|
  {
    if |inputs| > 0 {
      var next := Turn(s.(inputText := inputs[0]), service);
      SessionAppendOnly(next, inputs[1..], service);
      ExtendsTransitive(s.messages, next.messages, Session(next, inputs[1..], service).messages);
    }
  }
}
