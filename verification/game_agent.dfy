/**
  The game agent's prompt construction with its default collaborators: the
  Lua code-fence extractor, the left-strip post-processor and the instruction
  template, applied to the last chat message.
 */
module GameAgent {
  import opened Wrappers

  // ---------------------------------------------------------------------------
  // Left strip
  // ---------------------------------------------------------------------------

  /** Python's `str.isspace` for one character. */
  predicate IsSpace(c: char) {
    || ('\U{0009}' <= c <= '\U{000D}')
    || ('\U{001C}' <= c <= '\U{0020}')
    || c == '\U{0085}' || c == '\U{00A0}' || c == '\U{1680}'
    || ('\U{2000}' <= c <= '\U{200A}')
    || c == '\U{2028}' || c == '\U{2029}' || c == '\U{202F}' || c == '\U{205F}' || c == '\U{3000}'
  }

  /**
    `StripLeftPostProcessor.process` (`str.lstrip()`): the longest suffix of
    the text that does not start with whitespace; only leading whitespace goes.
   */
  function LStrip(s: string): (r: string)
    ensures |r| <= |s| && r == s[|s| - |r|..]
    ensures |r| > 0 ==> !IsSpace(r[0])
    ensures forall j :: 0 <= j < |s| - |r| ==> IsSpace(s[j])
    decreases |s|
  {
    if |s| > 0 && IsSpace(s[0]) then LStrip(s[1..]) else s
  }

  /** Stripping twice is stripping once. */
  lemma LStripIdempotent(s: string)
    ensures LStrip(LStrip(s)) == LStrip(s)
  {
  }

  /** The three facts of `LStrip`'s contract pin its result down: no other suffix has them. */
  lemma LStripUnique(s: string, t: string)
    requires |t| <= |s| && t == s[|s| - |t|..]
    requires |t| > 0 ==> !IsSpace(t[0])
    requires forall j :: 0 <= j < |s| - |t| ==> IsSpace(s[j])
    ensures t == LStrip(s)
  {
  }

  // ---------------------------------------------------------------------------
  // Lua code-fence extraction
  // ---------------------------------------------------------------------------

  /** The literal start of both default patterns. */
  const LuaOpen: string := "```lua\n"
  const Fence: string := "```"

  /**
    The default user pattern anchors the opening at the start and the closing
    fence at the end, where Python's `$` also accepts one final newline.
   */
  predicate UserPatternMatches(content: string, group: string) {
    content == LuaOpen + group + Fence || content == LuaOpen + group + Fence + "\n"
  }

  /** The default assistant pattern: the opening at the start, then anything up to the end. */
  predicate AssistantPatternMatches(content: string, group: string) {
    content == LuaOpen + group || content == LuaOpen + group + "\n"
  }

  /** The text after the opening, when the content starts with it. */
  predicate Opens(content: string) {
    |content| >= |LuaOpen| && content[..|LuaOpen|] == LuaOpen
  }

  predicate EndsWith(s: string, suffix: string) {
    |s| >= |suffix| && s[|s| - |suffix|..] == suffix
  }

  /** `s` with its last `k` characters dropped. */
  function DropLast(s: string, k: nat): string
    requires k <= |s|
  {
    s[..|s| - k]
  }

  /**
    Every group the user pattern admits is the text between the opening and a
    closing fence at the end, or before one final newline there.
   */
  lemma UserPatternCandidates(content: string, g: string)
    requires UserPatternMatches(content, g)
    ensures Opens(content)
    ensures var rest := content[|LuaOpen|..];
      || (EndsWith(rest, Fence + "\n") && g == DropLast(rest, 4))
      || (EndsWith(rest, Fence) && !EndsWith(rest, Fence + "\n") && g == DropLast(rest, 3))
  {
    var rest := content[|LuaOpen|..];
    if content == LuaOpen + g + Fence {
      assert content[..|LuaOpen|] == LuaOpen;
      assert rest == g + Fence;
      assert rest[|rest| - 3..] == Fence;
      assert rest[|rest| - 1] == '`';
      assert rest[..|rest| - 3] == g;
    } else {
      assert content[..|LuaOpen|] == LuaOpen;
      assert rest == g + Fence + "\n";
      assert rest[|rest| - 4..] == Fence + "\n";
      assert rest[..|rest| - 4] == g;
    }
  }

  /** Every group the assistant pattern admits is the rest after the opening, or that rest less a final newline. */
  lemma AssistantPatternCandidates(content: string, g: string)
    requires AssistantPatternMatches(content, g)
    ensures Opens(content)
    ensures var rest := content[|LuaOpen|..];
      || g == rest
      || (EndsWith(rest, "\n") && g == DropLast(rest, 1))
  {
    var rest := content[|LuaOpen|..];
    assert content[..|LuaOpen|] == LuaOpen;
    if content != LuaOpen + g {
      assert rest == g + "\n";
      assert rest[|rest| - 1..] == "\n";
      assert rest[..|rest| - 1] == g;
    }
  }

  /** The group of the user pattern; the lazy group takes the shortest candidate. */
  function UserMatch(content: string): (r: Option<string>)
    ensures r.Some? ==> UserPatternMatches(content, r.value)
    ensures r.Some? ==> forall g :: UserPatternMatches(content, g) ==> |r.value| <= |g|
    ensures r.None? ==> forall g :: !UserPatternMatches(content, g)
  {
    var rest := if Opens(content) then content[|LuaOpen|..] else "";
    var r :=
      if !Opens(content) then None
      else if EndsWith(rest, Fence + "\n") then Some(DropLast(rest, 4))
      else if EndsWith(rest, Fence) then Some(DropLast(rest, 3))
      else None;
    assert r.Some? ==> UserPatternMatches(content, r.value) by {
      if r.Some? {
        assert content == LuaOpen + rest;
        if EndsWith(rest, Fence + "\n") {
          assert rest == DropLast(rest, 4) + Fence + "\n";
        } else {
          assert rest == DropLast(rest, 3) + Fence;
        }
      }
    }
    assert forall g :: UserPatternMatches(content, g) ==> r.Some? && |r.value| <= |g| by {
      forall g | UserPatternMatches(content, g)
        ensures r.Some? && |r.value| <= |g|
      {
        UserPatternCandidates(content, g);
      }
    }
    r
  }

  /** The group of the assistant pattern; the lazy group leaves out a final newline. */
  function AssistantMatch(content: string): (r: Option<string>)
    ensures r.Some? ==> AssistantPatternMatches(content, r.value)
    ensures r.Some? ==> forall g :: AssistantPatternMatches(content, g) ==> |r.value| <= |g|
    ensures r.None? ==> forall g :: !AssistantPatternMatches(content, g)
  {
    var rest := if Opens(content) then content[|LuaOpen|..] else "";
    var r :=
      if !Opens(content) then None
      else if EndsWith(rest, "\n") then Some(DropLast(rest, 1))
      else Some(rest);
    assert r.Some? ==> AssistantPatternMatches(content, r.value) by {
      if r.Some? {
        assert content == LuaOpen + rest;
        if EndsWith(rest, "\n") {
          assert rest == DropLast(rest, 1) + "\n";
        }
      }
    }
    assert forall g :: AssistantPatternMatches(content, g) ==> r.Some? && |r.value| <= |g| by {
      forall g | AssistantPatternMatches(content, g)
        ensures r.Some? && |r.value| <= |g|
      {
        AssistantPatternCandidates(content, g);
      }
    }
    r
  }

  /**
    `LuaContentExtractor.extract` with the default patterns: the first
    `findall` result when the role's pattern matches, otherwise the content
    unchanged (also for roles without a pattern). A matching pattern yields
    its shortest group, as the lazy group does.
   */
  function Extract(role: string, content: string): (r: string)
    ensures role == "user" && (exists g :: UserPatternMatches(content, g)) ==>
      && UserPatternMatches(content, r)
      && forall g :: UserPatternMatches(content, g) ==> |r| <= |g|
    ensures role == "assistant" && (exists g :: AssistantPatternMatches(content, g)) ==>
      && AssistantPatternMatches(content, r)
      && forall g :: AssistantPatternMatches(content, g) ==> |r| <= |g|
    ensures role == "user" && (forall g :: !UserPatternMatches(content, g)) ==> r == content
    ensures role == "assistant" && (forall g :: !AssistantPatternMatches(content, g)) ==> r == content
    ensures role != "user" && role != "assistant" ==> r == content
  {
    if role == "user" then UserMatch(content).GetOr(content)
    else if role == "assistant" then AssistantMatch(content).GetOr(content)
    else content
  }

  /** A user message that is exactly one Lua block yields the block's body. */
  lemma UserFenceRoundTrip(body: string)
    ensures Extract("user", LuaOpen + body + Fence) == body
  {
    var content := LuaOpen + body + Fence;
    var rest := content[|LuaOpen|..];
    assert content[..|LuaOpen|] == LuaOpen;
    assert rest == body + Fence;
    assert rest[|rest| - 1] == '`';
    assert rest[|rest| - 3..] == Fence;
    assert rest[..|rest| - 3] == body;
  }

  /** An assistant message opened as a Lua block yields the rest when it has no final newline. */
  lemma AssistantFenceRoundTrip(rest: string)
    requires |rest| == 0 || rest[|rest| - 1] != '\n'
    ensures Extract("assistant", LuaOpen + rest) == rest
  {
    var content := LuaOpen + rest;
    assert content[..|LuaOpen|] == LuaOpen;
    assert content[|LuaOpen|..] == rest;
  }

  /** Content that does not match its role's pattern, or a role without one, comes back unchanged. */
  lemma ExtractUnmatchedIsIdentity(role: string, content: string)
    requires role == "user" ==> forall g :: !UserPatternMatches(content, g)
    requires role == "assistant" ==> forall g :: !AssistantPatternMatches(content, g)
    ensures Extract(role, content) == content
  {
  }

  // ---------------------------------------------------------------------------
  // Template, messages and the prompt
  // ---------------------------------------------------------------------------

  const TemplateHead: string :=
    "Below is an instruction that describes a task. "
    + "Write a response that appropriately completes the request.\n\n"
    + "### Instruction:\n"
  const TemplateTail: string := "\n\n### Response:"

  /** `InstructionPromptTemplate.render` with the default template: the input sits between head and tail. */
  function Render(input: string): (p: string)
    ensures |p| == |TemplateHead| + |input| + |TemplateTail|
    ensures p[..|TemplateHead|] == TemplateHead
    ensures p[|p| - |TemplateTail|..] == TemplateTail
    ensures p[|TemplateHead|..|p| - |TemplateTail|] == input
  {
    TemplateHead + input + TemplateTail
  }

  /** Different inputs give different prompts. */
  lemma RenderInjective(a: string, b: string)
    requires Render(a) == Render(b)
    ensures a == b
  {
    var p := Render(a);
    assert a == p[|TemplateHead|..|p| - |TemplateTail|];
  }

  /** A chat message: a string-to-string mapping such as `{"role": ..., "content": ...}`. */
  type Message = map<string, string>

  function Get(m: Message, key: string, default: string): string {
    if key in m then m[key] else default
  }

  /** `_format_message`: the content is replaced by its stripped extraction; nothing else changes. */
  function FormatMessage(m: Message): (r: Message)
    ensures r.Keys == m.Keys + {"content"}
    ensures r["content"] == LStrip(Extract(Get(m, "role", ""), Get(m, "content", "")))
    ensures forall k :: k in m && k != "content" ==> r[k] == m[k]
  {
    m["content" := LStrip(Extract(Get(m, "role", ""), Get(m, "content", "")))]
  }

  /** The exception `create_prompt` raises on an empty message list. */
  const EmptyMessagesError: string := "messages\U{4E3A}\U{7A7A}"

  /** A list with its last entry replaced, as an in-place `xs[-1] = x` leaves it. */
  function ReplaceLast<T>(xs: seq<T>, x: T): (out: seq<T>)
    requires |xs| > 0
    ensures |out| == |xs|
    ensures out[..|xs| - 1] == xs[..|xs| - 1]
    ensures out[|xs| - 1] == x
  {
    xs[..|xs| - 1] + [x]
  }

  /** The prompt, and the request's message list as `_format_message` leaves it. */
  datatype Prompted = Prompted(prompt: string, messages: seq<Message>)

  /**
    `create_prompt`: fails on no messages; otherwise formats the last message
    in place (the request's list sees the new content) and renders its content.
   */
  function CreatePrompt(messages: seq<Message>): (r: Result<Prompted, string>)
    ensures r.Failure? <==> |messages| == 0
    ensures r.Failure? ==> r.error == EmptyMessagesError
    ensures r.Success? ==>
      var last := messages[|messages| - 1];
      r.value.prompt == TemplateHead + LStrip(Extract(Get(last, "role", ""), Get(last, "content", ""))) + TemplateTail
    ensures r.Success? ==>
      && |r.value.messages| == |messages|
      && r.value.messages[..|messages| - 1] == messages[..|messages| - 1]
      && r.value.messages[|messages| - 1] == FormatMessage(messages[|messages| - 1])
  {
    if |messages| < 1 then Failure(EmptyMessagesError)
    else
      var last := FormatMessage(messages[|messages| - 1]);
      Success(Prompted(Render(last["content"]), ReplaceLast(messages, last)))
  }

  /** Only the last message matters: the messages before it change neither the prompt nor themselves. */
  lemma CreatePromptUsesOnlyLast(earlier: seq<Message>, last: Message)
    ensures CreatePrompt(earlier + [last]).Success?
    ensures CreatePrompt(earlier + [last]).value.prompt == CreatePrompt([last]).value.prompt
    ensures CreatePrompt(earlier + [last]).value.messages == earlier + CreatePrompt([last]).value.messages
  {
    assert (earlier + [last])[..|earlier|] == earlier;
    var out := CreatePrompt(earlier + [last]).value.messages;
    assert out == out[..|earlier|] + [out[|earlier|]];
  }

  /** The instruction inside every prompt starts with a non-whitespace character, or is empty. */
  lemma PromptInputIsStripped(messages: seq<Message>)
    requires |messages| > 0
    ensures var p := CreatePrompt(messages).value.prompt;
      var input := p[|TemplateHead|..|p| - |TemplateTail|];
      |input| > 0 ==> !IsSpace(input[0])
  {
    var last := messages[|messages| - 1];
    var input := LStrip(Extract(Get(last, "role", ""), Get(last, "content", "")));
    assert CreatePrompt(messages).value.prompt == Render(input);
  }

  /** `DefaultPromptValidator.validate_and_tokenize`: never produces token ids. */
  function ValidateAndTokenize(prompt: Option<string>, promptIds: Option<seq<int>>): (r: Option<seq<int>>)
    ensures r.None?
  {
    None
  }
}
