/**
  The Anthropic engine: settings read from the option map, tools registered with
  their callbacks, the message content collected, and one request whose answer
  names at most one tool to call. The HTTP exchange is given as a function that
  returns the parsed response, or nothing when the request failed.
*/
module Anthropic {
  import opened Wrappers
  import opened Strings
  import opened Util
  import opened Json

  datatype EngineError =
    | MissingSetting(envKey: string)
    | MissingModel
    | ApiError
    | MalformedToolUse
    | NoToolRegistered(name: string)
    | NoCallbackRegistered(name: string)
    | NoToolCalls

  /** What `new` reads from the options and the environment. */
  datatype Settings = Settings(
    model: string,
    apiKey: string,
    baseUrl: string,
    webSearch: bool,
    thinking: bool,
    thinkingTokens: nat)

  const DefaultBaseUrl: string := "https://api.anthropic.com"
  const DefaultThinkingTokens: nat := 5000

  /** An option that switches something on: only the exact string "true" does. */
  predicate FlagSet(options: OptionMap, key: string) {
    key in options && options[key] == "true"
  }

  /** `thinking_tokens` when it parses as a `u32`, else 5000. */
  function ThinkingTokens(options: OptionMap): (n: nat)
    ensures n < U32_BOUND
  {
    if "thinking_tokens" in options && ParseU32(options["thinking_tokens"]).Some? then
      ParseU32(options["thinking_tokens"]).value
    else DefaultThinkingTokens
  }

  /**
    The option parsing of `new`: the API key from the options or `ANTHROPIC_API_KEY`
    (missing both panics), the base URL with its fallback, and the model, which must
    be present.
  */
  function ParseOptions(options: OptionMap, env: Env): (r: Result<Settings, EngineError>)
    ensures r.Success? <==> ("api_key" in options || "ANTHROPIC_API_KEY" in env) && "model" in options
    ensures r.Success? ==>
      && r.value.model == options["model"]
      && r.value.apiKey == OptionOrEnv(options, "api_key", env, "ANTHROPIC_API_KEY").value
      && r.value.baseUrl == OptionOrEnvFallback(options, "base_url", env, "ANTHROPIC_BASE_URL", DefaultBaseUrl)
      && (r.value.webSearch <==> FlagSet(options, "web_search"))
      && (r.value.thinking <==> FlagSet(options, "thinking"))
      && r.value.thinkingTokens == ThinkingTokens(options)
    ensures "api_key" !in options && "ANTHROPIC_API_KEY" !in env ==> r == Failure(MissingSetting("ANTHROPIC_API_KEY"))
  {
    match OptionOrEnv(options, "api_key", env, "ANTHROPIC_API_KEY")
    case Failure(e) => Failure(MissingSetting(e.envKey))
    case Success(apiKey) =>
      var baseUrl := OptionOrEnvFallback(options, "base_url", env, "ANTHROPIC_BASE_URL", DefaultBaseUrl);
      if "model" !in options then Failure(MissingModel)
      else
        Success(Settings(options["model"], apiKey, baseUrl,
          FlagSet(options, "web_search"), FlagSet(options, "thinking"), ThinkingTokens(options)))
  }

  /** A budget that is missing or no `u32` falls back to 5000; a `u32` is taken as it is. */
  lemma ThinkingTokensFallback(options: OptionMap)
    ensures "thinking_tokens" !in options ==> ThinkingTokens(options) == 5000
    ensures "thinking_tokens" in options && ParseU32(options["thinking_tokens"]).None? ==> ThinkingTokens(options) == 5000
    ensures "thinking_tokens" in options && ParseU32(options["thinking_tokens"]).Some? ==>
      ThinkingTokens(options) == ParseU32(options["thinking_tokens"]).value
  {
  }

  /** A flag given as anything but "true" (say "yes" or "True") leaves the feature off. */
  lemma OnlyTrueSetsFlags(options: OptionMap, key: string)
    requires key in options && options[key] != "true"
    ensures !FlagSet(options, key)
  {
  }

  /** A registered tool: its name, the definition given with it, and whether it has a callback. */
  datatype Tool = Tool(name: string, definition: Json, hasCallback: bool)

  /** `anthropic_tool_definition`: name and description copied, `parameters` sent as `input_schema`. */
  function ToolDefinition(t: Tool): (d: Json)
    ensures d.Obj? && d.fields.Keys == {"name", "description", "input_schema"}
    ensures Get(d, "name") == Get(t.definition, "name")
    ensures Get(d, "description") == Get(t.definition, "description")
    ensures Get(d, "input_schema") == Get(t.definition, "parameters")
  {
    Obj(map[
      "name" := Get(t.definition, "name"),
      "description" := Get(t.definition, "description"),
      "input_schema" := Get(t.definition, "parameters")])
  }

  /** The server-side search tool added when `web_search` is set. */
  const WebSearchTool: Json :=
    Obj(map["type" := Str("web_search_20250305"), "name" := Str("web_search"), "max_uses" := Num(5)])

  /** The request's `tools`: one definition per registered tool, in order, then the search tool if enabled. */
  function ToolDefinitions(tools: seq<Tool>, webSearch: bool): (defs: seq<Json>)
    ensures |defs| == |tools| + (if webSearch then 1 else 0)
    ensures forall i | 0 <= i < |tools| :: defs[i] == ToolDefinition(tools[i])
    ensures webSearch ==> defs[|tools|] == WebSearchTool
  {
    seq(|tools|, i requires 0 <= i < |tools| => ToolDefinition(tools[i]))
    + (if webSearch then [WebSearchTool] else [])
  }

  /** The budget object sent when thinking is on. */
  function ThinkingField(tokens: nat): Json {
    Obj(map["type" := Str("enabled"), "budget_tokens" := Num(tokens)])
  }

  const ToolChoiceAuto: Json := Obj(map["type" := Str("auto")])

  /** The request body of `execute`. */
  function RequestBody(s: Settings, tools: seq<Tool>, content: seq<Json>): (body: Json)
    ensures body.Obj?
    ensures Get(body, "model") == Str(s.model)
    ensures Get(body, "max_tokens") == Num(10000)
    ensures Get(body, "tool_choice") == ToolChoiceAuto
    ensures Get(body, "tools") == Arr(ToolDefinitions(tools, s.webSearch))
    ensures Get(body, "messages") == Arr([Obj(map["role" := Str("user"), "content" := Arr(content)])])
    ensures "thinking" in body.fields <==> s.thinking
    ensures s.thinking ==> Get(body, "thinking") == ThinkingField(s.thinkingTokens)
  {
    var fields := map[
      "model" := Str(s.model),
      "max_tokens" := Num(10000),
      "messages" := Arr([Obj(map["role" := Str("user"), "content" := Arr(content)])]),
      "tools" := Arr(ToolDefinitions(tools, s.webSearch)),
      "tool_choice" := ToolChoiceAuto];
    if s.thinking then Obj(fields["thinking" := ThinkingField(s.thinkingTokens)]) else Obj(fields)
  }

  /** The endpoint and headers of the request. */
  function Url(s: Settings): string {
    s.baseUrl + "/v1/messages"
  }

  function Headers(s: Settings): seq<(string, string)> {
    [("x-api-key", s.apiKey), ("anthropic-version", "2023-06-01"), ("Content-Type", "application/json")]
  }

  /** The HTTP exchange and the JSON parsing: the parsed response, or `None` when the call failed. */
  type Http = (string, seq<(string, string)>, Json) -> Option<Json>

  /** The first registered tool with this name (`iter_mut().find`). */
  function FindTool(tools: seq<Tool>, name: string): (r: Option<nat>)
    ensures r.Some? ==> r.value < |tools| && tools[r.value].name == name
    ensures r.Some? ==> forall j | 0 <= j < r.value :: tools[j].name != name
    ensures r.None? <==> forall j | 0 <= j < |tools| :: tools[j].name != name
  {
    if tools == [] then None
    else if tools[0].name == name then Some(0)
    else match FindTool(tools[1..], name)
      case None => None
      case Some(k) => Some(k + 1)
  }

  /** What one answer leads to: the tool to call with its input, or an error. */
  datatype Outcome = Invoke(tool: nat, input: Json) | Refuse(error: EngineError)

  predicate IsToolUse(item: Json) {
    AsStr(Get(item, "type")) == Some("tool_use")
  }

  /** The outcome of a `tool_use` item. A name that is no string makes the source panic. */
  function ToolUse(tools: seq<Tool>, item: Json): (o: Outcome)
    ensures o.Invoke? ==> o.tool < |tools| && tools[o.tool].hasCallback
  {
    match AsStr(Get(item, "name"))
    case None => Refuse(MalformedToolUse)
    case Some(name) =>
      match FindTool(tools, name)
      case None => Refuse(NoToolRegistered(name))
      case Some(k) => if tools[k].hasCallback then Invoke(k, Get(item, "input")) else Refuse(NoCallbackRegistered(name))
  }

  /** The loop over the answer's items: anything but `tool_use` is passed over; the first `tool_use` decides. */
  function Dispatch(tools: seq<Tool>, items: seq<Json>): (o: Outcome)
    ensures o.Invoke? ==> o.tool < |tools|
  {
    if items == [] then Refuse(NoToolCalls)
    else if IsToolUse(items[0]) then ToolUse(tools, items[0])
    else Dispatch(tools, items[1..])
  }

  /** The first `tool_use` item decides, whatever comes after it. */
  lemma {:induction false} DispatchFirstToolUse(tools: seq<Tool>, items: seq<Json>, k: nat)
    requires k < |items| && IsToolUse(items[k])
    requires forall j | 0 <= j < k :: !IsToolUse(items[j])
    ensures Dispatch(tools, items) == ToolUse(tools, items[k])
  {
    if k > 0 {
      assert !IsToolUse(items[0]);
      DispatchFirstToolUse(tools, items[1..], k - 1);
    }
  }

  /** An answer with no `tool_use` item is an error, and only such an answer reports that. */
  lemma {:induction false} DispatchWithoutToolUse(tools: seq<Tool>, items: seq<Json>)
    ensures Dispatch(tools, items) == Refuse(NoToolCalls) <==> forall j | 0 <= j < |items| :: !IsToolUse(items[j])
  {
    if items != [] {
      DispatchWithoutToolUse(tools, items[1..]);
      if !IsToolUse(items[0]) {
        assert forall j | 1 <= j < |items| :: items[j] == items[1..][j - 1];
      }
    }
  }

  /** A named tool that is registered, with its callback, is the one called. */
  lemma InvokesRegisteredTool(tools: seq<Tool>, item: Json, name: string, input: Json)
    requires IsToolUse(item) && Get(item, "name") == Str(name) && Get(item, "input") == input
    requires FindTool(tools, name).Some? && tools[FindTool(tools, name).value].hasCallback
    ensures ToolUse(tools, item) == Invoke(FindTool(tools, name).value, input)
  {
  }

  /** An unknown name is refused, naming it. */
  lemma RefusesUnknownTool(tools: seq<Tool>, item: Json, name: string)
    requires Get(item, "name") == Str(name)
    requires forall j | 0 <= j < |tools| :: tools[j].name != name
    ensures ToolUse(tools, item) == Refuse(NoToolRegistered(name))
  {
  }

  class Anthropic {
    const settings: Settings
    var tools: seq<Tool>
    var content: seq<Json>
    /** The callback calls made so far: the tool's name and the input it was given. */
    var calls: seq<(string, Json)>

    /** `new`, from options that parsed. */
    constructor(s: Settings)
      ensures settings == s && tools == [] && content == [] && calls == []
    {
      settings := s;
      tools := [];
      content := [];
      calls := [];
    }

    /** `register_tool`: appended, with its callback. */
    method RegisterTool(name: string, definition: Json)
      modifies this
      ensures tools == old(tools) + [Tool(name, definition, true)]
      ensures content == old(content) && calls == old(calls)
    {
      tools := tools + [Tool(name, definition, true)];
    }

    /** `add_content`. */
    method AddContent(item: Json)
      modifies this
      ensures content == old(content) + [item]
      ensures tools == old(tools) && calls == old(calls)
    {
      content := content + [item];
    }

    /** `add_text_content`: one text item. */
    method AddTextContent(text: string)
      modifies this
      ensures content == old(content) + [TextItem(text)]
      ensures tools == old(tools) && calls == old(calls)
    {
      AddContent(TextItem(text));
    }

    /** `add_image_content`: one base64 PNG item. */
    method AddImageContent(base64Image: string)
      modifies this
      ensures content == old(content) + [ImageItem(base64Image)]
      ensures tools == old(tools) && calls == old(calls)
    {
      AddContent(ImageItem(base64Image));
    }

    /** `clear_content`. */
    method ClearContent()
      modifies this
      ensures content == [] && tools == old(tools) && calls == old(calls)
    {
      content := [];
    }

    /** `execute` as a function of the state and the exchange. */
    function ExecuteOutcome(http: Http): Outcome
      reads this
    {
      match http(Url(settings), Headers(settings), RequestBody(settings, tools, content))
      case None => Refuse(ApiError)
      case Some(response) => Dispatch(tools, ItemsOr(Get(response, "content")))
    }

    /**
      `execute`: send the request, then walk the answer's items; the first `tool_use`
      calls its tool's callback once and succeeds, or fails.
    */
    method Execute(http: Http) returns (r: Result<(), EngineError>)
      modifies this
      ensures tools == old(tools) && content == old(content)
      ensures r.Success? <==> old(ExecuteOutcome(http)).Invoke?
      ensures old(ExecuteOutcome(http)).Invoke? ==>
        calls == old(calls) + [(tools[old(ExecuteOutcome(http)).tool].name, old(ExecuteOutcome(http)).input)]
      ensures old(ExecuteOutcome(http)).Refuse? ==> calls == old(calls) && r == Failure(old(ExecuteOutcome(http)).error)
    {
      var body := RequestBody(settings, tools, content);
      var rawResponse := http(Url(settings), Headers(settings), body);
      if rawResponse.None? {
        return Failure(ApiError);
      }
      var contentArray := ItemsOr(Get(rawResponse.value, "content"));
      for i := 0 to |contentArray|
        invariant Dispatch(tools, contentArray) == Dispatch(tools, contentArray[i..])
        invariant calls == old(calls)
      {
        assert contentArray[i..][1..] == contentArray[i + 1..];
        var contentItem := contentArray[i];
        var contentType := AsStr(Get(contentItem, "type"));
        if contentType == Some("tool_use") {
          var functionName := AsStr(Get(contentItem, "name"));
          if functionName.None? {
            return Failure(MalformedToolUse);
          }
          var tool := FindToolIndex(functionName.value);
          if tool.None? {
            return Failure(NoToolRegistered(functionName.value));
          }
          if tools[tool.value].hasCallback {
            calls := calls + [(tools[tool.value].name, Get(contentItem, "input"))];
            return Success(());
          } else {
            return Failure(NoCallbackRegistered(functionName.value));
          }
        }
      }
      return Failure(NoToolCalls);
    }

    /** The search of `execute` for the tool by name, front to back. */
    method FindToolIndex(name: string) returns (r: Option<nat>)
      ensures r == FindTool(tools, name)
    {
      for i := 0 to |tools|
        invariant FindTool(tools, name) == (match FindTool(tools[i..], name) case None => None case Some(k) => Some(k + i))
      {
        assert tools[i..][1..] == tools[i + 1..];
        if tools[i].name == name {
          return Some(i);
        }
      }
      return None;
    }
  }

  /** `{"type": "text", "text": text}`. */
  function TextItem(text: string): Json {
    Obj(map["type" := Str("text"), "text" := Str(text)])
  }

  /** `{"type": "image", "source": {"type": "base64", "media_type": "image/png", "data": image}}`. */
  function ImageItem(base64Image: string): Json {
    Obj(map["type" := Str("image"), "source" :=
      Obj(map["type" := Str("base64"), "media_type" := Str("image/png"), "data" := Str(base64Image)])])
  }

  /** Tools keep the order they were registered in, in the request as well. */
  lemma RegisteredToolLast(tools: seq<Tool>, name: string, definition: Json, webSearch: bool)
    ensures var defs := ToolDefinitions(tools + [Tool(name, definition, true)], webSearch);
      && defs[..|tools|] == ToolDefinitions(tools, false)
      && defs[|tools|] == ToolDefinition(Tool(name, definition, true))
  {
  }

  /** A newly registered name is found at the end; an older registration of the same name wins. */
  lemma {:induction false} FindAfterRegister(tools: seq<Tool>, name: string, definition: Json)
    ensures FindTool(tools + [Tool(name, definition, true)], name) ==
      if FindTool(tools, name).Some? then FindTool(tools, name) else Some(|tools|)
  {
    var all := tools + [Tool(name, definition, true)];
    if FindTool(tools, name).Some? {
      var k := FindTool(tools, name).value;
      assert all[k] == tools[k];
    } else {
      assert all[|tools|].name == name;
    }
  }
}
