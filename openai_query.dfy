/**
 * Python's view of parsed JSON, as far as lib/openai_query.py relies on it: `in`,
 * subscripting, `len`, truthiness, iteration and `dict.get`, each with the exception it
 * raises on a value of the wrong type.
 */
module PyJson {
  import opened Wrappers
  import opened Strings
  import opened Json

  /** The exceptions the modelled code can raise; OSError is an `open` or `read` that failed. */
  datatype PyError = TypeError | KeyError(key: Json) | IndexError | AttributeError | OSError

  /** `key in v` for a string key: a dict's keys, a list's items, a string's substrings. */
  function In(key: string, v: Json): (r: Result<bool, PyError>)
    ensures r.Ok? <==> v.JObj? || v.JArr? || v.JStr?
  {
    match v
    case JObj(fields) => Ok(HasKey(fields, key))
    case JArr(items) => Ok(JStr(key) in items)
    case JStr(s) => Ok(Contains(s, key))
    case _ => Err(TypeError)
  }

  /** `v[key]` for a string key: only a dict can be subscripted by a string. */
  function GetItem(v: Json, key: string): (r: Result<Json, PyError>)
    ensures r.Ok? <==> v.JObj? && HasKey(v.fields, key)
    ensures r.Ok? ==> Some(r.value) == Get(v.fields, key)
  {
    match v
    case JObj(fields) =>
      (match Get(fields, key)
       case Some(x) => Ok(x)
       case None => Err(KeyError(JStr(key))))
    case _ => Err(TypeError)
  }

  /** `v[0]`. */
  function First(v: Json): (r: Result<Json, PyError>)
    ensures v.JArr? && |v.items| > 0 ==> r == Ok(v.items[0])
    ensures r.Ok? ==> v.JArr? || v.JStr?
  {
    match v
    case JArr(items) => if |items| > 0 then Ok(items[0]) else Err(IndexError)
    case JStr(s) => if |s| > 0 then Ok(JStr([s[0]])) else Err(IndexError)
    case JObj(_) => Err(KeyError(JInt(0)))
    case _ => Err(TypeError)
  }

  function Len(v: Json): (r: Result<nat, PyError>)
    ensures r.Ok? <==> v.JObj? || v.JArr? || v.JStr?
  {
    match v
    case JObj(fields) => Ok(|fields|)
    case JArr(items) => Ok(|items|)
    case JStr(s) => Ok(|s|)
    case _ => Err(TypeError)
  }

  /** Python truthiness: empty containers, "", 0, 0.0, False and None are false. */
  predicate Truthy(v: Json) {
    match v
    case JNull => false
    case JBool(b) => b
    case JInt(i) => i != 0
    case JFloat(text) => text != "0.0" && text != "-0.0"
    case JStr(s) => s != ""
    case JArr(items) => items != []
    case JObj(fields) => fields != []
  }

  /** `key in v and v[key]`: the operands of `and` are evaluated left to right, the second only when needed. */
  function PresentAndTruthy(v: Json, key: string): (r: Result<bool, PyError>)
    ensures r == Ok(true) <==> v.JObj? && HasKey(v.fields, key) && Truthy(Get(v.fields, key).value)
    ensures v.JObj? ==> r.Ok?
  {
    var present :- In(key, v);
    if present then
      var x :- GetItem(v, key);
      Ok(Truthy(x))
    else Ok(false)
  }

  /** What `for x in v` walks through: a list's items, a dict's keys, a string's characters. */
  function Iterate(v: Json): (r: Result<seq<Json>, PyError>)
    ensures r.Ok? <==> v.JArr? || v.JObj? || v.JStr?
    ensures v.JArr? ==> r == Ok(v.items)
  {
    match v
    case JArr(items) => Ok(items)
    case JObj(fields) => Ok(seq(|fields|, i requires 0 <= i < |fields| => JStr(fields[i].0)))
    case JStr(s) => Ok(seq(|s|, i requires 0 <= i < |s| => JStr([s[i]])))
    case _ => Err(TypeError)
  }

  /** `v.get(key, default)`: only a dict has `get`. */
  function DictGet(v: Json, key: string, default: Json): (r: Result<Json, PyError>)
    ensures r.Ok? <==> v.JObj?
    ensures v.JObj? ==> r.value == Get(v.fields, key).GetOr(default)
  {
    match v
    case JObj(fields) => Ok(Get(fields, key).GetOr(default))
    case _ => Err(AttributeError)
  }
}

/**
 * lib/openai_query.py: the request payload built from a content file and a file of MCP
 * tool descriptions, the classification of the chat-completions reply into the string
 * `process_openai_response` returns, and the argument check of `main`. The files, `json.load`, and
 * the `curl` request are inputs.
 */
module OpenAiQuery {
  import opened Wrappers
  import opened Strings
  import opened Json
  import opened PyJson

  // ---------------------------------------------------------------------------
  // The request payload
  // ---------------------------------------------------------------------------

  /** The tools file: absent, present but unreadable or not JSON (`except: pass`), or parsed. */
  datatype ToolsFile = NoToolsFile | Unparsable | Parsed(value: Json)

  /** `mcp_tools`: the parsed value, or `[]`. */
  function McpTools(f: ToolsFile): (v: Json)
    ensures !f.Parsed? ==> v == JArr([])
  {
    match f
    case Parsed(v) => v
    case _ => JArr([])
  }

  const ArgsDescription := "Arguments for the tool"

  /** The fixed parameters schema of every converted tool: one object argument, `args`, required. */
  const ArgsSchema: Json := JObj([
    ("type", JStr("object")),
    ("properties", JObj([("args", JObj([("type", JStr("object")), ("description", JStr(ArgsDescription))]))])),
    ("required", JArr([JStr("args")]))])

  /** An OpenAI function tool with the MCP tool's name and description. */
  function OpenAiTool(name: Json, description: Json): Json {
    JObj([("type", JStr("function")),
          ("function", JObj([("name", name), ("description", description), ("parameters", ArgsSchema)]))])
  }

  /** The `function` entry of a converted tool. */
  function FunctionOf(tool: Json): Option<Json> {
    if tool.JObj? then Get(tool.fields, "function") else None
  }

  /** The dict display of the loop body: `tool['name']` is evaluated before `tool['description']`. */
  function ConvertTool(tool: Json): (r: Result<Json, PyError>)
    ensures r.Ok? <==> tool.JObj? && HasKey(tool.fields, "name") && HasKey(tool.fields, "description")
    ensures r.Ok? ==> r.value == OpenAiTool(Get(tool.fields, "name").value, Get(tool.fields, "description").value)
    ensures tool.JObj? && !HasKey(tool.fields, "name") ==> r == Err(KeyError(JStr("name")))
  {
    var name :- GetItem(tool, "name");
    var description :- GetItem(tool, "description");
    Ok(OpenAiTool(name, description))
  }

  /** The converted tools, one per MCP tool in order; the first failing conversion is raised. */
  function ConvertAll(tools: seq<Json>): (r: Result<seq<Json>, PyError>)
    ensures r.Ok? <==> forall i :: 0 <= i < |tools| ==> ConvertTool(tools[i]).Ok?
    ensures r.Ok? ==> |r.value| == |tools| && forall i :: 0 <= i < |tools| ==> r.value[i] == ConvertTool(tools[i]).value
    decreases |tools|
  {
    if |tools| == 0 then Ok([])
    else
      var init := tools[..|tools| - 1];
      match ConvertAll(init)
      case Err(e) => Err(e)
      case Ok(converted) =>
        match ConvertTool(tools[|tools| - 1])
        case Err(e) => Err(e)
        case Ok(t) =>
          assert forall i :: 0 <= i < |init| ==> init[i] == tools[i];
          Ok(converted + [t])
  }

  /** The function entry of a converted tool holds the name and the description given. */
  lemma ToolFields(name: Json, description: Json)
    ensures var f := FunctionOf(OpenAiTool(name, description));
      f == Some(JObj([("name", name), ("description", description), ("parameters", ArgsSchema)]))
      && Get(f.value.fields, "name") == Some(name) && Get(f.value.fields, "description") == Some(description)
  {
    var tool := [("type", JStr("function")),
                 ("function", JObj([("name", name), ("description", description), ("parameters", ArgsSchema)]))];
    GetAt(tool, "function", 1);
    var fields := [("name", name), ("description", description), ("parameters", ArgsSchema)];
    GetAt(fields, "description", 1);
  }

  /** Converting back: each converted tool carries the name and the description it was made from. */
  lemma ConvertedKeepsNames(tools: seq<Json>, i: nat)
    requires ConvertAll(tools).Ok? && i < |tools|
    ensures var f := FunctionOf(ConvertAll(tools).value[i]);
      f.Some? && f.value.JObj?
      && Get(f.value.fields, "name") == Get(tools[i].fields, "name")
      && Get(f.value.fields, "description") == Get(tools[i].fields, "description")
  {
    assert ConvertTool(tools[i]).Ok?;
    ToolFields(Get(tools[i].fields, "name").value, Get(tools[i].fields, "description").value);
  }

  /** A failed conversion stops the loop with the same error, whatever follows. */
  lemma {:induction false} ConvertAllStopped(tools: seq<Json>, k: nat)
    requires k <= |tools|
    requires k < |tools| ==> ConvertAll(tools[..k]).Err?
    ensures ConvertAll(tools) == ConvertAll(tools[..k])
    decreases |tools| - k
  {
    if k < |tools| {
      assert tools[..k + 1][..k] == tools[..k];
      ConvertAllStopped(tools, k + 1);
    } else {
      assert tools[..k] == tools;
    }
  }

  /** The `for tool in mcp_tools` loop appending to `tools`. */
  method ConvertTools(mcpTools: seq<Json>) returns (r: Result<seq<Json>, PyError>)
    ensures r == ConvertAll(mcpTools)
  {
    var tools: seq<Json> := [];
    var i := 0;
    while i < |mcpTools|
      invariant 0 <= i <= |mcpTools|
      invariant ConvertAll(mcpTools[..i]) == Ok(tools)
    {
      assert mcpTools[..i + 1][..i] == mcpTools[..i];
      var converted := ConvertTool(mcpTools[i]);
      if converted.Err? {
        ConvertAllStopped(mcpTools, i + 1);
        return Err(converted.error);
      }
      tools := tools + [converted.value];
      i := i + 1;
    }
    assert mcpTools[..i] == mcpTools;
    r := Ok(tools);
  }

  /** The system message. */
  const SystemPrompt := "You are a helpful AI assistant. For "
    + "general knowledge questions and "
    + "simple queries, provide direct, "
    + "helpful answers. Only use MCP tools "
    + "when specifically needed for file "
    + "operations, system commands, or web "
    + "searches. For most questions, give "
    + "informative responses without "
    + "calling tools. Be conversational "
    + "and helpful."

  /** The two messages: the fixed system prompt, then the content as the user's message. */
  function Messages(content: string): Json {
    JArr([JObj([("role", JStr("system")), ("content", JStr(SystemPrompt))]),
          JObj([("role", JStr("user")), ("content", JStr(content))])])
  }

  /** The payload before the tools: the model, the two messages, the token limit and the temperature. */
  function BasePayload(content: string): seq<(string, Json)> {
    [("model", JStr("gpt-4")), ("messages", Messages(content)), ("max_tokens", JInt(1500)), ("temperature", JFloat("0.3"))]
  }

  /** `if tools:` add the tools and `tool_choice`. */
  function WithTools(payload: seq<(string, Json)>, tools: seq<Json>): seq<(string, Json)> {
    if |tools| > 0 then Set(Set(payload, "tools", JArr(tools)), "tool_choice", JStr("auto")) else payload
  }

  /** `create_openai_payload`, given what the two files hold (None: no content file). */
  function Payload(content: Option<string>, toolsFile: ToolsFile): Result<seq<(string, Json)>, PyError> {
    var items :- Iterate(McpTools(toolsFile));
    var tools :- ConvertAll(items);
    Ok(WithTools(BasePayload(content.GetOr("")), tools))
  }

  /** `create_openai_payload`: the payload dict, extended in place when there are tools. */
  method CreatePayload(content: Option<string>, toolsFile: ToolsFile) returns (r: Result<seq<(string, Json)>, PyError>)
    ensures r == Payload(content, toolsFile)
  {
    var text := if content.Some? then content.value else "";
    var items :- Iterate(McpTools(toolsFile));
    var tools :- ConvertTools(items);
    var payload := BasePayload(text);
    if |tools| > 0 {
      payload := Set(payload, "tools", JArr(tools));
      payload := Set(payload, "tool_choice", JStr("auto"));
    }
    r := Ok(payload);
  }

  /** The fixed fields of every payload, and the tool fields exactly when some tool was converted. */
  lemma PayloadFields(content: Option<string>, toolsFile: ToolsFile)
    requires Payload(content, toolsFile).Ok?
    ensures var p := Payload(content, toolsFile).value;
      var tools := ConvertAll(Iterate(McpTools(toolsFile)).value).value;
      PayloadHolds(p, content.GetOr(""), tools)
  {
    var tools := ConvertAll(Iterate(McpTools(toolsFile)).value).value;
    FieldsWithTools(content.GetOr(""), tools);
  }

  /** What every payload holds, for the content and the converted tools. */
  predicate PayloadHolds(p: seq<(string, Json)>, content: string, tools: seq<Json>) {
    Get(p, "model") == Some(JStr("gpt-4"))
    && Get(p, "messages") == Some(Messages(content))
    && Get(p, "max_tokens") == Some(JInt(1500))
    && Get(p, "temperature") == Some(JFloat("0.3"))
    && (HasKey(p, "tools") <==> |tools| > 0)
    && (HasKey(p, "tool_choice") <==> |tools| > 0)
    && (|tools| > 0 ==> Get(p, "tools") == Some(JArr(tools)) && Get(p, "tool_choice") == Some(JStr("auto")))
  }

  lemma FieldsWithTools(content: string, tools: seq<Json>)
    ensures PayloadHolds(WithTools(BasePayload(content), tools), content, tools)
  {
    BaseFields(content);
    ToolsOnTop(BasePayload(content), content, tools);
  }

  /** Adding the tools to a payload with the fixed fields and no tool fields. */
  lemma ToolsOnTop(p: seq<(string, Json)>, content: string, tools: seq<Json>)
    requires Get(p, "model") == Some(JStr("gpt-4")) && Get(p, "messages") == Some(Messages(content))
    requires Get(p, "max_tokens") == Some(JInt(1500)) && Get(p, "temperature") == Some(JFloat("0.3"))
    requires !HasKey(p, "tools") && !HasKey(p, "tool_choice")
    ensures PayloadHolds(WithTools(p, tools), content, tools)
  {
    WithToolsKeeps(p, tools);
    FixedKeysDiffer();
    var q := WithTools(p, tools);
    assert Get(q, "model") == Get(p, "model");
    assert Get(q, "messages") == Get(p, "messages");
    assert Get(q, "max_tokens") == Get(p, "max_tokens");
    assert Get(q, "temperature") == Get(p, "temperature");
  }

  /** None of the four fixed keys is a tool key; proved apart so that the lemma above stays cheap. */
  lemma FixedKeysDiffer()
    ensures "model" != "tools" && "model" != "tool_choice"
    ensures "messages" != "tools" && "messages" != "tool_choice"
    ensures "max_tokens" != "tools" && "max_tokens" != "tool_choice"
    ensures "temperature" != "tools" && "temperature" != "tool_choice"
  {
    assert "model"[0] != "tools"[0];
    assert "temperature"[1] != "tool_choice"[1];
  }

  /** Adding the tools changes only the two tool fields, and only when there are tools. */
  lemma WithToolsKeeps(p: seq<(string, Json)>, tools: seq<Json>)
    ensures var q := WithTools(p, tools);
      (forall k :: k != "tools" && k != "tool_choice" ==> Get(q, k) == Get(p, k))
      && (|tools| > 0 ==> Get(q, "tools") == Some(JArr(tools)) && Get(q, "tool_choice") == Some(JStr("auto")))
      && (|tools| == 0 ==> q == p)
  {
    if |tools| > 0 {
      var p1 := Set(p, "tools", JArr(tools));
      assert Get(Set(p1, "tool_choice", JStr("auto")), "tools") == Get(p1, "tools");
    }
  }

  lemma BaseFields(content: string)
    ensures var p := BasePayload(content);
      Get(p, "model") == Some(JStr("gpt-4"))
      && Get(p, "messages") == Some(Messages(content))
      && Get(p, "max_tokens") == Some(JInt(1500))
      && Get(p, "temperature") == Some(JFloat("0.3"))
      && !HasKey(p, "tools") && !HasKey(p, "tool_choice")
  {
    var p := BasePayload(content);
    GetAt(p, "messages", 1);
    GetAt(p, "max_tokens", 2);
    GetAt(p, "temperature", 3);
  }

  /** No tools file, or one that does not parse, gives the base payload. */
  lemma NoToolsNoToolFields(content: Option<string>, toolsFile: ToolsFile)
    requires !toolsFile.Parsed?
    ensures Payload(content, toolsFile) == Ok(BasePayload(content.GetOr("")))
  {
    assert ConvertAll([]) == Ok([]);
  }

  // ---------------------------------------------------------------------------
  // The reply
  // ---------------------------------------------------------------------------

  const NoContent := "No response content"
  const DefaultError := "API error"

  /** What `process_openai_response` returns; ReplyText gives the text of each kind. */
  datatype Reply =
    /** The value itself: the message content, or the fixed NoContent text. */
    | Returned(value: Json)
    /** The reply to a search tool call, quoting its arguments. */
    | SearchReply(args: Json)
    /** The fixed reply to a tool call that reads or lists. */
    | FilesReply
    /** The reply to any other tool call, naming the tool. */
    | GenericToolReply(name: Json)
    /** `f'Error: {error_msg}'` when there are no choices. */
    | ApiError(message: Json)
    /** `f'Error calling {func_name}: {e}'`, from the handler around the tool reply. */
    | CallFailed(name: Json, error: PyError)
    /** `f'Error: {e}'`, from the handler around the whole function. */
    | Failed(error: PyError)

  const SearchBefore := "I understand you want me to search "
    + "for information about '"
  const SearchAfter := "'. While I can't perform web "
    + "searches directly right now, I can "
    + "help you with general knowledge "
    + "questions. What would you like to know?"
  const FilesText := "I can see you want me to access "
    + "files or directories. I can help you "
    + "with general questions and provide "
    + "guidance on file operations, even "
    + "if I can't directly access your "
    + "filesystem."
  const GenericBefore := "I received a request for the "
  const GenericAfter := " tool. I'm here to help with your "
    + "questions and provide guidance, even "
    + "if I can't execute certain system "
    + "operations directly."

  /**
   * The text of a reply; `show` stands for Python's `str()` of a JSON value (the text of a
   * string) and `describe` for `str()` of an exception.
   */
  function ReplyText(r: Reply, show: Json -> string, describe: PyError -> string): (t: string)
    ensures r.SearchReply? ==> Contains(t, show(r.args))
    ensures r.GenericToolReply? ==> Contains(t, show(r.name))
    ensures r.ApiError? || r.Failed? ==> StartsWith(t, "Error: ")
  {
    match r
    case Returned(value) => show(value)
    case SearchReply(args) =>
      ContainsFromOffset(SearchBefore + show(args) + SearchAfter, show(args), |SearchBefore|);
      SearchBefore + show(args) + SearchAfter
    case FilesReply => FilesText
    case GenericToolReply(name) =>
      ContainsFromOffset(GenericBefore + show(name) + GenericAfter, show(name), |GenericBefore|);
      GenericBefore + show(name) + GenericAfter
    case ApiError(message) => "Error: " + show(message)
    case CallFailed(name, e) => "Error calling " + show(name) + ": " + describe(e)
    case Failed(e) => "Error: " + describe(e)
  }

  /** The reply to a tool call, chosen by the function name: search first, then read or list. */
  function ToolReply(name: Json, args: Json): (r: Reply)
    ensures name.JStr? && Contains(name.s, "search") ==> r == SearchReply(args)
    ensures name.JStr? && !Contains(name.s, "search") && (Contains(name.s, "read") || Contains(name.s, "list")) ==>
      r == FilesReply
    ensures name.JStr? && !Contains(name.s, "search") && !Contains(name.s, "read") && !Contains(name.s, "list") ==>
      r == GenericToolReply(name)
    ensures r.CallFailed? <==> !(name.JObj? || name.JArr? || name.JStr?)
  {
    match In("search", name)
    case Err(e) => CallFailed(name, e)
    case Ok(true) => SearchReply(args)
    case Ok(false) =>
      var read := In("read", name).value;
      var list := In("list", name).value;
      if read || list then FilesReply else GenericToolReply(name)
  }

  /**
   * The server name the script computes for a tool call and never uses; its `in` tests can
   * still raise.
   */
  function ServerName(name: Json): (r: Result<string, PyError>)
    ensures r.Ok? <==> name.JObj? || name.JArr? || name.JStr?
  {
    match In("web", name)
    case Err(e) => Err(e)
    case Ok(true) => Ok("web")
    case Ok(false) =>
      match In("command", name)
      case Err(e) => Err(e)
      case Ok(command) =>
        match In("system", name)
        case Err(e) => Err(e)
        case Ok(system) => Ok(if command || system then "system" else "filesystem")
  }

  /** The `else` branch: no choices, so `Error: ` and the error's message. */
  function ErrorReply(response: Json): Result<Reply, PyError> {
    var error :- DictGet(response, "error", JObj([]));
    var message :- DictGet(error, "message", JStr(DefaultError));
    Ok(ApiError(message))
  }

  /** The reply to the first choice's message. */
  function MessageReply(message: Json): Result<Reply, PyError> {
    var hasCalls :- PresentAndTruthy(message, "tool_calls");
    if hasCalls then
      var calls :- GetItem(message, "tool_calls");
      var call :- First(calls);
      var func :- GetItem(call, "function");
      var name :- GetItem(func, "name");
      var args :- GetItem(func, "arguments");
      var _ :- ServerName(name);
      Ok(ToolReply(name, args))
    else
      var hasContent :- PresentAndTruthy(message, "content");
      if hasContent then
        var content :- GetItem(message, "content");
        // the typewriter loop iterates over the content
        var _ :- Iterate(content);
        Ok(Returned(content))
      else Ok(Returned(JStr(NoContent)))
  }

  /**
   * The body of the `try`: the reply, or the exception that escapes to the handler.
   * `response_data['choices']` is evaluated once here; evaluating it again gives the same.
   */
  function Classify(response: Json): Result<Reply, PyError> {
    var hasChoices :- In("choices", response);
    if !hasChoices then ErrorReply(response)
    else
      var choices :- GetItem(response, "choices");
      var n :- Len(choices);
      if n == 0 then ErrorReply(response)
      else
        var choice :- First(choices);
        var message :- GetItem(choice, "message");
        MessageReply(message)
  }

  /** `process_openai_response`. */
  function ProcessResponse(response: Json): (r: Reply)
    ensures !r.CallFailed?
  {
    match Classify(response)
    case Ok(reply) => ClassifyNeverCallFailed(response); reply
    case Err(e) => Failed(e)
  }

  /**
   * The handler around the tool reply never runs: the server-name test has already applied
   * `in` to the same name, and it raises on exactly the values on which the reply's tests would.
   */
  lemma ClassifyNeverCallFailed(response: Json)
    requires Classify(response).Ok?
    ensures !Classify(response).value.CallFailed?
  {
  }

  /** A reply dict whose `choices` list starts with a dict holding `message`, whatever else either holds. */
  predicate FirstMessage(fields: seq<(string, Json)>, choice: seq<(string, Json)>, others: seq<Json>, message: Json) {
    Get(fields, "choices") == Some(JArr([JObj(choice)] + others)) && Get(choice, "message") == Some(message)
  }

  /** The reply to a response with a first choice is the reply to that choice's message. */
  lemma FirstChoiceMessage(fields: seq<(string, Json)>, choice: seq<(string, Json)>, others: seq<Json>, message: Json)
    requires FirstMessage(fields, choice, others, message)
    ensures Classify(JObj(fields)) == MessageReply(message)
  {
  }

  /** A message whose `tool_calls` list starts with a dict whose `function` holds a string `name` and `arguments`. */
  predicate FirstCall(message: seq<(string, Json)>, call: seq<(string, Json)>, f: seq<(string, Json)>,
                      otherCalls: seq<Json>, name: string, args: Json) {
    && Get(message, "tool_calls") == Some(JArr([JObj(call)] + otherCalls))
    && Get(call, "function") == Some(JObj(f))
    && Get(f, "name") == Some(JStr(name)) && Get(f, "arguments") == Some(args)
  }

  /** The first tool call decides the reply to the message. */
  lemma ToolCallReply(message: seq<(string, Json)>, call: seq<(string, Json)>, f: seq<(string, Json)>,
                      otherCalls: seq<Json>, name: string, args: Json)
    requires FirstCall(message, call, f, otherCalls, name, args)
    ensures MessageReply(JObj(message)) == Ok(ToolReply(JStr(name), args))
  {
    assert PresentAndTruthy(JObj(message), "tool_calls") == Ok(true);
  }

  /**
   * Only the first tool call is looked at, and a tool call wins over any content: the
   * reply is the tool reply for the first call's name and arguments.
   */
  lemma FirstToolCallWins(fields: seq<(string, Json)>, choice: seq<(string, Json)>, others: seq<Json>,
                          message: seq<(string, Json)>, call: seq<(string, Json)>, f: seq<(string, Json)>,
                          otherCalls: seq<Json>, name: string, args: Json)
    requires FirstMessage(fields, choice, others, JObj(message))
    requires FirstCall(message, call, f, otherCalls, name, args)
    ensures ProcessResponse(JObj(fields)) == ToolReply(JStr(name), args)
  {
    FirstChoiceMessage(fields, choice, others, JObj(message));
    ToolCallReply(message, call, f, otherCalls, name, args);
  }

  /** Non-empty text content with no tool calls is returned unchanged. */
  lemma ContentReturned(fields: seq<(string, Json)>, choice: seq<(string, Json)>, others: seq<Json>,
                        message: seq<(string, Json)>, text: string)
    requires FirstMessage(fields, choice, others, JObj(message))
    requires !HasKey(message, "tool_calls") || !Truthy(Get(message, "tool_calls").value)
    requires Get(message, "content") == Some(JStr(text)) && text != ""
    ensures ProcessResponse(JObj(fields)) == Returned(JStr(text))
  {
    FirstChoiceMessage(fields, choice, others, JObj(message));
    ContentMessage(message, text);
  }

  /** The message part of the lemma above, proved apart to keep each context small. */
  lemma ContentMessage(message: seq<(string, Json)>, text: string)
    requires !HasKey(message, "tool_calls") || !Truthy(Get(message, "tool_calls").value)
    requires Get(message, "content") == Some(JStr(text)) && text != ""
    ensures MessageReply(JObj(message)) == Ok(Returned(JStr(text)))
  {
  }

  /**
   * A message dict whose tool calls and content are each missing or falsy (`null`, `""`,
   * `[]`) gives the fixed text.
   */
  lemma NothingToSay(fields: seq<(string, Json)>, choice: seq<(string, Json)>, others: seq<Json>,
                     message: seq<(string, Json)>)
    requires FirstMessage(fields, choice, others, JObj(message))
    requires !HasKey(message, "tool_calls") || !Truthy(Get(message, "tool_calls").value)
    requires !HasKey(message, "content") || !Truthy(Get(message, "content").value)
    ensures ProcessResponse(JObj(fields)) == Returned(JStr(NoContent))
  {
    FirstChoiceMessage(fields, choice, others, JObj(message));
    assert PresentAndTruthy(JObj(message), "tool_calls") == Ok(false);
    assert PresentAndTruthy(JObj(message), "content") == Ok(false);
  }

  /**
   * A chat-completions reply as the API sends it, with `id` before `choices` and `index`,
   * `role` and `finish_reason` beside the content: its content is returned.
   */
  lemma TypicalReplyReturnsContent(text: string)
    requires text != ""
    ensures var message := [("role", JStr("assistant")), ("content", JStr(text))];
      var choice := [("index", JInt(0)), ("message", JObj(message)), ("finish_reason", JStr("stop"))];
      ProcessResponse(JObj([("id", JStr("c")), ("choices", JArr([JObj(choice)]))])) == Returned(JStr(text))
  {
    var message := [("role", JStr("assistant")), ("content", JStr(text))];
    var choice := [("index", JInt(0)), ("message", JObj(message)), ("finish_reason", JStr("stop"))];
    var fields := [("id", JStr("c")), ("choices", JArr([JObj(choice)]))];
    assert "id"[0] != "choices"[0] && "index"[0] != "message"[0];
    assert "role"[0] != "content"[0] && "role"[0] != "tool_calls"[0] && "content"[0] != "tool_calls"[0];
    GetAt(fields, "choices", 1);
    GetAt(choice, "message", 1);
    GetAt(message, "content", 1);
    assert [JObj(choice)] == [JObj(choice)] + [];
    ContentReturned(fields, choice, [], message, text);
  }

  /**
   * A reply dict without choices, or with an empty list of them, gives `Error: ` and the
   * error's message, `API error` when there is none.
   */
  lemma NoChoicesIsError(fields: seq<(string, Json)>)
    requires !HasKey(fields, "choices") || Get(fields, "choices") == Some(JArr([]))
    requires !HasKey(fields, "error") || Get(fields, "error").value.JObj?
    ensures var message := match Get(fields, "error")
        case None => JStr(DefaultError)
        case Some(e) => Get(e.fields, "message").GetOr(JStr(DefaultError));
      ProcessResponse(JObj(fields)) == ApiError(message)
  {
  }

  /** Any exception in the body becomes `Error: <e>`; a list reply, for one, has no `get`. */
  lemma ListReplyFails(items: seq<Json>)
    requires JStr("choices") !in items
    ensures ProcessResponse(JArr(items)) == Failed(AttributeError)
  {
  }

  // ---------------------------------------------------------------------------
  // main
  // ---------------------------------------------------------------------------

  /** What the `curl` subprocess did: finished with an exit code and stdout (None: not JSON), or raised. */
  datatype CurlRun = Completed(returncode: int, response: Option<Json>) | RunRaised

  datatype Outcome =
    /** The usage line and exit status 1. */
    | Usage
    /** An exception while building the payload: it is not caught, so the script dies with it. */
    | Crashed(error: PyError)
    /** curl succeeded: the payload is the one sent, the reply what `process_openai_response` returned. */
    | Answered(payload: seq<(string, Json)>, reply: Reply)
    /** `API request failed`: curl exited non-zero. */
    | RequestFailed(payload: seq<(string, Json)>)
    /** `Error: <e>`: curl could not be run, or its output was not JSON. */
    | RequestError(payload: seq<(string, Json)>)

  /**
   * `main`: `files` holds the paths that exist with their text (None: the path exists but
   * cannot be read), `parse` stands for `json.load` (None: it raised), `curl` for the
   * request made with the key and the payload.
   */
  function Main(argv: seq<string>, files: map<string, Option<string>>, parse: string -> Option<Json>,
                curl: (string, seq<(string, Json)>) -> CurlRun): (r: Outcome)
    ensures |argv| != 4 <==> r == Usage
    ensures |argv| == 4 && argv[1] in files && files[argv[1]].None? ==> r == Crashed(OSError)
    ensures |argv| == 4 && r.Answered? ==>
      curl(argv[3], r.payload).Completed? && curl(argv[3], r.payload).returncode == 0
      && Payload(if argv[1] in files then files[argv[1]] else None,
                 ToolsFileOf(argv[2], files, parse)) == Ok(r.payload)
    ensures |argv| == 4 && !(argv[1] in files && files[argv[1]].None?) ==>
      var p := Payload(if argv[1] in files then files[argv[1]] else None, ToolsFileOf(argv[2], files, parse));
      && (p.Err? ==> r == Crashed(p.error))
      && (p.Ok? && curl(argv[3], p.value).RunRaised? ==> r == RequestError(p.value))
      && (p.Ok? && curl(argv[3], p.value).Completed? && curl(argv[3], p.value).returncode != 0
          ==> r == RequestFailed(p.value))
      && (p.Ok? && curl(argv[3], p.value) == Completed(0, None) ==> r == RequestError(p.value))
      && (forall v :: p.Ok? && curl(argv[3], p.value) == Completed(0, Some(v)) ==>
                      r == Answered(p.value, ProcessResponse(v)))
  {
    if |argv| != 4 then Usage
    else if argv[1] in files && files[argv[1]].None? then Crashed(OSError)
    else
      var content := if argv[1] in files then files[argv[1]] else None;
      match Payload(content, ToolsFileOf(argv[2], files, parse))
      case Err(e) => Crashed(e)
      case Ok(payload) =>
        match curl(argv[3], payload)
        case RunRaised => RequestError(payload)
        case Completed(code, response) =>
          if code != 0 then RequestFailed(payload)
          else if response.None? then RequestError(payload)
          else Answered(payload, ProcessResponse(response.value))
  }

  /** The tools file as `create_openai_payload` finds it: a failed read is caught like a failed parse. */
  function ToolsFileOf(path: string, files: map<string, Option<string>>, parse: string -> Option<Json>): (r: ToolsFile)
    ensures r == NoToolsFile <==> path !in files
    ensures path in files && files[path].None? ==> r == Unparsable
  {
    if path !in files then NoToolsFile
    else if files[path].None? then Unparsable
    else match parse(files[path].value)
      case None => Unparsable
      case Some(v) => Parsed(v)
  }
}
