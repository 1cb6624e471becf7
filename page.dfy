/** The chat page's session logic (`app/page.tsx`): how streamed fragment
    snapshots are bound to the conversation, how a failed request is
    classified on the client, when the preview's loading indicator clears,
    what a successful build persists, and the submit, retry, undo and clear
    actions. React state updates are applied one after another. */
module Page {
  import opened Wrappers
  import opened Js
  import opened Schema

  datatype Role = User | Assistant

  /** A message part: text, the fragment's code, or an attached image. */
  datatype Part = TextPart(text: string) | CodePart(code: Code) | ImagePart(image: string)

  datatype Message = Message(role: Role, content: seq<Part>, obj: Option<Fragment>, result: Option<SandboxResult>)

  /** `Partial<Message>`: the fields a patch sets; the others are kept. */
  datatype MessagePatch = MessagePatch(
    role: Option<Role>,
    content: Option<seq<Part>>,
    obj: Option<Fragment>,
    result: Option<SandboxResult>)

  function LastMessage(ms: seq<Message>): Message
    requires ms != []
  {
    ms[|ms| - 1]
  }

  /** `{...previous, ...patch}`. */
  function Overlay(m: Message, p: MessagePatch): Message {
    Message(
      if p.role.Some? then p.role.value else m.role,
      if p.content.Some? then p.content.value else m.content,
      if p.obj.Some? then p.obj else m.obj,
      if p.result.Some? then p.result else m.result)
  }

  /** `setMessage(patch)`: overlay the patch on the last message. On an empty
      list the assignment goes to index -1, which is not an element, so the
      messages stay as they were. */
  function ApplyPatch(ms: seq<Message>, p: MessagePatch): (r: seq<Message>)
    ensures |r| == |ms|
    ensures forall i :: 0 <= i < |ms| - 1 ==> r[i] == ms[i]
    ensures ms != [] ==> r[|ms| - 1] == Overlay(ms[|ms| - 1], p)
  {
    if ms == [] then ms else ms[|ms| - 1 := Overlay(ms[|ms| - 1], p)]
  }

  /** On the target message, a field the patch leaves out keeps its value and
      a field it sets takes the new value. */
  lemma PatchKeepsAbsentFields(ms: seq<Message>, p: MessagePatch)
    requires ms != []
    ensures var last := LastMessage(ApplyPatch(ms, p));
      && (p.role.None? ==> last.role == LastMessage(ms).role)
      && (p.content.None? ==> last.content == LastMessage(ms).content)
      && (p.obj.None? ==> last.obj == LastMessage(ms).obj)
      && (p.result.None? ==> last.result == LastMessage(ms).result)
      && (p.role.Some? ==> last.role == p.role.value)
      && (p.content.Some? ==> last.content == p.content.value)
      && (p.obj.Some? ==> last.obj == p.obj)
      && (p.result.Some? ==> last.result == p.result)
  {
  }

  // ---------------------------------------------------------------------------
  // Binding snapshots to the conversation

  /** `object.code || ''`. */
  function CodeOrEmpty(c: Code): Code {
    if CodeTruthy(c) then c else CodeText("")
  }

  /** The content written for a snapshot: its commentary (or `''`) as text and
      its code (or `''`) as code. */
  function SnapshotContent(o: Fragment): seq<Part> {
    [TextPart(OrElse(o.commentary, "")), CodePart(CodeOrEmpty(o.code))]
  }

  /** The snapshot effect: a conversation that is empty or does not end with an
      assistant message gets a new assistant message; otherwise the last one
      has its content and object overwritten. */
  function BindSnapshot(ms: seq<Message>, o: Fragment): (r: seq<Message>)
    ensures r != [] && LastMessage(r).role == Assistant
    ensures LastMessage(r).content == SnapshotContent(o) && LastMessage(r).obj == Some(o)
    ensures ms == [] || LastMessage(ms).role != Assistant ==>
      r == ms + [Message(Assistant, SnapshotContent(o), Some(o), None)]
    ensures ms != [] && LastMessage(ms).role == Assistant ==>
      |r| == |ms| && r[..|ms| - 1] == ms[..|ms| - 1] && LastMessage(r).result == LastMessage(ms).result
  {
    var content := SnapshotContent(o);
    if ms == [] || LastMessage(ms).role != Assistant then
      ms + [Message(Assistant, content, Some(o), None)]
    else
      var r := ApplyPatch(ms, MessagePatch(None, Some(content), Some(o), None));
      assert r[..|ms| - 1] == ms[..|ms| - 1];
      r
  }

  /** Delivering the same snapshot again changes nothing. */
  lemma SnapshotIdempotent(ms: seq<Message>, o: Fragment)
    ensures BindSnapshot(BindSnapshot(ms, o), o) == BindSnapshot(ms, o)
  {
    var once := BindSnapshot(ms, o);
    var twice := BindSnapshot(once, o);
    assert twice[..|once| - 1] == once[..|once| - 1];
    assert twice == twice[..|once| - 1] + [LastMessage(twice)];
    assert once == once[..|once| - 1] + [LastMessage(once)];
  }

  /** The snapshots of one stream, delivered in order. */
  function BindAll(ms: seq<Message>, os: seq<Fragment>): seq<Message>
    decreases |os|
  {
    if os == [] then ms else BindAll(BindSnapshot(ms, os[0]), os[1..])
  }

  /** A whole stream of snapshots makes one turn: the conversation looks as
      after the first snapshot, except that the last message carries the
      latest snapshot. */
  lemma {:induction false} StreamMakesOneTurn(ms: seq<Message>, os: seq<Fragment>)
    requires os != []
    ensures var r := BindAll(ms, os);
      var first := BindSnapshot(ms, os[0]);
      && |r| == |first| && r[..|r| - 1] == first[..|first| - 1]
      && LastMessage(r) == Message(Assistant, SnapshotContent(os[|os| - 1]), Some(os[|os| - 1]), LastMessage(first).result)
    decreases |os|
  {
    var first := BindSnapshot(ms, os[0]);
    if |os| > 1 {
      StreamMakesOneTurn(first, os[1..]);
      var second := BindSnapshot(first, os[1]);
      assert os[1..][0] == os[1] && os[1..][|os[1..]| - 1] == os[|os| - 1];
      assert second[..|second| - 1] == first[..|first| - 1];
    }
  }

  /** `handleUndo`'s update: drop the last two messages (all, when fewer). */
  function UndoMessages(ms: seq<Message>): (r: seq<Message>)
    ensures |r| == Max(0, |ms| - 2) && r == ms[..|r|]
  {
    if |ms| < 2 then [] else ms[..|ms| - 2]
  }

  /** Undo after a user message and its answer restores what came before. */
  lemma UndoRemovesTurn(ms: seq<Message>, user: Message, answer: Message)
    ensures UndoMessages(ms + [user, answer]) == ms
  {
    assert (ms + [user, answer])[..|ms|] == ms;
  }

  // ---------------------------------------------------------------------------
  // The client error classifier

  const DefaultErrorText := "Something went wrong. Please try again."
  const RateLimitedCode := "rate_limited"

  type JsonObject = map<string, JsonValue>

  /** `JSON.parse` of the raw text: `None` when it throws; a value that is not
      an object reads as an object without fields. */
  type JsonParser = string -> Option<JsonObject>

  /** `error?.message || 'Something went wrong. Please try again.'`. */
  function RawErrorText(errorMessage: Option<string>): (r: string)
    ensures r != ""
    ensures Truthy(errorMessage) ==> r == errorMessage.value
  {
    OrElse(errorMessage, DefaultErrorText)
  }

  /** The parsed payload, tried only when the trimmed text starts with `{`. */
  function Payload(raw: string, parse: JsonParser): Option<JsonObject> {
    if StartsWith(Trim(raw), "{") then parse(raw) else None
  }

  /** `rate.?limit` at position `i` of the folded text: `.` matches any
      character but a line terminator. */
  predicate RateLimitAt(folded: string, i: int) {
    && OccursAt(folded, "rate", i)
    && (OccursAt(folded, "limit", i + 4)
        || (i + 4 < |folded| && !IsLineTerminator(folded[i + 4]) && OccursAt(folded, "limit", i + 5)))
  }

  /** `rate.?limit` matches the folded text at some position from `i` on,
      scanning left to right as the regular expression engine does. */
  predicate RateLimitFrom(folded: string, i: nat)
    decreases |folded| - i
  {
    i < |folded| && (RateLimitAt(folded, i) || RateLimitFrom(folded, i + 1))
  }

  /** The scan finds a match exactly when `rate.?limit` occurs at some
      position from `i` on, which is what `test` reports. */
  lemma {:induction false} RateLimitFromSomewhere(folded: string, i: nat)
    ensures RateLimitFrom(folded, i) <==> exists j :: i <= j < |folded| && RateLimitAt(folded, j)
    decreases |folded| - i
  {
    if i < |folded| {
      RateLimitFromSomewhere(folded, i + 1);
      if exists j :: i <= j < |folded| && RateLimitAt(folded, j) {
        var j :| i <= j < |folded| && RateLimitAt(folded, j);
        if j > i {
          assert RateLimitFrom(folded, i + 1);
        }
      }
      if RateLimitAt(folded, i) {
        assert i <= i < |folded| && RateLimitAt(folded, i);
      }
    }
  }

  /** `/429|rate.?limit|too many/i`. The patterns are ASCII, so the
      case-insensitive match is a match on the ASCII-folded text. */
  predicate MatchesRateLimitPattern(raw: string) {
    var folded := Lower(raw);
    Includes(raw, "429") || RateLimitFrom(folded, 0) || Includes(folded, "too many")
  }

  datatype ClientError = ClientError(message: string, code: Option<string>)

  /** A string field of the parsed payload, if there is a payload. */
  function PayloadField(raw: string, parse: JsonParser, key: string): (r: Option<string>)
    ensures r.Some? ==> Payload(raw, parse).Some? && r == StringField(Payload(raw, parse).value, key)
    ensures Payload(raw, parse).Some? ==> r == StringField(Payload(raw, parse).value, key)
  {
    var payload := Payload(raw, parse);
    if payload.Some? then StringField(payload.value, key) else None
  }

  /** What `onError` concludes: the payload's string `message` replaces the raw
      text as the message and its string `error` becomes the code; without a
      code, a raw text matching the rate-limit pattern gets `rate_limited`. */
  function ClientErrorOf(errorMessage: Option<string>, parse: JsonParser): ClientError {
    var raw := RawErrorText(errorMessage);
    var payloadMessage := PayloadField(raw, parse, "message");
    var payloadCode := PayloadField(raw, parse, "error");
    ClientError(
      if payloadMessage.Some? then payloadMessage.value else raw,
      if payloadCode.None? && MatchesRateLimitPattern(raw) then Some(RateLimitedCode) else payloadCode)
  }

  /** `onError`'s classification, step by step: start from the raw text,
      let a parsed payload's string fields override message and code, then
      fall back to the rate-limit pattern when there is no code. */
  method ClassifyClientError(errorText: Option<string>, parse: JsonParser) returns (message: string, code: Option<string>)
    ensures message == ClientErrorOf(errorText, parse).message
    ensures code == ClientErrorOf(errorText, parse).code
  {
    var raw := RawErrorText(errorText);
    message := raw;
    code := None;
    if StartsWith(Trim(raw), "{") {
      var parsed := parse(raw);
      if parsed.Some? {
        var m := StringField(parsed.value, "message");
        if m.Some? {
          message := m.value;
        }
        var e := StringField(parsed.value, "error");
        if e.Some? {
          code := e;
        }
      }
    }
    assert code == PayloadField(raw, parse, "error");
    assert message == OrElse(PayloadField(raw, parse, "message"), raw);
    if code.None? && MatchesRateLimitPattern(raw) {
      code := Some(RateLimitedCode);
    }
  }

  /** The condition under which `onError` raises the rate-limit flag. */
  predicate ShowsRateLimit(e: ClientError) {
    e.code == Some(RateLimitedCode) || IncludesIgnoreCase(e.message, "limit")
  }

  /** Text that is not a JSON object is its own message, and its code comes
      from the pattern alone. */
  lemma PlainTextError(errorMessage: Option<string>, parse: JsonParser)
    requires var raw := RawErrorText(errorMessage);
      !StartsWith(Trim(raw), "{") || parse(raw).None?
    ensures var e := ClientErrorOf(errorMessage, parse);
      && e.message == RawErrorText(errorMessage)
      && (e.code.Some? <==> MatchesRateLimitPattern(RawErrorText(errorMessage)))
      && (e.code.Some? ==> e.code.value == RateLimitedCode)
  {
  }

  /** A string `error` field in the payload is the code, whatever the text
      matches. */
  lemma PayloadCodeWins(errorMessage: Option<string>, parse: JsonParser)
    requires Payload(RawErrorText(errorMessage), parse).Some?
    requires StringField(Payload(RawErrorText(errorMessage), parse).value, "error").Some?
    ensures ClientErrorOf(errorMessage, parse).code == StringField(Payload(RawErrorText(errorMessage), parse).value, "error")
  {
  }

  /** The flag goes up exactly when the payload names `rate_limited`, or no
      payload code is given and the raw text matches the pattern, or the
      message mentions a limit in any case. */
  lemma RateLimitFlagIff(errorMessage: Option<string>, parse: JsonParser)
    ensures var raw := RawErrorText(errorMessage);
      var payload := Payload(raw, parse);
      var payloadCode := if payload.Some? then StringField(payload.value, "error") else None;
      ShowsRateLimit(ClientErrorOf(errorMessage, parse)) <==>
        || payloadCode == Some(RateLimitedCode)
        || (payloadCode.None? && MatchesRateLimitPattern(raw))
        || IncludesIgnoreCase(ClientErrorOf(errorMessage, parse).message, "limit")
  {
  }

  /** "Rate limit exceeded" is recognised as a rate limit by the pattern. */
  lemma RateLimitExceededMatches()
    ensures MatchesRateLimitPattern("Rate limit exceeded")
  {
    var folded := Lower("Rate limit exceeded");
    assert folded[0] == LowerChar('R') == 'r';
    assert folded[1..4] == "Rate limit exceeded"[1..4];
    assert folded[0..4] == "rate";
    assert folded[5..10] == "Rate limit exceeded"[5..10] == "limit";
    assert RateLimitAt(folded, 0);
  }

  /** A line break between the words does not satisfy `rate.?limit`. */
  lemma RateNewlineLimitIsNotAt()
    ensures !RateLimitAt("rate\nlimit", 0)
  {
    var s := "rate\nlimit";
    assert s[4] == '\n';
    assert s[4..9][0] != "limit"[0];
    assert IsLineTerminator(s[4]);
  }

  // ---------------------------------------------------------------------------
  // The preview's minimum loading time

  const MinPreviewMs := 3000

  /** Time since the recorded start, or 0 when none (or 0) was recorded. */
  function Elapsed(start: Option<int>, now: int): int {
    if start.Some? && start.value != 0 then now - start.value else 0
  }

  /** The delay before the loading indicator clears. */
  function ClearDelay(start: Option<int>, now: int): (remain: int)
    ensures remain >= 0
    ensures Elapsed(start, now) + remain == Max(MinPreviewMs, Elapsed(start, now))
    ensures remain == 0 <==> Elapsed(start, now) >= MinPreviewMs
  {
    Max(0, MinPreviewMs - Elapsed(start, now))
  }

  /** Without a recorded start the full minimum is waited. */
  lemma NoStartWaitsFullMinimum(now: int)
    ensures ClearDelay(None, now) == MinPreviewMs && ClearDelay(Some(0), now) == MinPreviewMs
  {
  }

  // ---------------------------------------------------------------------------
  // Persisting a build

  datatype BuildPayload = BuildPayload(
    userId: Option<string>,
    teamId: Option<string>,
    template: Option<string>,
    title: Option<string>,
    description: Option<string>,
    filePath: Option<string>,
    sbxId: Option<string>,
    url: Option<string>)

  datatype BuildFileRow = BuildFileRow(buildId: JsonValue, filePath: string, content: Code)

  /** What inserting the `builds` row gives back: its `id`, or an error. */
  datatype InsertResult = Inserted(id: JsonValue) | InsertFailed

  /** Not configured (no client), failed and swallowed, or saved. */
  datatype PersistOutcome = NotConfigured | Failed | Saved(payload: BuildPayload, fileRow: Option<BuildFileRow>)

  /** The `builds` row: every fragment field as given (absent stays absent,
      i.e. `null`), and no URL for code-interpreter results. */
  function BuildPayloadOf(f: Fragment, result: SandboxResult, userId: Option<string>, teamId: Option<string>): (p: BuildPayload)
    ensures p.userId == userId && p.teamId == teamId
    ensures p.template == f.template && p.title == f.title && p.description == f.description
    ensures p.filePath == f.filePath && p.sbxId == result.sbxId
    ensures result.template == Some(CodeInterpreterTemplate) ==> p.url == None
    ensures result.template != Some(CodeInterpreterTemplate) ==> p.url == result.url
  {
    BuildPayload(userId, teamId, f.template, f.title, f.description, f.filePath, result.sbxId,
      if result.template != Some(CodeInterpreterTemplate) then result.url else None)
  }

  /** `persistBuild`: nothing without a client; a missing fragment or a failed
      insert is swallowed; otherwise the build is saved, with its file row only
      when the returned id, the fragment's path and its code are all truthy. */
  function PersistBuild(configured: bool, fragment: Option<Fragment>, result: SandboxResult,
                        userId: Option<string>, teamId: Option<string>,
                        insertBuild: BuildPayload -> InsertResult): (r: PersistOutcome)
    ensures !configured <==> r.NotConfigured?
    ensures r.Saved? <==> (configured && fragment.Some?
      && insertBuild(BuildPayloadOf(fragment.value, result, userId, teamId)).Inserted?)
    ensures r.Saved? ==> r.payload == BuildPayloadOf(fragment.value, result, userId, teamId)
    ensures r.Saved? ==> (r.fileRow.Some? <==>
      && JsonTruthy(insertBuild(r.payload).id) && Truthy(fragment.value.filePath) && CodeTruthy(fragment.value.code))
    ensures r.Saved? && r.fileRow.Some? ==>
      r.fileRow.value == BuildFileRow(insertBuild(r.payload).id, fragment.value.filePath.value, fragment.value.code)
  {
    if !configured then NotConfigured
    else if fragment.None? then Failed
    else
      var f := fragment.value;
      var payload := BuildPayloadOf(f, result, userId, teamId);
      match insertBuild(payload)
      case InsertFailed => Failed
      case Inserted(id) =>
        Saved(payload,
          if JsonTruthy(id) && Truthy(f.filePath) && CodeTruthy(f.code)
          then Some(BuildFileRow(id, f.filePath.value, f.code))
          else None)
  }

  // ---------------------------------------------------------------------------
  // Models and templates

  /** `filteredModels`: with local models hidden, those of provider `ollama`
      are dropped; otherwise the list is kept. */
  function FilteredModels(models: seq<LLMModel>, hideLocal: bool): (r: seq<LLMModel>)
    ensures !hideLocal ==> r == models
    ensures |r| <= |models|
    ensures forall m :: m in r ==> m in models
    ensures hideLocal ==> forall m :: m in r ==> m.providerId != Some("ollama")
    ensures hideLocal ==> forall m :: m in models && m.providerId != Some("ollama") ==> m in r
    decreases |models|
  {
    if !hideLocal || models == [] then models
    else
      var rest := FilteredModels(models[1..], hideLocal);
      if models[0].providerId != Some("ollama") then [models[0]] + rest else rest
  }

  /** Filtering works element by element, so it distributes over
      concatenation and keeps the order of the list. */
  lemma {:induction false} FilteredModelsAppend(a: seq<LLMModel>, b: seq<LLMModel>, hideLocal: bool)
    ensures FilteredModels(a + b, hideLocal) == FilteredModels(a, hideLocal) + FilteredModels(b, hideLocal)
    decreases |a|
  {
    if a == [] {
      assert a + b == b;
    } else if hideLocal {
      assert (a + b)[0] == a[0] && (a + b)[1..] == a[1..] + b;
      FilteredModelsAppend(a[1..], b, hideLocal);
    }
  }

  /** One model stays exactly when local models are shown or it is not from
      `ollama`. */
  lemma FilteredModelsSingle(m: LLMModel, hideLocal: bool)
    ensures FilteredModels([m], hideLocal) == if !hideLocal || m.providerId != Some("ollama") then [m] else []
  {
    assert [m][1..] == [];
  }

  /** `currentModel`: the first model whose id is the configured model. */
  function FindModel(models: seq<LLMModel>, id: Option<string>): (r: Option<LLMModel>)
    ensures r.None? <==> forall k :: 0 <= k < |models| ==> Some(models[k].id) != id
    ensures r.Some? ==> exists k :: (0 <= k < |models| && models[k] == r.value && Some(r.value.id) == id
      && forall k' :: 0 <= k' < k ==> Some(models[k'].id) != id)
    decreases |models|
  {
    if models == [] then None
    else if Some(models[0].id) == id then Some(models[0])
    else
      var rest := FindModel(models[1..], id);
      if rest.Some? then
        ghost var k :| 0 <= k < |models[1..]| && models[1..][k] == rest.value && Some(rest.value.id) == id
          && forall k' :: 0 <= k' < k ==> Some(models[1..][k'].id) != id;
        assert models[k + 1] == rest.value && forall k' :: 0 <= k' < k + 1 ==> Some(models[k'].id) != id;
        rest
      else
        None
  }

  /** The configured model id (`languageModel.model`). */
  function ConfiguredModel(config: ModelConfig): Option<string> {
    if "model" in config && config["model"].JStr? then Some(config["model"].s) else None
  }

  datatype TemplateChoice = Auto | Chosen(id: string)

  /** A chosen template is one of the catalogue's ids. */
  predicate ChoiceValid(choice: TemplateChoice, templates: Templates) {
    choice.Chosen? ==> choice.id in templates
  }

  /** `currentTemplate`: the whole catalogue for `auto`, else just the chosen one. */
  function CurrentTemplate(choice: TemplateChoice, templates: Templates): (r: Templates)
    requires ChoiceValid(choice, templates)
    ensures choice.Auto? ==> r == templates
    ensures choice.Chosen? ==> r.Keys == {choice.id} && r[choice.id] == templates[choice.id]
  {
    if choice.Auto? then templates else map[choice.id := templates[choice.id]]
  }

  // ---------------------------------------------------------------------------
  // The session

  datatype Tab = CodeTab | FragmentTab

  /** The request body `submit` sends to the generation endpoint. */
  datatype Submission = Submission(
    userId: Option<string>,
    teamId: Option<string>,
    messages: seq<Message>,
    template: Templates,
    model: Option<LLMModel>,
    config: ModelConfig)

  function ImageParts(images: seq<string>): (r: seq<Part>)
    ensures |r| == |images| && forall k :: 0 <= k < |images| ==> r[k] == ImagePart(images[k])
  {
    seq(|images|, k requires 0 <= k < |images| => ImagePart(images[k]))
  }

  /** The user message's content as `handleSubmitAuth` assembles it: the
      input text, then one part per attached image. */
  method UserContent(text: string, images: seq<string>) returns (content: seq<Part>)
    ensures content == [TextPart(text)] + ImageParts(images)
  {
    content := [TextPart(text)];
    for k := 0 to |images|
      invariant |content| == k + 1 && content[0] == TextPart(text)
      invariant forall j :: 0 <= j < k ==> content[j + 1] == ImagePart(images[j])
    {
      content := content + [ImagePart(images[k])];
    }
  }

  /** Where persistence goes: whether a client is configured, who is signed
      in, and what inserting a `builds` row returns. */
  datatype PersistTarget = PersistTarget(
    configured: bool,
    userId: Option<string>,
    teamId: Option<string>,
    insertBuild: BuildPayload -> InsertResult)

  class ChatSession {
    var messages: seq<Message>
    var fragment: Option<Fragment>
    var result: Option<SandboxResult>
    var currentTab: Tab
    var isPreviewLoading: bool
    var isAuthDialogOpen: bool
    var isRateLimited: bool
    var errorMessage: string
    var chatInput: string
    /** The attached files, already read as image data. */
    var files: seq<string>
    /** The generation hook's loading state. */
    var isLoading: bool
    /** `previewStartRef`. */
    var previewStart: Option<int>
    /** The delay of the scheduled clearing of the loading indicator. */
    var pendingClear: Option<int>

    const templates: Templates
    const selectedTemplate: TemplateChoice
    const models: seq<LLMModel>
    const hideLocalModels: bool
    const languageModel: ModelConfig

    predicate Valid() {
      ChoiceValid(selectedTemplate, templates)
    }

    constructor (templates: Templates, selectedTemplate: TemplateChoice, models: seq<LLMModel>,
                 hideLocalModels: bool, languageModel: ModelConfig, savedInput: string)
      requires ChoiceValid(selectedTemplate, templates)
      ensures Valid()
      ensures this.templates == templates && this.selectedTemplate == selectedTemplate
      ensures this.models == models && this.hideLocalModels == hideLocalModels && this.languageModel == languageModel
      ensures messages == [] && fragment == None && result == None && currentTab == CodeTab
      ensures !isPreviewLoading && !isAuthDialogOpen && !isRateLimited && errorMessage == ""
      ensures chatInput == savedInput && files == [] && !isLoading && previewStart == None && pendingClear == None
    {
      this.templates := templates;
      this.selectedTemplate := selectedTemplate;
      this.models := models;
      this.hideLocalModels := hideLocalModels;
      this.languageModel := languageModel;
      messages := [];
      fragment := None;
      result := None;
      currentTab := CodeTab;
      isPreviewLoading := false;
      isAuthDialogOpen := false;
      isRateLimited := false;
      errorMessage := "";
      chatInput := savedInput;
      files := [];
      isLoading := false;
      previewStart := None;
      pendingClear := None;
    }

    /** The model the configuration selects among the offered ones. */
    function CurrentModel(): (r: Option<LLMModel>)
      ensures r.Some? ==> (r.value in FilteredModels(models, hideLocalModels)
        && Some(r.value.id) == ConfiguredModel(languageModel))
    {
      FindModel(FilteredModels(models, hideLocalModels), ConfiguredModel(languageModel))
    }

    /** Undo is offered with more than one message and no request running;
        it then removes exactly two. */
    predicate CanUndo()
      reads this
      ensures CanUndo() ==> |UndoMessages(messages)| + 2 == |messages|
    {
      |messages| > 1 && !isLoading
    }

    /** Clear is offered when there is a message. */
    predicate CanClear()
      reads this
      ensures CanClear() <==> messages != []
    {
      |messages| > 0
    }

    method SetMessage(p: MessagePatch)
      modifies this`messages
      ensures messages == ApplyPatch(old(messages), p)
    {
      if messages != [] {
        messages := messages[|messages| - 1 := Overlay(messages[|messages| - 1], p)];
      }
    }

    method AddMessage(m: Message) returns (updated: seq<Message>)
      modifies this`messages
      ensures messages == old(messages) + [m] && updated == messages
    {
      messages := messages + [m];
      updated := messages;
    }

    /** A new snapshot of the streamed obj: it becomes the fragment and is
        bound to the conversation. */
    method OnSnapshot(o: Fragment)
      modifies this`fragment, this`messages
      ensures fragment == Some(o)
      ensures messages == BindSnapshot(old(messages), o)
    {
      fragment := Some(o);
      var content := SnapshotContent(o);
      if messages == [] || LastMessage(messages).role != Assistant {
        var _ := AddMessage(Message(Assistant, content, Some(o), None));
      } else {
        SetMessage(MessagePatch(None, Some(content), Some(o), None));
      }
    }

    /** `onError`: classify the failure, raise the flag when it is a rate
        limit (it is never lowered here), and show the message. The request
        has ended. */
    method OnError(errorText: Option<string>, parse: JsonParser)
      modifies this`errorMessage, this`isRateLimited, this`isLoading
      ensures errorMessage == ClientErrorOf(errorText, parse).message
      ensures isRateLimited == (old(isRateLimited) || ShowsRateLimit(ClientErrorOf(errorText, parse)))
      ensures !isLoading
    {
      var message, code := ClassifyClientError(errorText, parse);
      var limited := code == Some(RateLimitedCode) || IncludesIgnoreCase(message, "limit");
      assert limited == ShowsRateLimit(ClientErrorOf(errorText, parse));
      isLoading := false;
      if limited {
        isRateLimited := true;
      }
      errorMessage := message;
    }

    /** `onFinish`: after a successful stream, start the loading indicator and
        ask the sandbox for a result. `sandbox` is the parsed reply, `None` when
        the request or the reading of its body threw: the handler then stops
        with the indicator on and nothing scheduled. With a reply it shows the
        result for the final object, schedules the indicator's clearing after
        the remaining minimum time, and persists the build. A failed stream
        changes nothing but ends the request. */
    method OnFinish(obj: Option<Fragment>, failed: bool, sandbox: Option<SandboxResult>,
                    startedAt: int, finishedAt: int, target: PersistTarget)
      returns (persisted: Option<PersistOutcome>)
      modifies this`isLoading, this`isPreviewLoading, this`previewStart, this`result, this`fragment
      modifies this`messages, this`currentTab, this`pendingClear
      ensures !isLoading
      ensures failed ==> (persisted == None && messages == old(messages) && fragment == old(fragment)
        && result == old(result) && currentTab == old(currentTab) && isPreviewLoading == old(isPreviewLoading)
        && previewStart == old(previewStart) && pendingClear == old(pendingClear))
      ensures !failed ==> isPreviewLoading && previewStart == Some(startedAt)
      ensures !failed && sandbox.None? ==>
        && persisted == None && messages == old(messages) && fragment == old(fragment)
        && result == old(result) && currentTab == old(currentTab) && pendingClear == old(pendingClear)
      ensures !failed && sandbox.Some? ==>
        && fragment == obj && result == sandbox
        && messages == ApplyPatch(old(messages), MessagePatch(None, None, None, sandbox))
        && currentTab == FragmentTab
        && pendingClear == Some(ClearDelay(Some(startedAt), finishedAt))
        && persisted == Some(PersistBuild(target.configured, obj, sandbox.value, target.userId, target.teamId, target.insertBuild))
    {
      isLoading := false;
      persisted := None;
      if !failed {
        isPreviewLoading := true;
        previewStart := Some(startedAt);
        if sandbox.Some? {
          var saved := PersistBuild(target.configured, obj, sandbox.value, target.userId, target.teamId, target.insertBuild);
          result := sandbox;
          fragment := obj;
          SetMessage(MessagePatch(None, None, None, sandbox));
          currentTab := FragmentTab;
          var remain := ClearDelay(previewStart, finishedAt);
          pendingClear := Some(remain);
          persisted := Some(saved);
        }
      }
    }

    /** The scheduled clearing of the loading indicator fires. */
    method PreviewTimerFired()
      modifies this`isPreviewLoading, this`pendingClear
      ensures !isPreviewLoading && pendingClear == None
    {
      isPreviewLoading := false;
      pendingClear := None;
    }

    /** `handleSubmitAuth`: without a session, open the sign-in dialog and do
        nothing else; otherwise stop any running request, clear the error
        state, append the user's message (the input text followed by the
        images in order) and submit the whole conversation. */
    method HandleSubmitAuth(hasSession: bool, userId: Option<string>, teamId: Option<string>, images: seq<string>)
      returns (submission: Option<Submission>)
      requires Valid()
      modifies this`isAuthDialogOpen, this`isLoading, this`isRateLimited, this`errorMessage
      modifies this`messages, this`chatInput, this`files, this`currentTab
      ensures !hasSession ==> (submission == None && isAuthDialogOpen && messages == old(messages)
        && isRateLimited == old(isRateLimited) && errorMessage == old(errorMessage)
        && chatInput == old(chatInput) && files == old(files) && currentTab == old(currentTab)
        && isLoading == old(isLoading))
      ensures hasSession ==>
        && messages == old(messages) + [Message(User, [TextPart(old(chatInput))] + ImageParts(images), None, None)]
        && submission == Some(Submission(userId, teamId, messages, CurrentTemplate(selectedTemplate, templates),
                                         CurrentModel(), languageModel))
        && !isRateLimited && errorMessage == "" && chatInput == "" && files == [] && currentTab == CodeTab
        && isLoading && isAuthDialogOpen == old(isAuthDialogOpen)
    {
      if !hasSession {
        isAuthDialogOpen := true;
        return None;
      }
      var content := UserContent(chatInput, images);
      if isLoading {
        isLoading := false;
      }
      isRateLimited := false;
      errorMessage := "";
      var updated := AddMessage(Message(User, content, None, None));
      submission := Some(Submission(userId, teamId, updated, CurrentTemplate(selectedTemplate, templates),
                                    CurrentModel(), languageModel));
      isLoading := true;
      chatInput := "";
      files := [];
      currentTab := CodeTab;
    }

    /** `retry`: clear the error state and submit the conversation as it is. */
    method Retry(userId: Option<string>, teamId: Option<string>) returns (submission: Submission)
      requires Valid()
      modifies this`isRateLimited, this`errorMessage, this`isLoading
      ensures submission == Submission(userId, teamId, messages, CurrentTemplate(selectedTemplate, templates),
                                       CurrentModel(), languageModel)
      ensures !isRateLimited && errorMessage == "" && isLoading
    {
      isRateLimited := false;
      errorMessage := "";
      submission := Submission(userId, teamId, messages, CurrentTemplate(selectedTemplate, templates),
                               CurrentModel(), languageModel);
      isLoading := true;
    }

    /** `handleUndo`: drop the last turn and the preview. */
    method HandleUndo()
      modifies this`messages, this`fragment, this`result
      ensures messages == UndoMessages(old(messages)) && fragment == None && result == None
    {
      messages := UndoMessages(messages);
      fragment := None;
      result := None;
    }

    /** `handleClearChat`: stop, and empty the conversation, the input, the
        attachments and the preview. */
    method HandleClearChat()
      modifies this`isLoading, this`chatInput, this`files, this`messages, this`fragment, this`result
      modifies this`currentTab, this`isPreviewLoading
      ensures messages == [] && fragment == None && result == None
      ensures chatInput == "" && files == [] && currentTab == CodeTab && !isPreviewLoading && !isLoading
    {
      isLoading := false;
      chatInput := "";
      files := [];
      messages := [];
      fragment := None;
      result := None;
      currentTab := CodeTab;
      isPreviewLoading := false;
    }
  }
}
