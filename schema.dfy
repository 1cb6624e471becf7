/** The values the application passes between its parts: the generated
    fragment (possibly still partial while it streams in), the sandbox result,
    the model catalogue entries and the JSON values found in configuration
    objects and error payloads. */
module Schema {
  import opened Wrappers
  import opened Js

  /** A JSON value as the code inspects it; arrays and objects are opaque. */
  datatype JsonValue = JNull | JBool(b: bool) | JNum(n: int) | JStr(s: string) | JOther

  predicate JsonTruthy(v: JsonValue) {
    match v
    case JNull => false
    case JBool(b) => b
    case JNum(n) => n != 0
    case JStr(s) => s != ""
    case JOther => true
  }

  /** The value under `key` when it is a non-empty string
      (`obj?.key && typeof obj.key === 'string'`). */
  function StringField(obj: map<string, JsonValue>, key: string): (r: Option<string>)
    ensures r.Some? <==> key in obj && obj[key].JStr? && obj[key].s != ""
    ensures r.Some? ==> r.value == obj[key].s
  {
    if key in obj && obj[key].JStr? && obj[key].s != "" then Some(obj[key].s) else None
  }

  /** One element of a fragment's file list; either field may still be missing. */
  datatype CodeFile = CodeFile(filePath: Option<string>, fileContent: Option<string>)

  /** `fragment.code`: a list of files (whose elements may be null), a single
      string, or not there yet. */
  datatype Code = CodeList(files: seq<Option<CodeFile>>) | CodeText(text: string) | NoCode

  /** `fragment.code` is truthy: any array, or a non-empty string. */
  predicate CodeTruthy(c: Code) {
    c.CodeList? || (c.CodeText? && c.text != "")
  }

  /** The generated fragment; every field may be absent while it streams in. */
  datatype Fragment = Fragment(
    template: Option<string>,
    title: Option<string>,
    description: Option<string>,
    commentary: Option<string>,
    filePath: Option<string>,
    code: Code)

  /** What the sandbox service returns for a fragment. */
  datatype SandboxResult = SandboxResult(sbxId: Option<string>, url: Option<string>, template: Option<string>)

  /** The template whose results have no shareable link. */
  const CodeInterpreterTemplate := "code-interpreter-v1"

  /** A file as the code viewer and the archive see it. */
  datatype FileEntry = FileEntry(name: string, content: string)

  /** A template of the catalogue; its prompt text is not modelled. */
  datatype Template = Template(name: string)

  type Templates = map<string, Template>

  /** An entry of the model catalogue. */
  datatype LLMModel = LLMModel(id: string, providerId: Option<string>, provider: Option<string>)

  /** The user's model configuration object (`model`, `apiKey`, `temperature`, ...). */
  type ModelConfig = map<string, JsonValue>

  /** An element of a code list as the archive writes it: its path or
      `file.txt`, its content or `''` (a missing element gives both defaults). */
  function ArchiveEntry(e: Option<CodeFile>): (r: FileEntry)
    ensures r.name != ""
    ensures e.Some? && Truthy(e.value.filePath) ==> r.name == e.value.filePath.value
    ensures e.Some? && Truthy(e.value.fileContent) ==> r.content == e.value.fileContent.value
  {
    if e.None? then FileEntry("file.txt", "")
    else FileEntry(OrElse(e.value.filePath, "file.txt"), OrElse(e.value.fileContent, ""))
  }

  /** `(fragment.code as string) || ''` for a code that is not a list. */
  function CodeTextOrEmpty(c: Code): string {
    if c.CodeText? then c.text else ""
  }

  /** The files a fragment's code is written as, in order: one per list
      element with the archive defaults and no filtering, or the single code
      under the fragment's path, `singleName` when it has none. */
  function FragmentWrites(f: Fragment, singleName: string): (r: seq<FileEntry>)
    ensures f.code.CodeList? ==> (|r| == |f.code.files| &&
      forall k :: 0 <= k < |r| ==> r[k] == ArchiveEntry(f.code.files[k]))
    ensures !f.code.CodeList? ==>
      r == [FileEntry(OrElse(f.filePath, singleName), CodeTextOrEmpty(f.code))]
  {
    if f.code.CodeList? then
      seq(|f.code.files|, k requires 0 <= k < |f.code.files| => ArchiveEntry(f.code.files[k]))
    else
      [FileEntry(OrElse(f.filePath, singleName), CodeTextOrEmpty(f.code))]
  }

  /** The server's environment variables. */
  type Env = map<string, string>

  /** An environment variable is set to a non-empty value. */
  predicate EnvSet(env: Env, name: string) {
    name in env && env[name] != ""
  }

  /** A chat message as the generation endpoint receives it. */
  datatype CoreMessage = CoreMessage(role: string, content: string)
}
