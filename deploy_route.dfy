/** The deployment endpoint (`POST /api/deploy`): validate the body, check the
    deploy hook is configured, build an archive of the fragment's files (with
    a `package.json` for Next.js fragments), post it to the hook, and map the
    hook's reply to a response.

    The hook is a parameter: a function from the request the endpoint sends to
    the reply it gets. `Post` reports the requests it made. */
module DeployRoute {
  import opened Wrappers
  import opened Js
  import opened Schema
  import opened Zip
  import Preview

  const HookUrlVar := "VERCEL_DEPLOY_HOOK_URL"
  const TokenVar := "VERCEL_DEPLOY_TOKEN"
  const NextjsTemplate := "nextjs-developer"

  // ---------------------------------------------------------------------------
  // JSON string quoting, as `JSON.stringify` writes a string

  function HexDigit(d: nat): char
    requires d < 16
  {
    if d < 10 then ('0' as int + d) as char else ('a' as int + d - 10) as char
  }

  function HexValue(c: char): Option<nat> {
    if '0' <= c <= '9' then Some(c as int - '0' as int)
    else if 'a' <= c <= 'f' then Some(c as int - 'a' as int + 10)
    else if 'A' <= c <= 'F' then Some(c as int - 'A' as int + 10)
    else None
  }

  lemma HexRoundTrip(d: nat)
    requires d < 16
    ensures HexValue(HexDigit(d)) == Some(d)
  {
  }

  /** One character inside a JSON string: quote and backslash escaped, the
      short escapes for backspace, tab, line feed, form feed and carriage
      return, `\u00XX` (lower-case hex) for the other control characters. */
  function QuoteChar(c: char): string {
    if c == '"' then ['\\', '"']
    else if c == '\\' then ['\\', '\\']
    else if c == '\U{8}' then ['\\', 'b']
    else if c == '\t' then ['\\', 't']
    else if c == '\n' then ['\\', 'n']
    else if c == '\U{C}' then ['\\', 'f']
    else if c == '\r' then ['\\', 'r']
    else if (c as int) < 0x20 then ['\\', 'u', '0', '0', HexDigit(c as int / 16), HexDigit(c as int % 16)]
    else [c]
  }

  function Escape(s: string): string
    decreases |s|
  {
    if s == [] then [] else QuoteChar(s[0]) + Escape(s[1..])
  }

  /** The character a two-character escape stands for. */
  function ShortEscape(c: char): Option<char> {
    if c == '"' then Some('"')
    else if c == '\\' then Some('\\')
    else if c == '/' then Some('/')
    else if c == 'b' then Some('\U{8}')
    else if c == 't' then Some('\t')
    else if c == 'n' then Some('\n')
    else if c == 'f' then Some('\U{C}')
    else if c == 'r' then Some('\r')
    else None
  }

  /** The value of four hex digits that name a code point (not a surrogate). */
  function Hex4(s: string): Option<char>
    requires |s| == 4
  {
    var h := [HexValue(s[0]), HexValue(s[1]), HexValue(s[2]), HexValue(s[3])];
    if h[0].None? || h[1].None? || h[2].None? || h[3].None? then None
    else
      var v := h[0].value * 4096 + h[1].value * 256 + h[2].value * 16 + h[3].value;
      if v < 0xD800 || 0xE000 <= v then Some(v as char) else None
  }

  function Prepend(c: char, rest: Option<string>): Option<string> {
    if rest.Some? then Some([c] + rest.value) else None
  }

  /** Decodes the inside of a JSON string; `None` when it is not well formed. */
  function Unescape(s: string): Option<string>
    decreases |s|
  {
    if s == [] then Some([])
    else if s[0] == '\\' then
      if |s| >= 2 && ShortEscape(s[1]).Some? then Prepend(ShortEscape(s[1]).value, Unescape(s[2..]))
      else if |s| >= 6 && s[1] == 'u' && Hex4(s[2..6]).Some? then Prepend(Hex4(s[2..6]).value, Unescape(s[6..]))
      else None
    else if s[0] == '"' || (s[0] as int) < 0x20 then None
    else Prepend(s[0], Unescape(s[1..]))
  }

  /** Four hex digits `00XY` name the control character `0xXY`. */
  lemma Hex4Control(n: nat)
    requires n < 0x20
    ensures Hex4(['0', '0', HexDigit(n / 16), HexDigit(n % 16)]) == Some(n as char)
  {
    HexRoundTrip(n / 16);
    HexRoundTrip(n % 16);
  }

  /** A two-character escape decodes to the character it stands for. */
  lemma UnescapeShort(e: char, c: char, rest: string)
    requires ShortEscape(e) == Some(c)
    ensures Unescape(['\\', e] + rest) == Prepend(c, Unescape(rest))
  {
    var s := ['\\', e] + rest;
    assert s[0] == '\\' && s[1] == e && s[2..] == rest;
  }

  /** A `\u00XY` escape decodes to the control character it names. */
  lemma UnescapeControl(c: char, rest: string)
    requires (c as int) < 0x20
    ensures Unescape(['\\', 'u', '0', '0', HexDigit(c as int / 16), HexDigit(c as int % 16)] + rest)
      == Prepend(c, Unescape(rest))
  {
    var n := c as int;
    var s := ['\\', 'u', '0', '0', HexDigit(n / 16), HexDigit(n % 16)] + rest;
    Hex4Control(n);
    assert s[0] == '\\' && s[1] == 'u';
    assert s[2..6] == ['0', '0', HexDigit(n / 16), HexDigit(n % 16)];
    assert s[6..] == rest;
  }

  /** A character written as itself decodes to itself. */
  lemma UnescapePlain(c: char, rest: string)
    requires c != '\\' && c != '"' && (c as int) >= 0x20
    ensures Unescape([c] + rest) == Prepend(c, Unescape(rest))
  {
    var s := [c] + rest;
    assert s[0] == c && s[1..] == rest;
  }

  lemma UnescapeQuoteChar(c: char, rest: string)
    ensures Unescape(QuoteChar(c) + rest) == Prepend(c, Unescape(rest))
  {
    if c == '"' {
      UnescapeShort('"', c, rest);
    } else if c == '\\' {
      UnescapeShort('\\', c, rest);
    } else if c == '\U{8}' {
      UnescapeShort('b', c, rest);
    } else if c == '\t' {
      UnescapeShort('t', c, rest);
    } else if c == '\n' {
      UnescapeShort('n', c, rest);
    } else if c == '\U{C}' {
      UnescapeShort('f', c, rest);
    } else if c == '\r' {
      UnescapeShort('r', c, rest);
    } else if (c as int) < 0x20 {
      UnescapeControl(c, rest);
    } else {
      UnescapePlain(c, rest);
    }
  }

  /** Quoting is undone by decoding, so the written text determines the string. */
  lemma {:induction false} UnescapeEscape(s: string)
    ensures Unescape(Escape(s)) == Some(s)
    decreases |s|
  {
    if s != [] {
      UnescapeEscape(s[1..]);
      UnescapeQuoteChar(s[0], Escape(s[1..]));
      assert [s[0]] + s[1..] == s;
    }
  }

  // ---------------------------------------------------------------------------
  // package.json

  const ManifestHead := "{\n  \"name\": \""

  const ManifestTail :=
    "\",\n  \"version\": \"1.0.0\",\n  \"private\": true,\n"
    + "  \"scripts\": {\n    \"dev\": \"next dev\",\n    \"build\": \"next build\",\n"
    + "    \"start\": \"next start\",\n    \"lint\": \"next lint\"\n  },\n"
    + "  \"dependencies\": {\n    \"next\": \"^14.2.30\",\n    \"react\": \"^18\",\n"
    + "    \"react-dom\": \"^18\",\n    \"typescript\": \"^5.5.4\",\n"
    + "    \"@types/node\": \"^22.2.0\",\n    \"@types/react\": \"^18\",\n"
    + "    \"@types/react-dom\": \"^18\",\n    \"tailwindcss\": \"^3.4.1\",\n"
    + "    \"postcss\": \"^8\"\n  }\n}"

  /** `JSON.stringify(packageJson, null, 2)` for the given project name. */
  function ManifestText(name: string): string {
    ManifestHead + Escape(name) + ManifestTail
  }

  /** Different names give different manifests. */
  lemma ManifestTextInjective(a: string, b: string)
    requires ManifestText(a) == ManifestText(b)
    ensures a == b
  {
    var ta, tb := ManifestText(a), ManifestText(b);
    var h := |ManifestHead|;
    assert |Escape(a)| == |Escape(b)|;
    assert ta[h..h + |Escape(a)|] == Escape(a);
    assert tb[h..h + |Escape(b)|] == Escape(b);
    UnescapeEscape(a);
    UnescapeEscape(b);
  }

  /** The project name is the fragment's title, or `fragment-app`. */
  function ManifestEntry(f: Fragment): FileEntry {
    FileEntry("package.json", ManifestText(OrElse(f.title, "fragment-app")))
  }

  // ---------------------------------------------------------------------------
  // The archive

  /** The name the route gives a single code without a path. */
  const SingleCodeName := "index.js"

  /** Every write, in order: the code, then `package.json` for Next.js. */
  function DeployWrites(f: Fragment): (r: seq<FileEntry>)
    ensures f.template == Some(NextjsTemplate) ==> r == FragmentWrites(f, SingleCodeName) + [ManifestEntry(f)]
    ensures f.template != Some(NextjsTemplate) ==> r == FragmentWrites(f, SingleCodeName)
  {
    FragmentWrites(f, SingleCodeName) + if f.template == Some(NextjsTemplate) then [ManifestEntry(f)] else []
  }

  /** For Next.js the archive's `package.json` is the generated manifest,
      whatever the code list held under that name. */
  lemma ManifestWins(f: Fragment)
    requires f.template == Some(NextjsTemplate)
    ensures Lookup(StoredAll([], DeployWrites(f)), "package.json") == Some(ManifestEntry(f).content)
  {
    var w := DeployWrites(f);
    assert w[|w| - 1] == ManifestEntry(f);
    StoredAllLastWriteWins([], w, |w| - 1);
  }

  // ---------------------------------------------------------------------------
  // The request to the hook and the response

  datatype HookRequest = HookRequest(
    url: string,
    authorization: Option<string>,
    name: string,
    archiveKey: string,
    archive: seq<FileEntry>)

  datatype ReplyBody = ReplyUnparsable(message: string) | ReplyJson(url: Option<string>)

  /** The deploy hook's answer: a thrown error, or a response. */
  datatype HookReply = HookThrew(message: Option<string>) | HookReplied(ok: bool, statusText: string, body: ReplyBody)

  /** The request body: unreadable JSON, or the two fields the route reads. */
  datatype DeployBody = Unparsable(message: string) | Body(fragment: Option<Fragment>, sbxId: Option<string>)

  datatype DeployResponse =
    | ErrorResponse(status: int, error: string)
    | FailedResponse(status: int, error: string, message: Option<string>)
    | DeployedResponse(status: int, success: bool, deployUrl: string, notice: string)

  const DeploymentFailed := FailedResponse(500, "Deployment failed", None)

  /** `Authorization` is sent only with a token. */
  function Authorization(env: Env): (r: Option<string>)
    ensures r.Some? <==> EnvSet(env, TokenVar)
    ensures r.Some? ==> r.value == "Bearer " + env[TokenVar]
  {
    if EnvSet(env, TokenVar) then Some("Bearer " + env[TokenVar]) else None
  }

  /** The hook's reply as the route's answer: a failed or thrown call is a
      500 carrying the error's message; a success carries the deployment URL
      or `Deployment initiated`. */
  function ReplyResponse(reply: HookReply): (r: DeployResponse)
    ensures r.DeployedResponse? <==> reply.HookReplied? && reply.ok && reply.body.ReplyJson?
    ensures !r.DeployedResponse? ==> r.FailedResponse? && r.status == 500 && r.error == "Deployment failed"
    ensures reply.HookReplied? && !reply.ok ==> r.message == Some("Deploy hook failed: " + reply.statusText)
    ensures r.DeployedResponse? ==> r.status == 200 && r.success && r.deployUrl == OrElse(reply.body.url, "Deployment initiated")
  {
    match reply
    case HookThrew(m) => DeploymentFailed.(message := m)
    case HookReplied(ok, statusText, body) =>
      if !ok then DeploymentFailed.(message := Some("Deploy hook failed: " + statusText))
      else match body
        case ReplyUnparsable(m) => DeploymentFailed.(message := Some(m))
        case ReplyJson(url) =>
          DeployedResponse(200, true, OrElse(url, "Deployment initiated"), "Successfully triggered Vercel deployment")
  }

  /** The code's part of the archive. */
  method WriteCode(zip: ZipArchive, f: Fragment)
    modifies zip
    ensures zip.entries == StoredAll(old(zip.entries), FragmentWrites(f, SingleCodeName))
  {
    var writes := FragmentWrites(f, SingleCodeName);
    var code := f.code;
    if code.CodeList? {
      for k := 0 to |code.files|
        invariant StoredAll(zip.entries, writes[k..]) == StoredAll(old(zip.entries), writes)
      {
        var entry := ArchiveEntry(code.files[k]);
        assert writes[k..][0] == entry && writes[k..][1..] == writes[k + 1..];
        zip.File(entry.name, entry.content);
      }
      assert writes[|code.files|..] == [];
    } else {
      var entry := FileEntry(OrElse(f.filePath, SingleCodeName), CodeTextOrEmpty(code));
      assert writes[1..] == [];
      zip.File(entry.name, entry.content);
    }
  }

  /** The archive the route posts: the code's files, then the manifest. */
  method BuildArchive(f: Fragment) returns (entries: seq<FileEntry>)
    ensures entries == StoredAll([], DeployWrites(f))
  {
    var zip := new ZipArchive();
    WriteCode(zip, f);
    if f.template == Some(NextjsTemplate) {
      var manifest := ManifestEntry(f);
      zip.File(manifest.name, manifest.content);
      StoredAllAppend([], FragmentWrites(f, SingleCodeName), [manifest]);
      assert [manifest][1..] == [];
    } else {
      assert FragmentWrites(f, SingleCodeName) + [] == FragmentWrites(f, SingleCodeName);
    }
    entries := zip.entries;
  }

  /** `POST`: a missing fragment or sandbox id is a 400 before anything else
      is looked at; a missing hook is a 500; otherwise the archive is built
      and posted once, and the reply decides the answer. */
  method Post(body: DeployBody, env: Env, hook: HookRequest -> HookReply)
    returns (response: DeployResponse, calls: seq<HookRequest>)
    ensures body.Unparsable? ==> response == DeploymentFailed.(message := Some(body.message)) && calls == []
    ensures body.Body? && (body.fragment.None? || !Truthy(body.sbxId)) ==>
      response == ErrorResponse(400, "Missing fragment or sbxId") && calls == []
    ensures body.Body? && body.fragment.Some? && Truthy(body.sbxId) && !EnvSet(env, HookUrlVar) ==>
      response == ErrorResponse(500, "Vercel Deploy Hook not configured") && calls == []
    ensures body.Body? && body.fragment.Some? && Truthy(body.sbxId) && EnvSet(env, HookUrlVar) ==>
      var f := body.fragment.value;
      && calls == [HookRequest(env[HookUrlVar], Authorization(env), OrElse(f.title, "fragment-deployment"),
                               Preview.ZipFilename(f.title), StoredAll([], DeployWrites(f)))]
      && response == ReplyResponse(hook(calls[0]))
  {
    calls := [];
    if body.Unparsable? {
      return DeploymentFailed.(message := Some(body.message)), calls;
    }
    if body.fragment.None? || !Truthy(body.sbxId) {
      return ErrorResponse(400, "Missing fragment or sbxId"), calls;
    }
    if !EnvSet(env, HookUrlVar) {
      return ErrorResponse(500, "Vercel Deploy Hook not configured"), calls;
    }
    var f := body.fragment.value;
    var archive := BuildArchive(f);
    var request := HookRequest(env[HookUrlVar], Authorization(env), OrElse(f.title, "fragment-deployment"),
                               Preview.ZipFilename(f.title), archive);
    calls := [request];
    response := ReplyResponse(hook(request));
  }
}
