/** The database setup script (`scripts/setup-database.js`): the environment
    check, the migration file's statement splitter, the retrying executor, the
    loop over statements with its success count, and the table verification.

    The network (the `exec_sql` endpoint, the table queries), the file system
    and the clock are parameters: a reply per attempt, an answer per table,
    the file's text or read error, and the measured durations. */
module SetupDatabase {
  import opened Wrappers
  import opened Js
  import opened Schema

  // ---------------------------------------------------------------------------
  // Environment

  const UrlVar := "NEXT_PUBLIC_SUPABASE_URL"
  const ServiceRoleVar := "SUPABASE_SERVICE_ROLE_KEY"
  const AnonVar := "SUPABASE_ANON_KEY"
  const KeyVars := "SUPABASE_SERVICE_ROLE_KEY or SUPABASE_ANON_KEY"

  /** The service role key, or else whatever the anonymous key holds. */
  function ServiceKey(env: Env): (r: Option<string>)
    ensures Truthy(r) <==> EnvSet(env, ServiceRoleVar) || EnvSet(env, AnonVar)
    ensures EnvSet(env, ServiceRoleVar) ==> r == Some(env[ServiceRoleVar])
  {
    if EnvSet(env, ServiceRoleVar) then Some(env[ServiceRoleVar])
    else if AnonVar in env then Some(env[AnonVar])
    else None
  }

  /** The variables `validateEnvironment` reports, in its order; the script
      stops when there are any. */
  function MissingVariables(env: Env): (r: seq<string>)
    ensures UrlVar in r <==> !EnvSet(env, UrlVar)
    ensures KeyVars in r <==> !Truthy(ServiceKey(env))
    ensures r == [] <==> EnvSet(env, UrlVar) && Truthy(ServiceKey(env))
    ensures |r| <= 2 && (|r| == 2 ==> r == [UrlVar, KeyVars])
  {
    (if !EnvSet(env, UrlVar) then [UrlVar] else []) + (if !Truthy(ServiceKey(env)) then [KeyVars] else [])
  }

  // ---------------------------------------------------------------------------
  // Splitting at `;\s*(?=\n|$)`

  /** A separator the split removes: `;` and then whitespace. */
  predicate IsCut(t: string) {
    |t| >= 1 && t[0] == ';' && forall i :: 1 <= i < |t| ==> IsSpace(t[i])
  }

  /** `s[q..e]` is a match of the pattern: a cut followed by a line feed or
      by the end of input. */
  predicate CutsAt(s: string, q: nat, e: nat) {
    q < e <= |s| && IsCut(s[q..e]) && (e == |s| || s[e] == '\n')
  }

  /** The end of the whitespace run starting at `j`. */
  function SpaceRunEnd(s: string, j: nat): (k: nat)
    requires j <= |s|
    ensures j <= k <= |s|
    ensures forall i :: j <= i < k ==> IsSpace(s[i])
    ensures k < |s| ==> !IsSpace(s[k])
    decreases |s| - j
  {
    if j < |s| && IsSpace(s[j]) then SpaceRunEnd(s, j + 1) else j
  }

  /** The last line feed in `s[lo..hi]`. */
  function LastLineFeed(s: string, lo: nat, hi: nat): (r: Option<nat>)
    requires lo <= hi <= |s|
    ensures r.Some? ==> lo <= r.value < hi && s[r.value] == '\n'
    ensures r.Some? ==> forall i :: r.value < i < hi ==> s[i] != '\n'
    ensures r.None? ==> forall i :: lo <= i < hi ==> s[i] != '\n'
    decreases hi - lo
  {
    if lo == hi then None
    else if s[hi - 1] == '\n' then Some(hi - 1)
    else LastLineFeed(s, lo, hi - 1)
  }

  /** Where the pattern's match at `q` ends, as the regular expression engine
      finds it: `\s*` takes the whole whitespace run, and backs off to just
      before the run's last line feed unless the run reaches the end. */
  function CutEnd(s: string, q: nat): (r: Option<nat>)
    requires q < |s|
    ensures r.Some? ==> CutsAt(s, q, r.value)
  {
    if s[q] != ';' then None
    else
      var k := SpaceRunEnd(s, q + 1);
      if k == |s| then Some(k) else LastLineFeed(s, q + 1, k)
  }

  /** The engine's answer is the longest match there is, and there is none
      exactly when no match exists. */
  lemma CutEndIsLongestMatch(s: string, q: nat, e: nat)
    requires CutsAt(s, q, e)
    ensures CutEnd(s, q).Some? && e <= CutEnd(s, q).value
  {
    var k := SpaceRunEnd(s, q + 1);
    forall i | q + 1 <= i < e ensures IsSpace(s[i]) {
      assert s[i] == s[q..e][i - q];
    }
    if k < |s| {
      assert e != k;
      assert s[e] == '\n';
    }
  }

  /** A `;` followed on its own line by something other than whitespace is
      not a split point. */
  lemma SemicolonBeforeTextIsKept(s: string, q: nat, j: nat)
    requires q < j < |s| && s[q] == ';' && !IsSpace(s[j])
    requires forall i :: q < i < j ==> IsSpace(s[i]) && s[i] != '\n'
    ensures CutEnd(s, q).None?
  {
    var k := SpaceRunEnd(s, q + 1);
    assert !IsSpace(s[j]);
  }

  /** The pieces of `s[last..]` from `split`, resuming the search at `q`. */
  function ChunksFrom(s: string, last: nat, q: nat): (r: seq<string>)
    requires last <= q <= |s|
    ensures |r| >= 1
    decreases |s| - q
  {
    if q == |s| then [s[last..]]
    else match CutEnd(s, q)
      case None => ChunksFrom(s, last, q + 1)
      case Some(e) => [s[last..q]] + ChunksFrom(s, e, e)
  }

  /** The separators that split removes, in the same order. */
  function CutsFrom(s: string, last: nat, q: nat): (r: seq<string>)
    requires last <= q <= |s|
    ensures |r| + 1 == |ChunksFrom(s, last, q)|
    ensures forall k :: 0 <= k < |r| ==> IsCut(r[k])
    decreases |s| - q
  {
    if q == |s| then []
    else match CutEnd(s, q)
      case None => CutsFrom(s, last, q + 1)
      case Some(e) => [s[q..e]] + CutsFrom(s, e, e)
  }

  /** `migrationSQL.split(/;\s*(?=\n|$)/)`. */
  function Chunks(s: string): seq<string> {
    ChunksFrom(s, 0, 0)
  }

  function Cuts(s: string): seq<string> {
    CutsFrom(s, 0, 0)
  }

  /** Pieces with the separators put back between them. */
  function Interleave(chunks: seq<string>, cuts: seq<string>): string
    requires |chunks| == |cuts| + 1
    decreases |cuts|
  {
    if cuts == [] then chunks[0] else chunks[0] + cuts[0] + Interleave(chunks[1..], cuts[1..])
  }

  /** One step of the scan: no match at `q` moves on; a match ending at `e`
      closes a piece and a separator. */
  lemma ChunksFromStep(s: string, last: nat, q: nat)
    requires last <= q < |s|
    ensures CutEnd(s, q).None? ==>
      ChunksFrom(s, last, q) == ChunksFrom(s, last, q + 1) && CutsFrom(s, last, q) == CutsFrom(s, last, q + 1)
    ensures CutEnd(s, q).Some? ==> q < CutEnd(s, q).value <= |s|
    ensures CutEnd(s, q).Some? ==>
      var e := CutEnd(s, q).value;
      && ChunksFrom(s, last, q) == [s[last..q]] + ChunksFrom(s, e, e)
      && CutsFrom(s, last, q) == [s[q..e]] + CutsFrom(s, e, e)
  {
  }

  lemma SliceJoin(s: string, a: nat, b: nat, c: nat)
    requires a <= b <= c <= |s|
    ensures s[a..b] + s[b..c] == s[a..c]
  {
  }

  /** Reassembly across a match, given reassembly after it. */
  lemma ReassembleAtCut(s: string, last: nat, q: nat, e: nat)
    requires last <= q < |s| && CutEnd(s, q) == Some(e)
    requires Interleave(ChunksFrom(s, e, e), CutsFrom(s, e, e)) == s[e..]
    ensures Interleave(ChunksFrom(s, last, q), CutsFrom(s, last, q)) == s[last..]
  {
    ChunksFromStep(s, last, q);
    var cs, ts := ChunksFrom(s, last, q), CutsFrom(s, last, q);
    assert cs[0] == s[last..q] && cs[1..] == ChunksFrom(s, e, e);
    assert ts[0] == s[q..e] && ts[1..] == CutsFrom(s, e, e);
    assert Interleave(cs, ts) == s[last..q] + s[q..e] + Interleave(cs[1..], ts[1..]);
    SliceJoin(s, last, q, e);
    SliceJoin(s, last, e, |s|);
  }

  lemma {:induction false} ChunksFromReassemble(s: string, last: nat, q: nat)
    requires last <= q <= |s|
    ensures Interleave(ChunksFrom(s, last, q), CutsFrom(s, last, q)) == s[last..]
    decreases |s| - q
  {
    if q < |s| {
      ChunksFromStep(s, last, q);
      if CutEnd(s, q).None? {
        ChunksFromReassemble(s, last, q + 1);
      } else {
        var e := CutEnd(s, q).value;
        ChunksFromReassemble(s, e, e);
        ReassembleAtCut(s, last, q, e);
      }
    }
  }

  /** The first piece runs on at least up to where the search resumes. */
  lemma {:induction false} FirstChunkStart(s: string, last: nat, q: nat)
    requires last <= q <= |s|
    ensures q - last <= |ChunksFrom(s, last, q)[0]|
    ensures ChunksFrom(s, last, q)[0][..q - last] == s[last..q]
    decreases |s| - q
  {
    if q < |s| {
      match CutEnd(s, q)
      case None =>
        FirstChunkStart(s, last, q + 1);
        assert s[last..q + 1][..q - last] == s[last..q];
      case Some(e) =>
    }
  }

  /** Where a match ended, the next piece starts with the line feed, or is
      the empty and last one. */
  lemma PieceAfterCut(s: string, e: nat)
    requires e <= |s| && (e == |s| || s[e] == '\n')
    ensures e == |s| ==> ChunksFrom(s, e, e) == [""]
    ensures e < |s| ==> |ChunksFrom(s, e, e)[0]| > 0 && ChunksFrom(s, e, e)[0][0] == '\n'
  {
    if e < |s| {
      FirstChunkStart(s, e, e + 1);
      assert ChunksFrom(s, e, e) == ChunksFrom(s, e, e + 1);
      assert ChunksFrom(s, e, e)[0][..1] == s[e..e + 1];
    }
  }

  predicate StartsLine(chunks: seq<string>, k: nat)
    requires k < |chunks|
  {
    (|chunks[k]| > 0 && chunks[k][0] == '\n') || (k + 1 == |chunks| && chunks[k] == "")
  }

  /** After each separator comes a line feed, or the end of input with one
      empty last piece. */
  lemma {:induction false} ChunksFromAfterCut(s: string, last: nat, q: nat)
    requires last <= q <= |s|
    ensures forall k :: 1 <= k < |ChunksFrom(s, last, q)| ==> StartsLine(ChunksFrom(s, last, q), k)
    decreases |s| - q
  {
    if q < |s| {
      match CutEnd(s, q)
      case None => ChunksFromAfterCut(s, last, q + 1);
      case Some(e) =>
        var rest := ChunksFrom(s, e, e);
        ChunksFromAfterCut(s, e, e);
        PieceAfterCut(s, e);
        var cs := ChunksFrom(s, last, q);
        assert cs == [s[last..q]] + rest;
        forall k | 1 <= k < |cs| ensures StartsLine(cs, k) {
          assert cs[k] == rest[k - 1];
          assert k - 1 >= 1 ==> StartsLine(rest, k - 1);
        }
    }
  }

  /** Splitting loses nothing: the pieces and separators rebuild the text,
      every separator is one match of the pattern, and what follows it
      starts with a line feed or is the empty tail. */
  lemma SplitReassembles(s: string)
    ensures Interleave(Chunks(s), Cuts(s)) == s
    ensures forall k :: 0 <= k < |Cuts(s)| ==> IsCut(Cuts(s)[k])
    ensures forall k :: 1 <= k < |Chunks(s)| ==> StartsLine(Chunks(s), k)
  {
    ChunksFromReassemble(s, 0, 0);
    ChunksFromAfterCut(s, 0, 0);
  }

  /** Text with no match anywhere stays in one piece. */
  lemma {:induction false} NoCutOnePiece(s: string, last: nat, q: nat)
    requires last <= q <= |s|
    requires forall p :: q <= p < |s| ==> CutEnd(s, p).None?
    ensures ChunksFrom(s, last, q) == [s[last..]]
    decreases |s| - q
  {
    if q < |s| {
      NoCutOnePiece(s, last, q + 1);
    }
  }

  // ---------------------------------------------------------------------------
  // Cleaning the pieces

  /** `/^\s*\/\*.*\*\/\s*$/` with the comment's delimiters at `a` and `b`. */
  predicate CommentShape(t: string, a: nat, b: nat)
    requires a + 2 <= b && b + 2 <= |t|
  {
    && (forall i :: 0 <= i < a ==> IsSpace(t[i]))
    && t[a] == '/' && t[a + 1] == '*'
    && (forall i :: a + 2 <= i < b ==> !IsLineTerminator(t[i]))
    && t[b] == '*' && t[b + 1] == '/'
    && (forall i :: b + 2 <= i < |t| ==> IsSpace(t[i]))
  }

  /** The whole text is one `/* ... */` comment on a single line. */
  predicate BlockCommentLine(t: string) {
    exists a: nat, b: nat | a < |t| && b < |t| :: a + 2 <= b && b + 2 <= |t| && CommentShape(t, a, b)
  }

  /** On trimmed text the comment pattern means: at least four characters,
      starting with the opener, ending with the closer, one line. */
  lemma TrimmedBlockComment(t: string)
    requires t != [] ==> !IsSpace(t[0]) && !IsSpace(t[|t| - 1])
    ensures BlockCommentLine(t) <==>
      (|t| >= 4 && t[0] == '/' && t[1] == '*' && t[|t| - 2] == '*' && t[|t| - 1] == '/'
       && forall i :: 2 <= i < |t| - 2 ==> !IsLineTerminator(t[i]))
  {
    if BlockCommentLine(t) {
      var a: nat, b: nat :| a < |t| && b < |t| && a + 2 <= b && b + 2 <= |t| && CommentShape(t, a, b);
      assert !IsSpace(t[0]) && !IsSpace(t[|t| - 1]);
    }
    if |t| >= 4 && t[0] == '/' && t[1] == '*' && t[|t| - 2] == '*' && t[|t| - 1] == '/'
       && forall i :: 2 <= i < |t| - 2 ==> !IsLineTerminator(t[i])
    {
      assert CommentShape(t, 0, |t| - 2);
    }
  }

  predicate AllSpace(t: string) {
    forall i :: 0 <= i < |t| ==> IsSpace(t[i])
  }

  /** The filter: non-empty, not a line comment, not blank, not one block
      comment line. */
  predicate Keeps(t: string) {
    |t| > 0 && !StartsWith(t, "--") && !AllSpace(t) && !BlockCommentLine(t)
  }

  /** A `;` is added only when missing. */
  function Terminate(t: string): (r: string)
    ensures EndsWith(r, ";")
    ensures EndsWith(t, ";") ==> r == t
    ensures !EndsWith(t, ";") ==> r == t + ";"
  {
    if EndsWith(t, ";") then t else t + ";"
  }

  /** Adding the `;` does not make a line comment. */
  lemma TerminateKeepsHead(t: string)
    ensures |t| > 0 && !StartsWith(t, "--") ==> !StartsWith(Terminate(t), "--")
  {
    if |t| > 0 && !StartsWith(t, "--") && !EndsWith(t, ";") {
      assert |t| == 1 ==> Terminate(t)[1] == ';';
      assert |t| >= 2 ==> Terminate(t)[..2] == t[..2];
    }
  }

  /** A statement as the parser hands it on: non-empty, ending in `;`, and
      not starting with `--`. */
  predicate IsStatement(t: string) {
    |t| > 0 && t[|t| - 1] == ';' && !(|t| >= 2 && t[0] == '-' && t[1] == '-')
  }

  /** `IsStatement` in terms of `endsWith` and `startsWith`. */
  lemma StatementShape(t: string)
    ensures IsStatement(t) <==> |t| > 0 && EndsWith(t, ";") && !StartsWith(t, "--")
  {
    if |t| > 0 && t[|t| - 1] == ';' {
      assert t[|t| - 1..] == ";";
    }
    if |t| > 0 && EndsWith(t, ";") {
      assert t[|t| - 1] == t[|t| - 1..][0];
    }
    if |t| >= 2 && t[0] == '-' && t[1] == '-' {
      assert t[..2] == "--";
    }
    if StartsWith(t, "--") {
      assert t[0] == t[..2][0] && t[1] == t[..2][1];
    }
  }

  /** What one piece becomes: its trimmed text, terminated, when the filter
      keeps it, and nothing otherwise. */
  function CleanOne(c: string): (r: seq<string>)
    ensures |r| <= 1
    ensures forall k :: 0 <= k < |r| ==> IsStatement(r[k])
  {
    var t := Trim(c);
    TerminateKeepsHead(t);
    StatementShape(Terminate(t));
    if Keeps(t) then [Terminate(t)] else []
  }

  /** The map-filter-map over the pieces, in order; it never yields more
      statements than pieces. */
  function Cleaned(chunks: seq<string>): (r: seq<string>)
    ensures |r| <= |chunks|
    decreases |chunks|
  {
    if chunks == [] then [] else CleanOne(chunks[0]) + Cleaned(chunks[1..])
  }

  /** Statements joined are statements. */
  lemma AllStatementsAppend(a: seq<string>, b: seq<string>)
    requires forall k :: 0 <= k < |a| ==> IsStatement(a[k])
    requires forall k :: 0 <= k < |b| ==> IsStatement(b[k])
    ensures forall k :: 0 <= k < |a + b| ==> IsStatement((a + b)[k])
  {
  }

  /** Every cleaned statement is non-empty, ends in `;` and is not a line
      comment. */
  lemma {:induction false} CleanedAreStatements(chunks: seq<string>)
    ensures forall k :: 0 <= k < |Cleaned(chunks)| ==> IsStatement(Cleaned(chunks)[k])
    decreases |chunks|
  {
    if chunks != [] {
      CleanedAreStatements(chunks[1..]);
      AllStatementsAppend(CleanOne(chunks[0]), Cleaned(chunks[1..]));
    }
  }

  /** Cleaning works piece by piece, so statements keep file order. */
  lemma {:induction false} CleanedAppend(a: seq<string>, b: seq<string>)
    ensures Cleaned(a + b) == Cleaned(a) + Cleaned(b)
    decreases |a|
  {
    if a == [] {
      assert a + b == b;
    } else {
      assert (a + b)[0] == a[0] && (a + b)[1..] == a[1..] + b;
      CleanedAppend(a[1..], b);
    }
  }

  /** One piece gives its trimmed, terminated text when kept, else nothing. */
  lemma CleanedSingle(c: string)
    ensures Cleaned([c]) == if Keeps(Trim(c)) then [Terminate(Trim(c))] else []
  {
    assert [c][1..] == [];
  }

  /** A piece whose first line is a comment is dropped even when SQL follows. */
  lemma CommentHeadedChunkDropped()
    ensures Cleaned(["-- c\nselect 1"]) == []
  {
    var c: string := "-- c\nselect 1";
    assert !IsSpace(c[0]) && !IsSpace(c[|c| - 1]);
    assert Trim(c) == c;
    assert c[0] == '-' && c[1] == '-';
    assert c[..2] == "--";
    assert |CleanOne(c)| == 0;
    assert [c][1..] == [];
  }

  /** `parseMigrationFile`'s statements. */
  function ParseStatements(sql: string): (r: seq<string>)
    ensures |r| <= |Chunks(sql)|
    ensures forall k :: 0 <= k < |r| ==> IsStatement(r[k])
  {
    CleanedAreStatements(Chunks(sql));
    Cleaned(Chunks(sql))
  }

  // ---------------------------------------------------------------------------
  // Executing one statement

  const MaxRetries := 3

  /** One attempt's outcome: an ok reply with its JSON body and measured
      duration, a reply that is not ok, or a thrown error (the request or the
      body's parsing). */
  datatype AttemptOutcome =
    | Completed(result: JsonValue, duration: nat)
    | NotOk(status: int, statusText: string)
    | Threw(message: string)

  /** `{success, fallback, result, duration, error}`. */
  datatype ExecResult = Executed(result: JsonValue, duration: nat) | Fallback | ExecFailed(error: string)

  /** `result.success`: true for executed statements and fallbacks. */
  predicate Succeeded(r: ExecResult) {
    !r.ExecFailed?
  }

  /** The result and the number of the last attempt made. */
  datatype Execution = Execution(result: ExecResult, attempts: nat)

  predicate CreatesTable(sql: string) {
    Includes(Lower(sql), "create table")
  }

  /** The error an attempt raises into the retry path, if any: a non-ok reply
      is reported by status, except for table creation, where it is taken
      as done. */
  function AttemptError(sql: string, o: AttemptOutcome): (r: Option<string>)
    ensures r.None? <==> o.Completed? || (o.NotOk? && CreatesTable(sql))
    ensures o.Threw? ==> r == Some(o.message)
    ensures o.NotOk? && !CreatesTable(sql) ==> r == Some("HTTP " + IntToString(o.status) + ": " + o.statusText)
  {
    match o
    case Completed(_, _) => None
    case NotOk(status, statusText) =>
      if CreatesTable(sql) then None else Some("HTTP " + IntToString(status) + ": " + statusText)
    case Threw(message) => Some(message)
  }

  /** `executeWithRetry(sql, description, attempt)`, with `reply(n)` the
      outcome of attempt `n`. Every attempt before the last raised an error;
      the last one decides; a failure is reported only after the final
      attempt. */
  function ExecuteWithRetry(sql: string, reply: nat -> AttemptOutcome, attempt: nat): (r: Execution)
    requires attempt >= 1
    ensures attempt <= r.attempts <= Max(attempt, MaxRetries)
    ensures forall a :: attempt <= a < r.attempts ==> AttemptError(sql, reply(a)).Some?
    ensures r.result.Executed? ==> reply(r.attempts) == Completed(r.result.result, r.result.duration)
    ensures r.result.Fallback? ==> reply(r.attempts).NotOk? && CreatesTable(sql)
    ensures r.result.ExecFailed? <==> AttemptError(sql, reply(r.attempts)).Some?
    ensures r.result.ExecFailed? ==>
      r.attempts == Max(attempt, MaxRetries) && AttemptError(sql, reply(r.attempts)) == Some(r.result.error)
    decreases MaxRetries - attempt
  {
    var o := reply(attempt);
    match AttemptError(sql, o)
    case None =>
      if o.Completed? then Execution(Executed(o.result, o.duration), attempt) else Execution(Fallback, attempt)
    case Some(error) =>
      if attempt < MaxRetries then ExecuteWithRetry(sql, reply, attempt + 1)
      else Execution(ExecFailed(error), attempt)
  }

  /** Only the outcomes of attempts up to the third are ever consulted. */
  lemma {:induction false} RetryReadsAtMostMaxRetries(sql: string, r1: nat -> AttemptOutcome, r2: nat -> AttemptOutcome, attempt: nat)
    requires attempt >= 1
    requires forall a :: attempt <= a <= MaxRetries ==> r1(a) == r2(a)
    ensures ExecuteWithRetry(sql, r1, attempt) == ExecuteWithRetry(sql, r2, attempt) || attempt > MaxRetries
    decreases MaxRetries - attempt
  {
    if attempt < MaxRetries {
      RetryReadsAtMostMaxRetries(sql, r1, r2, attempt + 1);
    }
  }

  /** A table creation that is refused is taken as done at once. */
  lemma TableCreationFallsBackAtOnce(sql: string, reply: nat -> AttemptOutcome, attempt: nat)
    requires attempt >= 1 && CreatesTable(sql) && reply(attempt).NotOk?
    ensures ExecuteWithRetry(sql, reply, attempt) == Execution(Fallback, attempt)
  {
  }

  /** From the first attempt: at most three attempts, and a failure uses all three. */
  lemma AttemptsFromFirst(sql: string, reply: nat -> AttemptOutcome)
    ensures 1 <= ExecuteWithRetry(sql, reply, 1).attempts <= MaxRetries
    ensures ExecuteWithRetry(sql, reply, 1).result.ExecFailed? ==>
      ExecuteWithRetry(sql, reply, 1).attempts == MaxRetries
      && forall a :: 1 <= a <= MaxRetries ==> AttemptError(sql, reply(a)).Some?
  {
  }

  // ---------------------------------------------------------------------------
  // The statement loop

  /** The outcomes of the attempts at statement `i`. */
  function StatementReplies(replies: (nat, nat) -> AttemptOutcome, i: nat): nat -> AttemptOutcome {
    (a: nat) => replies(i, a)
  }

  /** `results.filter(r => r.success).length`. */
  function CountSucceeded(results: seq<ExecResult>): (n: nat)
    ensures n <= |results|
    ensures n == |results| <==> forall i :: 0 <= i < |results| ==> Succeeded(results[i])
    decreases |results|
  {
    if results == [] then 0
    else (if Succeeded(results[|results| - 1]) then 1 else 0) + CountSucceeded(results[..|results| - 1])
  }

  lemma {:induction false} CountSucceededAppend(a: seq<ExecResult>, b: seq<ExecResult>)
    ensures CountSucceeded(a + b) == CountSucceeded(a) + CountSucceeded(b)
    decreases |b|
  {
    if b != [] {
      assert (a + b)[..|a + b| - 1] == a + b[..|b| - 1];
      assert (a + b)[|a + b| - 1] == b[|b| - 1];
      CountSucceededAppend(a, b[..|b| - 1]);
    } else {
      assert a + b == a;
    }
  }

  /** The loop of `setup`: one result per statement, in order, whatever the
      earlier ones gave. */
  method ExecuteAll(statements: seq<string>, replies: (nat, nat) -> AttemptOutcome) returns (results: seq<ExecResult>)
    ensures |results| == |statements|
    ensures forall i :: 0 <= i < |statements| ==>
      results[i] == ExecuteWithRetry(statements[i], StatementReplies(replies, i), 1).result
  {
    results := [];
    for i := 0 to |statements|
      invariant |results| == i
      invariant forall j :: 0 <= j < i ==> results[j] == ExecuteWithRetry(statements[j], StatementReplies(replies, j), 1).result
    {
      var execution := ExecuteWithRetry(statements[i], StatementReplies(replies, i), 1);
      results := results + [execution.result];
    }
  }

  // ---------------------------------------------------------------------------
  // Verifying the tables

  const ExpectedTables: seq<string> := ["builds", "build_files", "payments", "users_teams", "teams"]

  /** A table query: an answer with or without an error, or a thrown error. */
  datatype TableQuery = Answered(error: Option<string>) | QueryThrew(message: string)

  /** `{table, status, error}`. */
  datatype TableCheck = TableCheck(table: string, status: string, error: Option<string>)

  /** A table is `missing` only for an error saying it does not exist,
      `error` when the query threw, and `success` otherwise. */
  function CheckTable(name: string, q: TableQuery): (r: TableCheck)
    ensures r.table == name
    ensures r.status == "missing" <==> q.Answered? && q.error.Some? && Includes(q.error.value, "does not exist")
    ensures r.status == "error" <==> q.QueryThrew?
    ensures r.status == "success" <==> q.Answered? && (q.error.None? || !Includes(q.error.value, "does not exist"))
    ensures r.status == "success" <==> r.error.None?
    ensures r.status == "missing" ==> r.error == q.error
    ensures r.status == "error" ==> r.error == Some(q.message)
  {
    match q
    case Answered(error) =>
      if error.Some? && Includes(error.value, "does not exist") then TableCheck(name, "missing", error)
      else TableCheck(name, "success", None)
    case QueryThrew(message) => TableCheck(name, "error", Some(message))
  }

  /** `verifyTables`: one check per expected table, in order. */
  method VerifyTables(query: string -> TableQuery) returns (results: seq<TableCheck>)
    ensures |results| == |ExpectedTables|
    ensures forall i :: 0 <= i < |results| ==> results[i] == CheckTable(ExpectedTables[i], query(ExpectedTables[i]))
  {
    results := [];
    for i := 0 to |ExpectedTables|
      invariant |results| == i
      invariant forall j :: 0 <= j < i ==> results[j] == CheckTable(ExpectedTables[j], query(ExpectedTables[j]))
    {
      var name := ExpectedTables[i];
      results := results + [CheckTable(name, query(name))];
    }
  }

  // ---------------------------------------------------------------------------
  // The whole setup

  datatype MigrationFile = FileRead(text: string) | ReadFailed(message: string)

  datatype SetupOutcome =
    | SetupFailed(message: string)
    | SetupCompleted(results: seq<ExecResult>, successful: nat, verification: seq<TableCheck>)

  /** `setup`: stop when the connection test failed or the migration file
      could not be read; otherwise run every statement, continuing past
      failures, check the tables and count the successes. */
  method Setup(connectionOk: bool, migration: MigrationFile, replies: (nat, nat) -> AttemptOutcome,
               query: string -> TableQuery)
    returns (outcome: SetupOutcome)
    ensures !connectionOk ==> outcome == SetupFailed("Database connection failed")
    ensures connectionOk && migration.ReadFailed? ==>
      outcome == SetupFailed("Failed to read migration file: " + migration.message)
    ensures connectionOk && migration.FileRead? ==>
      && outcome.SetupCompleted?
      && |outcome.results| == |ParseStatements(migration.text)|
      && (forall i :: 0 <= i < |outcome.results| ==>
            outcome.results[i] == ExecuteWithRetry(ParseStatements(migration.text)[i], StatementReplies(replies, i), 1).result)
      && outcome.successful == CountSucceeded(outcome.results)
      && |outcome.verification| == |ExpectedTables|
      && (forall i :: 0 <= i < |ExpectedTables| ==>
            outcome.verification[i] == CheckTable(ExpectedTables[i], query(ExpectedTables[i])))
  {
    if !connectionOk {
      return SetupFailed("Database connection failed");
    }
    if migration.ReadFailed? {
      return SetupFailed("Failed to read migration file: " + migration.message);
    }
    var statements := ParseStatements(migration.text);
    var results := ExecuteAll(statements, replies);
    var verification := VerifyTables(query);
    outcome := SetupCompleted(results, CountSucceeded(results), verification);
  }
}
