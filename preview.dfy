/** The preview panel (`components/preview.tsx`): which files the code tab
    shows, what the export archive holds and is called, whether the deploy
    link is offered, and which parts of the panel are rendered. */
module Preview {
  import opened Wrappers
  import opened Js
  import opened Schema
  import opened Zip

  // ---------------------------------------------------------------------------
  // The code tab's files

  /** An element of a code list is shown when it has a non-empty path. */
  predicate Shown(e: Option<CodeFile>) {
    e.Some? && Truthy(e.value.filePath)
  }

  /** A shown element as the code viewer receives it. */
  function ShownEntry(e: Option<CodeFile>): FileEntry
    requires Shown(e)
  {
    FileEntry(e.value.filePath.value, OrElse(e.value.fileContent, ""))
  }

  /** `code.filter((f) => !!f?.file_path).map(...)`. */
  function ShownFiles(files: seq<Option<CodeFile>>): (r: seq<FileEntry>)
    ensures |r| <= |files|
    ensures forall k :: 0 <= k < |r| ==> r[k].name != ""
    decreases |files|
  {
    if files == [] then []
    else (if Shown(files[0]) then [ShownEntry(files[0])] else []) + ShownFiles(files[1..])
  }

  /** The projection distributes over concatenation, so it keeps input order. */
  lemma {:induction false} ShownFilesAppend(a: seq<Option<CodeFile>>, b: seq<Option<CodeFile>>)
    ensures ShownFiles(a + b) == ShownFiles(a) + ShownFiles(b)
    decreases |a|
  {
    if a != [] {
      assert (a + b)[1..] == a[1..] + b;
      ShownFilesAppend(a[1..], b);
    } else {
      assert a + b == b;
    }
  }

  /** One element contributes its entry when shown and nothing otherwise. */
  lemma ShownFilesSingle(e: Option<CodeFile>)
    ensures ShownFiles([e]) == if Shown(e) then [ShownEntry(e)] else []
  {
    assert [e][1..] == [];
  }

  /** `filesArr`: a code list gives its shown elements; a single code gives
      one file when both the fragment's path and the code are non-empty. */
  function CodeTabFiles(f: Fragment): (r: seq<FileEntry>)
    ensures f.code.CodeList? ==> r == ShownFiles(f.code.files)
    ensures !f.code.CodeList? ==> (r != [] <==> Truthy(f.filePath) && CodeTruthy(f.code))
    ensures !f.code.CodeList? && r != [] ==> r == [FileEntry(f.filePath.value, f.code.text)]
  {
    if f.code.CodeList? then ShownFiles(f.code.files)
    else if Truthy(f.filePath) && CodeTruthy(f.code) then [FileEntry(f.filePath.value, f.code.text)]
    else []
  }

  // ---------------------------------------------------------------------------
  // The export

  /** The name `exportZip` gives a single code without a path. */
  const ExportSingleName := "fragment.txt"

  /** `${fragment.title || 'fragment'}.zip`. */
  function ZipFilename(title: Option<string>): (r: string)
    ensures EndsWith(r, ".zip") && |r| > 4
    ensures Truthy(title) ==> r == title.value + ".zip"
    ensures !Truthy(title) ==> r == "fragment.zip"
  {
    OrElse(title, "fragment") + ".zip"
  }

  /** `exportZip`: fill a new archive and name it. */
  method ExportZip(f: Fragment) returns (entries: seq<FileEntry>, filename: string)
    ensures entries == StoredAll([], FragmentWrites(f, ExportSingleName))
    ensures filename == ZipFilename(f.title)
  {
    var zip := new ZipArchive();
    var writes := FragmentWrites(f, ExportSingleName);
    if f.code.CodeList? {
      var files := f.code.files;
      for k := 0 to |files|
        invariant StoredAll(zip.entries, writes[k..]) == StoredAll([], writes)
      {
        var entry := ArchiveEntry(files[k]);
        assert writes[k..][0] == entry && writes[k..][1..] == writes[k + 1..];
        zip.File(entry.name, entry.content);
      }
      assert writes[|files|..] == [];
    } else {
      zip.File(OrElse(f.filePath, ExportSingleName), CodeTextOrEmpty(f.code));
    }
    entries := zip.entries;
    filename := ZipFilename(f.title);
  }

  /** An exported archive holds, under every written name, the content of the
      last write to that name. */
  lemma ExportHoldsLastWrites(f: Fragment, k: nat)
    requires k < |FragmentWrites(f, ExportSingleName)|
    requires forall j :: k < j < |FragmentWrites(f, ExportSingleName)| ==> FragmentWrites(f, ExportSingleName)[j].name != FragmentWrites(f, ExportSingleName)[k].name
    ensures Lookup(StoredAll([], FragmentWrites(f, ExportSingleName)), FragmentWrites(f, ExportSingleName)[k].name) == Some(FragmentWrites(f, ExportSingleName)[k].content)
  {
    StoredAllLastWriteWins([], FragmentWrites(f, ExportSingleName), k);
  }

  // ---------------------------------------------------------------------------
  // What is rendered

  /** The deploy link is offered unless the result is a code-interpreter one
      (an absent result counts as available). */
  predicate IsLinkAvailable(result: Option<SandboxResult>) {
    !(result.Some? && result.value.template == Some(CodeInterpreterTemplate))
  }

  datatype PanelView =
    | Hidden
    | Panel(previewTabEnabled: bool, exportShown: bool, deployShown: bool, codeViewer: Option<seq<FileEntry>>)

  /** The panel: nothing without a fragment; the Preview tab is enabled, and
      the export button shown, only with a result; the deploy dialog also needs
      the link to be available; the code viewer appears when there are files. */
  function Render(fragment: Option<Fragment>, result: Option<SandboxResult>): (v: PanelView)
    ensures fragment.None? <==> v.Hidden?
    ensures v.Panel? ==> (v.previewTabEnabled <==> result.Some?) && (v.exportShown <==> result.Some?)
    ensures v.Panel? ==> (v.deployShown <==> result.Some? && result.value.template != Some(CodeInterpreterTemplate))
    ensures v.Panel? && v.codeViewer.Some? ==> v.codeViewer.value == CodeTabFiles(fragment.value) && v.codeViewer.value != []
    ensures v.Panel? && v.codeViewer.None? ==> CodeTabFiles(fragment.value) == []
  {
    if fragment.None? then Hidden
    else
      var files := CodeTabFiles(fragment.value);
      Panel(result.Some?, result.Some?, result.Some? && IsLinkAvailable(result),
        if |files| > 0 then Some(files) else None)
  }
}
