/** The archive the export and the deployment build. `file(name, content)`
    stores a file under its name; storing a name again replaces the earlier
    content and keeps its place. */
module Zip {
  import opened Wrappers
  import opened Schema

  /** No two entries share a name. */
  predicate DistinctNames(entries: seq<FileEntry>) {
    forall i, j :: 0 <= i < j < |entries| ==> entries[i].name != entries[j].name
  }

  /** The content stored under `name`. */
  function Lookup(entries: seq<FileEntry>, name: string): (r: Option<string>)
    ensures r.None? <==> forall i :: 0 <= i < |entries| ==> entries[i].name != name
    ensures r.Some? ==> exists i :: 0 <= i < |entries| && entries[i] == FileEntry(name, r.value)
    decreases |entries|
  {
    if entries == [] then None
    else if entries[0].name == name then Some(entries[0].content)
    else
      var rest := Lookup(entries[1..], name);
      if rest.Some? then
        ghost var i :| 0 <= i < |entries[1..]| && entries[1..][i] == FileEntry(name, rest.value);
        assert entries[i + 1] == FileEntry(name, rest.value);
        rest
      else
        None
  }

  /** The entries after storing `content` under `name`. */
  function Stored(entries: seq<FileEntry>, name: string, content: string): (r: seq<FileEntry>)
    ensures Lookup(entries, name).None? ==> r == entries + [FileEntry(name, content)]
    ensures Lookup(entries, name).Some? ==> |r| == |entries|
    decreases |entries|
  {
    if entries == [] then [FileEntry(name, content)]
    else if entries[0].name == name then [FileEntry(name, content)] + entries[1..]
    else [entries[0]] + Stored(entries[1..], name, content)
  }

  /** Storing keeps every place's name, and every entry under another name. */
  lemma {:induction false} StoredInPlace(entries: seq<FileEntry>, name: string, content: string)
    ensures |Stored(entries, name, content)| >= |entries|
    ensures forall i :: 0 <= i < |entries| ==> Stored(entries, name, content)[i].name == entries[i].name
    ensures forall i :: 0 <= i < |entries| && entries[i].name != name ==> Stored(entries, name, content)[i] == entries[i]
    decreases |entries|
  {
    if entries != [] && entries[0].name != name {
      StoredInPlace(entries[1..], name, content);
      var r := Stored(entries, name, content);
      assert r == [entries[0]] + Stored(entries[1..], name, content);
      forall i | 0 < i < |entries|
        ensures r[i].name == entries[i].name
        ensures entries[i].name != name ==> r[i] == entries[i]
      {
        assert r[i] == Stored(entries[1..], name, content)[i - 1];
        assert entries[i] == entries[1..][i - 1];
      }
    }
  }

  /** Storing keeps the names distinct. */
  lemma StoredDistinct(entries: seq<FileEntry>, name: string, content: string)
    requires DistinctNames(entries)
    ensures DistinctNames(Stored(entries, name, content))
  {
    var r := Stored(entries, name, content);
    if Lookup(entries, name).None? {
      forall i, j | 0 <= i < j < |r| ensures r[i].name != r[j].name {
        if j < |entries| {
          assert r[i] == entries[i] && r[j] == entries[j];
        }
      }
    } else {
      StoredInPlace(entries, name, content);
      forall i, j | 0 <= i < j < |r| ensures r[i].name != r[j].name {
        assert r[i].name == entries[i].name && r[j].name == entries[j].name;
      }
    }
  }

  /** The stored content is what is found under its name. */
  lemma {:induction false} StoredFinds(entries: seq<FileEntry>, name: string, content: string)
    ensures Lookup(Stored(entries, name, content), name) == Some(content)
    decreases |entries|
  {
    if entries != [] && entries[0].name != name {
      StoredFinds(entries[1..], name, content);
      var r := Stored(entries, name, content);
      assert r[1..] == Stored(entries[1..], name, content);
    }
  }

  /** Every other name keeps its content. */
  lemma {:induction false} StoredKeepsOther(entries: seq<FileEntry>, name: string, content: string, other: string)
    requires other != name
    ensures Lookup(Stored(entries, name, content), other) == Lookup(entries, other)
    decreases |entries|
  {
    if entries != [] && entries[0].name != name {
      StoredKeepsOther(entries[1..], name, content, other);
      var r := Stored(entries, name, content);
      assert r[1..] == Stored(entries[1..], name, content);
    } else if entries != [] {
      var r := Stored(entries, name, content);
      assert r[1..] == entries[1..];
    }
  }

  /** A run of `file` calls, in order. */
  function StoredAll(entries: seq<FileEntry>, writes: seq<FileEntry>): seq<FileEntry>
    decreases |writes|
  {
    if writes == [] then entries
    else StoredAll(Stored(entries, writes[0].name, writes[0].content), writes[1..])
  }

  /** Two runs of writes are one run of both. */
  lemma {:induction false} StoredAllAppend(entries: seq<FileEntry>, a: seq<FileEntry>, b: seq<FileEntry>)
    ensures StoredAll(entries, a + b) == StoredAll(StoredAll(entries, a), b)
    decreases |a|
  {
    if a == [] {
      assert a + b == b;
    } else {
      assert (a + b)[0] == a[0] && (a + b)[1..] == a[1..] + b;
      StoredAllAppend(Stored(entries, a[0].name, a[0].content), a[1..], b);
    }
  }

  /** Writes with distinct names into an empty archive give exactly those
      files, in order. */
  lemma {:induction false} StoredAllDistinct(entries: seq<FileEntry>, writes: seq<FileEntry>)
    requires DistinctNames(entries + writes)
    ensures StoredAll(entries, writes) == entries + writes
    decreases |writes|
  {
    if writes != [] {
      var w := writes[0];
      assert Lookup(entries, w.name).None? by {
        forall i | 0 <= i < |entries| ensures entries[i].name != w.name {
          assert (entries + writes)[i] == entries[i];
          assert (entries + writes)[|entries|] == w;
        }
      }
      assert entries + [w] + writes[1..] == entries + writes;
      StoredAllDistinct(entries + [w], writes[1..]);
    }
  }

  /** After a run of writes, each name holds the content of its last write. */
  lemma {:induction false} StoredAllLastWriteWins(entries: seq<FileEntry>, writes: seq<FileEntry>, k: nat)
    requires DistinctNames(entries)
    requires k < |writes|
    requires forall j :: k < j < |writes| ==> writes[j].name != writes[k].name
    ensures Lookup(StoredAll(entries, writes), writes[k].name) == Some(writes[k].content)
    decreases |writes|
  {
    var w := writes[0];
    StoredDistinct(entries, w.name, w.content);
    if k == 0 {
      StoredFinds(entries, w.name, w.content);
      StoredAllKeepsOthers(Stored(entries, w.name, w.content), writes[1..], w.name);
    } else {
      assert writes[1..][k - 1] == writes[k];
      StoredAllLastWriteWins(Stored(entries, w.name, w.content), writes[1..], k - 1);
    }
  }

  lemma {:induction false} StoredAllKeepsOthers(entries: seq<FileEntry>, writes: seq<FileEntry>, name: string)
    requires DistinctNames(entries)
    requires forall j :: 0 <= j < |writes| ==> writes[j].name != name
    ensures DistinctNames(StoredAll(entries, writes))
    ensures Lookup(StoredAll(entries, writes), name) == Lookup(entries, name)
    decreases |writes|
  {
    if writes != [] {
      StoredDistinct(entries, writes[0].name, writes[0].content);
      StoredKeepsOther(entries, writes[0].name, writes[0].content, name);
      StoredAllKeepsOthers(Stored(entries, writes[0].name, writes[0].content), writes[1..], name);
    }
  }

  class ZipArchive {
    var entries: seq<FileEntry>

    constructor ()
      ensures entries == []
    {
      entries := [];
    }

    /** `zip.file(name, content)`. */
    method File(name: string, content: string)
      modifies this
      ensures entries == Stored(old(entries), name, content)
    {
      entries := Stored(entries, name, content);
    }
  }
}
