/** The editor's `storage.json` as the service sees it after deserialisation,
    and the normalisation of its two history layouts into one list of
    workspace URLs. */
module WorkspaceStorage {
  import opened Wrappers
  import Paths

  /** One entry of `openedPathsList.entries` (editor 1.55 and later). */
  datatype OpenedPathsListEntry = OpenedPathsListEntry(folderUri: Option<string>, fileUri: Option<string>)

  /** `openedPathsList`: the legacy flat `workspaces3` list (up to editor 1.54)
      and the current `entries` list; either may be missing. */
  datatype OpenedPathsList = OpenedPathsList(workspaces3: Option<seq<string>>, entries: Option<seq<OpenedPathsListEntry>>)

  datatype Storage = Storage(openedPathsList: Option<OpenedPathsList>)

  /** Why reading `storage.json` failed; each carries the path that was tried. */
  datatype StorageError = OpenFailed(path: string) | ParseFailed(path: string)

  /** What the file system and the JSON parser make of `storage.json`:
      `Unopenable` is any failure of `File::open` (the file is missing, is
      not readable, is a directory, ...). */
  datatype FileState = Unopenable | Malformed | Parsed(storage: Storage)

  const STORAGE_FILE: string := "storage.json"

  /** `Storage::from_dir`: look for `storage.json` in `configDir`. */
  function FromDir(configDir: string, file: FileState): (r: Result<Storage, StorageError>)
    ensures file.Unopenable? <==> r == Err(OpenFailed(Paths.Join(configDir, STORAGE_FILE)))
    ensures file.Malformed? <==> r == Err(ParseFailed(Paths.Join(configDir, STORAGE_FILE)))
    ensures file.Parsed? ==> r == Ok(file.storage)
    ensures r.Ok? ==> file.Parsed?
  {
    var path := Paths.Join(configDir, STORAGE_FILE);
    match file
    case Unopenable => Err(OpenFailed(path))
    case Malformed => Err(ParseFailed(path))
    case Parsed(storage) => Ok(storage)
  }

  /** `unwrap_or_default` on an optional list. */
  function OrEmpty<T>(o: Option<seq<T>>): (r: seq<T>)
    ensures o.Some? ==> r == o.value
    ensures o.None? ==> r == []
  {
    match o
    case Some(s) => s
    case None => []
  }

  /** `filter_map(|entry| entry.folder_uri)`. */
  function FolderUris(entries: seq<OpenedPathsListEntry>): (r: seq<string>)
    ensures |r| <= |entries|
  {
    if entries == [] then []
    else
      var last := entries[|entries| - 1];
      FolderUris(entries[..|entries| - 1]) + (if last.folderUri.Some? then [last.folderUri.value] else [])
  }

  /** The positions of the entries that carry a folder URI, in increasing order:
      an independent description of which entries `FolderUris` keeps. */
  function FolderIndices(entries: seq<OpenedPathsListEntry>): (idx: seq<nat>)
    ensures forall k :: 0 <= k < |idx| ==> idx[k] < |entries|
    ensures forall k, l :: 0 <= k < l < |idx| ==> idx[k] < idx[l]
    ensures forall j :: 0 <= j < |entries| ==> (j in idx <==> entries[j].folderUri.Some?)
  {
    if entries == [] then []
    else
      var n := |entries| - 1;
      FolderIndices(entries[..n]) + (if entries[n].folderUri.Some? then [n] else [])
  }

  /** `Storage::into_workspace_urls`. */
  function IntoWorkspaceUrls(s: Storage): (r: seq<string>)
    ensures s.openedPathsList.None? ==> r == []
  {
    match s.openedPathsList
    case Some(paths) => FolderUris(OrEmpty(paths.entries)) + OrEmpty(paths.workspaces3)
    case None => []
  }

  /** `FolderUris` keeps exactly the folder URIs of the entries that have one,
      in entry order. */
  lemma {:induction false} FolderUrisSelect(entries: seq<OpenedPathsListEntry>)
    ensures |FolderUris(entries)| == |FolderIndices(entries)|
    ensures forall k :: 0 <= k < |FolderIndices(entries)| ==>
              entries[FolderIndices(entries)[k]].folderUri == Some(FolderUris(entries)[k])
  {
    if entries != [] {
      var n := |entries| - 1;
      var p := entries[..n];
      FolderUrisSelect(p);
      var idx, r := FolderIndices(entries), FolderUris(entries);
      forall k | 0 <= k < |idx| ensures entries[idx[k]].folderUri == Some(r[k]) {
        if k < |FolderIndices(p)| {
          assert idx[k] == FolderIndices(p)[k] && r[k] == FolderUris(p)[k];
          assert entries[idx[k]] == p[idx[k]];
        }
      }
    }
  }

  /** Filtering distributes over concatenation, so the relative order of the
      entries is kept. */
  lemma {:induction false} FolderUrisConcat(a: seq<OpenedPathsListEntry>, b: seq<OpenedPathsListEntry>)
    ensures FolderUris(a + b) == FolderUris(a) + FolderUris(b)
  {
    if b == [] {
      assert a + b == a;
    } else {
      var n := |b| - 1;
      assert (a + b)[..|a + b| - 1] == a + b[..n];
      FolderUrisConcat(a, b[..n]);
    }
  }

  /** The whole result of `into_workspace_urls` when `openedPathsList` is
      present: the folder URIs of the selected entries, in order, then the
      legacy list unchanged; nothing is deduplicated. */
  lemma IntoWorkspaceUrlsLayout(s: Storage)
    requires s.openedPathsList.Some?
    ensures var entries := OrEmpty(s.openedPathsList.value.entries);
            var legacy := OrEmpty(s.openedPathsList.value.workspaces3);
            var idx := FolderIndices(entries);
            var r := IntoWorkspaceUrls(s);
            && |r| == |idx| + |legacy|
            && (forall k :: 0 <= k < |idx| ==> entries[idx[k]].folderUri == Some(r[k]))
            && r[|idx|..] == legacy
  {
    FolderUrisSelect(OrEmpty(s.openedPathsList.value.entries));
  }

  /** An entry with no folder URI (a file-only entry) contributes nothing,
      wherever it stands. */
  lemma FileOnlyEntryIgnored(before: seq<OpenedPathsListEntry>, e: OpenedPathsListEntry, after: seq<OpenedPathsListEntry>)
    requires e.folderUri.None?
    ensures FolderUris(before + [e] + after) == FolderUris(before + after)
  {
    FolderUrisConcat(before + [e], after);
    FolderUrisConcat(before, [e]);
    FolderUrisConcat(before, after);
    assert [e][..0] == [];
  }

  /** The legacy document listing `urls`. */
  function LegacyDocument(urls: seq<string>): Storage
  {
    Storage(Some(OpenedPathsList(Some(urls), None)))
  }

  /** The current document whose entries are the folders `urls`. */
  function CurrentDocument(urls: seq<string>): Storage
  {
    Storage(Some(OpenedPathsList(None, Some(FolderEntries(urls)))))
  }

  function FolderEntries(urls: seq<string>): (entries: seq<OpenedPathsListEntry>)
    ensures |entries| == |urls|
  {
    seq(|urls|, i requires 0 <= i < |urls| => OpenedPathsListEntry(Some(urls[i]), None))
  }

  lemma {:induction false} FolderUrisOfFolderEntries(urls: seq<string>)
    ensures FolderUris(FolderEntries(urls)) == urls
  {
    if urls != [] {
      var n := |urls| - 1;
      assert FolderEntries(urls)[..n] == FolderEntries(urls[..n]);
      FolderUrisOfFolderEntries(urls[..n]);
    }
  }

  /** The two layouts normalise to the same URL list when they name the same
      folders. */
  lemma LegacyAndCurrentAgree(urls: seq<string>)
    ensures IntoWorkspaceUrls(LegacyDocument(urls)) == urls
    ensures IntoWorkspaceUrls(CurrentDocument(urls)) == urls
  {
    FolderUrisOfFolderEntries(urls);
  }
}
