# VS Code search provider for GNOME Shell, modelled in Dafny

The service lets GNOME Shell search the recent workspaces of installed
VS Code variants. For each known editor variant whose desktop file is
installed, it exports one search provider object on the D-Bus session bus,
each at an object path of its own. Then it requests the well-known bus name
`de.swsnr.searchprovider.VSCode`. On every query a provider reads the editor's
`storage.json` afresh and turns each recorded workspace URL into an item:
- its name is the text after the URL's last `/`;
- it is keyed by `vscode-search-provider-<app id>-<url>`.

The model has eight modules, one file each:

- `wrappers.dfy`: `Option` and `Result`.
- `seqs.dfy`: sequence helpers.
  - `NoDup`, `ToSet`, and the link between them via cardinality.
  - `FirstIndex`.
  - `Somes`, the `filter_map` of a sequence of options.
- `paths.dfy`: `Path::join` on `/`-separated paths.
- `workspace_storage.dfy`: the parsed `storage.json` document.
  - `Storage::from_dir`, with the file's state as a parameter.
  - `Storage::into_workspace_urls`.
- `recent_items.dfy`: `str::split`, `recent_item`, and the last-segment naming rule.
- `workspaces_source.dfy`: the `find_recent_items` loop.
  - The insertion-ordered id map (`IndexMap`), as a sequence of pairs.
  - The insert-or-replace operation.
  - The item ids.
- `providers.dfy`:
  - the provider table `PROVIDERS` and `ProviderDefinition::objpath`;
  - D-Bus object path validity;
  - the uniqueness of desktop ids and object paths.
- `service.dfy`: the bus's object server as a class that collects exported objects.
  - `register_search_providers` as a loop over the table that aborts at the first failure.
  - `start_dbus_service` up to the event loop.

Each operation is stated against a specification function:
- `FindRecentItems` against `ItemsFor`;
- `RegisterEach` against `Visit` and `Plan`.

The lemmas state what those functions guarantee.

## Model

| member | source | states |
|---|---|---|
| WorkspaceStorage.FromDir | src/main.rs:54-61 | a file that cannot be opened fails with an open error naming `<config dir>/storage.json`, an unparsable one with a parse error naming the same path, and only a parsed file gives the storage document |
| WorkspaceStorage.OrEmpty | src/main.rs:66-67 | `unwrap_or_default`: the list when present, the empty list otherwise |
| WorkspaceStorage.FolderUris | src/main.rs:68-70 | the `filter_map` over the entries keeps at most one URI per entry; FolderUrisSelect states which |
| WorkspaceStorage.IntoWorkspaceUrls | src/main.rs:64-76 | a document without `openedPathsList` yields no URLs |
| WorkspaceStorage.FolderIndices | src/main.rs:68-70 | lists, in increasing order, exactly the positions of the entries that carry a folder URI |
| WorkspaceStorage.FolderUrisSelect | src/main.rs:68-72 | the folder URIs are exactly the `folderUri` values of those entries, one per entry, in entry order |
| WorkspaceStorage.FolderUrisConcat | src/main.rs:68-70 | filtering the entries distributes over concatenation |
| WorkspaceStorage.IntoWorkspaceUrlsLayout | src/main.rs:64-76 | the result is the folder URIs of the `entries` list in order, then the whole `workspaces3` list; a missing list counts as empty |
| WorkspaceStorage.FileOnlyEntryIgnored | src/main.rs:69-70 | an entry with only a file URI contributes nothing to the URLs |
| WorkspaceStorage.FolderUrisOfFolderEntries | src/main.rs:68-70 | entries that all carry a folder URI give back those URIs |
| WorkspaceStorage.LegacyAndCurrentAgree | src/main.rs:64-76 | the legacy `workspaces3` layout and the current `entries` layout of the same URLs give the same URL list |
| RecentItems.Split | src/main.rs:137 | `split('/')` always yields at least one piece, and no piece contains the separator |
| RecentItems.JoinSplit | src/main.rs:137 | joining the pieces of a split with the separator restores the string |
| RecentItems.SplitJoin | src/main.rs:137 | splitting pieces that are free of the separator, once joined, gives back those pieces |
| RecentItems.SplitWithoutSeparator | src/main.rs:137 | a string without `/` splits into itself |
| RecentItems.SplitAfterPiece | src/main.rs:137 | a leading separator-free piece followed by `/` is split off as the first piece |
| RecentItems.Last | src/main.rs:137 | `last()` is `None` exactly for an empty sequence, and otherwise its final element |
| RecentItems.RecentItem | src/main.rs:136-145 | every URL yields an item whose path is the URL; the error branch cannot be taken |
| RecentItems.LastPieceIsLastSegment | src/main.rs:137 | the last piece of a split is a suffix of the string without a separator, preceded by a separator unless it is the whole string |
| RecentItems.RecentItemIsLastSegment | src/main.rs:136-145 | an item's name is the URL's last `/`-separated segment |
| RecentItems.LastSegmentUnique | src/main.rs:137 | a string has only one last segment |
| RecentItems.RecentItemName | src/main.rs:136-145 | any last segment of the URL is exactly the name `recent_item` returns |
| RecentItems.NameWithoutSlash | src/main.rs:136-141 | a URL without `/` is its own name |
| RecentItems.TrailingSlashGivesEmptyName | src/main.rs:136-141 | a URL ending in `/` gets the empty name |
| WorkspacesSource.Insert | src/main.rs:164 | `IndexMap::insert` keeps keys unique: an existing key keeps its position and gets the new item, and every other entry is unchanged; a new key is appended |
| WorkspacesSource.TailOfMap | src/main.rs:164 | the rest of a map with unique keys has unique keys and knows a key iff the map does (unless it is the first key) |
| WorkspacesSource.ItemsFor | src/main.rs:157-172 | the items have unique keys, each key is the id of its item's URL, and each item is that of one of the URLs |
| WorkspacesSource.InsertKeepsItems | src/main.rs:161-165 | inserting a URL's item under its own id keeps every key the id of its item's URL and every item that of a listed URL |
| WorkspacesSource.FindRecentItems | src/main.rs:156-173 | a failed read of `storage.json` is returned as the error; otherwise the result is the items for the document's workspace URLs |
| WorkspacesSource.InsertAll | src/main.rs:157-170 | inserting the URLs one by one, in order, yields the items for all of them |
| WorkspacesSource.ItemsForLastUrl | src/main.rs:160-165 | one more URL means one more `insert` of its item under its id |
| WorkspacesSource.ItemId | src/main.rs:163 | the id is `vscode-search-provider-`, the application id and `-` followed by the URL, and nothing else |
| WorkspacesSource.SameUrlDistinctApps | src/main.rs:163 | the same URL under two different application ids gets two different ids |
| WorkspacesSource.ItemIdInjective | src/main.rs:163 | within one application two URLs share an id iff they are equal |
| WorkspacesSource.SharedIdNeedsPrefixApp | src/main.rs:163 | two ids can coincide only if one application id followed by `-` is a prefix of the other followed by `-` |
| WorkspacesSource.ItemIdsCanCollide | src/main.rs:163 | application `code` with URL `oss-x` and application `code-oss` with URL `x` get the same id |
| WorkspacesSource.InsertKnownPath | src/main.rs:164 | re-inserting a URL already present leaves the map's URLs and their order unchanged |
| WorkspacesSource.InsertNewPath | src/main.rs:164 | inserting a new URL appends it |
| WorkspacesSource.ItemsForPaths | src/main.rs:157-172 | the items are the distinct URLs, each once, in the order in which they first occur |
| WorkspacesSource.ItemCount | src/main.rs:157-172 | there are as many items as distinct URLs |
| WorkspacesSource.RepeatedUrlKeepsKeys | src/main.rs:164 | repeating a URL adds no key |
| WorkspacesSource.UrlHasKey | src/main.rs:163-164 | every URL's id is a key of the items |
| WorkspacesSource.TwoDistinctUrls | src/main.rs:157-172 | two distinct URLs give two items in their order |
| WorkspacesSource.MdcatName | src/main.rs:136-145 | `file:///home/foo/mdcat` is named `mdcat` |
| WorkspacesSource.SbctlName | src/main.rs:136-145 | `file:///home/foo/sbctl` is named `sbctl` |
| WorkspacesSource.LegacyExample | src/main.rs:157-172 | a legacy document listing two workspaces gives their two items under their ids, in order |
| WorkspacesSource.CurrentExample | src/main.rs:66-70 | a current document with one folder entry and one file-only entry gives a single item, for the folder |
| Paths.JoinRelative | src/main.rs:55 | joining a relative name puts the directory first and the name last, with one `/` inserted between them, or nothing inserted exactly when the directory is empty or already ends in `/` |
| Providers.PROVIDERS | src/main.rs:109-125 | the two known editor variants, in table order, with their labels, desktop ids, relative object paths and configuration directory names as in the source; DesktopIdsUnique, ObjPathsUnique and ObjPathsValid state what the table guarantees |
| Providers.ObjPath | src/main.rs:98-100 | the object path is `/de/swsnr/searchprovider/vscode/` followed by the relative path, and nothing else |
| Providers.ObjPathInjective | src/main.rs:98-100 | two providers share an object path iff they share a relative object path |
| Providers.RelativeObjectPathJoin | src/main.rs:98-100 | joining two relative object paths with `/` gives a relative object path |
| Providers.BaseIsRelative | src/main.rs:99 | `de/swsnr/searchprovider/vscode` is a relative object path |
| Providers.ObjPathValid | src/main.rs:98-100 | a provider with a valid relative path has a valid D-Bus object path |
| Providers.RelativeObjPathsValid | src/main.rs:109-125 | both relative paths of the table are valid |
| Providers.ObjPathsValid | src/main.rs:204 | every table entry's object path passes the `try_into` conversion |
| Providers.ObjPathsUniqueIfRelativeUnique | src/main.rs:98-100 | unique relative paths give unique object paths |
| Providers.DesktopIdsUnique | src/main.rs:444-450 | the table's desktop ids are pairwise distinct; their set has as many elements as the table has entries |
| Providers.ObjPathsUnique | src/main.rs:453-459 | the table's object paths are pairwise distinct; their set has as many elements as the table has entries |
| Providers.DistinctCount | src/main.rs:444-459 | counting via a set gives the number of distinct values, and it equals the length iff there are no duplicates |
| Providers.DesktopIdsAreUnique | src/main.rs:444-450 | the `desktop_ids_are_unique` check succeeds |
| Providers.ObjPathsAreUnique | src/main.rs:453-459 | the `dbus_paths_are_unique` check succeeds |
| Service.ObjectServer.At | src/main.rs:204 | exporting at a path the bus refuses fails and changes nothing; otherwise the object is appended |
| Service.Activate | src/main.rs:193-203 | a provider is activated exactly when its desktop id is installed, at its object path, with the application id the desktop database reports |
| Service.Exported | src/main.rs:199-203 | the exported object sits at the provider's object path and both it and its source carry the reported application id |
| Service.Plan | src/main.rs:192-206 | never more objects than providers |
| Service.Visit | src/main.rs:192-207 | never more objects exported than providers; VisitSucceedsIff, VisitExportsPlanPrefix and FirstRejectedProvider characterise it |
| Service.Step | src/main.rs:193-205 | after a failure nothing changes, a provider that is not installed changes nothing, a step exports at most one object at the end, and a failing step exports nothing |
| Service.Export | src/main.rs:204 | an invalid object path fails before the bus is asked; otherwise the result is what `at` returns |
| Service.RegisterEach | src/main.rs:192-207 | the result and the exported objects are those of the visit of the table, stopping at the first failure |
| Service.RegisterSearchProviders | src/main.rs:188-208 | without a user configuration directory it fails and exports nothing; otherwise it behaves as the visit of `PROVIDERS` |
| Service.VisitStopsAtError | src/main.rs:204 | after the first failure the remaining providers change nothing |
| Service.VisitExportsPlanPrefix | src/main.rs:192-207 | the exported objects are always a prefix of the plan, and all of it on success |
| Service.AllInstalledAcceptedSnoc | src/main.rs:192-206 | every installed provider of a longer table is accepted iff every one of the shorter table is and the added one is (when installed) |
| Service.FirstRejectedProvider | src/main.rs:192-207 | at the first installed provider whose path is invalid or refused, registration fails with that path's error and has exported exactly the plan of the providers before it |
| Service.VisitSucceedsIff | src/main.rs:188-208 | registration succeeds iff every installed provider's object path is valid and accepted by the bus |
| Service.PlanExportsInstalled | src/main.rs:192-205 | an object is planned iff it belongs to an installed provider: it sits at that provider's object path and serves the reported application id with the configuration directory joined to the provider's directory name |
| Service.PlanIsSomes | src/main.rs:192-206 | the plan is the installed providers' objects in table order |
| Service.PlanIsActivated | src/main.rs:192-206 | an object is planned iff some provider's lookup yields it |
| Service.PlanPathsUnique | src/main.rs:104-108 | with unique object paths in the table no two exported objects share a path, and every exported path is in the table |
| Service.NothingInstalled | src/main.rs:192-207 | with no known application installed nothing is exported and registration succeeds |
| Service.KnownProvidersRegister | src/main.rs:188-208 | for the real table, unless the bus refuses a path, registration succeeds, exports exactly the plan, and every object gets a path of its own |
| Service.StartDbusService | src/main.rs:213-227 | each startup step's failure is reported, a registration failure with its own error; the bus name is requested exactly when all providers registered, and failing to get it is the result; success means every step succeeded and the objects exported are exactly the plan |
| Seqs.ToSetCardinality | src/main.rs:444-459 | a sequence's set has at most as many elements as the sequence |
| Seqs.NoDupIffCardinality | src/main.rs:444-459 | the set has as many elements as the sequence iff the sequence has no duplicates |
| Seqs.FirstIndex | src/main.rs:164 | the first position at which a value occurs |
| Seqs.Somes | src/main.rs:70 | `filter_map` over options is never longer than its input; SomesMembership states its elements |
| Seqs.SomesMembership | src/main.rs:70 | a value is among the `filter_map` results iff some option holds it |

## Left out

- JSON parsing and reading the file: `Storage::read` and `File::open` are not modelled. The file's state is a parameter: unopenable (any failure of `File::open`), malformed, or parsed into a `Storage`. The JSON field names and serde's handling of unknown fields are not modelled.
- The desktop database (`gio::DesktopAppInfo::new`) is a map from the installed desktop ids to the application ids it reports. `get_id().unwrap()` is taken to always succeed.
- `dirs::config_dir()` is an `Option` parameter.
- Whether the bus accepts an object at a path is a set of refused paths. Acquiring the main context, connecting to the session bus and acquiring the bus name are boolean parameters.
- `RecentItemSearchProvider::new` is not modelled. Its search, activation and result metadata belong to a library whose source is not part of this model. The model records only the application id and the source that each exported provider serves.
- `Paths.Join`: `Path::join` on text, with `/` as the only separator. Platform path rules are not modelled.
- `Service.ObjectServer.At`: what `at` does when a second object is exported at a path already in use is not modelled. The refused paths are fixed when the server is created. `Service.PlanPathsUnique` shows that the table never exports two objects at one path.
- The GLib main loop, the file-descriptor watch, the dispatching of bus messages and signal handling (`start_dbus_service` after the bus name is acquired) are not modelled. They are I/O and concurrency.
- `main`, the command line and the listing of provider labels are not modelled. They are output only.
- The log messages are not modelled. Neither is the warning when a URL is skipped. That branch is unreachable anyway, as `RecentItems.RecentItem` shows.
- The tests that read the provider `.ini` files from disk are not modelled. They need file I/O. The two `storage.json` samples are represented only by the layouts that `WorkspaceStorage.LegacyAndCurrentAgree` and `WorkspacesSource.LegacyExample` cover.
- `WorkspacesSource.SharedIdNeedsPrefixApp`: two applications never give the same URL the same id (`WorkspacesSource.SameUrlDistinctApps`). Ids of different applications coincide only for different URLs, when one application id followed by `-` begins the other's. `WorkspacesSource.ItemIdsCanCollide` gives an instance. The code is modelled as written, with no separator escaping.
