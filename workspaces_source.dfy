/** `VscodeWorkspacesSource`: the recent-item source of one installed editor,
    which reads the editor's history afresh on every query and turns each
    workspace URL into an identified item. */
module WorkspacesSource {
  import opened Wrappers
  import opened Seqs
  import opened WorkspaceStorage
  import opened RecentItems

  /** The source of one editor: the application id the desktop database
      reported and the editor's configuration directory. */
  datatype VscodeWorkspacesSource = VscodeWorkspacesSource(appId: string, configDir: string)

  const ID_PREFIX: string := "vscode-search-provider-"

  /** The id under which the item for `path` is offered. */
  function ItemId(appId: string, path: string): (id: string)
    ensures |id| == |ID_PREFIX| + |appId| + 1 + |path|
    ensures ID_PREFIX + appId + "-" <= id && id[|ID_PREFIX| + |appId| + 1..] == path
  {
    ID_PREFIX + appId + "-" + path
  }

  /** An insertion-ordered map from item id to item (the `IndexMap` the
      source fills), as its list of (key, item) pairs. */
  type IdMap = seq<(string, RecentFileSystemItem)>

  function Keys(m: IdMap): (ks: seq<string>)
    ensures |ks| == |m| && forall i :: 0 <= i < |m| ==> ks[i] == m[i].0
  {
    seq(|m|, i requires 0 <= i < |m| => m[i].0)
  }

  function ItemUrls(m: IdMap): (ps: seq<string>)
    ensures |ps| == |m| && forall i :: 0 <= i < |m| ==> ps[i] == m[i].1.path
  {
    seq(|m|, i requires 0 <= i < |m| => m[i].1.path)
  }

  /** The map's own invariant: no key occurs twice. */
  predicate KeysUnique(m: IdMap)
  {
    forall i, j :: 0 <= i < j < |m| ==> m[i].0 != m[j].0
  }

  predicate HasKey(m: IdMap, key: string)
  {
    exists i :: 0 <= i < |m| && m[i].0 == key
  }

  /** `IndexMap::insert`: a key already present keeps its position and gets
      the new item; a new key goes to the end. */
  function Insert(m: IdMap, key: string, item: RecentFileSystemItem): (r: IdMap)
    requires KeysUnique(m)
    ensures KeysUnique(r)
    ensures HasKey(m, key) ==> |r| == |m| && forall i :: 0 <= i < |m| ==> r[i] == (if m[i].0 == key then (key, item) else m[i])
    ensures !HasKey(m, key) ==> r == m + [(key, item)]
  {
    if m == [] then [(key, item)]
    else
      TailOfMap(m, key);
      if m[0].0 == key then [(key, item)] + m[1..]
      else
        var rest := Insert(m[1..], key, item);
        assert forall i :: 0 <= i < |rest| ==> rest[i].0 != m[0].0;
        [m[0]] + rest
  }

  /** What the recursion of `Insert` needs to know about the rest of a map. */
  lemma TailOfMap(m: IdMap, key: string)
    requires KeysUnique(m) && m != []
    ensures KeysUnique(m[1..])
    ensures forall i :: 0 <= i < |m| - 1 ==> m[1..][i] == m[i + 1]
    ensures forall i :: 0 <= i < |m| - 1 ==> m[1..][i].0 != m[0].0
    ensures m[0].0 == key ==> !HasKey(m[1..], key)
    ensures m[0].0 != key ==> (HasKey(m, key) <==> HasKey(m[1..], key))
  {
    if m[0].0 != key && HasKey(m, key) {
      var i :| 0 <= i < |m| && m[i].0 == key;
      assert m[1..][i - 1].0 == key;
    }
  }

  /** The items the source reports for `urls`, inserted one URL after the
      other as the loop of `find_recent_items` does. */
  function ItemsFor(appId: string, urls: seq<string>): (m: IdMap)
    ensures KeysUnique(m) && KeyedByPath(appId, m)
    ensures forall i :: 0 <= i < |m| ==> m[i].1.path in urls && m[i].1 == RecentItem(m[i].1.path).value
  {
    if urls == [] then []
    else
      var prev := ItemsFor(appId, urls[..|urls| - 1]);
      assert forall u :: u in urls[..|urls| - 1] ==> u in urls;
      match RecentItem(urls[|urls| - 1])
      case Ok(item) =>
        InsertKeepsItems(appId, prev, item, urls);
        Insert(prev, ItemId(appId, item.path), item)
      case Err(_) => prev
  }

  /** Inserting the item of a URL of `urls` under its own id keeps every
      item of the map the item of one of `urls`, keyed by its URL. */
  lemma InsertKeepsItems(appId: string, m: IdMap, item: RecentFileSystemItem, urls: seq<string>)
    requires KeysUnique(m) && KeyedByPath(appId, m)
    requires forall i :: 0 <= i < |m| ==> m[i].1.path in urls && m[i].1 == RecentItem(m[i].1.path).value
    requires item.path in urls && item == RecentItem(item.path).value
    ensures var r := Insert(m, ItemId(appId, item.path), item);
            && KeyedByPath(appId, r)
            && forall i :: 0 <= i < |r| ==> r[i].1.path in urls && r[i].1 == RecentItem(r[i].1.path).value
  {
    var id := ItemId(appId, item.path);
    var r := Insert(m, id, item);
    forall i | 0 <= i < |r|
      ensures r[i].0 == ItemId(appId, r[i].1.path)
      ensures r[i].1.path in urls && r[i].1 == RecentItem(r[i].1.path).value
    {
      if i < |m| && m[i].0 != id {
        assert r[i] == m[i];
      }
    }
  }

  /** `find_recent_items`: read `storage.json` (whose state is `file`), then
      insert one item per workspace URL. A failed read is the call's error; a
      URL without a name would only be skipped. */
  method FindRecentItems(source: VscodeWorkspacesSource, file: FileState) returns (r: Result<IdMap, StorageError>)
    ensures FromDir(source.configDir, file).Err? ==> r == Err(FromDir(source.configDir, file).error)
    ensures FromDir(source.configDir, file).Ok? ==>
              r == Ok(ItemsFor(source.appId, IntoWorkspaceUrls(FromDir(source.configDir, file).value)))
  {
    var stored := FromDir(source.configDir, file);
    if stored.Err? {
      return Err(stored.error);
    }
    var items := InsertAll(source.appId, IntoWorkspaceUrls(stored.value));
    return Ok(items);
  }

  /** The loop of `find_recent_items`: one insertion per URL, in order. */
  method InsertAll(appId: string, urls: seq<string>) returns (items: IdMap)
    ensures items == ItemsFor(appId, urls)
  {
    items := [];
    var i := 0;
    while i < |urls|
      invariant 0 <= i <= |urls|
      invariant items == ItemsFor(appId, urls[..i])
    {
      var found := RecentItem(urls[i]);
      if found.Ok? {
        var id := ItemId(appId, found.value.path);
        items := Insert(items, id, found.value);
      }
      assert urls[..i + 1] == urls[..i] + [urls[i]];
      ItemsForLastUrl(appId, urls[..i], urls[i]);
      i := i + 1;
    }
    assert urls[..i] == urls;
  }

  /** The same URL opened by two applications gets two ids. */
  lemma SameUrlDistinctApps(a: string, b: string, u: string)
    ensures ItemId(a, u) == ItemId(b, u) ==> a == b
  {
    if ItemId(a, u) == ItemId(b, u) {
      assert |a| == |b|;
      var n := |ID_PREFIX|;
      assert a == ItemId(a, u)[n..n + |a|] == ItemId(b, u)[n..n + |b|] == b;
    }
  }

  /** For one application the id determines the URL. */
  lemma ItemIdInjective(appId: string, p: string, q: string)
    ensures ItemId(appId, p) == ItemId(appId, q) <==> p == q
  {
    var n := |ID_PREFIX + appId + "-"|;
    if ItemId(appId, p) == ItemId(appId, q) {
      assert ItemId(appId, p)[n..] == p && ItemId(appId, q)[n..] == q;
    }
  }

  /** Ids of two applications coincide only when one application id
      followed by a dash begins the other's. */
  lemma SharedIdNeedsPrefixApp(a: string, b: string, p: string, q: string)
    requires ItemId(a, p) == ItemId(b, q)
    ensures a + "-" <= b + "-" || b + "-" <= a + "-"
  {
    var n, id := |ID_PREFIX|, ItemId(a, p);
    var x, y := a + "-", b + "-";
    assert ID_PREFIX + x <= id && ID_PREFIX + y <= id;
    if |x| <= |y| {
      assert x == id[n..n + |x|] == y[..|x|];
    } else {
      assert y == id[n..n + |y|] == x[..|y|];
    }
  }

  /** Ids of different applications can coincide when one application id
      followed by a dash begins the other. */
  lemma ItemIdsCanCollide()
    ensures ItemId("code", "oss-x") == ItemId("code-oss", "x")
  {
  }

  lemma {:induction false} ItemsForLastUrl(appId: string, urls: seq<string>, u: string)
    ensures ItemsFor(appId, urls + [u]) == Insert(ItemsFor(appId, urls), ItemId(appId, u), RecentItem(u).value)
  {
    assert (urls + [u])[..|urls|] == urls;
  }

  /** Every key is the id of its item's URL. */
  predicate KeyedByPath(appId: string, m: IdMap)
  {
    forall i :: 0 <= i < |m| ==> m[i].0 == ItemId(appId, m[i].1.path)
  }

  /** `ps` lists its elements in the order in which they first occur in `urls`. */
  predicate InFirstOccurrenceOrder(ps: seq<string>, urls: seq<string>)
    requires forall i :: 0 <= i < |ps| ==> ps[i] in urls
  {
    forall i, j :: 0 <= i < j < |ps| ==> FirstIndex(urls, ps[i]) < FirstIndex(urls, ps[j])
  }

  lemma InsertKnownPath(appId: string, m: IdMap, item: RecentFileSystemItem)
    requires KeysUnique(m) && KeyedByPath(appId, m) && item.path in ItemUrls(m)
    ensures ItemUrls(Insert(m, ItemId(appId, item.path), item)) == ItemUrls(m)
  {
    var id := ItemId(appId, item.path);
    var k :| 0 <= k < |m| && m[k].1.path == item.path;
    assert m[k].0 == id;
    var m' := Insert(m, id, item);
    forall i | 0 <= i < |m| ensures m'[i].1.path == m[i].1.path {
      if m[i].0 == id { ItemIdInjective(appId, m[i].1.path, item.path); }
    }
  }

  lemma InsertNewPath(appId: string, m: IdMap, item: RecentFileSystemItem)
    requires KeysUnique(m) && KeyedByPath(appId, m) && item.path !in ItemUrls(m)
    ensures ItemUrls(Insert(m, ItemId(appId, item.path), item)) == ItemUrls(m) + [item.path]
  {
    var id := ItemId(appId, item.path);
    forall i | 0 <= i < |m| ensures m[i].0 != id {
      ItemIdInjective(appId, m[i].1.path, item.path);
      assert m[i].1.path == ItemUrls(m)[i];
    }
    assert !HasKey(m, id);
  }

  /** The items are the distinct URLs, each once, in the order of their first
      occurrence. */
  lemma {:induction false} ItemsForPaths(appId: string, urls: seq<string>)
    ensures NoDup(ItemUrls(ItemsFor(appId, urls)))
    ensures forall u :: u in ItemUrls(ItemsFor(appId, urls)) <==> u in urls
    ensures InFirstOccurrenceOrder(ItemUrls(ItemsFor(appId, urls)), urls)
  {
    if urls != [] {
      var n := |urls| - 1;
      var pre, u := urls[..n], urls[n];
      assert urls == pre + [u];
      ItemsForPaths(appId, pre);
      ItemsForLastUrl(appId, pre, u);
      var ps := ItemUrls(ItemsFor(appId, pre));
      var ps' := ItemUrls(ItemsFor(appId, urls));
      forall p | p in pre ensures FirstIndex(urls, p) == FirstIndex(pre, p) {
        FirstIndexSnoc(pre, u, p);
      }
      if u in pre {
        InsertKnownPath(appId, ItemsFor(appId, pre), RecentItem(u).value);
        assert ps' == ps;
      } else {
        InsertNewPath(appId, ItemsFor(appId, pre), RecentItem(u).value);
        assert ps' == ps + [u];
        assert FirstIndex(urls, u) == n;
        forall i, j | 0 <= i < j < |ps'| ensures FirstIndex(urls, ps'[i]) < FirstIndex(urls, ps'[j]) {
          if j < |ps| { assert ps'[i] == ps[i] && ps'[j] == ps[j]; }
        }
      }
    }
  }

  /** As many items as distinct URLs: a repeated URL adds no key. */
  lemma ItemCount(appId: string, urls: seq<string>)
    ensures |ItemsFor(appId, urls)| == |ToSet(urls)|
  {
    var ps := ItemUrls(ItemsFor(appId, urls));
    ItemsForPaths(appId, urls);
    NoDupIffCardinality(ps);
    assert ToSet(ps) == ToSet(urls);
  }

  /** A URL seen before replaces its item in place and leaves the keys and
      their order as they were. */
  lemma RepeatedUrlKeepsKeys(appId: string, urls: seq<string>, u: string)
    requires u in urls
    ensures Keys(ItemsFor(appId, urls + [u])) == Keys(ItemsFor(appId, urls))
  {
    UrlHasKey(appId, urls, u);
    ItemsForLastUrl(appId, urls, u);
  }

  lemma UrlHasKey(appId: string, urls: seq<string>, u: string)
    requires u in urls
    ensures HasKey(ItemsFor(appId, urls), ItemId(appId, u))
  {
    var m := ItemsFor(appId, urls);
    ItemsForPaths(appId, urls);
    assert u in ItemUrls(m);
    var k :| 0 <= k < |m| && m[k].1.path == u;
    assert m[k].0 == ItemId(appId, u);
  }

  lemma {:induction false} TwoDistinctUrls(appId: string, u1: string, u2: string)
    requires u1 != u2
    ensures ItemsFor(appId, [u1, u2])
              == [(ItemId(appId, u1), RecentItem(u1).value), (ItemId(appId, u2), RecentItem(u2).value)]
  {
    var e1 := (ItemId(appId, u1), RecentItem(u1).value);
    var e2 := (ItemId(appId, u2), RecentItem(u2).value);
    assert [] + [u1] == [u1];
    ItemsForLastUrl(appId, [], u1);
    assert ItemsFor(appId, [u1]) == [e1];
    assert [u1] + [u2] == [u1, u2];
    ItemsForLastUrl(appId, [u1], u2);
    ItemIdInjective(appId, u1, u2);
    assert !HasKey([e1], e2.0);
  }

  lemma MdcatName()
    ensures RecentItem("file:///home/foo/mdcat") == Ok(RecentFileSystemItem("mdcat", "file:///home/foo/mdcat"))
  {
    RecentItemName("file:///home/foo/mdcat", "mdcat");
  }

  lemma SbctlName()
    ensures RecentItem("file:///home/foo/sbctl") == Ok(RecentFileSystemItem("sbctl", "file:///home/foo/sbctl"))
  {
    RecentItemName("file:///home/foo/sbctl", "sbctl");
  }

  /** Two legacy folders become two items named after their last segment. */
  lemma LegacyExample(appId: string)
    ensures var u1, u2 := "file:///home/foo/mdcat", "file:///home/foo/sbctl";
            ItemsFor(appId, IntoWorkspaceUrls(LegacyDocument([u1, u2])))
              == [(ItemId(appId, u1), RecentFileSystemItem("mdcat", u1)),
                  (ItemId(appId, u2), RecentFileSystemItem("sbctl", u2))]
  {
    var u1, u2 := "file:///home/foo/mdcat", "file:///home/foo/sbctl";
    LegacyAndCurrentAgree([u1, u2]);
    MdcatName();
    SbctlName();
    TwoDistinctUrls(appId, u1, u2);
  }

  /** A folder entry and a file-only entry give exactly one item. */
  lemma CurrentExample(appId: string)
    ensures var x, y := "file:///home/foo/x", "file:///home/foo/y";
            var doc := Storage(Some(OpenedPathsList(None, Some([
              OpenedPathsListEntry(Some(x), None), OpenedPathsListEntry(None, Some(y))]))));
            ItemsFor(appId, IntoWorkspaceUrls(doc)) == [(ItemId(appId, x), RecentFileSystemItem("x", x))]
  {
    var x, y := "file:///home/foo/x", "file:///home/foo/y";
    var es := [OpenedPathsListEntry(Some(x), None), OpenedPathsListEntry(None, Some(y))];
    assert es[..1][..0] == [];
    assert FolderUris(es) == [x];
    RecentItemName(x, "x");
    ItemsForLastUrl(appId, [], x);
    assert [x] == [] + [x];
  }
}
