/** The fixed table of editor variants the service knows, and the D-Bus
    object path each one is exposed at. */
module Providers {
  import opened Seqs

  /** Where an editor keeps its configuration, relative to the user's
      configuration directory. */
  datatype ConfigLocation = ConfigLocation(dirname: string)

  /** `ProviderDefinition`: a search provider this service may expose. */
  datatype ProviderDefinition =
    ProviderDefinition(displayLabel: string, desktopId: string, relativeObjPath: string, config: ConfigLocation)

  const OBJPATH_PREFIX: string := "/de/swsnr/searchprovider/vscode/"

  /** The well-known name the service requests on the session bus. */
  const BUSNAME: string := "de.swsnr.searchprovider.VSCode"

  /** `ProviderDefinition::objpath`: the full object path of a provider. */
  function ObjPath(p: ProviderDefinition): (path: string)
    ensures |path| == |OBJPATH_PREFIX| + |p.relativeObjPath|
    ensures path[..|OBJPATH_PREFIX|] == OBJPATH_PREFIX && path[|OBJPATH_PREFIX|..] == p.relativeObjPath
  {
    OBJPATH_PREFIX + p.relativeObjPath
  }

  /** `PROVIDERS`: the known editor variants, in table order. */
  const PROVIDERS: seq<ProviderDefinition> := [
    ProviderDefinition("Code OSS (Arch Linux)", "code-oss.desktop", "arch/codeoss", ConfigLocation("Code - OSS")),
    ProviderDefinition("Visual Studio Code (AUR package)", "visual-studio-code.desktop", "aur/visualstudiocode", ConfigLocation("Code"))
  ]

  function DesktopIds(ps: seq<ProviderDefinition>): (ids: seq<string>)
    ensures |ids| == |ps| && forall i :: 0 <= i < |ps| ==> ids[i] == ps[i].desktopId
  {
    seq(|ps|, i requires 0 <= i < |ps| => ps[i].desktopId)
  }

  function RelativeObjPaths(ps: seq<ProviderDefinition>): (rs: seq<string>)
    ensures |rs| == |ps| && forall i :: 0 <= i < |ps| ==> rs[i] == ps[i].relativeObjPath
  {
    seq(|ps|, i requires 0 <= i < |ps| => ps[i].relativeObjPath)
  }

  function ObjPaths(ps: seq<ProviderDefinition>): (paths: seq<string>)
    ensures |paths| == |ps| && forall i :: 0 <= i < |ps| ==> paths[i] == ObjPath(ps[i])
  {
    seq(|ps|, i requires 0 <= i < |ps| => ObjPath(ps[i]))
  }

  /** A character allowed in an element of a D-Bus object path. */
  predicate IsPathElementChar(c: char)
  {
    || ('a' <= c <= 'z') || ('A' <= c <= 'Z') || ('0' <= c <= '9') || c == '_'
  }

  /** Slash-separated non-empty elements of `[A-Za-z0-9_]`: a path that
      may follow a slash inside an object path. */
  predicate IsRelativeObjectPath(s: string)
  {
    && s != []
    && s[0] != '/' && s[|s| - 1] != '/'
    && (forall i :: 0 <= i < |s| ==> s[i] == '/' || IsPathElementChar(s[i]))
    && (forall i :: 0 <= i < |s| - 1 ==> s[i] == '/' ==> s[i + 1] != '/')
  }

  /** A valid D-Bus object path ("Valid Object Paths" in the D-Bus
      specification): the root, or a slash followed by a relative path. */
  predicate IsObjectPath(s: string)
  {
    s == "/" || (s != [] && s[0] == '/' && IsRelativeObjectPath(s[1..]))
  }

  /** Distinct relative paths give distinct object paths, and back. */
  lemma ObjPathInjective(p: ProviderDefinition, q: ProviderDefinition)
    ensures ObjPath(p) == ObjPath(q) <==> p.relativeObjPath == q.relativeObjPath
  {
    if ObjPath(p) == ObjPath(q) {
      assert ObjPath(p)[|OBJPATH_PREFIX|..] == p.relativeObjPath;
      assert ObjPath(q)[|OBJPATH_PREFIX|..] == q.relativeObjPath;
    }
  }

  /** Two relative paths joined by a slash form a relative path. */
  lemma RelativeObjectPathJoin(a: string, b: string)
    requires IsRelativeObjectPath(a) && IsRelativeObjectPath(b)
    ensures IsRelativeObjectPath(a + "/" + b)
  {
    var s := a + "/" + b;
    forall i | 0 <= i < |s| ensures s[i] == '/' || IsPathElementChar(s[i]) {
      if i > |a| { assert s[i] == b[i - |a| - 1]; }
    }
    forall i | 0 <= i < |s| - 1 && s[i] == '/' ensures s[i + 1] != '/' {
      if i + 1 < |a| {
        assert s[i] == a[i] && s[i + 1] == a[i + 1];
      } else if i > |a| {
        assert s[i] == b[i - |a| - 1] && s[i + 1] == b[i - |a|];
      }
    }
  }

  /** The prefix without its slashes at either end. */
  const OBJPATH_BASE: string := "de/swsnr/searchprovider/vscode"

  /** A valid relative path behind the prefix makes a valid object path. */
  lemma ObjPathValid(p: ProviderDefinition)
    requires IsRelativeObjectPath(p.relativeObjPath)
    ensures IsObjectPath(ObjPath(p))
  {
    BaseIsRelative();
    RelativeObjectPathJoin(OBJPATH_BASE, p.relativeObjPath);
    var tail := OBJPATH_BASE + "/" + p.relativeObjPath;
    assert OBJPATH_PREFIX == "/" + OBJPATH_BASE + "/";
    assert ObjPath(p) == "/" + tail;
    assert ObjPath(p)[1..] == tail;
  }

  lemma BaseIsRelative()
    ensures IsRelativeObjectPath(OBJPATH_BASE)
  {
  }

  /** Unique relative paths across a table give unique object paths. */
  lemma ObjPathsUniqueIfRelativeUnique(ps: seq<ProviderDefinition>)
    requires NoDup(RelativeObjPaths(ps))
    ensures NoDup(ObjPaths(ps))
  {
    forall i, j | 0 <= i < j < |ps| ensures ObjPaths(ps)[i] != ObjPaths(ps)[j] {
      ObjPathInjective(ps[i], ps[j]);
      assert RelativeObjPaths(ps)[i] != RelativeObjPaths(ps)[j];
    }
  }

  /** No two known providers share a desktop id; equivalently the set of
      desktop ids is as large as the table. */
  lemma DesktopIdsUnique()
    ensures NoDup(DesktopIds(PROVIDERS))
    ensures |ToSet(DesktopIds(PROVIDERS))| == |PROVIDERS|
  {
    NoDupIffCardinality(DesktopIds(PROVIDERS));
  }

  /** No two known providers share an object path. */
  lemma ObjPathsUnique()
    ensures NoDup(ObjPaths(PROVIDERS))
    ensures |ToSet(ObjPaths(PROVIDERS))| == |PROVIDERS|
  {
    assert NoDup(RelativeObjPaths(PROVIDERS));
    ObjPathsUniqueIfRelativeUnique(PROVIDERS);
    NoDupIffCardinality(ObjPaths(PROVIDERS));
  }

  /** Every known provider's object path is a valid D-Bus object path, so
      converting it never fails. */
  lemma ObjPathsValid()
    ensures forall i :: 0 <= i < |PROVIDERS| ==> IsObjectPath(ObjPath(PROVIDERS[i]))
  {
    RelativeObjPathsValid();
    ObjPathValid(PROVIDERS[0]);
    ObjPathValid(PROVIDERS[1]);
  }

  lemma RelativeObjPathsValid()
    ensures IsRelativeObjectPath("arch/codeoss")
    ensures IsRelativeObjectPath("aur/visualstudiocode")
  {
    RelativeObjectPathJoin("arch", "codeoss");
    RelativeObjectPathJoin("aur", "visualstudiocode");
  }

  /** Counting the distinct strings by adding them to a set one at a time,
      as the table tests do with a `HashSet`. */
  method DistinctCount(xs: seq<string>) returns (n: nat)
    ensures n == |ToSet(xs)|
    ensures n == |xs| <==> NoDup(xs)
  {
    var seen: set<string> := {};
    var i := 0;
    while i < |xs|
      invariant 0 <= i <= |xs|
      invariant seen == ToSet(xs[..i])
    {
      ToSetSnoc(xs[..i], xs[i]);
      assert xs[..i + 1] == xs[..i] + [xs[i]];
      seen := seen + {xs[i]};
      i := i + 1;
    }
    assert xs[..i] == xs;
    NoDupIffCardinality(xs);
    n := |seen|;
  }

  /** The test `desktop_ids_are_unique`. */
  method DesktopIdsAreUnique() returns (ok: bool)
    ensures ok
  {
    var n := DistinctCount(DesktopIds(PROVIDERS));
    DesktopIdsUnique();
    ok := n == |PROVIDERS|;
  }

  /** The test `dbus_paths_are_unique`. */
  method ObjPathsAreUnique() returns (ok: bool)
    ensures ok
  {
    var n := DistinctCount(ObjPaths(PROVIDERS));
    ObjPathsUnique();
    ok := n == |PROVIDERS|;
  }
}
