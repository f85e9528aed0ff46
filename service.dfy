/** Service startup: registering one search provider object per installed
    editor on the session bus, then requesting the well-known name. */
module Service {
  import opened Wrappers
  import opened Seqs
  import Paths
  import opened Providers
  import opened WorkspacesSource

  /** Why startup failed. */
  datatype Error =
    | MainContextUnavailable
    | SessionBusUnavailable
    | NoConfigDir
    | InvalidObjectPath(path: string)
    | RegistrationFailed(path: string)
    | NameNotAcquired(name: string)

  /** `RecentItemSearchProvider::new(app, source)`: the protocol object
      serving one installed editor's recent workspaces. */
  datatype SearchProvider = SearchProvider(appId: string, source: VscodeWorkspacesSource)

  /** An object exported on the bus at `path`. */
  datatype Registration = Registration(path: string, provider: SearchProvider)

  /** The bus's object server: the objects exported so far, in order.
      Whether the bus accepts an object at a path is outside this model;
      `refused` names the paths it would reject. */
  class ObjectServer {
    var objects: seq<Registration>
    const refused: set<string>

    constructor (refused: set<string>)
      ensures objects == [] && this.refused == refused
    {
      objects := [];
      this.refused := refused;
    }

    /** `ObjectServer::at`: export `provider` at `path`. */
    method At(path: string, provider: SearchProvider) returns (r: Result<(), Error>)
      modifies this
      ensures path in refused ==> r == Err(RegistrationFailed(path)) && objects == old(objects)
      ensures path !in refused ==> r == Ok(()) && objects == old(objects) + [Registration(path, provider)]
    {
      if path in refused {
        r := Err(RegistrationFailed(path));
      } else {
        objects := objects + [Registration(path, provider)];
        r := Ok(());
      }
    }
  }

  /** What `register_search_providers` exports for `p` when the desktop
      database knows its application (`apps` maps each installed desktop id
      to the id the database reports for it): the provider at `objpath()`,
      reading the editor's history from the user's configuration directory
      joined with the provider's directory name. */
  function Activate(p: ProviderDefinition, apps: map<string, string>, userConfigDir: string): (r: Option<Registration>)
    ensures r.Some? <==> p.desktopId in apps
    ensures r.Some? ==> r.value.path == ObjPath(p) && r.value.provider.appId == apps[p.desktopId]
  {
    if p.desktopId in apps then Some(Exported(p, apps[p.desktopId], userConfigDir)) else None
  }

  /** The objects exported for the installed providers among `ps`, in
      table order, when nothing fails. */
  function Plan(ps: seq<ProviderDefinition>, apps: map<string, string>, userConfigDir: string): (regs: seq<Registration>)
    ensures |regs| <= |ps|
  {
    if ps == [] then []
    else
      var n := |ps| - 1;
      Plan(ps[..n], apps, userConfigDir)
        + match Activate(ps[n], apps, userConfigDir) case Some(reg) => [reg] case None => []
  }

  /** The outcome of visiting `ps` in order: the objects exported so far and
      whether the visit succeeded. The first failure stops the visit. */
  function Visit(ps: seq<ProviderDefinition>, apps: map<string, string>, userConfigDir: string, refused: set<string>)
    : (out: (seq<Registration>, Result<(), Error>))
    ensures |out.0| <= |ps|
  {
    if ps == [] then ([], Ok(()))
    else
      var n := |ps| - 1;
      Step(Visit(ps[..n], apps, userConfigDir, refused), Activate(ps[n], apps, userConfigDir), refused)
  }

  /** One provider of the visit: nothing happens after a failure or for an
      editor that is not installed; otherwise the object is exported unless
      its path is invalid or refused. */
  function Step(before: (seq<Registration>, Result<(), Error>), act: Option<Registration>, refused: set<string>)
    : (out: (seq<Registration>, Result<(), Error>))
    ensures before.1.Err? ==> out == before
    ensures before.0 <= out.0 && |out.0| <= |before.0| + 1
    ensures out.1.Err? ==> out.0 == before.0
    ensures act.None? ==> out == before
  {
    if before.1.Err? then before
    else
      match act
      case None => before
      case Some(reg) =>
        if !IsObjectPath(reg.path) then (before.0, Err(InvalidObjectPath(reg.path)))
        else if reg.path in refused then (before.0, Err(RegistrationFailed(reg.path)))
        else (before.0 + [reg], Ok(()))
  }

  /** `register_search_providers`: for every known provider whose
      application is installed, export its search provider at its object
      path; the first failure aborts. */
  method RegisterSearchProviders(server: ObjectServer, userConfigDir: Option<string>, apps: map<string, string>)
    returns (r: Result<(), Error>)
    modifies server
    ensures userConfigDir.None? ==> r == Err(NoConfigDir) && server.objects == old(server.objects)
    ensures userConfigDir.Some? ==>
              var out := Visit(PROVIDERS, apps, userConfigDir.value, server.refused);
              r == out.1 && server.objects == old(server.objects) + out.0
  {
    if userConfigDir.None? {
      return Err(NoConfigDir);
    }
    r := RegisterEach(server, PROVIDERS, userConfigDir.value, apps);
  }

  /** The loop of `register_search_providers` over a provider table. */
  method RegisterEach(server: ObjectServer, providers: seq<ProviderDefinition>, configDir: string, apps: map<string, string>)
    returns (r: Result<(), Error>)
    modifies server
    ensures var out := Visit(providers, apps, configDir, server.refused);
            r == out.1 && server.objects == old(server.objects) + out.0
  {
    var i := 0;
    while i < |providers|
      invariant 0 <= i <= |providers|
      invariant Visit(providers[..i], apps, configDir, server.refused).1 == Ok(())
      invariant server.objects == old(server.objects) + Visit(providers[..i], apps, configDir, server.refused).0
    {
      assert providers[..i + 1][..i] == providers[..i];
      assert Visit(providers[..i + 1], apps, configDir, server.refused)
          == Step(Visit(providers[..i], apps, configDir, server.refused), Activate(providers[i], apps, configDir), server.refused);
      match Activate(providers[i], apps, configDir) {
        case None =>
        case Some(reg) =>
          r := Export(server, reg);
          if r.Err? {
            VisitStopsAtError(providers, i + 1, apps, configDir, server.refused);
            return r;
          }
      }
      i := i + 1;
    }
    assert providers[..i] == providers;
    return Ok(());
  }

  /** Converting the path to an object path (`try_into()?`) and exporting
      the provider there (`at(...)?`). */
  method Export(server: ObjectServer, reg: Registration) returns (r: Result<(), Error>)
    modifies server
    ensures !IsObjectPath(reg.path) ==> r == Err(InvalidObjectPath(reg.path)) && server.objects == old(server.objects)
    ensures IsObjectPath(reg.path) && reg.path in server.refused ==>
              r == Err(RegistrationFailed(reg.path)) && server.objects == old(server.objects)
    ensures IsObjectPath(reg.path) && reg.path !in server.refused ==>
              r == Ok(()) && server.objects == old(server.objects) + [reg]
  {
    if !IsObjectPath(reg.path) {
      return Err(InvalidObjectPath(reg.path));
    }
    r := server.At(reg.path, reg.provider);
  }

  /** Once the visit has failed, the providers after it change nothing. */
  lemma {:induction false} VisitStopsAtError(ps: seq<ProviderDefinition>, k: nat, apps: map<string, string>, userConfigDir: string, refused: set<string>)
    requires k <= |ps|
    requires Visit(ps[..k], apps, userConfigDir, refused).1.Err?
    ensures Visit(ps, apps, userConfigDir, refused) == Visit(ps[..k], apps, userConfigDir, refused)
  {
    if k < |ps| {
      var n := |ps| - 1;
      assert ps[..n][..k] == ps[..k];
      VisitStopsAtError(ps[..n], k, apps, userConfigDir, refused);
    } else {
      assert ps[..k] == ps;
    }
  }

  /** What has been exported is always the start of the plan: a failure
      leaves the objects exported before it in place. */
  lemma {:induction false} VisitExportsPlanPrefix(ps: seq<ProviderDefinition>, apps: map<string, string>, userConfigDir: string, refused: set<string>)
    ensures Visit(ps, apps, userConfigDir, refused).0 <= Plan(ps, apps, userConfigDir)
    ensures Visit(ps, apps, userConfigDir, refused).1.Ok? ==> Visit(ps, apps, userConfigDir, refused).0 == Plan(ps, apps, userConfigDir)
  {
    if ps != [] {
      VisitExportsPlanPrefix(ps[..|ps| - 1], apps, userConfigDir, refused);
    }
  }

  /** Registration fails at the first installed provider whose path is not
      accepted: it reports that path's failure, and the objects exported are
      the plan of the providers before it. */
  lemma FirstRejectedProvider(ps: seq<ProviderDefinition>, k: nat, apps: map<string, string>, userConfigDir: string, refused: set<string>)
    requires k < |ps| && AllInstalledAccepted(ps[..k], apps, refused)
    requires ps[k].desktopId in apps && !Accepted(ps[k], refused)
    ensures var out := Visit(ps, apps, userConfigDir, refused);
            && out.0 == Plan(ps[..k], apps, userConfigDir)
            && out.1 == if IsObjectPath(ObjPath(ps[k])) then Err(RegistrationFailed(ObjPath(ps[k])))
                        else Err(InvalidObjectPath(ObjPath(ps[k])))
  {
    VisitSucceedsIff(ps[..k], apps, userConfigDir, refused);
    VisitExportsPlanPrefix(ps[..k], apps, userConfigDir, refused);
    assert ps[..k + 1][..k] == ps[..k];
    VisitStopsAtError(ps, k + 1, apps, userConfigDir, refused);
  }

  /** The bus takes an object at `p`'s path: it is a valid object path and
      not one the bus rejects. */
  predicate Accepted(p: ProviderDefinition, refused: set<string>)
  {
    IsObjectPath(ObjPath(p)) && ObjPath(p) !in refused
  }

  predicate AllInstalledAccepted(ps: seq<ProviderDefinition>, apps: map<string, string>, refused: set<string>)
  {
    forall i :: 0 <= i < |ps| && ps[i].desktopId in apps ==> Accepted(ps[i], refused)
  }

  lemma AllInstalledAcceptedSnoc(ps: seq<ProviderDefinition>, apps: map<string, string>, refused: set<string>)
    requires ps != []
    ensures AllInstalledAccepted(ps, apps, refused) <==>
              && AllInstalledAccepted(ps[..|ps| - 1], apps, refused)
              && (ps[|ps| - 1].desktopId in apps ==> Accepted(ps[|ps| - 1], refused))
  {
    var n := |ps| - 1;
    assert forall i :: 0 <= i < n ==> ps[..n][i] == ps[i];
  }

  /** Registration succeeds exactly when every installed provider's path is a
      valid object path that the bus accepts. */
  lemma {:induction false} VisitSucceedsIff(ps: seq<ProviderDefinition>, apps: map<string, string>, userConfigDir: string, refused: set<string>)
    ensures Visit(ps, apps, userConfigDir, refused).1.Ok? <==> AllInstalledAccepted(ps, apps, refused)
  {
    if ps != [] {
      VisitSucceedsIff(ps[..|ps| - 1], apps, userConfigDir, refused);
      AllInstalledAcceptedSnoc(ps, apps, refused);
    }
  }

  /** Each provider is exported if and only if its application is installed,
      at its own object path, serving the application id the desktop database
      reported and the configuration directory named in the table. */
  lemma PlanExportsInstalled(ps: seq<ProviderDefinition>, apps: map<string, string>, userConfigDir: string)
    ensures forall reg :: reg in Plan(ps, apps, userConfigDir) <==>
              exists i :: 0 <= i < |ps| && ps[i].desktopId in apps && reg == Exported(ps[i], apps[ps[i].desktopId], userConfigDir)
  {
    PlanIsActivated(ps, apps, userConfigDir);
  }

  /** The object exported for `p` when its application id is `appId`. */
  function Exported(p: ProviderDefinition, appId: string, userConfigDir: string): (reg: Registration)
    ensures reg.path == ObjPath(p)
    ensures reg.provider.appId == appId && reg.provider.source.appId == appId
  {
    Registration(ObjPath(p), SearchProvider(appId, VscodeWorkspacesSource(appId, Paths.Join(userConfigDir, p.config.dirname))))
  }

  function Activations(ps: seq<ProviderDefinition>, apps: map<string, string>, userConfigDir: string): (xs: seq<Option<Registration>>)
    ensures |xs| == |ps| && forall i :: 0 <= i < |ps| ==> xs[i] == Activate(ps[i], apps, userConfigDir)
  {
    seq(|ps|, i requires 0 <= i < |ps| => Activate(ps[i], apps, userConfigDir))
  }

  lemma {:induction false} PlanIsSomes(ps: seq<ProviderDefinition>, apps: map<string, string>, userConfigDir: string)
    ensures Plan(ps, apps, userConfigDir) == Somes(Activations(ps, apps, userConfigDir))
  {
    if ps != [] {
      var n := |ps| - 1;
      PlanIsSomes(ps[..n], apps, userConfigDir);
      assert Activations(ps, apps, userConfigDir)[..n] == Activations(ps[..n], apps, userConfigDir);
    }
  }

  lemma PlanIsActivated(ps: seq<ProviderDefinition>, apps: map<string, string>, userConfigDir: string)
    ensures forall reg :: reg in Plan(ps, apps, userConfigDir) <==>
              exists i :: 0 <= i < |ps| && Activate(ps[i], apps, userConfigDir) == Some(reg)
  {
    PlanIsSomes(ps, apps, userConfigDir);
    SomesMembership(Activations(ps, apps, userConfigDir));
  }

  function RegisteredPaths(regs: seq<Registration>): (paths: seq<string>)
    ensures |paths| == |regs| && forall i :: 0 <= i < |regs| ==> paths[i] == regs[i].path
  {
    seq(|regs|, i requires 0 <= i < |regs| => regs[i].path)
  }

  /** With unique object paths in the table, no two exported objects share a
      path, so no query reaches the wrong editor. */
  lemma {:induction false} PlanPathsUnique(ps: seq<ProviderDefinition>, apps: map<string, string>, userConfigDir: string)
    requires NoDup(ObjPaths(ps))
    ensures NoDup(RegisteredPaths(Plan(ps, apps, userConfigDir)))
    ensures forall reg :: reg in Plan(ps, apps, userConfigDir) ==> reg.path in ObjPaths(ps)
  {
    if ps != [] {
      var n := |ps| - 1;
      var pre := ps[..n];
      assert NoDup(ObjPaths(pre)) by {
        forall i, j | 0 <= i < j < n ensures ObjPaths(pre)[i] != ObjPaths(pre)[j] {
          assert ObjPaths(ps)[i] != ObjPaths(ps)[j];
        }
      }
      PlanPathsUnique(pre, apps, userConfigDir);
      assert ObjPath(ps[n]) !in ObjPaths(pre) by {
        forall i | 0 <= i < n ensures ObjPaths(pre)[i] != ObjPath(ps[n]) {
          assert ObjPaths(ps)[i] != ObjPaths(ps)[n];
        }
      }
      forall x | x in ObjPaths(pre) ensures x in ObjPaths(ps) {
        var i :| 0 <= i < n && ObjPaths(pre)[i] == x;
        assert ObjPaths(ps)[i] == x;
      }
      assert ObjPaths(ps)[n] == ObjPath(ps[n]);
      var before := Plan(pre, apps, userConfigDir);
      var regs := Plan(ps, apps, userConfigDir);
      if ps[n].desktopId in apps {
        assert regs == before + [Activate(ps[n], apps, userConfigDir).value];
        forall i, j | 0 <= i < j < |regs| ensures RegisteredPaths(regs)[i] != RegisteredPaths(regs)[j] {
          if j < |before| {
            assert RegisteredPaths(before)[i] != RegisteredPaths(before)[j];
          } else {
            assert before[i] in before;
          }
        }
      } else {
        assert regs == before;
      }
    }
  }

  /** With no known application installed nothing is exported and
      registration still succeeds. */
  lemma {:induction false} NothingInstalled(ps: seq<ProviderDefinition>, apps: map<string, string>, userConfigDir: string, refused: set<string>)
    requires forall i :: 0 <= i < |ps| ==> ps[i].desktopId !in apps
    ensures Visit(ps, apps, userConfigDir, refused) == ([], Ok(()))
  {
    if ps != [] {
      NothingInstalled(ps[..|ps| - 1], apps, userConfigDir, refused);
    }
  }

  /** For the known providers: unless the bus rejects one of their paths,
      registration succeeds and exports exactly the installed editors, each at
      a path of its own. */
  lemma KnownProvidersRegister(apps: map<string, string>, userConfigDir: string, refused: set<string>)
    requires forall i :: 0 <= i < |PROVIDERS| ==> ObjPath(PROVIDERS[i]) !in refused
    ensures Visit(PROVIDERS, apps, userConfigDir, refused) == (Plan(PROVIDERS, apps, userConfigDir), Ok(()))
    ensures NoDup(RegisteredPaths(Plan(PROVIDERS, apps, userConfigDir)))
  {
    ObjPathsValid();
    assert AllInstalledAccepted(PROVIDERS, apps, refused);
    VisitSucceedsIff(PROVIDERS, apps, userConfigDir, refused);
    VisitExportsPlanPrefix(PROVIDERS, apps, userConfigDir, refused);
    ObjPathsUnique();
    PlanPathsUnique(PROVIDERS, apps, userConfigDir);
    var out := Visit(PROVIDERS, apps, userConfigDir, refused);
    assert out.1.value == ();
  }

  /** `start_dbus_service` up to the event loop: acquire the main context,
      connect to the session bus, register the providers, then request the
      bus name. Returns the exported objects, and the name requested if any. */
  method StartDbusService(
    contextAcquired: bool, sessionBus: bool, userConfigDir: Option<string>,
    apps: map<string, string>, refused: set<string>, nameAvailable: bool)
    returns (r: Result<seq<Registration>, Error>, requested: Option<string>)
    ensures !contextAcquired ==> r == Err(MainContextUnavailable) && requested == None
    ensures contextAcquired && !sessionBus ==> r == Err(SessionBusUnavailable) && requested == None
    ensures contextAcquired && sessionBus && userConfigDir.None? ==> r == Err(NoConfigDir) && requested == None
    ensures requested.Some? ==> && requested.value == BUSNAME
                                && userConfigDir.Some?
                                && Visit(PROVIDERS, apps, userConfigDir.value, refused).1.Ok?
    ensures r.Ok? <==> && contextAcquired && sessionBus && userConfigDir.Some?
                       && Visit(PROVIDERS, apps, userConfigDir.value, refused).1.Ok? && nameAvailable
    ensures r.Ok? ==> r.value == Plan(PROVIDERS, apps, userConfigDir.value)
    ensures requested.Some? <==> && contextAcquired && sessionBus && userConfigDir.Some?
                                 && Visit(PROVIDERS, apps, userConfigDir.value, refused).1.Ok?
    ensures contextAcquired && sessionBus && userConfigDir.Some?
            && Visit(PROVIDERS, apps, userConfigDir.value, refused).1.Err? ==>
              r == Err(Visit(PROVIDERS, apps, userConfigDir.value, refused).1.error)
    ensures requested.Some? && !nameAvailable ==> r == Err(NameNotAcquired(BUSNAME))
  {
    requested := None;
    if !contextAcquired {
      return Err(MainContextUnavailable), requested;
    }
    if !sessionBus {
      return Err(SessionBusUnavailable), requested;
    }
    var server := new ObjectServer(refused);
    var registered := RegisterSearchProviders(server, userConfigDir, apps);
    if registered.Err? {
      return Err(registered.error), requested;
    }
    VisitExportsPlanPrefix(PROVIDERS, apps, userConfigDir.value, refused);
    requested := Some(BUSNAME);
    if !nameAvailable {
      return Err(NameNotAcquired(BUSNAME)), requested;
    }
    return Ok(server.objects), requested;
  }
}
