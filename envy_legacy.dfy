/**
 * The older single-project script envy.py: fixed hosts and accounts, tokens
 * read from `travis.token` and `appveyor.token` when the module loads, one
 * Travis `try` block and one AppVeyor `try` block, exit 1 when either
 * raised. Its AppVeyor merge lets the remote value win and never encrypts;
 * its Travis update makes every variable private.
 */
module EnvyLegacy {
  import opened Wrappers
  import opened Text
  import opened PyDict
  import opened Http
  import Base
  import T = TravisAdapter
  import A = AppveyorAdapter
  import Envy

  const TravisHost := "https://api.travis-ci.org"
  const AppveyorHost := "https://ci.appveyor.com"
  /** The account on Travis and GitHub. */
  const Account := "bincrafters"
  /** The account in AppVeyor's environment-variables URL. */
  const AppveyorAccount := "BinCrafters"

  function TravisRepoUrl(slug: string): string
  {
    TravisHost + "/repo/" + Account + "%2F" + slug
  }

  function AppveyorProjectsUrl(): string
  {
    AppveyorHost + "/api/projects"
  }

  function AppveyorVarsUrl(slug: string): string
  {
    AppveyorHost + "/api/projects/" + AppveyorAccount + "/" + Replace(slug, '_', '-') + "/settings/environment-variables"
  }

  // ------------------------------------------------------------------- add

  /** `add_to_travis`: activate the project exactly when its `active` flag is false. */
  function AddToTravis(slug: string, server: T.Server): (s: Sent<T.Body>)
    ensures server.repo(TravisRepoUrl(slug)).Err? ==> s == Raised()
    ensures server.repo(TravisRepoUrl(slug)).Ok? ==> (s.trace != [] <==> !server.repo(TravisRepoUrl(slug)).value)
    ensures s.trace != [] ==> s.trace == [Request(POST, TravisRepoUrl(slug) + "/activate", T.NoBody, DefaultStatus)]
                              && (s.ok <==> server.accepts(s.trace[0]))
    ensures s.trace == [] && server.repo(TravisRepoUrl(slug)).Ok? ==> s.ok
  {
    var project := server.repo(TravisRepoUrl(slug));
    if project.Err? then Raised()
    else if project.value then Nothing()
    else Issue([Request(POST, TravisRepoUrl(slug) + "/activate", T.NoBody, DefaultStatus)], server.accepts)
  }

  /** What `add_to_appveyor` does: POST `bincrafters/<slug>` exactly when no listed project has that name. */
  function AddToAppveyorResult(slug: string, server: A.Server): (s: Sent<A.Body>)
    ensures server.projects(AppveyorProjectsUrl()).Err? ==> s == Raised()
    ensures server.projects(AppveyorProjectsUrl()).Ok? ==>
      (s.trace != [] <==> forall i :: 0 <= i < |server.projects(AppveyorProjectsUrl()).value| ==>
                             server.projects(AppveyorProjectsUrl()).value[i].repositoryName != Account + "/" + slug)
    ensures s.trace != [] ==>
      s.trace == [Request(POST, AppveyorProjectsUrl(), A.NewProject("gitHub", Account + "/" + slug), DefaultStatus)]
      && (s.ok <==> server.accepts(s.trace[0]))
    ensures s.trace == [] && server.projects(AppveyorProjectsUrl()).Ok? ==> s.ok
  {
    var listed := server.projects(AppveyorProjectsUrl());
    if listed.Err? then Raised()
    else if exists i :: 0 <= i < |listed.value| && listed.value[i].repositoryName == Account + "/" + slug then Nothing()
    else Issue([Request(POST, AppveyorProjectsUrl(), A.NewProject("gitHub", Account + "/" + slug), DefaultStatus)],
               server.accepts)
  }

  /** `add_to_appveyor`, with its `found` loop. */
  method AddToAppveyor(slug: string, server: A.Server) returns (s: Sent<A.Body>)
    ensures s == AddToAppveyorResult(slug, server)
  {
    var listed := server.projects(AppveyorProjectsUrl());
    if listed.Err? {
      return Raised();
    }
    var found := A.FindRepository(listed.value, Account + "/" + slug);
    if found {
      return Nothing();
    }
    s := Issue([Request(POST, AppveyorProjectsUrl(), A.NewProject("gitHub", Account + "/" + slug), DefaultStatus)],
               server.accepts);
  }

  // ---------------------------------------------------------------- Travis

  /** What `update_travis` does: the PATCH/POST plan with every variable private. */
  function UpdateTravisResult(slug: string, env: Dict<string, string>, server: T.Server): Sent<T.Body>
  {
    var listed := server.envVars(TravisRepoUrl(slug) + "/env_vars");
    if listed.Err? then Raised()
    else Issue(T.SyncPlan(TravisRepoUrl(slug), env, T.AllPrivate, T.IdsOf(listed.value)), server.accepts)
  }

  /** `update_travis`. */
  method UpdateTravis(slug: string, env: Dict<string, string>, server: T.Server) returns (s: Sent<T.Body>)
    ensures s == UpdateTravisResult(slug, env, server)
  {
    var listed := server.envVars(TravisRepoUrl(slug) + "/env_vars");
    if listed.Err? {
      return Raised();
    }
    s := T.SyncEnvVars(TravisRepoUrl(slug), env, T.AllPrivate, listed.value, server.accepts);
  }

  /**
   * Every write the old Travis update sends names a desired variable in
   * order, with its desired value and `public` false; a PATCH exactly when
   * the name is listed remotely, a POST expecting 201 otherwise.
   */
  lemma UpdateTravisAlwaysPrivate(slug: string, env: Dict<string, string>, server: T.Server)
    ensures var s := UpdateTravisResult(slug, env, server);
      && (server.envVars(TravisRepoUrl(slug) + "/env_vars").Err? ==> s == Raised())
      && (server.envVars(TravisRepoUrl(slug) + "/env_vars").Ok? && s.ok ==> |s.trace| == |env|)
      && |s.trace| <= |env|
      && forall i :: 0 <= i < |s.trace| ==>
           && s.trace[i].body == T.EnvVarBody(env[i].0, env[i].1, false)
           && (s.trace[i].verb == PATCH <==>
                 (server.envVars(TravisRepoUrl(slug) + "/env_vars").Ok?
                  && exists j :: 0 <= j < |server.envVars(TravisRepoUrl(slug) + "/env_vars").value|
                       && server.envVars(TravisRepoUrl(slug) + "/env_vars").value[j].name == env[i].0))
           && (s.trace[i].verb == PATCH ==>
                 exists j :: 0 <= j < |server.envVars(TravisRepoUrl(slug) + "/env_vars").value|
                   && server.envVars(TravisRepoUrl(slug) + "/env_vars").value[j].name == env[i].0
                   && s.trace[i].url == TravisRepoUrl(slug) + "/env_var/" + server.envVars(TravisRepoUrl(slug) + "/env_vars").value[j].id
                   && forall k :: j < k < |server.envVars(TravisRepoUrl(slug) + "/env_vars").value| ==>
                        server.envVars(TravisRepoUrl(slug) + "/env_vars").value[k].name != env[i].0)
           && (s.trace[i].verb == POST ==> s.trace[i].url == TravisRepoUrl(slug) + "/env_vars" && s.trace[i].expected == 201)
  {
    var listed := server.envVars(TravisRepoUrl(slug) + "/env_vars");
    if listed.Ok? {
      T.SyncIssuedMeaning(TravisRepoUrl(slug), env, T.AllPrivate, listed.value, server.accepts);
    }
  }

  // -------------------------------------------------------------- AppVeyor

  /** The value of the last listing of `name` in the remote variables, if any. */
  function LastRemoteValue(remote: seq<A.Var>, name: string): Option<string>
    decreases |remote|
  {
    if remote == [] then None
    else if remote[|remote| - 1].name == name then Some(remote[|remote| - 1].value.value)
    else LastRemoteValue(remote[..|remote| - 1], name)
  }

  /** No value means no listing of the name. */
  lemma {:induction false} LastRemoteAbsent(remote: seq<A.Var>, name: string)
    requires LastRemoteValue(remote, name).None?
    ensures forall i :: 0 <= i < |remote| ==> remote[i].name != name
    decreases |remote|
  {
    if remote != [] {
      var n := |remote| - 1;
      LastRemoteAbsent(remote[..n], name);
      forall i | 0 <= i < n ensures remote[i].name != name {
        assert remote[..n][i] == remote[i];
      }
    }
  }

  /** A value is that of the name's last listing. */
  lemma {:induction false} LastRemoteAt(remote: seq<A.Var>, name: string) returns (i: nat)
    requires LastRemoteValue(remote, name).Some?
    ensures i < |remote| && remote[i].name == name && remote[i].value.value == LastRemoteValue(remote, name).value
    ensures forall j :: i < j < |remote| ==> remote[j].name != name
    decreases |remote|
  {
    var n := |remote| - 1;
    if remote[n].name == name {
      i := n;
    } else {
      i := LastRemoteAt(remote[..n], name);
      assert remote[..n][i] == remote[i];
      forall j | i < j < |remote| ensures remote[j].name != name {
        if j < n {
          assert remote[..n][j] == remote[j];
        }
      }
    }
  }

  /** `LastRemoteValue` is the value of the last listing of the name, and nothing only when it is not listed. */
  lemma {:induction false} LastRemoteValueMeaning(remote: seq<A.Var>, name: string)
    ensures LastRemoteValue(remote, name).None? <==> forall i :: 0 <= i < |remote| ==> remote[i].name != name
    ensures LastRemoteValue(remote, name).Some? ==>
      exists i :: 0 <= i < |remote| && remote[i].name == name && remote[i].value.value == LastRemoteValue(remote, name).value
        && forall j :: i < j < |remote| ==> remote[j].name != name
  {
    if LastRemoteValue(remote, name).None? {
      LastRemoteAbsent(remote, name);
    } else {
      var i := LastRemoteAt(remote, name);
    }
  }

  /** `new_env_vars` after the loop over the remote variables: each remote value written over the desired ones. */
  function RemoteWins(env: Dict<string, string>, remote: seq<A.Var>): Dict<string, string>
    decreases |remote|
  {
    if remote == [] then env
    else Put(RemoteWins(env, remote[..|remote| - 1]), remote[|remote| - 1].name, remote[|remote| - 1].value.value)
  }

  /** The merged dict names no key twice and keeps the desired keys first, in their order. */
  lemma {:induction false} RemoteWinsUnique(env: Dict<string, string>, remote: seq<A.Var>)
    requires UniqueKeys(env)
    ensures UniqueKeys(RemoteWins(env, remote)) && Keys(env) <= Keys(RemoteWins(env, remote))
    decreases |remote|
  {
    if remote != [] {
      var n := |remote| - 1;
      RemoteWinsUnique(env, remote[..n]);
      var d0 := RemoteWins(env, remote[..n]);
      PutUnique(d0, remote[n].name, remote[n].value.value);
      if remote[n].name !in Keys(d0) {
        assert Keys(d0 + [(remote[n].name, remote[n].value.value)]) == Keys(d0) + [remote[n].name];
      }
    }
  }

  /** A name is merged iff it is desired or listed remotely. */
  lemma {:induction false} RemoteWinsNames(env: Dict<string, string>, remote: seq<A.Var>, name: string)
    ensures name in Keys(RemoteWins(env, remote)) <==> name in Keys(env) || name in A.Names(remote)
    decreases |remote|
  {
    if remote != [] {
      var n := |remote| - 1;
      var k, v := remote[n].name, remote[n].value.value;
      RemoteWinsNames(env, remote[..n], name);
      var d0 := RemoteWins(env, remote[..n]);
      assert A.Names(remote) == A.Names(remote[..n]) + [k];
      PutGet(d0, k, v);
      if name in Keys(Put(d0, k, v)) {
        PutKeys(d0, k, v, name);
      }
      if name != k && name in Keys(d0) {
        PutOthers(d0, k, v, name);
      }
    }
  }

  /**
   * A merged name has the value of its last remote listing; a name never
   * listed remotely is a desired one and keeps its desired value.
   */
  lemma {:induction false} RemoteWinsValue(env: Dict<string, string>, remote: seq<A.Var>, name: string)
    requires name in Keys(RemoteWins(env, remote))
    ensures match LastRemoteValue(remote, name)
      case Some(v) => Get(RemoteWins(env, remote), name) == v
      case None => name in Keys(env) && Get(RemoteWins(env, remote), name) == Get(env, name)
    decreases |remote|
  {
    if remote != [] {
      var n := |remote| - 1;
      var k, v := remote[n].name, remote[n].value.value;
      var d0 := RemoteWins(env, remote[..n]);
      if name == k {
        PutGet(d0, k, v);
      } else {
        PutKeys(d0, k, v, name);
        PutOthers(d0, k, v, name);
        RemoteWinsValue(env, remote[..n], name);
      }
    }
  }

  /**
   * The old merge: one entry per name in desired ∪ remote, the desired names
   * first and in their order; a remote name has the value of its last
   * listing, any other name is desired and has its desired value.
   */
  lemma RemoteWinsMeaning(env: Dict<string, string>, remote: seq<A.Var>, name: string)
    requires UniqueKeys(env)
    ensures var d := RemoteWins(env, remote);
      && UniqueKeys(d)
      && Keys(env) <= Keys(d)
      && (name in Keys(d) <==> name in Keys(env) || name in A.Names(remote))
      && (name in Keys(d) ==> match LastRemoteValue(remote, name)
                                case Some(v) => Get(d, name) == v
                                case None => name in Keys(env) && Get(d, name) == Get(env, name))
  {
    RemoteWinsUnique(env, remote);
    RemoteWinsNames(env, remote, name);
    if name in Keys(RemoteWins(env, remote)) {
      RemoteWinsValue(env, remote, name);
    }
  }

  /** The request body: every entry as a plain (`isEncrypted` false) variable, in dict order. */
  function PlainVars(d: Dict<string, string>): (vars: seq<A.Var>)
    ensures A.Names(vars) == Keys(d)
    ensures forall i :: 0 <= i < |d| ==> vars[i].value == A.VarValue(d[i].1, false)
  {
    seq(|d|, i requires 0 <= i < |d| => A.Var(d[i].0, A.VarValue(d[i].1, false)))
  }

  /** What `update_appveyor` does: one PUT of the plain merged variables, expecting 204. */
  function UpdateAppveyorResult(slug: string, env: Dict<string, string>, server: A.Server): Sent<A.Body>
  {
    var listed := server.envVars(AppveyorVarsUrl(slug));
    if listed.Err? then Raised()
    else Issue([Request(PUT, AppveyorVarsUrl(slug), A.Vars(PlainVars(RemoteWins(env, listed.value))), 204)],
               server.accepts)
  }

  /** `update_appveyor`, with its two loops. */
  method UpdateAppveyor(slug: string, env: Dict<string, string>, server: A.Server) returns (s: Sent<A.Body>)
    ensures s == UpdateAppveyorResult(slug, env, server)
  {
    var url := AppveyorVarsUrl(slug);
    var listed := server.envVars(url);
    if listed.Err? {
      return Raised();
    }
    var merged := OverwriteWithRemote(env, listed.value);
    var request := PlainRequest(merged);
    s := Issue([Request(PUT, url, A.Vars(request), 204)], server.accepts);
  }

  /** The loop of `update_appveyor` that writes each remote value over the desired ones. */
  method OverwriteWithRemote(env: Dict<string, string>, remote: seq<A.Var>) returns (merged: Dict<string, string>)
    ensures merged == RemoteWins(env, remote)
  {
    merged := env;
    for i := 0 to |remote|
      invariant merged == RemoteWins(env, remote[..i])
    {
      assert remote[..i + 1][..i] == remote[..i];
      merged := Put(merged, remote[i].name, remote[i].value.value);
    }
    assert remote[..|remote|] == remote;
  }

  /** The loop of `update_appveyor` that turns the merged dict into the request body. */
  method PlainRequest(merged: Dict<string, string>) returns (request: seq<A.Var>)
    ensures request == PlainVars(merged)
  {
    request := [];
    for i := 0 to |merged|
      invariant request == PlainVars(merged[..i])
    {
      request := request + [A.Var(merged[i].0, A.VarValue(merged[i].1, false))];
    }
    assert merged[..|merged|] == merged;
  }

  // ------------------------------------------------------------------ main

  /** The Travis `try` block: add, then update. */
  function TravisBlock(slug: string, env: Dict<string, string>, server: T.Server): Sent<T.Body>
  {
    Then(AddToTravis(slug, server), UpdateTravisResult(slug, env, server))
  }

  /** The AppVeyor `try` block: add, then update. */
  function AppveyorBlock(slug: string, env: Dict<string, string>, server: A.Server): Sent<A.Body>
  {
    Then(AddToAppveyorResult(slug, server), UpdateAppveyorResult(slug, env, server))
  }

  /** The Travis `try` block as the script runs it. */
  method RunTravisBlock(slug: string, env: Dict<string, string>, server: T.Server) returns (s: Sent<T.Body>)
    ensures s == TravisBlock(slug, env, server)
  {
    s := AddToTravis(slug, server);
    if s.ok {
      var updated := UpdateTravis(slug, env, server);
      s := Then(s, updated);
    }
  }

  /** The AppVeyor `try` block as the script runs it. */
  method RunAppveyorBlock(slug: string, env: Dict<string, string>, server: A.Server) returns (s: Sent<A.Body>)
    ensures s == AppveyorBlock(slug, env, server)
  {
    s := AddToAppveyor(slug, server);
    if s.ok {
      var updated := UpdateAppveyor(slug, env, server);
      s := Then(s, updated);
    }
  }

  /** The two `try` blocks of `__main__`: whether one raised, and the writes of both. */
  method RunBlocks(slug: string, skipTravis: bool, skipAppveyor: bool, env: Dict<string, string>,
                   travis: T.Server, appveyor: A.Server) returns (failed: bool, trace: seq<Envy.Write>)
    ensures var t := if skipTravis then Nothing() else TravisBlock(slug, env, travis);
      var a := if skipAppveyor then Nothing() else AppveyorBlock(slug, env, appveyor);
      && (failed <==> !t.ok || !a.ok)
      && trace == Envy.TravisWrites(t.trace) + Envy.AppveyorWrites(a.trace)
  {
    failed := false;
    var t: Sent<T.Body> := Nothing();
    if !skipTravis {
      t := RunTravisBlock(slug, env, travis);
      if !t.ok {
        failed := true;
      }
    }
    var a: Sent<A.Body> := Nothing();
    if !skipAppveyor {
      a := RunAppveyorBlock(slug, env, appveyor);
      if !a.ok {
        failed := true;
      }
    }
    trace := Envy.TravisWrites(t.trace) + Envy.AppveyorWrites(a.trace);
  }

  /**
   * Loading the module and running `__main__`: a missing token file raises
   * at import whatever is skipped; `env.ini` without `[env]` raises; then
   * each provider not skipped runs its block, the AppVeyor block whatever
   * the Travis block did, and the exit code is 1 exactly when a block raised.
   */
  method Run(slug: string, skipTravis: bool, skipAppveyor: bool, config: Base.Config, files: Base.Files,
             travis: T.Server, appveyor: A.Server) returns (outcome: Envy.Outcome, trace: seq<Envy.Write>)
    requires Base.WellFormed(config)
    ensures "appveyor.token" !in files || "travis.token" !in files || "env" !in config ==>
      outcome.Crash? && trace == []
    ensures "appveyor.token" in files && "travis.token" in files && "env" in config ==>
      var t := if skipTravis then Nothing() else TravisBlock(slug, config["env"], travis);
      var a := if skipAppveyor then Nothing() else AppveyorBlock(slug, config["env"], appveyor);
      && outcome == Envy.Exit(if t.ok && a.ok then 0 else 1)
      && trace == Envy.TravisWrites(t.trace) + Envy.AppveyorWrites(a.trace)
  {
    if "appveyor.token" !in files {
      return Envy.Crash("FileNotFoundError: appveyor.token"), [];
    }
    if "travis.token" !in files {
      return Envy.Crash("FileNotFoundError: travis.token"), [];
    }
    var envVars := Envy.BuildEnv(config, []);
    if envVars.Err? {
      return Envy.Crash(envVars.error), [];
    }
    assert envVars.value == config["env"];
    var failed;
    failed, trace := RunBlocks(slug, skipTravis, skipAppveyor, envVars.value, travis, appveyor);
    outcome := Envy.Exit(if failed then 1 else 0);
  }
}
