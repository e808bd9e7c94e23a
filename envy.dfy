/**
 * The command-line script bincrafters_envy/bincrafters_envy.py: for each
 * project named on the command line, and for each provider not skipped
 * (Travis CI, AppVeyor), either add the project and reconcile its
 * environment variables, or remove the listed projects that match a glob.
 * Each (project, provider) pair runs in its own `try` block; a failure sets
 * a sticky flag that decides the exit code and never stops later pairs.
 */
module Envy {
  import opened Wrappers
  import opened Text
  import opened PyDict
  import opened Http
  import Glob
  import Base
  import T = TravisAdapter
  import A = AppveyorAdapter
  import opened Seqs

  const Version := "0.1.3"
  const DefaultTravisHost := "https://api.travis-ci.com"
  const DefaultAppveyorHost := "https://ci.appveyor.com"

  /** The parsed command line (`-c` is folded into whether the configuration file exists). */
  datatype Args = Args(projects: seq<string>, skipTravis: bool, skipAppveyor: bool, remove: bool, force: bool,
                       travisTokenFile: string, appveyorTokenFile: string, env: seq<string>,
                       travisHost: string, appveyorHost: string)

  /** One write of a run, tagged with its provider. */
  datatype Write = TravisWrite(travis: Request<T.Body>) | AppveyorWrite(appveyor: Request<A.Body>)

  /** How the process ends: `sys.exit(code)`, or an exception nobody catches. */
  datatype Outcome = Exit(code: int) | Crash(reason: string)

  // ---------------------------------------------------------------- tokens

  /** `travis_token(config, filename)`. */
  function TravisToken(config: Base.Config, filename: string, environ: Base.Environ, files: Base.Files): Result<string>
  {
    Base.ResolveToken(config, "travis", "TRAVIS_TOKEN", filename, environ, files)
  }

  /** `appveyor_token(config, filename)`. */
  function AppveyorToken(config: Base.Config, filename: string, environ: Base.Environ, files: Base.Files): Result<string>
  {
    Base.ResolveToken(config, "appveyor", "APPVEYOR_TOKEN", filename, environ, files)
  }

  /** With the default token files, the script resolves tokens exactly as the adapters' `_read_token` does. */
  lemma ScriptTokensAgreeWithAdapters(config: Base.Config, environ: Base.Environ, files: Base.Files)
    ensures TravisToken(config, "travis.token", environ, files) == Base.ReadToken(config, T.Name, environ, files)
    ensures AppveyorToken(config, "appveyor.token", environ, files) == Base.ReadToken(config, A.Name, environ, files)
  {
    assert T.Name == "travis" && A.Name == "appveyor";
    assert Base.TokenVariable(T.Name) == "TRAVIS_TOKEN" && Base.TokenFile(T.Name) == "travis.token";
    assert Base.TokenVariable(A.Name) == "APPVEYOR_TOKEN" && Base.TokenFile(A.Name) == "appveyor.token";
  }

  // ---------------------------------------------------------- the variables

  /** `k, v = e.split('=')`: raises unless `e` holds exactly one `=`. */
  function KeyValue(e: string): (r: Result<(string, string)>)
    ensures r.Ok? <==> |Split(e, '=')| == 2
    ensures r.Ok? ==> e == r.value.0 + "=" + r.value.1 && '=' !in r.value.0 && '=' !in r.value.1
  {
    var parts := Split(e, '=');
    if |parts| == 2 then
      JoinSplit(e, '=');
      assert parts[1..] == [parts[1]];
      Ok((parts[0], parts[1]))
    else Err("ValueError: expected one '=' in " + e)
  }

  /** `k=v` with no `=` in either part reads back as `(k, v)`. */
  lemma KeyValueRoundTrip(k: string, v: string)
    requires '=' !in k && '=' !in v
    ensures KeyValue(k + "=" + v) == Ok((k, v))
  {
    assert k + "=" + v == k + ['='] + v;
    SplitPair(k, v, '=');
  }

  /** A value holding `=` cannot be passed with `-e`: the unpacking raises. */
  lemma ValueWithEqualsRaises()
    ensures KeyValue("A=B=C").Err?
  {
    assert Split("", '=') == [""];
    assert "C"[1..] == "" && ['C'] + "" == "C";
    assert Split("C", '=') == ["C"];
    assert "=C"[1..] == "C";
    assert Split("=C", '=') == ["", "C"];
    assert "B=C"[1..] == "=C" && ['B'] + "" == "B";
    assert Split("B=C", '=') == ["B", "C"];
    assert "=B=C"[1..] == "B=C";
    assert Split("=B=C", '=') == ["", "B", "C"];
    assert "A=B=C"[1..] == "=B=C" && ['A'] + "" == "A";
    assert Split("A=B=C", '=') == ["A", "B", "C"];
  }

  /** The dict after the `-e` loop: each assignment in order over the `[env]` entries. */
  function WithOverrides(env: Dict<string, string>, extra: seq<string>): (r: Result<Dict<string, string>>)
    ensures r.Ok? <==> forall i :: 0 <= i < |extra| ==> KeyValue(extra[i]).Ok?
    decreases |extra|
  {
    if extra == [] then Ok(env)
    else
      var init := extra[..|extra| - 1];
      assert forall i :: 0 <= i < |init| ==> init[i] == extra[i];
      match WithOverrides(env, init)
      case Err(e) => Err(e)
      case Ok(d) =>
        match KeyValue(extra[|extra| - 1])
        case Err(e) => Err(e)
        case Ok(kv) => Ok(Put(d, kv.0, kv.1))
  }

  /** The value the last `-e` assignment to `k` gives, if any assigns it. */
  function LastAssigned(extra: seq<string>, k: string): (r: Option<string>)
    requires forall i :: 0 <= i < |extra| ==> KeyValue(extra[i]).Ok?
    ensures r.None? <==> forall i :: 0 <= i < |extra| ==> KeyValue(extra[i]).value.0 != k
    ensures r.Some? ==> exists i :: 0 <= i < |extra| && KeyValue(extra[i]).value == (k, r.value)
                                    && forall j :: i < j < |extra| ==> KeyValue(extra[j]).value.0 != k
    decreases |extra|
  {
    if extra == [] then None
    else
      var n := |extra| - 1;
      var kv := KeyValue(extra[n]).value;
      if kv.0 == k then Some(kv.1)
      else
        var init := extra[..n];
        assert forall i :: 0 <= i < n ==> init[i] == extra[i];
        LastAssigned(init, k)
  }

  /**
   * The desired variables: the `[env]` names and the assigned ones, no name
   * twice; an assigned name has its last assigned value, any other name its
   * `[env]` value.
   */
  lemma {:induction false} OverridesMeaning(env: Dict<string, string>, extra: seq<string>, k: string)
    requires UniqueKeys(env) && WithOverrides(env, extra).Ok?
    ensures var d := WithOverrides(env, extra).value;
      && UniqueKeys(d)
      && (k in Keys(d) <==> k in Keys(env) || LastAssigned(extra, k).Some?)
      && (k in Keys(d) ==> Get(d, k) == match LastAssigned(extra, k) case Some(v) => v case None => Get(env, k))
    decreases |extra|
  {
    if extra != [] {
      var init := extra[..|extra| - 1];
      assert forall i :: 0 <= i < |init| ==> init[i] == extra[i];
      OverridesMeaning(env, init, k);
      var d0 := WithOverrides(env, init).value;
      var kv := KeyValue(extra[|extra| - 1]).value;
      var d := Put(d0, kv.0, kv.1);
      assert WithOverrides(env, extra).value == d;
      PutUnique(d0, kv.0, kv.1);
      PutGet(d0, kv.0, kv.1);
      if k in Keys(d) {
        PutKeys(d0, kv.0, kv.1, k);
      }
      if k != kv.0 && k in Keys(d0) {
        PutOthers(d0, kv.0, kv.1, k);
      }
    }
  }

  /**
   * The two loops of `main` that build `env_vars`: copy the `[env]` section
   * (raising `KeyError` when there is none), then apply each `-e k=v`.
   */
  method BuildEnv(config: Base.Config, extra: seq<string>) returns (r: Result<Dict<string, string>>)
    requires Base.WellFormed(config)
    ensures "env" !in config ==> r.Err?
    ensures "env" in config ==> (r.Ok? <==> WithOverrides(config["env"], extra).Ok?)
    ensures "env" in config && r.Ok? ==> r.value == WithOverrides(config["env"], extra).value
  {
    if "env" !in config {
      return Err("KeyError: 'env'");
    }
    var section := config["env"];
    var envVars: Dict<string, string> := [];
    for i := 0 to |section|
      invariant envVars == section[..i]
    {
      var k, v := section[i].0, section[i].1;
      assert k !in Keys(envVars) by {
        forall j | 0 <= j < i ensures Keys(envVars)[j] != k {
          assert Keys(envVars)[j] == section[j].0;
        }
      }
      envVars := Put(envVars, k, v);
      assert section[..i + 1] == section[..i] + [section[i]];
    }
    assert section[..|section|] == section;
    for j := 0 to |extra|
      invariant WithOverrides(section, extra[..j]) == Ok(envVars)
    {
      var parts := Split(extra[j], '=');
      if |parts| != 2 {
        return Err("ValueError: expected one '=' in " + extra[j]);
      }
      assert extra[..j + 1][..j] == extra[..j];
      assert extra[..j + 1][j] == extra[j];
      envVars := Put(envVars, parts[0], parts[1]);
    }
    assert extra[..|extra|] == extra;
    r := Ok(envVars);
  }

  /** The loop of `main` that collects `encrypted_vars`: the names of the `[encrypted]` section, in order. */
  method EncryptedNames(section: Base.Section) returns (names: seq<string>)
    ensures names == Keys(section)
  {
    names := [];
    for i := 0 to |section|
      invariant names == Keys(section[..i])
    {
      names := names + [section[i].0];
    }
    assert section[..|section|] == section;
  }

  /** The keys `main` reads from an `[account]` section. */
  predicate HasAccounts(config: Base.Config)
  {
    "account" in config ==> "travis" in Keys(config["account"]) && "appveyor" in Keys(config["account"])
                            && "github" in Keys(config["account"])
  }

  /**
   * What `main` reads before the project loop, or why it raises first: a
   * token for each provider not skipped, the desired variables, the
   * encrypted names, and every key of an `[account]` section.
   */
  function Setup(args: Args, config: Base.Config, environ: Base.Environ, files: Base.Files)
    : (r: Result<(Dict<string, string>, seq<string>)>)
    requires Base.WellFormed(config)
    ensures r.Ok? <==> (args.skipTravis || TravisToken(config, args.travisTokenFile, environ, files).Ok?)
                       && (args.skipAppveyor || AppveyorToken(config, args.appveyorTokenFile, environ, files).Ok?)
                       && "env" in config && WithOverrides(config["env"], args.env).Ok?
                       && "encrypted" in config && HasAccounts(config)
    ensures r.Ok? ==> UniqueKeys(r.value.0) && r.value.0 == WithOverrides(config["env"], args.env).value
                      && r.value.1 == Keys(config["encrypted"])
  {
    if !args.skipTravis && TravisToken(config, args.travisTokenFile, environ, files).Err? then
      Err(TravisToken(config, args.travisTokenFile, environ, files).error)
    else if !args.skipAppveyor && AppveyorToken(config, args.appveyorTokenFile, environ, files).Err? then
      Err(AppveyorToken(config, args.appveyorTokenFile, environ, files).error)
    else if "env" !in config then Err("KeyError: 'env'")
    else if WithOverrides(config["env"], args.env).Err? then Err(WithOverrides(config["env"], args.env).error)
    else if "encrypted" !in config then Err("KeyError: 'encrypted'")
    else if !HasAccounts(config) then Err("KeyError: account")
    else
      OverridesMeaning(config["env"], args.env, "");
      Ok((WithOverrides(config["env"], args.env).value, Keys(config["encrypted"])))
  }

  // -------------------------------------------------------------- removal

  /**
   * The tail of `remove_from_travis` / `remove_from_appveyor` once the
   * matching projects are `selected`: nothing when none match; otherwise
   * the removals when forced or confirmed at the prompt, nothing when
   * declined, and a raise when input runs out before an answer. Returns the
   * input left to read.
   */
  function Removal<B>(selected: seq<string>, force: bool, input: seq<string>, plan: seq<Request<B>>,
                      accepts: Request<B> -> bool): (r: (Sent<B>, seq<string>))
    ensures selected == [] ==> r == (Nothing(), input)
    ensures selected != [] && (force || Base.Answer(input) == Some(true)) ==> r.0 == Issue(plan, accepts)
    ensures r.0.trace != [] ==> selected != [] && (force || Base.Answer(input) == Some(true))
    ensures selected != [] && !force && Base.Answer(input).None? ==> r.0 == Raised()
    ensures selected != [] && !force && Base.Answer(input) == Some(false) ==> r.0 == Nothing()
    ensures r.1 == if selected == [] || force then input else Base.AfterAnswer(input)
  {
    if selected == [] then (Nothing(), input)
    else if force then (Issue(plan, accepts), input)
    else match Base.Answer(input)
      case None => (Raised(), [])
      case Some(yes) => (if yes then Issue(plan, accepts) else Nothing(), Base.AfterAnswer(input))
  }

  /** Every write a removal sends is the planned write at the same position. */
  lemma RemovalWrites<B>(selected: seq<string>, force: bool, input: seq<string>, plan: seq<Request<B>>,
                         accepts: Request<B> -> bool)
    ensures var r := Removal(selected, force, input, plan, accepts);
      |r.0.trace| <= |plan| && forall i :: 0 <= i < |r.0.trace| ==> r.0.trace[i] == plan[i]
  {
    var r := Removal(selected, force, input, plan, accepts);
    assert r.0.trace <= plan;
    assert r.0.trace == plan[..|r.0.trace|];
  }

  // ------------------------------------------------------------------ a run

  /** Each provider's writes, tagged. */
  function TravisWrites(t: seq<Request<T.Body>>): (w: seq<Write>)
    ensures |w| == |t| && forall i :: 0 <= i < |t| ==> w[i] == TravisWrite(t[i])
  {
    seq(|t|, i requires 0 <= i < |t| => TravisWrite(t[i]))
  }

  function AppveyorWrites(a: seq<Request<A.Body>>): (w: seq<Write>)
    ensures |w| == |a| && forall i :: 0 <= i < |a| ==> w[i] == AppveyorWrite(a[i])
  {
    seq(|a|, i requires 0 <= i < |a| => AppveyorWrite(a[i]))
  }

  /**
   * The state the project loop carries: the sticky `failed` flag, the writes
   * so far, the input left to read, and whether each pair returned normally.
   */
  datatype Progress = Progress(failed: bool, trace: seq<Write>, input: seq<string>, results: seq<bool>)

  /** Recording one `try` block: whether it returned normally, its writes, and the input it left. */
  function Record(p: Progress, ok: bool, writes: seq<Write>, rest: seq<string>): (r: Progress)
    ensures r.results == p.results + [ok] && (r.failed <==> p.failed || !ok)
    ensures r.trace == p.trace + writes && r.input == rest
  {
    Progress(p.failed || !ok, p.trace + writes, rest, p.results + [ok])
  }

  /** How many providers each project is run against. */
  function Enabled(args: Args): nat
  {
    (if args.skipTravis then 0 else 1) + (if args.skipAppveyor then 0 else 1)
  }

  /** Module state the script keeps in `this`, and the script's operations over it. */
  class Session {
    var travisHost: string
    var appveyorHost: string
    var travisToken: string      // carried by `travis_headers`
    var appveyorToken: string    // carried by `appveyor_headers`
    var travisAccount: string
    var appveyorAccount: string
    var githubAccount: string
    var appveyorV2Api: bool

    /** The module as imported. */
    constructor()
      ensures travisHost == "" && appveyorHost == "" && travisToken == "" && appveyorToken == ""
      ensures travisAccount == "bincrafters" && appveyorAccount == "BinCrafters" && githubAccount == "bincrafters"
      ensures !appveyorV2Api
    {
      travisHost, appveyorHost := "", "";
      travisToken, appveyorToken := "", "";
      travisAccount, appveyorAccount, githubAccount := "bincrafters", "BinCrafters", "bincrafters";
      appveyorV2Api := false;
    }

    // ----------------------------------------------------------------- URLs

    /** `appveyor_endpoint()`: account-scoped for a `v2.0` token. */
    function AppveyorEndpoint(): string
      reads this
    {
      A.EndpointFor(appveyorV2Api, appveyorHost, appveyorAccount)
    }

    function TravisRepoUrl(slug: string): string
      reads this
    {
      travisHost + "/repo/" + travisAccount + "%2F" + slug
    }

    /** `travis_activate`'s URL: here the suffix is appended to the project URL either way. */
    function TravisActivateUrl(slug: string, activate: bool): string
      reads this
    {
      TravisRepoUrl(slug) + (if activate then "/activate" else "/deactivate")
    }

    function TravisOwnerUrl(): string
      reads this
    {
      travisHost + "/owner/" + travisAccount + "/repos"
    }

    function AppveyorProjectsUrl(): string
      reads this
    {
      AppveyorEndpoint() + "/projects"
    }

    /** `update_appveyor`'s URL: always under `<host>/api`, with `_` in the slug replaced by `-`. */
    function AppveyorVarsUrl(slug: string): string
      reads this
    {
      appveyorHost + "/api/projects/" + appveyorAccount + "/" + Replace(slug, '_', '-') + "/settings/environment-variables"
    }

    function AppveyorProjectUrl(slug: string): string
      reads this
    {
      appveyorHost + "/api/projects/" + appveyorAccount + "/" + slug
    }

    function GithubRepository(slug: string): string
      reads this
    {
      githubAccount + "/" + slug
    }

    // ------------------------------------------------------------------ add

    /** `add_to_travis`: activate the project exactly when its `active` flag is false. */
    function AddToTravis(slug: string, server: T.Server): (s: Sent<T.Body>)
      reads this
      ensures server.repo(TravisRepoUrl(slug)).Err? ==> s == Raised()
      ensures server.repo(TravisRepoUrl(slug)).Ok? ==> (s.trace != [] <==> !server.repo(TravisRepoUrl(slug)).value)
      ensures s.trace != [] ==> s.trace == [Request(POST, TravisRepoUrl(slug) + "/activate", T.NoBody, DefaultStatus)]
                                && (s.ok <==> server.accepts(s.trace[0]))
      ensures s.trace == [] && server.repo(TravisRepoUrl(slug)).Ok? ==> s.ok
    {
      var project := server.repo(TravisRepoUrl(slug));
      if project.Err? then Raised()
      else if project.value then Nothing()
      else Issue([Request(POST, TravisActivateUrl(slug, true), T.NoBody, DefaultStatus)], server.accepts)
    }

    /** What `add_to_appveyor` does: POST the repository exactly when no listed project has its name. */
    function AddToAppveyorResult(slug: string, server: A.Server): (s: Sent<A.Body>)
      reads this
      ensures server.projects(AppveyorProjectsUrl()).Err? ==> s == Raised()
      ensures server.projects(AppveyorProjectsUrl()).Ok? ==>
        (s.trace != [] <==> forall i :: 0 <= i < |server.projects(AppveyorProjectsUrl()).value| ==>
                               server.projects(AppveyorProjectsUrl()).value[i].repositoryName != githubAccount + "/" + slug)
      ensures s.trace != [] ==>
        s.trace == [Request(POST, AppveyorProjectsUrl(), A.NewProject("gitHub", githubAccount + "/" + slug), DefaultStatus)]
        && (s.ok <==> server.accepts(s.trace[0]))
      ensures s.trace == [] && server.projects(AppveyorProjectsUrl()).Ok? ==> s.ok
    {
      var listed := server.projects(AppveyorProjectsUrl());
      if listed.Err? then Raised()
      else if exists i :: 0 <= i < |listed.value| && listed.value[i].repositoryName == GithubRepository(slug) then Nothing()
      else Issue([Request(POST, AppveyorProjectsUrl(), A.NewProject("gitHub", GithubRepository(slug)), DefaultStatus)],
                 server.accepts)
    }

    /** `add_to_appveyor`, with its `found` loop. */
    method AddToAppveyor(slug: string, server: A.Server) returns (s: Sent<A.Body>)
      ensures s == AddToAppveyorResult(slug, server)
    {
      var listed := server.projects(AppveyorProjectsUrl());
      if listed.Err? {
        return Raised();
      }
      var repositoryName := githubAccount + "/" + slug;
      var found := A.FindRepository(listed.value, repositoryName);
      if found {
        return Nothing();
      }
      s := Issue([Request(POST, AppveyorProjectsUrl(), A.NewProject("gitHub", repositoryName), DefaultStatus)], server.accepts);
    }

    // --------------------------------------------------------------- update

    /** What `update_travis` does: the Travis adapter's PATCH/POST plan under the script's URLs. */
    function UpdateTravisResult(slug: string, env: Dict<string, string>, encrypted: seq<string>, server: T.Server)
      : Sent<T.Body>
      reads this
    {
      var listed := server.envVars(TravisRepoUrl(slug) + "/env_vars");
      if listed.Err? then Raised()
      else Issue(T.SyncPlan(TravisRepoUrl(slug), env, T.PublicUnlessEncrypted(encrypted), T.IdsOf(listed.value)),
                 server.accepts)
    }

    /** `update_travis`. */
    method UpdateTravis(slug: string, env: Dict<string, string>, encrypted: seq<string>, server: T.Server)
      returns (s: Sent<T.Body>)
      ensures s == UpdateTravisResult(slug, env, encrypted, server)
    {
      var listed := server.envVars(TravisRepoUrl(slug) + "/env_vars");
      if listed.Err? {
        return Raised();
      }
      s := T.SyncEnvVars(TravisRepoUrl(slug), env, T.PublicUnlessEncrypted(encrypted), listed.value, server.accepts);
    }

    /**
     * `update_travis` sends one write per desired name, in dict order, and
     * none for a name only listed remotely: the desired value, `public`
     * exactly when the name is not encrypted, a PATCH to the id of the name's
     * last remote listing when it has one, a POST expecting 201 otherwise.
     */
    lemma UpdateTravisMeaning(slug: string, env: Dict<string, string>, encrypted: seq<string>, server: T.Server)
      ensures var s := UpdateTravisResult(slug, env, encrypted, server);
              var listed := server.envVars(TravisRepoUrl(slug) + "/env_vars");
        && (listed.Err? ==> s == Raised())
        && (listed.Ok? && s.ok ==> |s.trace| == |env|)
        && |s.trace| <= |env|
        && forall i :: 0 <= i < |s.trace| ==>
             && listed.Ok?
             && s.trace[i].body == T.EnvVarBody(env[i].0, env[i].1, env[i].0 !in encrypted)
             && (s.trace[i].verb == PATCH <==> exists j :: 0 <= j < |listed.value| && listed.value[j].name == env[i].0)
             && (s.trace[i].verb == PATCH ==>
                   exists j :: 0 <= j < |listed.value| && listed.value[j].name == env[i].0
                     && s.trace[i].url == TravisRepoUrl(slug) + "/env_var/" + listed.value[j].id
                     && forall k :: j < k < |listed.value| ==> listed.value[k].name != env[i].0)
             && (s.trace[i].verb == POST ==> s.trace[i].url == TravisRepoUrl(slug) + "/env_vars" && s.trace[i].expected == 201)
    {
      var listed := server.envVars(TravisRepoUrl(slug) + "/env_vars");
      if listed.Ok? {
        T.SyncIssuedMeaning(TravisRepoUrl(slug), env, T.PublicUnlessEncrypted(encrypted), listed.value, server.accepts);
      }
    }

    /** What `update_appveyor` does: one PUT of the merged variables, expecting 204. */
    function UpdateAppveyorResult(slug: string, env: Dict<string, string>, encrypted: seq<string>, server: A.Server)
      : Sent<A.Body>
      reads this
    {
      var listed := server.envVars(AppveyorVarsUrl(slug));
      if listed.Err? then Raised()
      else Issue([Request(PUT, AppveyorVarsUrl(slug), A.Vars(A.Merged(env, encrypted, server.encrypt, listed.value)), 204)],
                 server.accepts)
    }

    /**
     * `update_appveyor` writes once: a PUT to the settings URL, expecting 204,
     * whose body names every desired and every remote variable exactly once.
     */
    lemma UpdateAppveyorMeaning(slug: string, env: Dict<string, string>, encrypted: seq<string>, server: A.Server,
                                name: string)
      requires UniqueKeys(env)
      ensures var s := UpdateAppveyorResult(slug, env, encrypted, server);
              var listed := server.envVars(AppveyorVarsUrl(slug));
        && (listed.Err? ==> s == Raised())
        && (listed.Ok? ==>
              && |s.trace| == 1 && s.trace[0].verb == PUT && s.trace[0].url == AppveyorVarsUrl(slug)
              && s.trace[0].expected == 204 && s.trace[0].body.Vars? && (s.ok <==> server.accepts(s.trace[0]))
              && A.UniqueNames(s.trace[0].body.vars)
              && (name in A.Names(s.trace[0].body.vars) <==> name in Keys(env) || name in A.Names(listed.value)))
    {
      var listed := server.envVars(AppveyorVarsUrl(slug));
      if listed.Ok? {
        A.MergedUnique(env, encrypted, server.encrypt, listed.value);
        A.MergedNames(env, encrypted, server.encrypt, listed.value, name);
      }
    }

    /** `update_appveyor`, with its merge loops. */
    method UpdateAppveyor(slug: string, env: Dict<string, string>, encrypted: seq<string>, server: A.Server)
      returns (s: Sent<A.Body>)
      requires UniqueKeys(env)
      ensures s == UpdateAppveyorResult(slug, env, encrypted, server)
    {
      var url := AppveyorVarsUrl(slug);
      var listed := server.envVars(url);
      if listed.Err? {
        return Raised();
      }
      var request := A.MergeVars(env, encrypted, server.encrypt, listed.value);
      s := Issue([Request(PUT, url, A.Vars(request), 204)], server.accepts);
    }

    // --------------------------------------------------------------- remove

    function DeactivatePlan(selected: seq<string>): seq<Request<T.Body>>
      reads this
    {
      seq(|selected|, i requires 0 <= i < |selected| reads this => Request(POST, TravisActivateUrl(selected[i], false), T.NoBody, DefaultStatus))
    }

    /** What `remove_from_travis` does: deactivate the listed repositories the pattern matches. */
    function RemoveFromTravisResult(pattern: string, force: bool, input: seq<string>, server: T.Server)
      : (Sent<T.Body>, seq<string>)
      reads this
    {
      var listed := server.ownerRepos(TravisOwnerUrl());
      if listed.Err? then (Raised(), input)
      else if !(forall i :: 0 <= i < |listed.value| ==> |Split(listed.value[i], '/')| >= 2) then (Raised(), input)
      else
        var selected := Glob.Filter(T.ListedNames(listed.value), pattern);
        Removal(selected, force, input, DeactivatePlan(selected), server.accepts)
    }

    /**
     * `remove_from_travis` writes only after `force` or a `y`, and only
     * deactivations of listed repositories whose name matches the pattern.
     */
    lemma RemoveFromTravisMeaning(pattern: string, force: bool, input: seq<string>, server: T.Server, i: nat)
      requires i < |RemoveFromTravisResult(pattern, force, input, server).0.trace|
      ensures force || Base.Answer(input) == Some(true)
      ensures var listed := server.ownerRepos(TravisOwnerUrl());
        && listed.Ok? && (forall k :: 0 <= k < |listed.value| ==> |Split(listed.value[k], '/')| >= 2)
        && var w := RemoveFromTravisResult(pattern, force, input, server).0.trace[i];
        && w.verb == POST && w.body == T.NoBody
        && exists j :: 0 <= j < |listed.value| && Glob.Match(pattern, T.ListedNames(listed.value)[j])
             && w.url == TravisActivateUrl(T.ListedNames(listed.value)[j], false)
    {
      var listed := server.ownerRepos(TravisOwnerUrl());
      var names := T.ListedNames(listed.value);
      var selected := Glob.Filter(names, pattern);
      var plan := DeactivatePlan(selected);
      var r := Removal(selected, force, input, plan, server.accepts);
      assert RemoveFromTravisResult(pattern, force, input, server) == r;
      RemovalWrites(selected, force, input, plan, server.accepts);
      assert r.0.trace[i] == plan[i];
      assert selected[i] in selected;
      var j :| 0 <= j < |names| && names[j] == selected[i];
    }

    /** `remove_from_travis`. */
    method RemoveFromTravis(pattern: string, force: bool, input: seq<string>, server: T.Server)
      returns (s: Sent<T.Body>, rest: seq<string>)
      ensures (s, rest) == RemoveFromTravisResult(pattern, force, input, server)
    {
      var listed := server.ownerRepos(TravisOwnerUrl());
      if listed.Err? {
        return Raised(), input;
      }
      var names := T.RepoNames(listed.value);
      if names.Err? {
        return Raised(), input;
      }
      var projects := Glob.Filter(names.value, pattern);
      if projects == [] {
        return Nothing(), input;
      }
      var remove := force;
      rest := input;
      if !force {
        var answer;
        answer, rest := Base.YesNo(input);
        if answer.None? {
          return Raised(), rest;
        }
        remove := answer.value;
      }
      if remove {
        s := IssueInOrder(DeactivatePlan(projects), server.accepts);
      } else {
        s := Nothing();
      }
    }

    function AppveyorDeletePlan(selected: seq<string>): seq<Request<A.Body>>
      reads this
    {
      seq(|selected|, i requires 0 <= i < |selected| reads this => Request(DELETE, AppveyorProjectUrl(selected[i]), A.NoBody, 204))
    }

    /** The slugs of the listed AppVeyor projects, in order. */
    function Slugs(projects: seq<A.Project>): (r: seq<string>)
      ensures |r| == |projects| && forall i :: 0 <= i < |projects| ==> r[i] == projects[i].slug
    {
      seq(|projects|, i requires 0 <= i < |projects| => projects[i].slug)
    }

    /**
     * What `remove_from_appveyor` does: delete the listed projects whose slug
     * matches the pattern with `_` replaced by `-`.
     */
    function RemoveFromAppveyorResult(pattern: string, force: bool, input: seq<string>, server: A.Server)
      : (Sent<A.Body>, seq<string>)
      reads this
    {
      var listed := server.projects(AppveyorProjectsUrl());
      if listed.Err? then (Raised(), input)
      else
        var selected := Glob.Filter(Slugs(listed.value), Replace(pattern, '_', '-'));
        Removal(selected, force, input, AppveyorDeletePlan(selected), server.accepts)
    }

    /**
     * `remove_from_appveyor` writes only after `force` or a `y`, and only
     * deletions, expecting 204, of listed projects whose slug matches the
     * pattern with `_` replaced by `-`.
     */
    lemma RemoveFromAppveyorMeaning(pattern: string, force: bool, input: seq<string>, server: A.Server)
      ensures var r := RemoveFromAppveyorResult(pattern, force, input, server);
              var listed := server.projects(AppveyorProjectsUrl());
        && (r.0.trace != [] ==> force || Base.Answer(input) == Some(true))
        && forall i :: 0 <= i < |r.0.trace| ==>
             && listed.Ok? && r.0.trace[i].verb == DELETE && r.0.trace[i].expected == 204
             && exists j :: 0 <= j < |listed.value| && Glob.Match(Replace(pattern, '_', '-'), listed.value[j].slug)
                  && r.0.trace[i].url == AppveyorProjectUrl(listed.value[j].slug)
    {
      var listed := server.projects(AppveyorProjectsUrl());
      var r := RemoveFromAppveyorResult(pattern, force, input, server);
      if r.0.trace != [] {
        var slugs := Slugs(listed.value);
        var selected := Glob.Filter(slugs, Replace(pattern, '_', '-'));
        var plan := AppveyorDeletePlan(selected);
        assert r.0 == Issue(plan, server.accepts);
        forall i | 0 <= i < |r.0.trace|
          ensures exists j :: 0 <= j < |listed.value| && Glob.Match(Replace(pattern, '_', '-'), listed.value[j].slug)
                    && r.0.trace[i].url == AppveyorProjectUrl(listed.value[j].slug)
        {
          assert r.0.trace == plan[..|r.0.trace|];
          assert r.0.trace[i] == plan[i];
          assert selected[i] in selected;
          var j :| 0 <= j < |slugs| && slugs[j] == selected[i];
        }
      }
    }

    /** `remove_from_appveyor`. */
    method RemoveFromAppveyor(pattern: string, force: bool, input: seq<string>, server: A.Server)
      returns (s: Sent<A.Body>, rest: seq<string>)
      ensures (s, rest) == RemoveFromAppveyorResult(pattern, force, input, server)
    {
      var listed := server.projects(AppveyorProjectsUrl());
      if listed.Err? {
        return Raised(), input;
      }
      var projects := Glob.Filter(Slugs(listed.value), Replace(pattern, '_', '-'));
      if projects == [] {
        return Nothing(), input;
      }
      var remove := force;
      rest := input;
      if !force {
        var answer;
        answer, rest := Base.YesNo(input);
        if answer.None? {
          return Raised(), rest;
        }
        remove := answer.value;
      }
      if remove {
        s := IssueInOrder(AppveyorDeletePlan(projects), server.accepts);
      } else {
        s := Nothing();
      }
    }

    // ------------------------------------------------------- the pair blocks

    /** One Travis `try` block of the project loop: remove, or add then update. */
    function TravisPair(project: string, args: Args, env: Dict<string, string>, encrypted: seq<string>,
                        input: seq<string>, server: T.Server): (Sent<T.Body>, seq<string>)
      reads this
    {
      if args.remove then RemoveFromTravisResult(project, args.force, input, server)
      else (Then(AddToTravis(project, server), UpdateTravisResult(project, env, encrypted, server)), input)
    }

    /** One AppVeyor `try` block of the project loop. */
    function AppveyorPair(project: string, args: Args, env: Dict<string, string>, encrypted: seq<string>,
                          input: seq<string>, server: A.Server): (Sent<A.Body>, seq<string>)
      reads this
    {
      if args.remove then RemoveFromAppveyorResult(project, args.force, input, server)
      else (Then(AddToAppveyorResult(project, server), UpdateAppveyorResult(project, env, encrypted, server)), input)
    }

    method TravisBlock(project: string, args: Args, env: Dict<string, string>, encrypted: seq<string>,
                       input: seq<string>, server: T.Server) returns (s: Sent<T.Body>, rest: seq<string>)
      ensures (s, rest) == TravisPair(project, args, env, encrypted, input, server)
    {
      if args.remove {
        s, rest := RemoveFromTravis(project, args.force, input, server);
      } else {
        rest := input;
        s := AddToTravis(project, server);
        if s.ok {
          var updated := UpdateTravis(project, env, encrypted, server);
          s := Then(s, updated);
        }
      }
    }

    method AppveyorBlock(project: string, args: Args, env: Dict<string, string>, encrypted: seq<string>,
                         input: seq<string>, server: A.Server) returns (s: Sent<A.Body>, rest: seq<string>)
      requires UniqueKeys(env)
      ensures (s, rest) == AppveyorPair(project, args, env, encrypted, input, server)
    {
      if args.remove {
        s, rest := RemoveFromAppveyor(project, args.force, input, server);
      } else {
        rest := input;
        s := AddToAppveyor(project, server);
        if s.ok {
          var updated := UpdateAppveyor(project, env, encrypted, server);
          s := Then(s, updated);
        }
      }
    }

    // ------------------------------------------------------ the project loop

    /** The Travis `try` block of one iteration, recorded (nothing when Travis is skipped). */
    function TravisStep(project: string, args: Args, env: Dict<string, string>, encrypted: seq<string>,
                        travis: T.Server, p: Progress): (r: Progress)
      reads this
      ensures |r.results| == |p.results| + (if args.skipTravis then 0 else 1) && r.results[..|p.results|] == p.results
      ensures r.failed <==> p.failed || exists j :: |p.results| <= j < |r.results| && !r.results[j]
      ensures p.trace <= r.trace
    {
      if args.skipTravis then p
      else
        var r := TravisPair(project, args, env, encrypted, p.input, travis);
        var q := Record(p, r.0.ok, TravisWrites(r.0.trace), r.1);
        assert q.results[|p.results|] == r.0.ok;
        q
    }

    /** The AppVeyor `try` block of one iteration, recorded (nothing when AppVeyor is skipped). */
    function AppveyorStep(project: string, args: Args, env: Dict<string, string>, encrypted: seq<string>,
                          appveyor: A.Server, p: Progress): (r: Progress)
      reads this
      ensures |r.results| == |p.results| + (if args.skipAppveyor then 0 else 1) && r.results[..|p.results|] == p.results
      ensures r.failed <==> p.failed || exists j :: |p.results| <= j < |r.results| && !r.results[j]
      ensures p.trace <= r.trace
    {
      if args.skipAppveyor then p
      else
        var r := AppveyorPair(project, args, env, encrypted, p.input, appveyor);
        var q := Record(p, r.0.ok, AppveyorWrites(r.0.trace), r.1);
        assert q.results[|p.results|] == r.0.ok;
        q
    }

    /** One iteration of the project loop: the Travis block, then the AppVeyor block. */
    function ProjectStep(project: string, args: Args, env: Dict<string, string>, encrypted: seq<string>,
                         travis: T.Server, appveyor: A.Server, p: Progress): (r: Progress)
      reads this
      ensures |r.results| == |p.results| + Enabled(args) && r.results[..|p.results|] == p.results
      ensures r.failed <==> p.failed || exists j :: |p.results| <= j < |r.results| && !r.results[j]
      ensures p.trace <= r.trace
    {
      var p1 := TravisStep(project, args, env, encrypted, travis, p);
      var r := AppveyorStep(project, args, env, encrypted, appveyor, p1);
      assert forall j :: 0 <= j < |p1.results| ==> r.results[j] == p1.results[j];
      assert forall j :: 0 <= j < |p.results| ==> p1.results[j] == p.results[j];
      r
    }

    /** The loop over `projects`, from a clean flag and the whole input. */
    function Pairs(args: Args, env: Dict<string, string>, encrypted: seq<string>, input: seq<string>,
                   travis: T.Server, appveyor: A.Server, projects: seq<string>): Progress
      reads this
      decreases |projects|
    {
      if projects == [] then Progress(false, [], input, [])
      else ProjectStep(projects[|projects| - 1], args, env, encrypted, travis, appveyor,
                       Pairs(args, env, encrypted, input, travis, appveyor, projects[..|projects| - 1]))
    }

    /** One more project adds one `ProjectStep` to the loop. */
    lemma PairsSnoc(args: Args, env: Dict<string, string>, encrypted: seq<string>, input: seq<string>,
                    travis: T.Server, appveyor: A.Server, projects: seq<string>, project: string)
      ensures Pairs(args, env, encrypted, input, travis, appveyor, projects + [project])
           == ProjectStep(project, args, env, encrypted, travis, appveyor, Pairs(args, env, encrypted, input, travis, appveyor, projects))
    {
      assert (projects + [project])[..|projects|] == projects;
    }

    /**
     * Every (project, provider) pair not skipped runs, a failure never
     * stopping later ones, and `failed` ends true exactly when some pair
     * raised.
     */
    lemma {:induction false} PairsMeaning(args: Args, env: Dict<string, string>, encrypted: seq<string>,
                                          input: seq<string>, travis: T.Server, appveyor: A.Server, projects: seq<string>)
      ensures var p := Pairs(args, env, encrypted, input, travis, appveyor, projects);
        && |p.results| == |projects| * Enabled(args)
        && (p.failed <==> exists j :: 0 <= j < |p.results| && !p.results[j])
      decreases |projects|
    {
      if projects != [] {
        var n := |projects| - 1;
        var e := Enabled(args);
        PairsMeaning(args, env, encrypted, input, travis, appveyor, projects[..n]);
        var p := Pairs(args, env, encrypted, input, travis, appveyor, projects[..n]);
        var q := ProjectStep(projects[n], args, env, encrypted, travis, appveyor, p);
        assert Pairs(args, env, encrypted, input, travis, appveyor, projects) == q;
        assert |projects| * e == n * e + e;
        if p.failed {
          var j :| 0 <= j < |p.results| && !p.results[j];
          assert q.results[j] == q.results[..|p.results|][j];
        }
        if q.failed && !p.failed {
          var j :| |p.results| <= j < |q.results| && !q.results[j];
        }
      }
    }

    /** One iteration of the project loop: each provider's `try` block, recorded. */
    method RunProject(project: string, args: Args, env: Dict<string, string>, encrypted: seq<string>,
                      travis: T.Server, appveyor: A.Server, p: Progress) returns (r: Progress)
      requires UniqueKeys(env)
      ensures r == ProjectStep(project, args, env, encrypted, travis, appveyor, p)
    {
      r := p;
      if !args.skipTravis {
        var s, rest := TravisBlock(project, args, env, encrypted, r.input, travis);
        r := Record(r, s.ok, TravisWrites(s.trace), rest);
      }
      var before := r;
      assert before == TravisStep(project, args, env, encrypted, travis, p);
      if !args.skipAppveyor {
        var s, rest := AppveyorBlock(project, args, env, encrypted, r.input, appveyor);
        r := Record(r, s.ok, AppveyorWrites(s.trace), rest);
      }
      assert r == AppveyorStep(project, args, env, encrypted, appveyor, before);
    }

    /** One more iteration of the project loop. */
    method RunNext(args: Args, env: Dict<string, string>, encrypted: seq<string>, input: seq<string>,
                   travis: T.Server, appveyor: A.Server, done: seq<string>, project: string, p: Progress)
      returns (r: Progress)
      requires UniqueKeys(env) && p == Pairs(args, env, encrypted, input, travis, appveyor, done)
      ensures r == Pairs(args, env, encrypted, input, travis, appveyor, done + [project])
    {
      PairsSnoc(args, env, encrypted, input, travis, appveyor, done, project);
      r := RunProject(project, args, env, encrypted, travis, appveyor, p);
    }

    /** The project loop of `main`: the `failed` flag is sticky and every pair runs. */
    method RunPairs(args: Args, env: Dict<string, string>, encrypted: seq<string>, input: seq<string>,
                    travis: T.Server, appveyor: A.Server) returns (p: Progress)
      requires UniqueKeys(env)
      ensures p == Pairs(args, env, encrypted, input, travis, appveyor, args.projects)
    {
      p := Progress(false, [], input, []);
      for i := 0 to |args.projects|
        invariant p == Pairs(args, env, encrypted, input, travis, appveyor, args.projects[..i])
      {
        p := RunNext(args, env, encrypted, input, travis, appveyor, args.projects[..i], args.projects[i], p);
        TakeSnoc(args.projects, i);
      }
      assert args.projects[..|args.projects|] == args.projects;
    }

    // ----------------------------------------------------------------- main

    /** The tokens and hosts `main` stores for each provider not skipped. */
    predicate TokensRead(args: Args, config: Base.Config, environ: Base.Environ, files: Base.Files)
      reads this
    {
      && (!args.skipTravis ==> travisHost == args.travisHost
                               && TravisToken(config, args.travisTokenFile, environ, files) == Ok(travisToken))
      && (!args.skipAppveyor ==> appveyorHost == args.appveyorHost
                                 && AppveyorToken(config, args.appveyorTokenFile, environ, files) == Ok(appveyorToken)
                                 && appveyorV2Api == ("v2.0" <= appveyorToken))
    }

    /** The accounts after `main` reads an `[account]` section; a blank entry keeps the default. */
    predicate AccountsRead(config: Base.Config, travis0: string, appveyor0: string, github0: string)
      reads this
    {
      && ("account" !in config ==> travisAccount == travis0 && appveyorAccount == appveyor0 && githubAccount == github0)
      && ("account" in config && HasAccounts(config) ==>
            && travisAccount == Base.Or(Some(Get(config["account"], "travis")), travis0)
            && appveyorAccount == Base.Or(Some(Get(config["account"], "appveyor")), appveyor0)
            && githubAccount == Base.Or(Some(Get(config["account"], "github")), github0))
    }

    /** The token part of `main`: raise when a provider not skipped has no token. */
    method ReadTokens(args: Args, config: Base.Config, environ: Base.Environ, files: Base.Files) returns (r: Result<()>)
      modifies this
      ensures r.Ok? <==> (args.skipTravis || TravisToken(config, args.travisTokenFile, environ, files).Ok?)
                         && (args.skipAppveyor || AppveyorToken(config, args.appveyorTokenFile, environ, files).Ok?)
      ensures r.Ok? ==> TokensRead(args, config, environ, files)
      ensures travisAccount == old(travisAccount) && appveyorAccount == old(appveyorAccount)
              && githubAccount == old(githubAccount)
      ensures args.skipTravis ==> travisHost == old(travisHost) && travisToken == old(travisToken)
      ensures args.skipAppveyor ==> appveyorHost == old(appveyorHost) && appveyorToken == old(appveyorToken)
                                    && appveyorV2Api == old(appveyorV2Api)
    {
      if !args.skipTravis {
        var token := TravisToken(config, args.travisTokenFile, environ, files);
        if token.Err? {
          return Err(token.error);
        }
        travisToken := token.value;
        travisHost := args.travisHost;
      }
      if !args.skipAppveyor {
        var token := AppveyorToken(config, args.appveyorTokenFile, environ, files);
        if token.Err? {
          return Err(token.error);
        }
        appveyorToken := token.value;
        appveyorHost := args.appveyorHost;
        appveyorV2Api := "v2.0" <= token.value;
      }
      r := Ok(());
    }

    /** The `[account]` part of `main`: each of its three keys is read, and a missing one raises. */
    method ReadAccounts(config: Base.Config) returns (r: Result<()>)
      modifies this
      ensures r.Ok? <==> HasAccounts(config)
      ensures r.Ok? ==> AccountsRead(config, old(travisAccount), old(appveyorAccount), old(githubAccount))
      ensures travisHost == old(travisHost) && appveyorHost == old(appveyorHost) && travisToken == old(travisToken)
              && appveyorToken == old(appveyorToken) && appveyorV2Api == old(appveyorV2Api)
    {
      if "account" in config {
        var section := config["account"];
        if "travis" !in Keys(section) {
          return Err("KeyError: 'travis'");
        }
        travisAccount := Base.Or(Some(Get(section, "travis")), travisAccount);
        if "appveyor" !in Keys(section) {
          return Err("KeyError: 'appveyor'");
        }
        appveyorAccount := Base.Or(Some(Get(section, "appveyor")), appveyorAccount);
        if "github" !in Keys(section) {
          return Err("KeyError: 'github'");
        }
        githubAccount := Base.Or(Some(Get(section, "github")), githubAccount);
      }
      r := Ok(());
    }

    /**
     * The setup part of `main` after the tokens: the desired variables, the
     * encrypted names and the accounts, or raise.
     */
    method ReadRest(args: Args, config: Base.Config) returns (r: Result<(Dict<string, string>, seq<string>)>)
      requires Base.WellFormed(config)
      modifies this
      ensures r.Ok? <==> "env" in config && WithOverrides(config["env"], args.env).Ok?
                         && "encrypted" in config && HasAccounts(config)
      ensures r.Ok? ==> r.value == (WithOverrides(config["env"], args.env).value, Keys(config["encrypted"]))
                        && AccountsRead(config, old(travisAccount), old(appveyorAccount), old(githubAccount))
      ensures travisHost == old(travisHost) && appveyorHost == old(appveyorHost) && travisToken == old(travisToken)
              && appveyorToken == old(appveyorToken) && appveyorV2Api == old(appveyorV2Api)
    {
      var envVars := BuildEnv(config, args.env);
      if envVars.Err? {
        return Err(envVars.error);
      }
      if "encrypted" !in config {
        return Err("KeyError: 'encrypted'");
      }
      var encrypted := EncryptedNames(config["encrypted"]);
      var accounts := ReadAccounts(config);
      if accounts.Err? {
        return Err(accounts.error);
      }
      r := Ok((envVars.value, encrypted));
    }

    /**
     * The setup part of `main`: read the tokens and hosts, the desired
     * variables, the encrypted names and the accounts into the session, or
     * raise.
     */
    method Prepare(args: Args, config: Base.Config, environ: Base.Environ, files: Base.Files)
      returns (r: Result<(Dict<string, string>, seq<string>)>)
      requires Base.WellFormed(config)
      modifies this
      ensures r.Ok? <==> Setup(args, config, environ, files).Ok?
      ensures r.Ok? ==> r.value == Setup(args, config, environ, files).value
                        && TokensRead(args, config, environ, files)
                        && AccountsRead(config, old(travisAccount), old(appveyorAccount), old(githubAccount))
      ensures args.skipTravis ==> travisHost == old(travisHost) && travisToken == old(travisToken)
      ensures args.skipAppveyor ==> appveyorHost == old(appveyorHost) && appveyorToken == old(appveyorToken)
                                    && appveyorV2Api == old(appveyorV2Api)
    {
      var tokens := ReadTokens(args, config, environ, files);
      if tokens.Err? {
        return Err(tokens.error);
      }
      r := ReadRest(args, config);
    }

    /**
     * `main`: exit 1 when the configuration file is missing; read the tokens,
     * hosts, variables, encrypted names and accounts into the session (an
     * exception here ends the process); run the project loop; exit 1 exactly
     * when some pair failed.
     */
    method Run(args: Args, configFile: Option<Base.Config>, environ: Base.Environ, files: Base.Files,
               input: seq<string>, travis: T.Server, appveyor: A.Server) returns (outcome: Outcome, trace: seq<Write>)
      requires configFile.Some? ==> Base.WellFormed(configFile.value)
      modifies this
      ensures configFile.None? ==> outcome == Exit(1) && trace == []
      ensures configFile.Some? && Setup(args, configFile.value, environ, files).Err? ==> outcome.Crash? && trace == []
      ensures configFile.Some? && Setup(args, configFile.value, environ, files).Ok? ==>
        var setup := Setup(args, configFile.value, environ, files).value;
        var p := Pairs(args, setup.0, setup.1, input, travis, appveyor, args.projects);
        && outcome == Exit(if p.failed then 1 else 0)
        && trace == p.trace
        && TokensRead(args, configFile.value, environ, files)
        && AccountsRead(configFile.value, old(travisAccount), old(appveyorAccount), old(githubAccount))
      ensures args.skipTravis ==> travisHost == old(travisHost) && travisToken == old(travisToken)
      ensures args.skipAppveyor ==> appveyorHost == old(appveyorHost) && appveyorToken == old(appveyorToken)
                                    && appveyorV2Api == old(appveyorV2Api)
    {
      if configFile.None? {
        return Exit(1), [];
      }
      var setup := Prepare(args, configFile.value, environ, files);
      if setup.Err? {
        return Crash(setup.error), [];
      }
      var p := RunPairs(args, setup.value.0, setup.value.1, input, travis, appveyor);
      outcome := Exit(if p.failed then 1 else 0);
      trace := p.trace;
    }
  }
}
