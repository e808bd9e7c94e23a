/**
 * The Travis CI adapter (bincrafters_envy/travis.py). A repository is named
 * `account%2Fslug`; environment variables are updated in place by their
 * remote id (PATCH) or created (POST). The variable loop is shared with the
 * two script revisions (bincrafters_envy.py and envy.py), which differ only in
 * the URL prefix and in how they set the `public` flag.
 */
module TravisAdapter {
  import opened Wrappers
  import opened Text
  import opened PyDict
  import opened Http
  import Base

  const Name := "travis"
  const DefaultAccount := "bincrafters"

  /** A listed environment variable, as far as the update reads it. */
  datatype EnvVar = EnvVar(id: string, name: string)

  /** The JSON bodies Travis requests carry. */
  datatype Body = NoBody | EnvVarBody(name: string, value: string, public: bool)

  /** What the Travis API answers, per URL path, and whether it accepts a write. */
  datatype Server = Server(
    repo: string -> Result<bool>,               // GET /repo/<account>%2F<slug>: the `active` flag
    ownerRepos: string -> Result<seq<string>>,  // GET /owner/<account>/repos: each repository's `slug`
    envVars: string -> Result<seq<EnvVar>>,     // GET /repo/<account>%2F<slug>/env_vars
    accepts: Request<Body> -> bool)

  /** How a variable's `public` flag is chosen. */
  datatype Visibility = PublicUnlessEncrypted(encrypted: seq<string>) | AllPrivate

  function IsPublic(vis: Visibility, name: string): bool
  {
    match vis
    case PublicUnlessEncrypted(encrypted) => name !in encrypted
    case AllPrivate => false
  }

  // ------------------------------------------------ the variable update loop

  /** The `ids` dict filled from the listed variables: a later variable of the same name overwrites. */
  function IdsOf(remote: seq<EnvVar>): map<string, string>
    decreases |remote|
  {
    if remote == [] then map[]
    else IdsOf(remote[..|remote| - 1])[remote[|remote| - 1].name := remote[|remote| - 1].id]
  }

  /** `ids` knows exactly the listed names. */
  lemma {:induction false} IdsOfDomain(remote: seq<EnvVar>, name: string)
    ensures name in IdsOf(remote) <==> exists i :: 0 <= i < |remote| && remote[i].name == name
    decreases |remote|
  {
    if remote != [] {
      var n := |remote| - 1;
      var init := remote[..n];
      assert IdsOf(remote) == IdsOf(init)[remote[n].name := remote[n].id];
      IdsOfDomain(init, name);
      if remote[n].name != name {
        if name in IdsOf(init) {
          var i :| 0 <= i < |init| && init[i].name == name;
          assert remote[i] == init[i];
        }
        if exists i :: 0 <= i < |remote| && remote[i].name == name {
          var i :| 0 <= i < |remote| && remote[i].name == name;
          assert init[i] == remote[i];
        }
      }
    }
  }

  /** A listed name is mapped to the id of its last listing. */
  lemma {:induction false} IdsOfLast(remote: seq<EnvVar>, name: string) returns (i: nat)
    requires name in IdsOf(remote)
    ensures i < |remote| && remote[i].name == name && IdsOf(remote)[name] == remote[i].id
    ensures forall j :: i < j < |remote| ==> remote[j].name != name
    decreases |remote|
  {
    var n := |remote| - 1;
    var init := remote[..n];
    assert IdsOf(remote) == IdsOf(init)[remote[n].name := remote[n].id];
    if remote[n].name == name {
      i := n;
    } else {
      i := IdsOfLast(init, name);
      assert remote[i] == init[i];
      forall j | i < j < |remote| ensures remote[j].name != name {
        if j < n {
          assert remote[j] == init[j];
        }
      }
    }
  }

  /** `ids` knows exactly the listed names, and maps each to the id of its LAST listing. */
  lemma IdsOfLastWins(remote: seq<EnvVar>, name: string)
    ensures name in IdsOf(remote) <==> exists i :: 0 <= i < |remote| && remote[i].name == name
    ensures name in IdsOf(remote) ==>
      exists i :: 0 <= i < |remote| && remote[i].name == name && IdsOf(remote)[name] == remote[i].id
        && forall j :: i < j < |remote| ==> remote[j].name != name
  {
    IdsOfDomain(remote, name);
    if name in IdsOf(remote) {
      var i := IdsOfLast(remote, name);
    }
  }

  /** The request the loop issues for one desired variable. */
  function SyncRequest(projectUrl: string, name: string, value: string, vis: Visibility,
                       ids: map<string, string>): Request<Body>
  {
    var body := EnvVarBody(name, value, IsPublic(vis, name));
    if name in ids then Request(PATCH, projectUrl + "/env_var/" + ids[name], body, DefaultStatus)
    else Request(POST, projectUrl + "/env_vars", body, 201)
  }

  /** The requests the loop means to issue, one per desired variable, in dict order. */
  function SyncPlan(projectUrl: string, env: Dict<string, string>, vis: Visibility,
                    ids: map<string, string>): seq<Request<Body>>
  {
    seq(|env|, i requires 0 <= i < |env| => SyncRequest(projectUrl, env[i].0, env[i].1, vis, ids))
  }

  /** The variable named in a request body ("" for none). */
  function BodyName(r: Request<Body>): string
  {
    if r.body.EnvVarBody? then r.body.name else ""
  }

  /**
   * What the plan is, against the listed variables: one request per desired
   * name and none for names only the remote has; a PATCH to the id of the
   * name's last listing when the name is listed (expecting the default
   * status), else a POST to `/env_vars` expecting 201;
   * the body carries the desired value and the visibility's `public` flag.
   */
  lemma SyncPlanMeaning(projectUrl: string, env: Dict<string, string>, vis: Visibility, remote: seq<EnvVar>)
    ensures var plan := SyncPlan(projectUrl, env, vis, IdsOf(remote));
      && |plan| == |env|
      && seq(|plan|, i requires 0 <= i < |plan| => BodyName(plan[i])) == Keys(env)
      && forall i :: 0 <= i < |env| ==>
           && plan[i].body == EnvVarBody(env[i].0, env[i].1, IsPublic(vis, env[i].0))
           && (plan[i].verb == PATCH || plan[i].verb == POST)
           && (plan[i].verb == PATCH <==> exists j :: 0 <= j < |remote| && remote[j].name == env[i].0)
           && (plan[i].verb == PATCH ==>
                 exists j :: 0 <= j < |remote| && remote[j].name == env[i].0
                   && plan[i].url == projectUrl + "/env_var/" + remote[j].id
                   && forall k :: j < k < |remote| ==> remote[k].name != env[i].0)
           && (plan[i].verb == PATCH ==> plan[i].expected == DefaultStatus)
           && (plan[i].verb == POST ==> plan[i].url == projectUrl + "/env_vars" && plan[i].expected == 201)
  {
    var plan := SyncPlan(projectUrl, env, vis, IdsOf(remote));
    forall i | 0 <= i < |env|
      ensures (plan[i].verb == PATCH <==> exists j :: 0 <= j < |remote| && remote[j].name == env[i].0)
      ensures (plan[i].verb == PATCH ==>
                 exists j :: 0 <= j < |remote| && remote[j].name == env[i].0
                   && plan[i].url == projectUrl + "/env_var/" + remote[j].id
                   && forall k :: j < k < |remote| ==> remote[k].name != env[i].0)
    {
      IdsOfLastWins(remote, env[i].0);
    }
  }

  /**
   * What issuing the plan sends: a prefix of it, the whole of it when every
   * write is accepted, so each write sent is the plan's write for the
   * desired variable at the same position.
   */
  lemma SyncIssuedMeaning(projectUrl: string, env: Dict<string, string>, vis: Visibility, remote: seq<EnvVar>,
                          accepts: Request<Body> -> bool)
    ensures var s := Issue(SyncPlan(projectUrl, env, vis, IdsOf(remote)), accepts);
      && |s.trace| <= |env| && (s.ok ==> |s.trace| == |env|)
      && forall i :: 0 <= i < |s.trace| ==>
           && s.trace[i].body == EnvVarBody(env[i].0, env[i].1, IsPublic(vis, env[i].0))
           && (s.trace[i].verb == PATCH <==> exists j :: 0 <= j < |remote| && remote[j].name == env[i].0)
           && (s.trace[i].verb == PATCH ==>
                 exists j :: 0 <= j < |remote| && remote[j].name == env[i].0
                   && s.trace[i].url == projectUrl + "/env_var/" + remote[j].id
                   && forall k :: j < k < |remote| ==> remote[k].name != env[i].0)
           && (s.trace[i].verb == POST ==> s.trace[i].url == projectUrl + "/env_vars" && s.trace[i].expected == 201)
  {
    SyncPlanMeaning(projectUrl, env, vis, remote);
    var plan := SyncPlan(projectUrl, env, vis, IdsOf(remote));
    var s := Issue(plan, accepts);
    forall i | 0 <= i < |s.trace| ensures s.trace[i] == plan[i] {
      assert s.trace == plan[..|s.trace|];
    }
  }

  /** The first loop of the update: `ids[v['name']] = v['id']` for each listed variable. */
  method CollectIds(remote: seq<EnvVar>) returns (ids: map<string, string>)
    ensures ids == IdsOf(remote)
  {
    ids := map[];
    for i := 0 to |remote|
      invariant ids == IdsOf(remote[..i])
    {
      assert remote[..i + 1][..i] == remote[..i];
      ids := ids[remote[i].name := remote[i].id];
    }
    assert remote[..|remote|] == remote;
  }

  /** The body of the update loop for one desired variable: PATCH it when listed, else POST it. */
  method SyncOne(projectUrl: string, name: string, value: string, vis: Visibility, ids: map<string, string>)
    returns (request: Request<Body>)
    ensures request == SyncRequest(projectUrl, name, value, vis, ids)
  {
    var body := EnvVarBody(name, value, IsPublic(vis, name));
    if name in ids {
      request := Request(PATCH, projectUrl + "/env_var/" + ids[name], body, DefaultStatus);
    } else {
      request := Request(POST, projectUrl + "/env_vars", body, 201);
    }
  }

  /**
   * The update loop (travis.py:58-72 and its two script copies): fill `ids`
   * from the listed variables, then for each desired variable PATCH or POST;
   * the first request the server rejects raises and ends the loop.
   */
  method SyncEnvVars(projectUrl: string, env: Dict<string, string>, vis: Visibility,
                     remote: seq<EnvVar>, accepts: Request<Body> -> bool) returns (s: Sent<Body>)
    ensures s == Issue(SyncPlan(projectUrl, env, vis, IdsOf(remote)), accepts)
  {
    var ids := CollectIds(remote);
    ghost var plan := SyncPlan(projectUrl, env, vis, ids);
    var trace: seq<Request<Body>> := [];
    for i := 0 to |env|
      invariant trace == plan[..i]
      invariant forall j :: 0 <= j < i ==> accepts(plan[j])
    {
      var request := SyncOne(projectUrl, env[i].0, env[i].1, vis, ids);
      assert request == plan[i];
      trace := trace + [request];
      if !accepts(request) {
        IssueStopsAt(plan, accepts, i);
        return Sent(trace, false);
      }
    }
    assert plan[..|env|] == plan;
    s := Sent(trace, true);
  }

  /**
   * Re-running the update once every request of the first run was accepted:
   * each created variable is now listed, so every desired name is patched
   * and nothing is created twice.
   */
  lemma SecondSyncOnlyPatches(projectUrl: string, env: Dict<string, string>, vis: Visibility,
                              remote: seq<EnvVar>, created: seq<EnvVar>)
    requires forall i :: 0 <= i < |env| && env[i].0 !in IdsOf(remote) ==>
               exists j :: 0 <= j < |created| && created[j].name == env[i].0
    ensures forall i :: 0 <= i < |env| ==> SyncPlan(projectUrl, env, vis, IdsOf(remote + created))[i].verb == PATCH
  {
    forall i | 0 <= i < |env|
      ensures env[i].0 in IdsOf(remote + created)
    {
      var name := env[i].0;
      IdsOfLastWins(remote, name);
      IdsOfLastWins(remote + created, name);
      if name in IdsOf(remote) {
        var j :| 0 <= j < |remote| && remote[j].name == name;
        assert (remote + created)[j] == remote[j];
      } else {
        var j :| 0 <= j < |created| && created[j].name == name;
        assert (remote + created)[|remote| + j] == created[j];
      }
    }
  }

  // ---------------------------------------------------------- repository list

  /** The names `list` gives for full slugs that all hold a `/`: the part after the first one. */
  function ListedNames(slugs: seq<string>): seq<string>
    requires forall i :: 0 <= i < |slugs| ==> |Split(slugs[i], '/')| >= 2
  {
    seq(|slugs|, i requires 0 <= i < |slugs| => Split(slugs[i], '/')[1])
  }

  /**
   * `p['slug'].split('/')[1]` for every listed repository, in order; a slug
   * without `/` raises `IndexError`.
   */
  method RepoNames(slugs: seq<string>) returns (r: Result<seq<string>>)
    ensures r.Ok? <==> forall i :: 0 <= i < |slugs| ==> |Split(slugs[i], '/')| >= 2
    ensures r.Ok? ==> |r.value| == |slugs| && forall i :: 0 <= i < |slugs| ==> r.value[i] == Split(slugs[i], '/')[1]
    ensures r.Ok? ==> r.value == ListedNames(slugs)
  {
    var projects: seq<string> := [];
    for i := 0 to |slugs|
      invariant |projects| == i
      invariant forall j :: 0 <= j < i ==> |Split(slugs[j], '/')| >= 2 && projects[j] == Split(slugs[j], '/')[1]
    {
      var parts := Split(slugs[i], '/');
      if |parts| < 2 {
        return Err("IndexError: list index out of range");
      }
      projects := projects + [parts[1]];
    }
    r := Ok(projects);
  }

  /** A full name `owner/name` lists as `name`. */
  lemma RepoNameOfFullName(owner: string, name: string)
    requires '/' !in owner && '/' !in name
    ensures |Split(owner + "/" + name, '/')| >= 2 && Split(owner + "/" + name, '/')[1] == name
  {
    assert owner + "/" + name == owner + ['/'] + name;
    SplitPair(owner, name, '/');
  }

  // ------------------------------------------------------------- the adapter

  /** A Travis adapter as `Travis.__init__` leaves it (the headers only carry `token`). */
  datatype Travis = Travis(token: string, account: string, host: string) {

    /** `self._endpoint`: the host itself. */
    function Endpoint(): string
    {
      host
    }

    /** `_project_url`: `/repo/<account>%2F<slug>`, the slash URL-encoded. */
    function ProjectUrl(slug: string): (url: string)
      ensures url == "/repo/" + account + "%2F" + slug
    {
      "/repo/" + account + "%2F" + slug
    }

    /** `exists`: the `active` flag of the repository the project URL names; a failed GET raises. */
    function Exists(slug: string, server: Server): (r: Result<bool>)
      ensures r == server.repo("/repo/" + account + "%2F" + slug)
    {
      server.repo(ProjectUrl(slug))
    }

    /** `list`: the repository names of the account, in listing order. */
    method List(server: Server) returns (r: Result<seq<string>>)
      ensures server.ownerRepos("/owner/" + account + "/repos").Err? ==> r.Err?
      ensures server.ownerRepos("/owner/" + account + "/repos").Ok? ==>
        var slugs := server.ownerRepos("/owner/" + account + "/repos").value;
        (r.Ok? <==> forall i :: 0 <= i < |slugs| ==> |Split(slugs[i], '/')| >= 2)
        && (r.Ok? ==> |r.value| == |slugs| && forall i :: 0 <= i < |slugs| ==> r.value[i] == Split(slugs[i], '/')[1])
    {
      var listed := server.ownerRepos("/owner/" + account + "/repos");
      if listed.Err? {
        return Err(listed.error);
      }
      r := RepoNames(listed.value);
    }

    /**
     * `_activate`'s URL as written: `a + b if c else d` parses as
     * `(a + b) if c else d`, so deactivation posts to `/deactivate` itself.
     */
    function ActivatePath(slug: string, enable: bool): string
    {
      if enable then ProjectUrl(slug) + "/activate" else "/deactivate"
    }

    /** The deactivation URL does not name the project: every slug gives the same `/deactivate`. */
    lemma DeactivateIgnoresSlug(slug: string, other: string)
      ensures ActivatePath(slug, false) == ActivatePath(other, false) == "/deactivate"
      ensures ActivatePath(slug, true) == ProjectUrl(slug) + "/activate"
    {
    }

    /** `add_one`: one POST to the project's `/activate`. */
    function AddOne(slug: string, server: Server): (s: Sent<Body>)
      ensures s.trace == [Request(POST, "/repo/" + account + "%2F" + slug + "/activate", NoBody, DefaultStatus)]
      ensures s.ok <==> server.accepts(s.trace[0])
    {
      Issue([Request(POST, ActivatePath(slug, true), NoBody, DefaultStatus)], server.accepts)
    }

    /** `remove_one`: one POST to `/deactivate` (the path as written, whatever the slug). */
    function RemoveOne(slug: string, server: Server): (s: Sent<Body>)
      ensures s.trace == [Request(POST, "/deactivate", NoBody, DefaultStatus)]
      ensures s.ok <==> server.accepts(s.trace[0])
    {
      Issue([Request(POST, ActivatePath(slug, false), NoBody, DefaultStatus)], server.accepts)
    }

    /**
     * The path `_activate` evidently intends, and the one the script's
     * `travis_activate` builds: the suffix on the project URL either way.
     */
    function IntendedActivatePath(slug: string, enable: bool): string
    {
      ProjectUrl(slug) + (if enable then "/activate" else "/deactivate")
    }

    /** `remove_one` as intended: one POST to the project's own `/deactivate`. */
    function RemoveOneIntended(slug: string, server: Server): (s: Sent<Body>)
      ensures s.trace == [Request(POST, "/repo/" + account + "%2F" + slug + "/deactivate", NoBody, DefaultStatus)]
      ensures s.ok <==> server.accepts(s.trace[0])
    {
      Issue([Request(POST, IntendedActivatePath(slug, false), NoBody, DefaultStatus)], server.accepts)
    }

    /**
     * With the intended path, deactivating two different projects posts to
     * two different URLs, and activation is unchanged.
     */
    lemma IntendedDeactivationNamesProject(slug: string, other: string)
      requires slug != other
      ensures IntendedActivatePath(slug, false) != IntendedActivatePath(other, false)
      ensures IntendedActivatePath(slug, true) == ActivatePath(slug, true)
    {
      var p := "/repo/" + account + "%2F";
      var a := IntendedActivatePath(slug, false);
      var b := IntendedActivatePath(other, false);
      assert a == p + slug + "/deactivate" && b == p + other + "/deactivate";
      if |slug| != |other| {
        assert |a| != |b|;
      } else {
        var k :| 0 <= k < |slug| && slug[k] != other[k];
        assert a[|p| + k] == slug[k] && b[|p| + k] == other[k];
      }
    }

    /**
     * `update`: list the project's variables, then PATCH each desired name
     * that is listed and POST the others; `public` is "not encrypted".
     */
    method Update(slug: string, env: Dict<string, string>, encrypted: seq<string>, server: Server)
      returns (s: Sent<Body>)
      ensures server.envVars(ProjectUrl(slug) + "/env_vars").Err? ==> s == Raised()
      ensures server.envVars(ProjectUrl(slug) + "/env_vars").Ok? ==>
        s == Issue(SyncPlan(ProjectUrl(slug), env, PublicUnlessEncrypted(encrypted),
                            IdsOf(server.envVars(ProjectUrl(slug) + "/env_vars").value)), server.accepts)
    {
      var listed := server.envVars(ProjectUrl(slug) + "/env_vars");
      if listed.Err? {
        return Raised();
      }
      s := SyncEnvVars(ProjectUrl(slug), env, PublicUnlessEncrypted(encrypted), listed.value, server.accepts);
    }
  }

  /**
   * `Travis.__init__`: the token as `Base._read_token` resolves it (raising
   * when there is none), the account from `[account]` or `bincrafters`, and
   * the host from `[endpoint]`, overriding the host given.
   */
  function NewTravis(config: Base.Config, host: string, environ: Base.Environ, files: Base.Files): (r: Result<Travis>)
    ensures r.Ok? <==> Base.ReadToken(config, Name, environ, files).Ok?
    ensures r.Ok? ==> r.value.token == Base.ReadToken(config, Name, environ, files).value
    ensures r.Ok? ==> r.value.account == (if Base.HasEntry(config, "account", Name) then Get(config["account"], Name) else DefaultAccount)
    ensures r.Ok? ==> r.value.host == (if Base.HasEntry(config, "endpoint", Name) then Get(config["endpoint"], Name) else host)
  {
    var token := Base.ReadToken(config, Name, environ, files);
    if token.Err? then Err(token.error)
    else Ok(Travis(token.value, Base.Or(Base.ReadAccount(config, Name, ""), DefaultAccount),
                   Base.Or(Base.ReadHost(config, Name), host)))
  }
}
