/**
 * The CircleCI adapter (bincrafters_envy/circle.py). Projects are followed
 * and unfollowed under the GitHub account; an update deletes every listed
 * variable that is not desired and then creates every desired one, so the
 * project ends up with exactly the desired variables (a replacement, not a
 * union). The encrypted names play no part.
 */
module CircleAdapter {
  import opened Wrappers
  import opened PyDict
  import opened Http
  import Base

  const Name := "circle"
  const DefaultGithubAccount := "bincrafters"

  /** A listed project, as far as the core reads it. */
  datatype Project = Project(reponame: string)

  /** The JSON bodies CircleCI requests carry. */
  datatype Body = NoBody | EnvVarBody(name: string, value: string)

  /** What the CircleCI API answers, per URL path, and whether it accepts a write. */
  datatype Server = Server(
    projects: string -> Result<seq<Project>>,  // GET /projects
    envVars: string -> Result<seq<string>>,    // GET /project/github/<account>/<slug>/envvar: each `name`
    accepts: Request<Body> -> bool)

  // ------------------------------------------------------------ the update

  /** The listed names that are not desired, in listing order (repeats kept). */
  function Stale(env: Dict<string, string>, listed: seq<string>): (r: seq<string>)
    ensures |r| <= |listed|
    ensures forall name :: name in r <==> name in listed && name !in Keys(env)
    decreases |listed|
  {
    if listed == [] then []
    else
      var init := listed[..|listed| - 1];
      var last := listed[|listed| - 1];
      assert forall name :: name in listed <==> name in init || name == last;
      Stale(env, init) + (if last in Keys(env) then [] else [last])
  }

  lemma {:induction false} StaleAppend(env: Dict<string, string>, a: seq<string>, b: seq<string>)
    ensures Stale(env, a + b) == Stale(env, a) + Stale(env, b)
    decreases |b|
  {
    if b == [] {
      assert a + b == a;
    } else {
      var n := |b| - 1;
      assert (a + b)[..|a + b| - 1] == a + b[..n];
      StaleAppend(env, a, b[..n]);
    }
  }

  function DeleteRequest(url: string, name: string): Request<Body>
  {
    Request(DELETE, url + "/" + name, NoBody, DefaultStatus)
  }

  /** The first loop's requests: one DELETE per stale name. */
  function DeletePlan(url: string, names: seq<string>): seq<Request<Body>>
  {
    seq(|names|, i requires 0 <= i < |names| => DeleteRequest(url, names[i]))
  }

  /** How the first loop's plan grows by one listed name. */
  lemma DeleteStep(url: string, env: Dict<string, string>, listed: seq<string>, i: nat)
    requires i < |listed|
    ensures DeletePlan(url, Stale(env, listed[..i + 1]))
         == DeletePlan(url, Stale(env, listed[..i])) + (if listed[i] in Keys(env) then [] else [DeleteRequest(url, listed[i])])
  {
    assert listed[..i + 1] == listed[..i] + [listed[i]];
    StaleAppend(env, listed[..i], [listed[i]]);
    assert [listed[i]][..0] == [];
    var one := if listed[i] in Keys(env) then [] else [listed[i]];
    assert Stale(env, [listed[i]]) == one;
    DeletePlanAppend(url, Stale(env, listed[..i]), one);
  }

  /** The first loop's plan is what it has sent so far followed by what is left. */
  lemma DeleteRest(url: string, env: Dict<string, string>, listed: seq<string>, i: nat)
    requires i < |listed|
    ensures DeletePlan(url, Stale(env, listed))
         == DeletePlan(url, Stale(env, listed[..i + 1])) + DeletePlan(url, Stale(env, listed[i + 1..]))
  {
    var head, rest := listed[..i + 1], listed[i + 1..];
    assert head + rest == listed;
    StaleAppend(env, head, rest);
    DeletePlanAppend(url, Stale(env, head), Stale(env, rest));
  }

  lemma DeletePlanAppend(url: string, a: seq<string>, b: seq<string>)
    ensures DeletePlan(url, a + b) == DeletePlan(url, a) + DeletePlan(url, b)
  {
  }

  function PostRequest(url: string, name: string, value: string): Request<Body>
  {
    Request(POST, url, EnvVarBody(name, value), 201)
  }

  /** The second loop's requests: one POST per desired variable, expecting 201, listed or not. */
  function PostPlan(url: string, env: Dict<string, string>): seq<Request<Body>>
  {
    seq(|env|, i requires 0 <= i < |env| => PostRequest(url, env[i].0, env[i].1))
  }

  /** Everything `update` means to send, given the listed names. */
  function UpdatePlan(url: string, env: Dict<string, string>, listed: seq<string>): seq<Request<Body>>
  {
    DeletePlan(url, Stale(env, listed)) + PostPlan(url, env)
  }

  /** A listing that names only desired variables (as after an accepted update) gets no DELETE. */
  lemma {:induction false} SecondUpdateDeletesNothing(url: string, env: Dict<string, string>, listed: seq<string>)
    requires forall i :: 0 <= i < |listed| ==> listed[i] in Keys(env)
    ensures Stale(env, listed) == []
    ensures UpdatePlan(url, env, listed) == PostPlan(url, env)
    decreases |listed|
  {
    if listed != [] {
      SecondUpdateDeletesNothing(url, env, listed[..|listed| - 1]);
    }
  }

  /** The variables a project holds, name to value, after `r` is accepted. */
  function Effect(state: map<string, string>, url: string, r: Request<Body>): map<string, string>
  {
    match r.body
    case EnvVarBody(name, value) => if r.verb == POST && r.url == url then state[name := value] else state
    case NoBody =>
      if r.verb == DELETE && |url| + 1 <= |r.url| && r.url[..|url| + 1] == url + "/"
      then state - {r.url[|url| + 1..]} else state
  }

  /** The variables after the whole plan is accepted. */
  function Applied(state: map<string, string>, url: string, plan: seq<Request<Body>>): map<string, string>
    decreases |plan|
  {
    if plan == [] then state
    else Effect(Applied(state, url, plan[..|plan| - 1]), url, plan[|plan| - 1])
  }

  lemma {:induction false} AppliedAppend(state: map<string, string>, url: string, a: seq<Request<Body>>, b: seq<Request<Body>>)
    ensures Applied(state, url, a + b) == Applied(Applied(state, url, a), url, b)
    decreases |b|
  {
    if b == [] {
      assert a + b == a;
    } else {
      var n := |b| - 1;
      assert (a + b)[..|a + b| - 1] == a + b[..n];
      AppliedAppend(state, url, a, b[..n]);
    }
  }

  /** The variables that survive deleting the stale names of `listed`: desired or not listed. */
  function Kept(state: map<string, string>, env: Dict<string, string>, listed: seq<string>): map<string, string>
  {
    map name | name in state && (name in Keys(env) || name !in listed) :: state[name]
  }

  /** One more listed name removes it from the survivors exactly when it is not desired. */
  lemma KeptSnoc(state: map<string, string>, env: Dict<string, string>, init: seq<string>, last: string)
    ensures Kept(state, env, init + [last]) == if last in Keys(env) then Kept(state, env, init) else Kept(state, env, init) - {last}
  {
    assert forall name :: name in init + [last] <==> name in init || name == last;
  }

  /** The deletions leave exactly the listed variables whose names are desired, and the unlisted ones. */
  lemma {:induction false} DeletionsKeepDesired(state: map<string, string>, url: string,
                                                env: Dict<string, string>, listed: seq<string>)
    ensures Applied(state, url, DeletePlan(url, Stale(env, listed))) == Kept(state, env, listed)
    decreases |listed|
  {
    if listed == [] {
      assert DeletePlan(url, Stale(env, listed)) == [];
    } else {
      var n := |listed| - 1;
      var init, last := listed[..n], listed[n];
      DeletionsKeepDesired(state, url, env, init);
      assert init + [last] == listed;
      KeptSnoc(state, env, init, last);
      DeleteStep(url, env, listed, n);
      assert listed[..n + 1] == listed;
      var prev := DeletePlan(url, Stale(env, init));
      var plan := DeletePlan(url, Stale(env, listed));
      if last !in Keys(env) {
        assert plan == prev + [DeleteRequest(url, last)];
        assert plan[..|plan| - 1] == prev && plan[|plan| - 1] == DeleteRequest(url, last);
        EffectDelete(Applied(state, url, prev), url, last);
      } else {
        assert plan == prev + [] == prev;
      }
    }
  }

  /** An accepted DELETE of `name` removes exactly that variable. */
  lemma EffectDelete(state: map<string, string>, url: string, name: string)
    ensures Effect(state, url, DeleteRequest(url, name)) == state - {name}
  {
    var r := DeleteRequest(url, name);
    assert r.url[..|url| + 1] == url + "/" && r.url[|url| + 1..] == name;
  }

  /** An accepted POST of a variable sets it. */
  lemma EffectPost(state: map<string, string>, url: string, name: string, value: string)
    ensures Effect(state, url, PostRequest(url, name, value)) == state[name := value]
  {
  }

  /** The posts overwrite each desired name with its desired value. */
  lemma {:induction false} PostsSetDesired(state: map<string, string>, url: string, env: Dict<string, string>)
    requires UniqueKeys(env)
    ensures Applied(state, url, PostPlan(url, env)) == state + ToMap(env)
    decreases |env|
  {
    if env != [] {
      var n := |env| - 1;
      var init := env[..n];
      PostsSetDesired(state, url, init);
      var plan := PostPlan(url, env);
      assert plan[..|plan| - 1] == PostPlan(url, init);
      assert plan[|plan| - 1] == PostRequest(url, env[n].0, env[n].1);
      EffectPost(state + ToMap(init), url, env[n].0, env[n].1);
      ToMapSnoc(env);
      MergeUpdate(state, ToMap(init), env[n].0, env[n].1);
    }
  }

  lemma MergeUpdate(a: map<string, string>, b: map<string, string>, k: string, v: string)
    ensures (a + b)[k := v] == a + b[k := v]
  {
  }

  /** Posting every desired variable over the survivors of a full listing leaves exactly the desired ones. */
  lemma KeptThenPosted(state: map<string, string>, env: Dict<string, string>, listed: seq<string>)
    requires forall name :: name in state <==> name in listed
    ensures Kept(state, env, listed) + ToMap(env) == ToMap(env)
  {
  }

  /**
   * After an accepted update, a project that held the listed variables holds
   * exactly the desired ones with the desired values: names only the
   * project had are gone, not kept as in a union.
   */
  lemma UpdateReplacesVariables(state: map<string, string>, url: string, env: Dict<string, string>, listed: seq<string>)
    requires UniqueKeys(env)
    requires forall name :: name in state <==> name in listed
    ensures Applied(state, url, UpdatePlan(url, env, listed)) == ToMap(env)
  {
    AppliedAppend(state, url, DeletePlan(url, Stale(env, listed)), PostPlan(url, env));
    DeletionsKeepDesired(state, url, env, listed);
    PostsSetDesired(Kept(state, env, listed), url, env);
    KeptThenPosted(state, env, listed);
  }

  // ------------------------------------------------------------- the adapter

  /** A CircleCI adapter as `Circle.__init__` leaves it (the basic-auth user is `token`). */
  datatype Circle = Circle(token: string, host: string, githubAccount: string) {

    /** `self._endpoint`. */
    function Endpoint(): string
    {
      host + "/api/v1.1"
    }

    /** `list`: the `reponame` of every followed project, in listing order. */
    function List(server: Server): (r: Result<seq<string>>)
      ensures r.Ok? <==> server.projects("/projects").Ok?
      ensures r.Ok? ==> (|r.value| == |server.projects("/projects").value|
        && forall i :: 0 <= i < |r.value| ==> r.value[i] == server.projects("/projects").value[i].reponame)
    {
      var listed := server.projects("/projects");
      if listed.Err? then Err(listed.error)
      else Ok(seq(|listed.value|, i requires 0 <= i < |listed.value| => listed.value[i].reponame))
    }

    /** `exists`: membership in `list`, so the two always agree. */
    function Exists(slug: string, server: Server): (r: Result<bool>)
      ensures r.Ok? <==> List(server).Ok?
      ensures r.Ok? ==> (r.value <==> exists i :: 0 <= i < |server.projects("/projects").value|
                                              && server.projects("/projects").value[i].reponame == slug)
    {
      var listed := List(server);
      if listed.Err? then Err(listed.error)
      else
        assert forall i :: 0 <= i < |listed.value| ==> listed.value[i] == server.projects("/projects").value[i].reponame;
        Ok(slug in listed.value)
    }

    /** `_project_url`: `/project/github/<github account>/<slug>`. */
    function ProjectUrl(slug: string): string
    {
      "/project/github/" + githubAccount + "/" + slug
    }

    /** `_activate`'s URL: `/follow` or `/unfollow` under the project. */
    function ActivateUrl(slug: string, enable: bool): (url: string)
      ensures url == ProjectUrl(slug) + (if enable then "/follow" else "/unfollow")
    {
      ProjectUrl(slug) + (if enable then "/follow" else "/unfollow")
    }

    /** `add_one`: one POST to the project's `/follow`. */
    function AddOne(slug: string, server: Server): (s: Sent<Body>)
      ensures s.trace == [Request(POST, "/project/github/" + githubAccount + "/" + slug + "/follow", NoBody, DefaultStatus)]
      ensures s.ok <==> server.accepts(s.trace[0])
    {
      Issue([Request(POST, ActivateUrl(slug, true), NoBody, DefaultStatus)], server.accepts)
    }

    /** `remove_one`: one POST to the project's `/unfollow`. */
    function RemoveOne(slug: string, server: Server): (s: Sent<Body>)
      ensures s.trace == [Request(POST, "/project/github/" + githubAccount + "/" + slug + "/unfollow", NoBody, DefaultStatus)]
      ensures s.ok <==> server.accepts(s.trace[0])
    {
      Issue([Request(POST, ActivateUrl(slug, false), NoBody, DefaultStatus)], server.accepts)
    }

    /**
     * `update`: list the project's variables; DELETE each listed name that is
     * not desired, in listing order; then POST every desired variable; the
     * first rejected request raises. `encrypted` is not consulted.
     */
    method Update(slug: string, env: Dict<string, string>, encrypted: seq<string>, server: Server)
      returns (s: Sent<Body>)
      ensures server.envVars(ProjectUrl(slug) + "/envvar").Err? ==> s == Raised()
      ensures server.envVars(ProjectUrl(slug) + "/envvar").Ok? ==>
        s == Issue(UpdatePlan(ProjectUrl(slug) + "/envvar", env, server.envVars(ProjectUrl(slug) + "/envvar").value), server.accepts)
    {
      var url := ProjectUrl(slug) + "/envvar";
      var listed := server.envVars(url);
      if listed.Err? {
        return Raised();
      }
      var deleted := DeleteStale(url, env, listed.value, server.accepts);
      IssueAppend(DeletePlan(url, Stale(env, listed.value)), PostPlan(url, env), server.accepts);
      if !deleted.ok {
        return deleted;
      }
      var posted := PostAll(url, env, server.accepts);
      s := Then(deleted, posted);
    }
  }

  /** The first loop of `update`: DELETE each listed name that is not desired. */
  method DeleteStale(url: string, env: Dict<string, string>, listed: seq<string>, accepts: Request<Body> -> bool)
    returns (s: Sent<Body>)
    ensures s == Issue(DeletePlan(url, Stale(env, listed)), accepts)
  {
    var trace: seq<Request<Body>> := [];
    for i := 0 to |listed|
      invariant Issue(DeletePlan(url, Stale(env, listed[..i])), accepts) == Sent(trace, true)
    {
      var name := listed[i];
      ghost var done := DeletePlan(url, Stale(env, listed[..i]));
      DeleteStep(url, env, listed, i);
      DeleteRest(url, env, listed, i);
      if name !in Keys(env) {
        var request := Request(DELETE, url + "/" + name, NoBody, DefaultStatus);
        IssueExtend(done, request, DeletePlan(url, Stale(env, listed[i + 1..])), accepts, trace);
        trace := trace + [request];
        if !accepts(request) {
          return Sent(trace, false);
        }
      }
    }
    assert listed[..|listed|] == listed;
    s := Sent(trace, true);
  }

  /** The second loop of `update`: POST every desired variable, expecting 201. */
  method PostAll(url: string, env: Dict<string, string>, accepts: Request<Body> -> bool) returns (s: Sent<Body>)
    ensures s == Issue(PostPlan(url, env), accepts)
  {
    ghost var posts := PostPlan(url, env);
    var trace: seq<Request<Body>> := [];
    for k := 0 to |env|
      invariant Issue(posts[..k], accepts) == Sent(trace, true)
    {
      var request := Request(POST, url, EnvVarBody(env[k].0, env[k].1), 201);
      assert posts[..k + 1] == posts[..k] + [request];
      assert posts == posts[..k] + [request] + posts[k + 1..];
      IssueExtend(posts[..k], request, posts[k + 1..], accepts, trace);
      trace := trace + [request];
      if !accepts(request) {
        return Sent(trace, false);
      }
    }
    assert posts[..|env|] == posts;
    s := Sent(trace, true);
  }

  /**
   * `Circle.__init__`, with the missing `Base.__init__` read as resolving the
   * token and the host the way the other adapters do; the GitHub account
   * comes from `[account] github` or defaults to `bincrafters`.
   */
  function NewCircle(config: Base.Config, host: string, environ: Base.Environ, files: Base.Files): (r: Result<Circle>)
    ensures r.Ok? <==> Base.ReadToken(config, Name, environ, files).Ok?
    ensures r.Ok? ==> r.value.token == Base.ReadToken(config, Name, environ, files).value
    ensures r.Ok? ==> r.value.githubAccount == (if Base.HasEntry(config, "account", "github") then Get(config["account"], "github") else DefaultGithubAccount)
    ensures r.Ok? ==> r.value.host == (if Base.HasEntry(config, "endpoint", Name) then Get(config["endpoint"], Name) else host)
  {
    var token := Base.ReadToken(config, Name, environ, files);
    if token.Err? then Err(token.error)
    else Ok(Circle(token.value, Base.Or(Base.ReadHost(config, Name), host),
                   Base.Or(Base.ReadAccount(config, Name, "github"), DefaultGithubAccount)))
  }
}
