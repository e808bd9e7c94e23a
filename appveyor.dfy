/**
 * The AppVeyor adapter (bincrafters_envy/appveyor.py). The API is
 * account-scoped when the token starts with `v2.0`; variables are replaced
 * wholesale by one PUT of the merged list: every desired variable (encrypted
 * through the server when its name is marked) followed by the listed
 * variables whose names are not desired. The merge loop is shared with
 * `update_appveyor` of bincrafters_envy.py, and the repository search with
 * both scripts' `add_to_appveyor`.
 */
module AppveyorAdapter {
  import opened Wrappers
  import opened Text
  import opened PyDict
  import opened Http
  import Base
  import opened Seqs

  const Name := "appveyor"
  const DefaultAccount := "BinCrafters"
  const DefaultGithubAccount := "bincrafters"

  /** An environment variable as AppVeyor lists and takes it. */
  datatype VarValue = VarValue(value: string, isEncrypted: bool)
  datatype Var = Var(name: string, value: VarValue)

  /** A listed project, as far as the core reads it. */
  datatype Project = Project(slug: string, repositoryName: string)

  /** The JSON bodies AppVeyor requests carry. */
  datatype Body = NoBody | NewProject(repositoryProvider: string, repositoryName: string) | Vars(vars: seq<Var>)

  /** What the AppVeyor API answers, per URL path, and whether it accepts a write. */
  datatype Server = Server(
    projects: string -> Result<seq<Project>>,   // GET .../projects
    project: string -> bool,                    // GET /projects/<account>/<slug> succeeds
    envVars: string -> Result<seq<Var>>,        // GET .../settings/environment-variables
    encrypt: string -> string,                  // POST .../account/encrypt: the encrypted form of a value
    accepts: Request<Body> -> bool)

  // --------------------------------------------------------------- the merge

  function Names(vars: seq<Var>): (names: seq<string>)
    ensures |names| == |vars| && forall i :: 0 <= i < |vars| ==> names[i] == vars[i].name
  {
    seq(|vars|, i requires 0 <= i < |vars| => vars[i].name)
  }

  /** No name twice. */
  ghost predicate UniqueNames(vars: seq<Var>)
  {
    forall i, j :: 0 <= i < j < |vars| ==> vars[i].name != vars[j].name
  }

  /** The entry built for one desired variable. */
  function DesiredVar(name: string, value: string, encrypted: seq<string>, encrypt: string -> string): Var
  {
    if name in encrypted then Var(name, VarValue(encrypt(value), true))
    else Var(name, VarValue(value, false))
  }

  /** The entries built for the desired variables, in dict order. */
  function DesiredVars(env: Dict<string, string>, encrypted: seq<string>, encrypt: string -> string): (vars: seq<Var>)
    ensures Names(vars) == Keys(env)
  {
    seq(|env|, i requires 0 <= i < |env| => DesiredVar(env[i].0, env[i].1, encrypted, encrypt))
  }

  /**
   * The listed variables the merge keeps, in listing order: those whose
   * name is not desired, the first listing of each name only.
   */
  function CarriedOver(remote: seq<Var>, desired: seq<string>): seq<Var>
    decreases |remote|
  {
    if remote == [] then []
    else
      var prev := CarriedOver(remote[..|remote| - 1], desired);
      var v := remote[|remote| - 1];
      if v.name in desired || v.name in Names(prev) then prev else prev + [v]
  }

  /** The PUT body of an update: the desired entries, then the carried-over listed ones. */
  function Merged(env: Dict<string, string>, encrypted: seq<string>, encrypt: string -> string,
                  remote: seq<Var>): seq<Var>
  {
    DesiredVars(env, encrypted, encrypt) + CarriedOver(remote, Keys(env))
  }

  /** `CarriedOver` names no variable twice and no desired one. */
  lemma {:induction false} CarriedOverUnique(remote: seq<Var>, desired: seq<string>)
    ensures UniqueNames(CarriedOver(remote, desired))
    ensures forall i :: 0 <= i < |CarriedOver(remote, desired)| ==> CarriedOver(remote, desired)[i].name !in desired
    decreases |remote|
  {
    if remote != [] {
      var n := |remote| - 1;
      var v := remote[n];
      var prev := CarriedOver(remote[..n], desired);
      CarriedOverUnique(remote[..n], desired);
      if !(v.name in desired || v.name in Names(prev)) {
        assert CarriedOver(remote, desired) == prev + [v];
        assert forall i :: 0 <= i < |prev| ==> Names(prev)[i] == prev[i].name;
      }
    }
  }

  /** Every kept entry is the first listing of its name: returns where it was listed. */
  lemma {:induction false} CarriedOverFirst(remote: seq<Var>, desired: seq<string>, i: nat) returns (j: nat)
    requires i < |CarriedOver(remote, desired)|
    ensures j < |remote| && remote[j] == CarriedOver(remote, desired)[i]
    ensures forall k :: 0 <= k < j ==> remote[k].name != remote[j].name
    decreases |remote|
  {
    var n := |remote| - 1;
    var init, v := remote[..n], remote[n];
    var prev := CarriedOver(init, desired);
    if i < |prev| {
      j := CarriedOverFirst(init, desired, i);
      assert CarriedOver(remote, desired)[i] == prev[i];
      assert forall k :: 0 <= k <= j ==> remote[k] == init[k];
    } else {
      assert CarriedOver(remote, desired) == prev + [v];
      j := n;
      CarriedOverNames(init, desired, v.name);
      forall k | 0 <= k < n ensures remote[k].name != v.name {
        assert Names(init)[k] == remote[k].name;
      }
    }
  }

  /**
   * What `CarriedOver` keeps: no desired name and no name twice; every kept
   * entry is the first listing of its name; every listed name that is not
   * desired is kept.
   */
  lemma CarriedOverMeaning(remote: seq<Var>, desired: seq<string>)
    ensures var c := CarriedOver(remote, desired);
      && UniqueNames(c)
      && (forall i :: 0 <= i < |c| ==> c[i].name !in desired)
      && (forall i :: 0 <= i < |c| ==> exists j :: 0 <= j < |remote| && remote[j] == c[i]
                                         && forall k :: 0 <= k < j ==> remote[k].name != c[i].name)
      && (forall j :: 0 <= j < |remote| && remote[j].name !in desired ==> remote[j].name in Names(c))
  {
    var c := CarriedOver(remote, desired);
    CarriedOverUnique(remote, desired);
    forall i | 0 <= i < |c|
      ensures exists j :: 0 <= j < |remote| && remote[j] == c[i] && forall k :: 0 <= k < j ==> remote[k].name != c[i].name
    {
      var j := CarriedOverFirst(remote, desired, i);
    }
    forall j | 0 <= j < |remote| && remote[j].name !in desired
      ensures remote[j].name in Names(c)
    {
      CarriedOverNames(remote, desired, remote[j].name);
      assert Names(remote)[j] == remote[j].name;
    }
  }

  /**
   * `CarriedOver` keeps the listing order: its entries are the listed
   * variables at an increasing run of positions.
   */
  lemma {:induction false} CarriedOverInOrder(remote: seq<Var>, desired: seq<string>) returns (idx: seq<nat>)
    ensures PicksInOrder(remote, CarriedOver(remote, desired), idx)
    decreases |remote|
  {
    if remote == [] {
      return [];
    }
    var n := |remote| - 1;
    var prev := CarriedOver(remote[..n], desired);
    idx := CarriedOverInOrder(remote[..n], desired);
    if !(remote[n].name in desired || remote[n].name in Names(prev)) {
      PicksInOrderSnoc(remote, prev, idx, n);
      idx := idx + [n];
    }
  }

  /** The merged body never names a variable twice. */
  lemma MergedUnique(env: Dict<string, string>, encrypted: seq<string>, encrypt: string -> string,
                     remote: seq<Var>)
    requires UniqueKeys(env)
    ensures UniqueNames(Merged(env, encrypted, encrypt, remote))
  {
    var d := DesiredVars(env, encrypted, encrypt);
    var c := CarriedOver(remote, Keys(env));
    var m := d + c;
    CarriedOverMeaning(remote, Keys(env));
    forall i, j | 0 <= i < j < |m| ensures m[i].name != m[j].name {
      if j < |d| {
        assert Keys(env)[i] == m[i].name && Keys(env)[j] == m[j].name;
      } else if i >= |d| {
        assert m[i] == c[i - |d|] && m[j] == c[j - |d|];
      } else {
        assert m[j] == c[j - |d|];
        assert m[i].name == Keys(env)[i];
      }
    }
  }

  lemma NamesAppend(a: seq<Var>, b: seq<Var>)
    ensures Names(a + b) == Names(a) + Names(b)
  {
  }

  /** A name is carried over iff it is listed and not desired. */
  lemma {:induction false} CarriedOverNames(remote: seq<Var>, desired: seq<string>, name: string)
    ensures name in Names(CarriedOver(remote, desired)) <==> name in Names(remote) && name !in desired
    decreases |remote|
  {
    if remote != [] {
      var n := |remote| - 1;
      var init, v := remote[..n], remote[n];
      CarriedOverNames(init, desired, name);
      var prev := CarriedOver(init, desired);
      assert remote == init + [v];
      NamesAppend(init, [v]);
      if !(v.name in desired || v.name in Names(prev)) {
        NamesAppend(prev, [v]);
      }
    }
  }

  /** The merged body names exactly the desired names and the listed ones. */
  lemma MergedNames(env: Dict<string, string>, encrypted: seq<string>, encrypt: string -> string,
                    remote: seq<Var>, name: string)
    ensures name in Names(Merged(env, encrypted, encrypt, remote)) <==> name in Keys(env) || name in Names(remote)
  {
    NamesAppend(DesiredVars(env, encrypted, encrypt), CarriedOver(remote, Keys(env)));
    CarriedOverNames(remote, Keys(env), name);
  }

  /**
   * A desired name's entry carries the desired value, encrypted and flagged
   * encrypted exactly when the name is marked.
   */
  lemma MergedDesired(env: Dict<string, string>, encrypted: seq<string>, encrypt: string -> string,
                      remote: seq<Var>, i: nat)
    requires UniqueKeys(env)
    requires i < |Merged(env, encrypted, encrypt, remote)| && Merged(env, encrypted, encrypt, remote)[i].name in Keys(env)
    ensures var v := Merged(env, encrypted, encrypt, remote)[i];
      && v.value.isEncrypted == (v.name in encrypted)
      && v.value.value == (if v.name in encrypted then encrypt(Get(env, v.name)) else Get(env, v.name))
  {
    var d := DesiredVars(env, encrypted, encrypt);
    var c := CarriedOver(remote, Keys(env));
    CarriedOverMeaning(remote, Keys(env));
    var m: seq<Var> := d + c;
    assert i < |d| by {
      assert forall j :: |d| <= j < |m| ==> m[j] == c[j - |d|];
    }
    assert m[i] == d[i] == DesiredVar(env[i].0, env[i].1, encrypted, encrypt);
    GetAt(env, i);
  }

  /** Any other entry is its name's first listing, carried over unchanged. */
  lemma MergedCarried(env: Dict<string, string>, encrypted: seq<string>, encrypt: string -> string,
                      remote: seq<Var>, i: nat)
    requires i < |Merged(env, encrypted, encrypt, remote)| && Merged(env, encrypted, encrypt, remote)[i].name !in Keys(env)
    ensures var v := Merged(env, encrypted, encrypt, remote)[i];
      exists j :: 0 <= j < |remote| && remote[j] == v && forall k :: 0 <= k < j ==> remote[k].name != v.name
  {
    var d := DesiredVars(env, encrypted, encrypt);
    var c := CarriedOver(remote, Keys(env));
    CarriedOverMeaning(remote, Keys(env));
    var m: seq<Var> := d + c;
    assert forall j :: 0 <= j < |d| ==> m[j].name == Keys(env)[j];
    assert i >= |d|;
    assert m[i] == c[i - |d|];
  }

  /** Listed entries whose names are all desired contribute nothing ahead of the rest. */
  lemma {:induction false} CarriedOverSkipsDesired(xs: seq<Var>, ys: seq<Var>, desired: seq<string>)
    requires forall i :: 0 <= i < |xs| ==> xs[i].name in desired
    ensures CarriedOver(xs + ys, desired) == CarriedOver(ys, desired)
    decreases |ys|, |xs|
  {
    if ys == [] {
      assert xs + ys == xs;
      if xs != [] {
        CarriedOverSkipsDesired(xs[..|xs| - 1], [], desired);
        assert xs[..|xs| - 1] + [] == xs[..|xs| - 1];
      }
    } else {
      var n := |ys| - 1;
      assert (xs + ys)[..|xs + ys| - 1] == xs + ys[..n];
      CarriedOverSkipsDesired(xs, ys[..n], desired);
    }
  }

  /** A list that `CarriedOver` would keep whole is kept whole. */
  lemma {:induction false} CarriedOverKeepsCarried(c: seq<Var>, desired: seq<string>)
    requires UniqueNames(c) && forall i :: 0 <= i < |c| ==> c[i].name !in desired
    ensures CarriedOver(c, desired) == c
    decreases |c|
  {
    if c != [] {
      var n := |c| - 1;
      CarriedOverKeepsCarried(c[..n], desired);
      assert c[..n] + [c[n]] == c;
      assert c[n].name !in Names(c[..n]) by {
        forall i | 0 <= i < n ensures Names(c[..n])[i] != c[n].name {
          assert c[..n][i] == c[i];
        }
      }
    }
  }

  /**
   * Updating again after the PUT was accepted (the listed variables are now
   * the merged body) sends the same body: the update is idempotent.
   */
  lemma MergeIsIdempotent(env: Dict<string, string>, encrypted: seq<string>, encrypt: string -> string,
                          remote: seq<Var>)
    requires UniqueKeys(env)
    ensures Merged(env, encrypted, encrypt, Merged(env, encrypted, encrypt, remote)) == Merged(env, encrypted, encrypt, remote)
  {
    var d := DesiredVars(env, encrypted, encrypt);
    var c := CarriedOver(remote, Keys(env));
    forall i | 0 <= i < |d| ensures d[i].name in Keys(env) {
      assert Keys(env)[i] == d[i].name;
    }
    CarriedOverSkipsDesired(d, c, Keys(env));
    CarriedOverMeaning(remote, Keys(env));
    CarriedOverKeepsCarried(c, Keys(env));
  }

  /** Desired `A=1`, `B=2` with `B` encrypted, listed `C=3`: `A` plain, `B` encrypted, `C` carried over. */
  lemma MergeExample(encrypt: string -> string, c: VarValue)
    ensures Merged([("A", "1"), ("B", "2")], ["B"], encrypt, [Var("C", c)])
         == [Var("A", VarValue("1", false)), Var("B", VarValue(encrypt("2"), true)), Var("C", c)]
  {
    var env := [("A", "1"), ("B", "2")];
    assert Keys(env) == ["A", "B"];
    assert DesiredVars(env, ["B"], encrypt) == [Var("A", VarValue("1", false)), Var("B", VarValue(encrypt("2"), true))];
    assert [Var("C", c)][..0] == [];
    assert "C" != "A" && "C" != "B";
    assert CarriedOver([Var("C", c)], Keys(env)) == [Var("C", c)];
  }

  /** `Entries(vars)`: a dict from each entry's name to the entry. */
  function Entries(vars: seq<Var>): (d: Dict<string, Var>)
    ensures |d| == |vars| && Keys(d) == Names(vars)
    ensures forall i :: 0 <= i < |vars| ==> d[i] == (vars[i].name, vars[i])
  {
    seq(|vars|, i requires 0 <= i < |vars| => (vars[i].name, vars[i]))
  }

  /** The first merge loop of `update`: one dict entry per desired variable, encrypted where asked. */
  method DesiredEntries(env: Dict<string, string>, encrypted: seq<string>, encrypt: string -> string)
    returns (newVars: Dict<string, Var>)
    requires UniqueKeys(env)
    ensures newVars == Entries(DesiredVars(env, encrypted, encrypt))
  {
    newVars := [];
    for i := 0 to |env|
      invariant newVars == Entries(DesiredVars(env[..i], encrypted, encrypt))
    {
      var k, v := env[i].0, env[i].1;
      var newVar;
      if k in encrypted {
        newVar := Var(k, VarValue(encrypt(v), true));
      } else {
        newVar := Var(k, VarValue(v, false));
      }
      assert k !in Keys(newVars) by {
        forall j | 0 <= j < i ensures Keys(newVars)[j] != k {
          assert Keys(newVars)[j] == env[j].0;
        }
      }
      newVars := Put(newVars, k, newVar);
      assert DesiredVars(env[..i + 1], encrypted, encrypt) == DesiredVars(env[..i], encrypted, encrypt) + [newVar];
    }
    assert env[..|env|] == env;
  }

  /** The second merge loop of `update`: add each listed variable whose name the dict lacks. */
  method AddCarriedOver(entries: Dict<string, Var>, ghost d: seq<Var>, remote: seq<Var>)
    returns (newVars: Dict<string, Var>)
    requires entries == Entries(d)
    ensures newVars == Entries(d + CarriedOver(remote, Names(d)))
  {
    newVars := entries;
    assert d + CarriedOver(remote[..0], Names(d)) == d;
    for j := 0 to |remote|
      invariant newVars == Entries(d + CarriedOver(remote[..j], Names(d)))
    {
      ghost var prev := CarriedOver(remote[..j], Names(d));
      assert remote[..j + 1][..j] == remote[..j];
      assert Names(d + prev) == Names(d) + Names(prev);
      var v := remote[j];
      if v.name !in Keys(newVars) {
        newVars := Put(newVars, v.name, v);
        assert d + (prev + [v]) == (d + prev) + [v];
      }
    }
    assert remote[..|remote|] == remote;
  }

  /** The last step of `update`'s merge: the dict's values, in order. */
  method EntryValues(entries: Dict<string, Var>, ghost vars: seq<Var>) returns (values: seq<Var>)
    requires entries == Entries(vars)
    ensures values == vars
  {
    values := [];
    for k := 0 to |entries|
      invariant values == vars[..k]
    {
      values := values + [entries[k].1];
    }
  }

  /**
   * The merge loops of `update` (appveyor.py:69-91, bincrafters_envy.py:182-203):
   * fill the dict from the desired variables, add each listed variable whose
   * name it lacks, then take the dict's values in order.
   */
  method MergeVars(env: Dict<string, string>, encrypted: seq<string>, encrypt: string -> string,
                   remote: seq<Var>) returns (request: seq<Var>)
    requires UniqueKeys(env)
    ensures request == Merged(env, encrypted, encrypt, remote)
  {
    ghost var d := DesiredVars(env, encrypted, encrypt);
    var newVars := DesiredEntries(env, encrypted, encrypt);
    assert Names(d) == Keys(env);
    newVars := AddCarriedOver(newVars, d, remote);
    request := EntryValues(newVars, Merged(env, encrypted, encrypt, remote));
  }

  /** Searching the listed projects for a repository (the `found` loop of `add_to_appveyor`). */
  method FindRepository(projects: seq<Project>, repositoryName: string) returns (found: bool)
    ensures found <==> exists i :: 0 <= i < |projects| && projects[i].repositoryName == repositoryName
  {
    found := false;
    for i := 0 to |projects|
      invariant found <==> exists j :: 0 <= j < i && projects[j].repositoryName == repositoryName
    {
      if projects[i].repositoryName == repositoryName {
        found := true;
      }
    }
  }

  // ------------------------------------------------------------- the adapter

  /** The API base: account-scoped for a `v2.0` token, the plain API otherwise. */
  function EndpointFor(v2: bool, host: string, account: string): string
  {
    if v2 then host + "/api/account/" + account else host + "/api"
  }

  /** The API base is account-scoped exactly when the token starts with `v2.0`. */
  lemma EndpointScopedIffV2(token: string, host: string, account: string)
    ensures EndpointFor("v2.0" <= token, host, account) == host + "/api/account/" + account <==> "v2.0" <= token
    ensures !("v2.0" <= token) ==> EndpointFor("v2.0" <= token, host, account) == host + "/api"
  {
    if !("v2.0" <= token) {
      assert |host + "/api"| < |host + "/api/account/" + account|;
    }
  }

  /** An AppVeyor adapter as `Appveyor.__init__` leaves it (the headers only carry `token`). */
  datatype Appveyor = Appveyor(token: string, account: string, host: string, githubAccount: string) {

    /** `self._endpoint`, chosen by the token's `v2.0` prefix. */
    function Endpoint(): string
    {
      EndpointFor("v2.0" <= token, host, account)
    }

    /** `list`: the `slug` of every listed project, in listing order. */
    function List(server: Server): (r: Result<seq<string>>)
      ensures r.Ok? <==> server.projects("/projects").Ok?
      ensures r.Ok? ==> (|r.value| == |server.projects("/projects").value|
        && forall i :: 0 <= i < |r.value| ==> r.value[i] == server.projects("/projects").value[i].slug)
    {
      var listed := server.projects("/projects");
      if listed.Err? then Err(listed.error)
      else Ok(seq(|listed.value|, i requires 0 <= i < |listed.value| => listed.value[i].slug))
    }

    /** `_project_url`: `/projects/<account>/<slug>`, with the slug as given. */
    function ProjectUrl(slug: string): string
    {
      "/projects/" + account + "/" + slug
    }

    /** `exists`: whether the GET of the project URL succeeds; any failure counts as absent. */
    function Exists(slug: string, server: Server): (r: bool)
      ensures r <==> server.project("/projects/" + account + "/" + slug)
    {
      server.project(ProjectUrl(slug))
    }

    /** `add_one`: one POST of `{gitHub, <github account>/<slug>}` to `/projects`. */
    function AddOne(slug: string, server: Server): (s: Sent<Body>)
      ensures s.trace == [Request(POST, "/projects", NewProject("gitHub", githubAccount + "/" + slug), DefaultStatus)]
      ensures s.ok <==> server.accepts(s.trace[0])
    {
      Issue([Request(POST, "/projects", NewProject("gitHub", githubAccount + "/" + slug), DefaultStatus)], server.accepts)
    }

    /** `remove_one`: one DELETE of the project URL, expecting 204. */
    function RemoveOne(slug: string, server: Server): (s: Sent<Body>)
      ensures s.trace == [Request(DELETE, "/projects/" + account + "/" + slug, NoBody, 204)]
      ensures s.ok <==> server.accepts(s.trace[0])
    {
      Issue([Request(DELETE, ProjectUrl(slug), NoBody, 204)], server.accepts)
    }

    /** The variables URL of `update`: the slug with `_` replaced by `-`. */
    function SettingsUrl(slug: string): string
    {
      "/projects/" + account + "/" + Replace(slug, '_', '-') + "/settings/environment-variables"
    }

    /**
     * `update` and `exists`/`remove_one` name the same project exactly when
     * the slug has no `_`: only `update` normalises it.
     */
    lemma SettingsUrlNormalisesSlug(slug: string)
      ensures SettingsUrl(slug) == ProjectUrl(slug) + "/settings/environment-variables" <==> '_' !in slug
    {
      var prefix := "/projects/" + account + "/";
      var tail := "/settings/environment-variables";
      if '_' in slug {
        var i :| 0 <= i < |slug| && slug[i] == '_';
        assert Replace(slug, '_', '-')[i] == '-';
        assert (prefix + Replace(slug, '_', '-') + tail)[|prefix| + i] == '-';
        assert (prefix + slug + tail)[|prefix| + i] == '_';
      }
    }

    /**
     * `update`: list the project's variables, merge, and PUT the merged list
     * (expecting 204) to the normalised variables URL.
     */
    method Update(slug: string, env: Dict<string, string>, encrypted: seq<string>, server: Server)
      returns (s: Sent<Body>)
      requires UniqueKeys(env)
      ensures server.envVars(SettingsUrl(slug)).Err? ==> s == Raised()
      ensures server.envVars(SettingsUrl(slug)).Ok? ==>
        s.trace == [Request(PUT, SettingsUrl(slug),
                            Vars(Merged(env, encrypted, server.encrypt, server.envVars(SettingsUrl(slug)).value)), 204)]
        && (s.ok <==> server.accepts(s.trace[0]))
    {
      var url := SettingsUrl(slug);
      var listed := server.envVars(url);
      if listed.Err? {
        return Raised();
      }
      var request := MergeVars(env, encrypted, server.encrypt, listed.value);
      s := Issue([Request(PUT, url, Vars(request), 204)], server.accepts);
    }
  }

  /**
   * `Appveyor.__init__`: the token as `Base._read_token` resolves it (raising
   * when there is none), the account from `[account]` or `BinCrafters`, the
   * host from `[endpoint]` or the one given, the GitHub account from
   * `[account] github` or `bincrafters`.
   */
  function NewAppveyor(config: Base.Config, host: string, environ: Base.Environ, files: Base.Files): (r: Result<Appveyor>)
    ensures r.Ok? <==> Base.ReadToken(config, Name, environ, files).Ok?
    ensures r.Ok? ==> r.value.token == Base.ReadToken(config, Name, environ, files).value
    ensures r.Ok? ==> r.value.account == (if Base.HasEntry(config, "account", Name) then Get(config["account"], Name) else DefaultAccount)
    ensures r.Ok? ==> r.value.githubAccount == (if Base.HasEntry(config, "account", "github") then Get(config["account"], "github") else DefaultGithubAccount)
    ensures r.Ok? ==> r.value.host == (if Base.HasEntry(config, "endpoint", Name) then Get(config["endpoint"], Name) else host)
  {
    var token := Base.ReadToken(config, Name, environ, files);
    if token.Err? then Err(token.error)
    else Ok(Appveyor(token.value,
                     Base.Or(Base.ReadAccount(config, Name, ""), DefaultAccount),
                     Base.Or(Base.ReadHost(config, Name), host),
                     Base.Or(Base.ReadAccount(config, Name, "github"), DefaultGithubAccount)))
  }
}
