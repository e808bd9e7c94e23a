/**
 * The Azure Pipelines adapter (bincrafters_envy/azure.py). Build
 * definitions and variable groups are both named `<account>.<slug>`; an
 * update builds the whole group from the desired variables (secret exactly
 * when marked encrypted) and PUTs it over the first existing group of that
 * name, or POSTs it as a new one. Nothing listed remotely is merged in.
 */
module AzureAdapter {
  import opened Wrappers
  import opened PyDict
  import opened Http
  import Base

  const Name := "azure"
  const DefaultAccount := "bincrafters"
  const ApiVersion := "?api-version=5.0"
  const Description := "conan environment variables provided by envy"

  /** One variable of a group. */
  datatype GroupVar = GroupVar(value: string, isSecret: bool)

  /** A variable group as `update` sends it. */
  datatype Group = Group(kind: string, name: string, description: string, variables: Dict<string, GroupVar>)

  /** The repository part of a build definition. */
  datatype Repository = Repository(id: string, kind: string, url: string, defaultBranch: string,
                                   clean: string, checkoutSubmodules: string)

  /** A build definition as `add_one` sends it (`processParameters` and `drafts` are always empty). */
  datatype Definition = Definition(processType: int, yamlFilename: string, name: string, kind: string,
                                   queueStatus: string, repository: Repository)

  /** The JSON bodies Azure requests carry. */
  datatype Body = NoBody | GroupBody(group: Group) | DefinitionBody(definition: Definition)

  /** A search result: `count`, and the `id` of each entry of `value`, in order. */
  datatype Found = Found(count: int, ids: seq<string>)

  /** What the Azure API answers, per URL path, and whether it accepts a write. */
  datatype Server = Server(
    definitions: string -> Result<seq<string>>,  // GET /build/definitions?api-version=5.0: each `name`
    find: string -> Result<Found>,               // GET /build/definitions?...&name=<name>
    groups: string -> Result<Found>,             // GET /distributedtask/variablegroups?...&groupName=<name>
    accepts: Request<Body> -> bool)

  /** `"%s.%s" % (account, slug)`: the name of a project's definition and of its variable group. */
  function QualifiedName(account: string, slug: string): string
  {
    account + "." + slug
  }

  /** Python's `s[n:]`: empty when `s` is shorter than `n`. */
  function DropPrefix(s: string, n: nat): (r: string)
    ensures n <= |s| ==> s == s[..n] + r
    ensures n > |s| ==> r == ""
  {
    if n <= |s| then s[n..] else ""
  }

  // ------------------------------------------------------------ the update

  /** The group's variables: each desired one, secret exactly when marked encrypted. */
  function GroupVariables(env: Dict<string, string>, encrypted: seq<string>): (vars: Dict<string, GroupVar>)
    ensures Keys(vars) == Keys(env)
  {
    seq(|env|, i requires 0 <= i < |env| => (env[i].0, GroupVar(env[i].1, env[i].0 in encrypted)))
  }

  /**
   * The group names exactly the desired variables (listed ones are not
   * merged in), each with its desired value, secret iff marked encrypted.
   */
  lemma GroupVariablesMeaning(env: Dict<string, string>, encrypted: seq<string>, name: string)
    requires UniqueKeys(env)
    ensures name in Keys(GroupVariables(env, encrypted)) <==> name in Keys(env)
    ensures UniqueKeys(GroupVariables(env, encrypted))
    ensures name in Keys(env) ==>
      Get(GroupVariables(env, encrypted), name) == GroupVar(Get(env, name), name in encrypted)
  {
    var vars := GroupVariables(env, encrypted);
    if name in Keys(env) {
      var i :| 0 <= i < |env| && Keys(env)[i] == name;
      assert Keys(vars)[i] == name;
      GetAt(env, i);
      GetAt(vars, i);
    }
  }

  /** The loop of `update` that fills `data["variables"]`. */
  method BuildVariables(env: Dict<string, string>, encrypted: seq<string>) returns (vars: Dict<string, GroupVar>)
    requires UniqueKeys(env)
    ensures vars == GroupVariables(env, encrypted)
  {
    vars := [];
    for i := 0 to |env|
      invariant vars == GroupVariables(env[..i], encrypted)
    {
      var name, value := env[i].0, env[i].1;
      assert name !in Keys(vars) by {
        forall j | 0 <= j < i ensures Keys(vars)[j] != name {
          assert Keys(vars)[j] == env[j].0;
        }
      }
      vars := Put(vars, name, GroupVar(value, name in encrypted));
      assert GroupVariables(env[..i + 1], encrypted) == GroupVariables(env[..i], encrypted) + [(name, GroupVar(value, name in encrypted))];
    }
    assert env[..|env|] == env;
  }

  /** The definition `add_one` sends for a slug. */
  function NewDefinition(account: string, slug: string): (d: Definition)
    ensures d.name == QualifiedName(account, slug)
    ensures d.repository.id == account + "/" + slug
    ensures d.repository.url == "https://github.com/" + account + "/" + slug + ".git"
    ensures d.repository.defaultBranch == "refs/heads/live" && d.repository.checkoutSubmodules == "false"
    ensures d.processType == 2 && d.yamlFilename == "./azure-pipelines.yml"
    ensures d.kind == "build" && d.queueStatus == "enabled"
    ensures d.repository.kind == "GitHub" && d.repository.clean == "false"
  {
    Definition(2, "./azure-pipelines.yml", QualifiedName(account, slug), "build", "enabled",
               Repository(account + "/" + slug, "GitHub", "https://github.com/" + account + "/" + slug + ".git",
                          "refs/heads/live", "false", "false"))
  }

  // ------------------------------------------------------------- the adapter

  /** An Azure adapter as `Azure.__init__` leaves it (the basic-auth user is `token`). */
  datatype Azure = Azure(token: string, account: string, host: string) {

    /** `self._endpoint`: the account's `packages` project API. */
    function Endpoint(): string
    {
      host + "/" + account + "/packages/_apis"
    }

    /** `_find`'s URL: the definitions named `<account>.<slug>`. */
    function FindUrl(slug: string): string
    {
      "/build/definitions" + ApiVersion + "&name=" + QualifiedName(account, slug)
    }

    /** `list`: each definition's name without its first `len(account) + 1` characters. */
    function List(server: Server): (r: Result<seq<string>>)
      ensures r.Ok? <==> server.definitions("/build/definitions" + ApiVersion).Ok?
      ensures r.Ok? ==> var names := server.definitions("/build/definitions" + ApiVersion).value;
        |r.value| == |names| && forall i :: 0 <= i < |names| ==> r.value[i] == DropPrefix(names[i], |account| + 1)
    {
      var listed := server.definitions("/build/definitions" + ApiVersion);
      if listed.Err? then Err(listed.error)
      else Ok(seq(|listed.value|, i requires 0 <= i < |listed.value| => DropPrefix(listed.value[i], |account| + 1)))
    }

    /**
     * `list` inverts the naming of `add_one`: the definition of `slug` lists
     * as `slug`. The cut does not check the prefix, so any name of the same
     * length before the dot lists the same way.
     */
    lemma ListInvertsQualifiedName(slug: string, other: string)
      requires |other| == |account|
      ensures DropPrefix(QualifiedName(account, slug), |account| + 1) == slug
      ensures DropPrefix(QualifiedName(other, slug), |account| + 1) == slug
    {
      assert QualifiedName(account, slug)[|account| + 1..] == slug;
      assert QualifiedName(other, slug)[|account| + 1..] == slug;
    }

    /** `exists`: whether the search by name reports a positive `count`. */
    function Exists(slug: string, server: Server): (r: Result<bool>)
      ensures r.Ok? <==> server.find(FindUrl(slug)).Ok?
      ensures r.Ok? ==> (r.value <==> server.find(FindUrl(slug)).value.count > 0)
    {
      var found := server.find(FindUrl(slug));
      if found.Err? then Err(found.error) else Ok(found.value.count > 0)
    }

    /** `add_one`: one POST of the new definition. */
    function AddOne(slug: string, server: Server): (s: Sent<Body>)
      ensures s.trace == [Request(POST, "/build/definitions" + ApiVersion, DefinitionBody(NewDefinition(account, slug)), DefaultStatus)]
      ensures s.ok <==> server.accepts(s.trace[0])
    {
      Issue([Request(POST, "/build/definitions" + ApiVersion, DefinitionBody(NewDefinition(account, slug)), DefaultStatus)],
            server.accepts)
    }

    /**
     * `remove_one`: DELETE the first definition the search finds, expecting
     * 204; raises (`IndexError`) when it finds none.
     */
    function RemoveOne(slug: string, server: Server): (s: Sent<Body>)
      ensures server.find(FindUrl(slug)).Err? || server.find(FindUrl(slug)).value.ids == [] ==> s == Raised()
      ensures server.find(FindUrl(slug)).Ok? && server.find(FindUrl(slug)).value.ids != [] ==>
        s.trace == [Request(DELETE, "/build/definitions/" + server.find(FindUrl(slug)).value.ids[0] + ApiVersion, NoBody, 204)]
        && (s.ok <==> server.accepts(s.trace[0]))
    {
      var found := server.find(FindUrl(slug));
      if found.Err? || found.value.ids == [] then Raised()
      else Issue([Request(DELETE, "/build/definitions/" + found.value.ids[0] + ApiVersion, NoBody, 204)], server.accepts)
    }

    /** The search URL of `update`. */
    function GroupsUrl(slug: string): string
    {
      "/distributedtask/variablegroups" + ApiVersion + "-preview.1&groupName=" + QualifiedName(account, slug)
    }

    /**
     * `update`: build the group from the desired variables, search the groups
     * of that name, and PUT or POST the group; a failed search, or a positive
     * count with no entries, raises.
     */
    method Update(slug: string, env: Dict<string, string>, encrypted: seq<string>, server: Server)
      returns (s: Sent<Body>)
      requires UniqueKeys(env)
      ensures var group := Group("Vsts", QualifiedName(account, slug), Description, GroupVariables(env, encrypted));
        var found := server.groups(GroupsUrl(slug));
        && (found.Err? ==> s == Raised())
        && (found.Ok? && found.value.count > 0 && found.value.ids == [] ==> s == Raised())
        && (found.Ok? && found.value.count > 0 && found.value.ids != [] ==>
              s.trace == [Request(PUT, "/distributedtask/variablegroups/" + found.value.ids[0] + ApiVersion + "-preview.1",
                                  GroupBody(group), DefaultStatus)])
        && (found.Ok? && found.value.count <= 0 ==>
              s.trace == [Request(POST, "/distributedtask/variablegroups" + ApiVersion + "-preview.1", GroupBody(group), DefaultStatus)])
        && (found.Ok? && (found.value.count <= 0 || found.value.ids != []) ==> (s.ok <==> server.accepts(s.trace[0])))
    {
      var groupname := QualifiedName(account, slug);
      var variables := BuildVariables(env, encrypted);
      var group := Group("Vsts", groupname, Description, variables);
      var groups := server.groups(GroupsUrl(slug));
      if groups.Err? {
        return Raised();
      }
      var request;
      if groups.value.count > 0 {
        if groups.value.ids == [] {
          return Raised();
        }
        request := Request(PUT, "/distributedtask/variablegroups/" + groups.value.ids[0] + ApiVersion + "-preview.1",
                           GroupBody(group), DefaultStatus);
      } else {
        request := Request(POST, "/distributedtask/variablegroups" + ApiVersion + "-preview.1", GroupBody(group), DefaultStatus);
      }
      s := Issue([request], server.accepts);
    }
  }

  /**
   * `Azure.__init__`, with the missing `Base.__init__` read as resolving the
   * token and the host the way the other adapters do; the account from
   * `[account]` or `bincrafters`.
   */
  function NewAzure(config: Base.Config, host: string, environ: Base.Environ, files: Base.Files): (r: Result<Azure>)
    ensures r.Ok? <==> Base.ReadToken(config, Name, environ, files).Ok?
    ensures r.Ok? ==> r.value.token == Base.ReadToken(config, Name, environ, files).value
    ensures r.Ok? ==> r.value.account == (if Base.HasEntry(config, "account", Name) then Get(config["account"], Name) else DefaultAccount)
    ensures r.Ok? ==> r.value.host == (if Base.HasEntry(config, "endpoint", Name) then Get(config["endpoint"], Name) else host)
  {
    var token := Base.ReadToken(config, Name, environ, files);
    if token.Err? then Err(token.error)
    else Ok(Azure(token.value, Base.Or(Base.ReadAccount(config, Name, ""), DefaultAccount),
                  Base.Or(Base.ReadHost(config, Name), host)))
  }
}
