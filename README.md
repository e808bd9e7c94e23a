# bincrafters-envy in Dafny

bincrafters-envy keeps the environment variables of the BinCrafters CI
projects in step with one INI file. For each GitHub project it adds the
project to a CI provider when it is missing, then reconciles the provider's
variables with the desired ones (`[env]` plus `-e k=v`, encrypted when
listed under `[encrypted]`). With `--remove` it instead removes the listed
projects that match a glob, after a `y/n` confirmation unless `--force` is
given. Each (project, provider) pair runs on its own, and the process exits
1 exactly when one of them failed.

This project models that core and proves what it promises:

- `Envy` (`bincrafters_envy/bincrafters_envy.py`): the command-line script. A
  `Session` class holds the module state the script mutates: hosts, tokens,
  accounts and the AppVeyor API flavour. It also carries the add, update and
  remove operations for Travis CI and AppVeyor, the `-e` handling, and
  `main` with its sticky `failed` flag.
- `EnvyLegacy` (`envy.py`): the older single-project script. Its AppVeyor
  merge lets the remote value win and never encrypts; its Travis update
  makes everything private.
- `TravisAdapter`, `AppveyorAdapter`, `CircleAdapter`, `AzureAdapter`
  (`bincrafters_envy/*.py`): the provider classes. Each is a datatype of the
  fields its `__init__` sets, with `list`, `exists`, `add_one`, `remove_one`
  and `update`.
- `Base` (`bincrafters_envy/base.py`): token, account and host resolution, and
  the `y/n` prompt.
- Helpers that give Python's semantics, as far as the core needs them:
  - `PyDict`: the insertion-ordered `dict`;
  - `Text`: `str.split`, `replace`, `strip`, and `upper` and `lower` on ASCII letters;
  - `Glob`: `fnmatch` with `*` and `?`;
  - `Http`: the HTTP side;
  - `Wrappers`: `Option` and `Result`.

HTTP is an oracle. Each provider has a `Server` record whose fields answer the
GETs, keyed by URL, with a value or a failure. A write (POST, PUT, PATCH,
DELETE) is a `Request` value. `accepts` says whether the server answered with
the status the caller expects. A call's result is the sequence of writes it
sent and whether it returned normally. `Http.Issue` is the rule every loop of
writes follows: requests go out in order, and the first one not answered as
expected raises, so nothing after it is sent.

Notes on the code:

- Circle's `update` deletes every listed variable that is not desired and then
  POSTs every desired one. The end state is the desired set, not a union with
  the remote (`CircleAdapter.UpdateReplacesVariables`). The other providers
  differ: AppVeyor unions with the desired values winning (the older `envy.py`
  lets the remote values win), Travis PATCHes or POSTs per desired name, and
  Azure rebuilds the whole variable group from the desired set.
- The adapters call the request helpers `_get`, `_post`, `_put`, `_patch` and
  `_delete`, and Circle and Azure call `Base.__init__`. None of these is
  defined in `base.py`.
  - The model assumes `Base.__init__` resolves the token and the host as the
    Travis and AppVeyor constructors do.
  - The status a helper expects when the caller names none is taken as 200,
    the status the scripts check.
- Azure's `exists` is `count > 0` on the definitions found by name.
  `remove_one` and `update` use the first id returned (`value[0]`). An empty
  id list raises.
- Travis `_activate` deactivates through the path `/deactivate` whatever the
  slug (see Findings). The script's `travis_activate` appends the suffix to the
  project URL.
- Some AppVeyor calls of the script always use `<host>/api/projects/...`, even
  when the token selects the account-scoped `v2.0` endpoint: the GET and PUT
  of `update_appveyor` (bincrafters_envy.py:170-174) and the DELETE of
  `remove_from_appveyor` (bincrafters_envy.py:265-268). The project listing
  of `add_to_appveyor` and `remove_from_appveyor` and the encryption call use
  `appveyor_endpoint()`.

## Model

| member | source | states |
|---|---|---|
| Http.Issue | bincrafters_envy/bincrafters_envy.py:264-271 | the writes sent are the plan up to and including the first one not answered as expected; the call returns normally iff every planned write is accepted, and then all of them are sent |
| Http.IssueStopsAt | bincrafters_envy/bincrafters_envy.py:264-271 | when the first k writes are accepted and the next is not, exactly k + 1 are sent and the call raises |
| Http.Then | bincrafters_envy/bincrafters_envy.py:359-360 | inside one `try`, the second call runs only when the first returned normally; the block's writes are the first's followed by the second's |
| Http.IssueAppend | bincrafters_envy/circle.py:48-55 | two write loops in a row behave as one loop over both plans: a rejection in the first means the second sends nothing |
| Http.IssueExtend | bincrafters_envy/circle.py:48-51 | one more write after a run of accepted ones is sent, and when it is rejected nothing planned after it is |
| Http.IssueInOrder | bincrafters_envy/bincrafters_envy.py:240-243 | the loop that sends each planned write and raises on an unexpected status sends exactly what `Issue` describes |
| PyDict.Put | bincrafters_envy/bincrafters_envy.py:332-338 | `d[k] = v` keeps the key order when `k` is present, appends `(k, v)` when it is new, and leaves every other entry as it was |
| PyDict.PutGet | bincrafters_envy/bincrafters_envy.py:338 | after `d[k] = v`, `k` is a key and `d[k]` is `v` |
| PyDict.PutKeys | bincrafters_envy/bincrafters_envy.py:338 | the only key `d[k] = v` can add is `k` |
| PyDict.PutUnique | bincrafters_envy/bincrafters_envy.py:338 | `d[k] = v` never makes a key appear twice |
| PyDict.PutOthers | bincrafters_envy/bincrafters_envy.py:338 | `d[k] = v` leaves the value of every other key unchanged |
| PyDict.GetAt | bincrafters_envy/bincrafters_envy.py:332-333 | in a dict, looking up the key of an entry gives that entry's value |
| PyDict.ToMapSnoc | bincrafters_envy/circle.py:53-55 | adding a new last key to a dict adds exactly that binding to its map view |
| Text.Split | bincrafters_envy/bincrafters_envy.py:337 | `str.split(sep)` gives at least one part and no part contains the separator |
| Text.JoinSplit | bincrafters_envy/bincrafters_envy.py:337 | joining the parts of a split with the separator gives back the string |
| Text.SplitPair | bincrafters_envy/bincrafters_envy.py:337 | `a + sep + b` with no separator in `a` or `b` splits into exactly `[a, b]` |
| Text.SplitNoSeparator | bincrafters_envy/travis.py:45 | a string without the separator splits into itself alone |
| Text.Replace | bincrafters_envy/bincrafters_envy.py:174 | `replace` changes exactly the occurrences of the old character, keeps the length, and leaves none of it behind |
| Text.Upper | bincrafters_envy/base.py:37 | `upper` turns each ASCII lower-case letter into its capital, position by position, and leaves every other character unchanged |
| Text.Lower | bincrafters_envy/base.py:13 | `lower` turns each ASCII capital into its lower-case letter, position by position, and leaves every other character unchanged |
| Text.LowerIsLetter | bincrafters_envy/base.py:13-16 | a line lower-cases to `y` (resp. `n`) iff it is `y` or `Y` (resp. `n` or `N`) |
| Text.StripIsTrimmedSlice | bincrafters_envy/base.py:43 | `strip` returns a slice of the string with only whitespace cut from both ends, and no whitespace at either end |
| Text.StripLeftSlice | bincrafters_envy/base.py:43 | stripping the left end cuts exactly the leading whitespace |
| Text.StripRightSlice | bincrafters_envy/base.py:43 | stripping the right end cuts exactly the trailing whitespace |
| Glob.Filter | bincrafters_envy/bincrafters_envy.py:232 | the selection holds exactly the names that match the pattern, never more than were listed, and all of them when all match |
| Glob.FilterKeepsOrder | bincrafters_envy/bincrafters_envy.py:232 | the selection is the listed names at an increasing run of positions, and those positions are exactly the ones whose name matches |
| Glob.StarMatchesAll | bincrafters_envy/bincrafters_envy.py:255 | `*` matches every name |
| Glob.LiteralMatchesItself | bincrafters_envy/bincrafters_envy.py:232 | a pattern without wildcards matches exactly itself |
| Glob.PrefixStarMatchesPrefixed | bincrafters_envy/bincrafters_envy.py:232 | `prefix*` matches exactly the names that start with the prefix |
| Glob.RemovePatternExample | bincrafters_envy/bincrafters_envy.py:254-255 | `conan-*` selects `conan-qt` and `conan-zlib` and not `other-lib`, in listing order |
| Base.Or | bincrafters_envy/bincrafters_envy.py:345-347 | `value or default` gives the value when it is non-empty and the default when it is missing or empty |
| Base.FirstOf | bincrafters_envy/base.py:37-44 | the first present candidate in priority order, and nothing only when none is present |
| Base.ResolveToken | bincrafters_envy/base.py:34-45 | a non-empty `[token]` entry, else the environment variable, else the stripped token file, else an error; a `[token]` section without the key raises |
| Base.ConfigTokenWins | bincrafters_envy/base.py:38-39 | a non-empty `[token]` entry is returned whatever the environment and the token files hold |
| Base.TravisTokenSources | bincrafters_envy/base.py:39-44 | without a `[token]` section a set `TRAVIS_TOKEN` wins over the file; without it the stripped `travis.token` is used; with neither the read raises |
| Base.ReadAccount | bincrafters_envy/base.py:19-25 | the `[account]` entry for the given name (the adapter's own name by default), and nothing when the section or entry is missing |
| Base.ReadHost | bincrafters_envy/base.py:27-32 | the adapter's `[endpoint]` entry, and nothing when the section or entry is missing |
| Base.FirstChoice | bincrafters_envy/base.py:13-16 | the index of the first line that is `y` or `n` in either case, all earlier lines being neither; nothing when no line is |
| Base.YesNo | bincrafters_envy/base.py:10-17 | the prompt loop reads lines until one is `y`/`n` in either case and answers whether it was `y`, leaving the lines after it; running out of input raises |
| TravisAdapter.IdsOfLastWins | bincrafters_envy/travis.py:58-60 | `ids` holds exactly the listed names, each mapped to the id of its last listing |
| TravisAdapter.CollectIds | bincrafters_envy/travis.py:58-60 | the `ids` loop builds that map |
| TravisAdapter.IdsOfDomain | bincrafters_envy/travis.py:58-60 | a name has an id in `ids` iff some listed variable has that name |
| TravisAdapter.SyncPlanMeaning | bincrafters_envy/travis.py:62-72 | one planned write per desired name in dict order and none for remote-only names, each a PATCH or a POST; PATCH to `/env_var/<id>` of the last listing, expecting the default status, iff the name is listed, else POST to `/env_vars` expecting 201; the body has the desired value and `public` per the visibility |
| TravisAdapter.SyncIssuedMeaning | bincrafters_envy/travis.py:62-72 | every write the update sends is the planned write for the desired variable at its position, all of them when none is rejected |
| TravisAdapter.SyncEnvVars | bincrafters_envy/travis.py:62-72 | the update loop sends exactly the plan, stopping at the first rejected write |
| TravisAdapter.SyncOne | bincrafters_envy/travis.py:62-72 | the request for one desired variable is its planned PATCH or POST |
| TravisAdapter.SecondSyncOnlyPatches | bincrafters_envy/travis.py:62-72 | once every POSTed name is listed, the next update PATCHes every desired name and POSTs none |
| TravisAdapter.RepoNames | bincrafters_envy/travis.py:43-47 | the second `/`-separated part of each listed slug, in listing order; a slug without `/` raises |
| TravisAdapter.RepoNameOfFullName | bincrafters_envy/travis.py:45 | `owner/name` gives back `name` |
| TravisAdapter.Travis.ProjectUrl | bincrafters_envy/travis.py:30-34 | the project is addressed as `/repo/<account>%2F<slug>` |
| TravisAdapter.Travis.Exists | bincrafters_envy/travis.py:36-38 | the answer is the `active` flag of the repository under the project URL; a failed GET raises |
| TravisAdapter.Travis.List | bincrafters_envy/travis.py:40-47 | a failed listing raises; otherwise the repository names of the account in listing order, raising on a slug without `/` |
| TravisAdapter.Travis.AddOne | bincrafters_envy/travis.py:74-76 | one POST to the project's `/activate` |
| TravisAdapter.Travis.RemoveOne | bincrafters_envy/travis.py:74-76 | one POST to `/deactivate`, the same path whatever the slug (as written) |
| TravisAdapter.Travis.DeactivateIgnoresSlug | bincrafters_envy/travis.py:74-76 | any two slugs deactivate through the same path `/deactivate` |
| TravisAdapter.Travis.RemoveOneIntended | bincrafters_envy/travis.py:74-76 | one POST to the project's own `/deactivate` |
| TravisAdapter.Travis.IntendedDeactivationNamesProject | bincrafters_envy/travis.py:74-76 | with the intended path, two different projects are deactivated through two different URLs, and activation is unchanged |
| TravisAdapter.Travis.Update | bincrafters_envy/travis.py:55-72 | a failed listing raises; otherwise the writes are the PATCH/POST plan over the listed ids, with `public` meaning "not encrypted" |
| TravisAdapter.NewTravis | bincrafters_envy/travis.py:15-28 | construction fails iff no token resolves; the account is the non-empty `[account] travis` entry, else `bincrafters`; the host is the non-empty `[endpoint] travis` entry, else the argument |
| AppveyorAdapter.DesiredVars | bincrafters_envy/appveyor.py:69-81 | one variable per desired name, in dict order |
| AppveyorAdapter.CarriedOverUnique | bincrafters_envy/appveyor.py:83-86 | the carried-over remote variables name no variable twice and no desired variable |
| AppveyorAdapter.CarriedOverFirst | bincrafters_envy/appveyor.py:83-86 | each carried-over variable is a remote listing, and no earlier listing has the same name |
| AppveyorAdapter.CarriedOverMeaning | bincrafters_envy/appveyor.py:83-86 | the carried-over remote variables are exactly the first listing of each remote name that is not desired, unchanged, with no name twice |
| AppveyorAdapter.CarriedOverInOrder | bincrafters_envy/appveyor.py:83-91 | the carried-over variables follow the listing order: they are the listed ones at an increasing run of positions |
| AppveyorAdapter.MergedUnique | bincrafters_envy/appveyor.py:69-91 | the PUT body names no variable twice |
| AppveyorAdapter.MergedNames | bincrafters_envy/appveyor.py:69-91 | a name is in the PUT body iff it is desired or listed remotely |
| AppveyorAdapter.MergedDesired | bincrafters_envy/appveyor.py:75-81 | a desired entry has `isEncrypted` iff its name is encrypted, and value `_encrypt(v)` when encrypted, else `v` |
| AppveyorAdapter.MergedCarried | bincrafters_envy/appveyor.py:83-86 | a body entry whose name is not desired is that name's first remote listing, unchanged |
| AppveyorAdapter.CarriedOverSkipsDesired | bincrafters_envy/appveyor.py:83-86 | remote listings of desired names contribute nothing to what is carried over |
| AppveyorAdapter.CarriedOverKeepsCarried | bincrafters_envy/appveyor.py:83-86 | a list of distinct non-desired variables is carried over whole |
| AppveyorAdapter.MergeIsIdempotent | bincrafters_envy/appveyor.py:61-93 | updating against the body the previous update PUT gives the same body again |
| AppveyorAdapter.MergeExample | bincrafters_envy/appveyor.py:69-91 | desired `A=1`, encrypted `B=2` and remote `C` give `[A plain, B encrypted, C as listed]` |
| AppveyorAdapter.DesiredEntries | bincrafters_envy/appveyor.py:69-81 | the first loop maps each desired name, in order, to its variable, encrypted exactly when listed as encrypted |
| AppveyorAdapter.AddCarriedOver | bincrafters_envy/appveyor.py:83-86 | the second loop appends exactly the carried-over listed variables after the desired ones |
| AppveyorAdapter.EntryValues | bincrafters_envy/appveyor.py:88-91 | the request is the dict's values in insertion order |
| AppveyorAdapter.MergeVars | bincrafters_envy/appveyor.py:69-91 | the three loops build exactly the merged body |
| AppveyorAdapter.FindRepository | bincrafters_envy/bincrafters_envy.py:73-76 | `found` iff some listed project has the repository name |
| AppveyorAdapter.EndpointScopedIffV2 | bincrafters_envy/appveyor.py:24-27 | the endpoint is `host/api/account/<account>` iff the token starts with `v2.0`, otherwise `host/api` |
| AppveyorAdapter.Appveyor.List | bincrafters_envy/appveyor.py:30-33 | the listed projects' slugs in response order; a failed listing raises |
| AppveyorAdapter.Appveyor.Exists | bincrafters_envy/appveyor.py:38-44 | true iff the GET of the project under the raw slug succeeds; any failure is false |
| AppveyorAdapter.Appveyor.AddOne | bincrafters_envy/appveyor.py:46-55 | one POST to `/projects` of `gitHub` and `<github account>/<slug>` |
| AppveyorAdapter.Appveyor.RemoveOne | bincrafters_envy/appveyor.py:57-59 | one DELETE of the project under the raw slug, expecting 204 |
| AppveyorAdapter.Appveyor.SettingsUrlNormalisesSlug | bincrafters_envy/appveyor.py:62-65 | the settings URL is the project URL plus `/settings/environment-variables` iff the slug has no `_` |
| AppveyorAdapter.Appveyor.Update | bincrafters_envy/appveyor.py:61-93 | a failed listing raises; otherwise exactly one PUT of the merged body to the settings URL, expecting 204 |
| AppveyorAdapter.NewAppveyor | bincrafters_envy/appveyor.py:15-28 | construction fails iff no token resolves; the account is the non-empty `[account] appveyor` entry, else `BinCrafters`; the github account the non-empty `[account] github` entry, else `bincrafters`; the host is the non-empty `[endpoint] appveyor` entry, else the argument |
| CircleAdapter.Stale | bincrafters_envy/circle.py:48-51 | the names to delete are exactly the listed names that are not desired |
| CircleAdapter.StaleAppend | bincrafters_envy/circle.py:48-51 | the stale names of two listings in a row are those of each, in order |
| CircleAdapter.DeleteStep | bincrafters_envy/circle.py:48-51 | the delete loop's plan grows by one DELETE exactly when the next listed name is not desired |
| CircleAdapter.SecondUpdateDeletesNothing | bincrafters_envy/circle.py:45-55 | when every listed name is desired, the update deletes nothing and only POSTs |
| CircleAdapter.AppliedAppend | bincrafters_envy/circle.py:45-55 | applying two plans in a row to the store is applying their concatenation |
| CircleAdapter.DeletionsKeepDesired | bincrafters_envy/circle.py:48-51 | after the deletes the store keeps exactly the desired and the unlisted names |
| CircleAdapter.PostsSetDesired | bincrafters_envy/circle.py:53-55 | after the POSTs every desired name has its desired value and nothing else changed |
| CircleAdapter.UpdateReplacesVariables | bincrafters_envy/circle.py:45-55 | when every write is accepted the project's variables become exactly the desired ones: a replace, not a union |
| CircleAdapter.Circle.List | bincrafters_envy/circle.py:24-26 | the listed projects' `reponame`s in order; a failed listing raises |
| CircleAdapter.Circle.Exists | bincrafters_envy/circle.py:42-43 | true iff some listed project has the slug as `reponame` |
| CircleAdapter.Circle.ActivateUrl | bincrafters_envy/circle.py:32-34 | following posts to the project URL plus `/follow`, unfollowing to the project URL plus `/unfollow` |
| CircleAdapter.Circle.AddOne | bincrafters_envy/circle.py:32-37 | one POST to the project's `/follow` |
| CircleAdapter.Circle.RemoveOne | bincrafters_envy/circle.py:32-40 | one POST to the project's `/unfollow` |
| CircleAdapter.Circle.Update | bincrafters_envy/circle.py:45-55 | a failed listing raises; otherwise the deletes of the stale names, then a POST (201) per desired name, stopping at the first rejection |
| CircleAdapter.DeleteStale | bincrafters_envy/circle.py:48-51 | the delete loop sends exactly the deletes of the stale names |
| CircleAdapter.PostAll | bincrafters_envy/circle.py:53-55 | the post loop sends exactly one POST per desired name |
| CircleAdapter.NewCircle | bincrafters_envy/circle.py:14-22 | construction fails iff no token resolves; the github account is the non-empty `[account] github` entry, else `bincrafters`; the host is the non-empty `[endpoint] circle` entry, else the argument |
| AzureAdapter.DropPrefix | bincrafters_envy/azure.py:85 | a Python slice `s[n:]`: what follows the first `n` characters, empty when `s` is shorter |
| AzureAdapter.GroupVariables | bincrafters_envy/azure.py:67-71 | the group's variable names are the desired names, in order |
| AzureAdapter.GroupVariablesMeaning | bincrafters_envy/azure.py:67-71 | each desired name maps to its value and `isSecret` iff encrypted, with no name twice |
| AzureAdapter.BuildVariables | bincrafters_envy/azure.py:67-71 | the loop builds exactly that group |
| AzureAdapter.NewDefinition | bincrafters_envy/azure.py:23-41 | the definition is named `<account>.<slug>`, has type `build` and queue status `enabled`, runs the YAML process `./azure-pipelines.yml`, and points at the GitHub repository `<account>/<slug>` (`https://github.com/<account>/<slug>.git`) on `refs/heads/live` with `clean` and submodule checkout `false` |
| AzureAdapter.Azure.List | bincrafters_envy/azure.py:81-86 | each definition name with `<account>.` cut off, in order; a failed listing raises |
| AzureAdapter.Azure.ListInvertsQualifiedName | bincrafters_envy/azure.py:81-86 | cutting `len(account) + 1` characters from `<account>.<slug>` gives back the slug |
| AzureAdapter.Azure.Exists | bincrafters_envy/azure.py:53-54 | true iff the search by name reports `count > 0` |
| AzureAdapter.Azure.AddOne | bincrafters_envy/azure.py:23-41 | one POST of the new definition |
| AzureAdapter.Azure.RemoveOne | bincrafters_envy/azure.py:43-46 | a failed search or no id raises; otherwise one DELETE of the first id found, expecting 204 |
| AzureAdapter.Azure.Update | bincrafters_envy/azure.py:56-79 | a failed search raises; with `count > 0` one PUT of the whole group to the first group id; otherwise one POST of it |
| AzureAdapter.NewAzure | bincrafters_envy/azure.py:14-21 | construction fails iff no token resolves; the account is the non-empty `[account] azure` entry, else `bincrafters`; the host is the non-empty `[endpoint] azure` entry, else the argument |
| Envy.ScriptTokensAgreeWithAdapters | bincrafters_envy/bincrafters_envy.py:18-37 | with the default token files, the script resolves tokens exactly as the adapters' `_read_token` does |
| Envy.KeyValue | bincrafters_envy/bincrafters_envy.py:337 | `k, v = e.split('=')` succeeds iff `e` has exactly one `=`, and then `e` is `k=v` with no `=` in either part |
| Envy.KeyValueRoundTrip | bincrafters_envy/bincrafters_envy.py:337 | `k=v` with no `=` in `k` or `v` reads back as `(k, v)` |
| Envy.ValueWithEqualsRaises | bincrafters_envy/bincrafters_envy.py:337 | `-e A=B=C` raises: a value cannot contain `=` |
| Envy.WithOverrides | bincrafters_envy/bincrafters_envy.py:335-338 | applying the `-e` list succeeds iff every entry has exactly one `=` |
| Envy.LastAssigned | bincrafters_envy/bincrafters_envy.py:335-338 | the value the last `-e` for a key assigns, and nothing when no entry assigns it |
| Envy.OverridesMeaning | bincrafters_envy/bincrafters_envy.py:332-338 | the desired variables are the `[env]` names and the assigned ones, no name twice; the last `-e` wins, otherwise the `[env]` value |
| Envy.BuildEnv | bincrafters_envy/bincrafters_envy.py:332-338 | the two loops raise without an `[env]` section or on a bad `-e`, and otherwise build exactly those desired variables |
| Envy.EncryptedNames | bincrafters_envy/bincrafters_envy.py:340-342 | the encrypted names are the `[encrypted]` keys in order |
| Envy.Setup | bincrafters_envy/bincrafters_envy.py:312-347 | `main` gets past its setup iff each provider not skipped has a token, `[env]` exists and every `-e` parses, `[encrypted]` exists, and an `[account]` section, when there is one, has all three keys; the desired variables are the `-e` overrides applied to `[env]`, no name twice, and the encrypted names are the `[encrypted]` keys |
| Envy.Removal | bincrafters_envy/bincrafters_envy.py:232-243 | an empty selection does nothing; removals are sent only when forced or answered `y`, and then as `Issue` describes; answering `n` sends nothing and returns normally; running out of input before an answer raises |
| Envy.RemovalWrites | bincrafters_envy/bincrafters_envy.py:240-243 | every removal sent is the planned one at its position |
| Envy.Session.constructor | bincrafters_envy/bincrafters_envy.py:40-51 | the module state as imported: empty hosts and tokens, accounts `bincrafters`/`BinCrafters`/`bincrafters`, v1 AppVeyor API |
| Envy.Session.AddToTravis | bincrafters_envy/bincrafters_envy.py:102-120 | a failed GET raises; the project is activated (one POST to its `/activate`) iff its `active` flag is false |
| Envy.Session.AddToAppveyorResult | bincrafters_envy/bincrafters_envy.py:61-87 | a failed listing raises; one POST of `gitHub` and `<github account>/<slug>` iff no listed project has that repository name |
| Envy.Session.AddToAppveyor | bincrafters_envy/bincrafters_envy.py:61-87 | the `found` loop decides exactly as specified |
| Envy.Session.UpdateTravisMeaning | bincrafters_envy/bincrafters_envy.py:123-157 | one write per desired name, none for remote-only names; the desired value, `public` iff not encrypted; PATCH to the last listed id iff listed, else POST expecting 201 |
| Envy.Session.UpdateTravis | bincrafters_envy/bincrafters_envy.py:123-157 | the `ids` and request loops send exactly that |
| Envy.Session.UpdateAppveyorMeaning | bincrafters_envy/bincrafters_envy.py:170-207 | a failed listing raises; otherwise one PUT to the `_`-normalised settings URL expecting 204, whose body names every desired and every remote variable exactly once |
| Envy.Session.UpdateAppveyor | bincrafters_envy/bincrafters_envy.py:170-207 | the merge loops build exactly the merged body |
| Envy.Session.RemoveFromTravisMeaning | bincrafters_envy/bincrafters_envy.py:219-243 | a write is sent only when forced or confirmed, and each is a deactivation of a listed repository whose name matches the pattern |
| Envy.Session.RemoveFromTravis | bincrafters_envy/bincrafters_envy.py:219-243 | listing, name extraction, filtering, prompt and deactivation loop as specified |
| Envy.Session.RemoveFromAppveyorMeaning | bincrafters_envy/bincrafters_envy.py:246-271 | a write is sent only when forced or confirmed, and each is a DELETE (204) of a listed project whose slug matches the pattern with `_` turned into `-` |
| Envy.Session.RemoveFromAppveyor | bincrafters_envy/bincrafters_envy.py:246-271 | listing, filtering, prompt and delete loop as specified |
| Envy.Session.TravisBlock | bincrafters_envy/bincrafters_envy.py:353-364 | the Travis `try` block: remove, or add and then update only if the add returned normally |
| Envy.Session.AppveyorBlock | bincrafters_envy/bincrafters_envy.py:366-377 | the AppVeyor `try` block, likewise |
| Envy.Session.TravisStep | bincrafters_envy/bincrafters_envy.py:353-364 | a Travis block not skipped records exactly one result; the flag becomes set iff it was set or the block raised |
| Envy.Session.AppveyorStep | bincrafters_envy/bincrafters_envy.py:366-377 | likewise for the AppVeyor block |
| Envy.Session.ProjectStep | bincrafters_envy/bincrafters_envy.py:351-377 | one iteration records one result per provider not skipped, keeps earlier results, and sets the flag iff it was set or a block raised |
| Envy.Session.PairsMeaning | bincrafters_envy/bincrafters_envy.py:349-379 | every (project, provider) pair not skipped runs, a failure never stopping later ones, and `failed` ends true iff some pair raised |
| Envy.Session.RunProject | bincrafters_envy/bincrafters_envy.py:351-377 | the loop body does exactly one iteration step |
| Envy.Session.PairsSnoc | bincrafters_envy/bincrafters_envy.py:349-377 | one more project in the list adds exactly one iteration step after the earlier ones |
| Envy.Session.RunNext | bincrafters_envy/bincrafters_envy.py:349-377 | running one more project extends the progress of the earlier projects by that project's step |
| Envy.Session.RunPairs | bincrafters_envy/bincrafters_envy.py:349-377 | the project loop computes exactly the specified progress |
| Envy.Session.ReadTokens | bincrafters_envy/bincrafters_envy.py:312-330 | raises iff a provider not skipped has no token; otherwise stores its token and host, and the `v2.0` flag, leaving accounts alone and a skipped provider's token, host and flag unchanged |
| Envy.Session.ReadAccounts | bincrafters_envy/bincrafters_envy.py:344-347 | raises iff an `[account]` section lacks one of its keys; without the section nothing changes, otherwise each account becomes its entry, or stays when the entry is empty; hosts and tokens are untouched |
| Envy.Session.ReadRest | bincrafters_envy/bincrafters_envy.py:332-347 | raises iff `[env]` is missing or an `-e` does not parse, `[encrypted]` is missing, or an `[account]` section lacks a key; otherwise returns the overridden variables and the encrypted names, with the accounts read and tokens and hosts untouched |
| Envy.Session.Prepare | bincrafters_envy/bincrafters_envy.py:312-347 | the setup raises exactly when the specified setup does, returns the same variables and encrypted names, and leaves tokens, hosts and accounts as read, a skipped provider's untouched |
| Envy.Session.Run | bincrafters_envy/bincrafters_envy.py:274-379 | a missing config exits 1; a setup error ends the process; otherwise the writes of every pair and exit 1 iff some pair failed, with tokens, hosts and accounts as read and a skipped provider's token and host unchanged |
| EnvyLegacy.AddToTravis | envy.py:65-86 | a failed GET raises; one POST to the project's `/activate` iff `active` is false |
| EnvyLegacy.AddToAppveyorResult | envy.py:36-62 | a failed listing raises; one POST of `bincrafters/<slug>` iff no listed project has that repository name |
| EnvyLegacy.AddToAppveyor | envy.py:36-62 | the `found` loop decides exactly as specified |
| EnvyLegacy.UpdateTravis | envy.py:89-123 | the loops send exactly the PATCH/POST plan with every variable private |
| EnvyLegacy.UpdateTravisAlwaysPrivate | envy.py:104-123 | a failed listing raises; a run that returns normally sends one write per desired variable; every write names a desired variable with its value and `public` false; PATCH to the last listed id iff listed, else POST expecting 201 |
| EnvyLegacy.LastRemoteValueMeaning | envy.py:140-143 | the value a name gets from the remote listing loop is that of its last listing, and nothing only when it is not listed |
| EnvyLegacy.RemoteWinsUnique | envy.py:138-143 | overwriting with the remote values keeps every desired name and never makes a name appear twice |
| EnvyLegacy.RemoteWinsNames | envy.py:138-143 | a name is in the merged dict iff it is desired or listed remotely |
| EnvyLegacy.RemoteWinsValue | envy.py:138-143 | a remotely listed name has the value of its last listing, any other name its desired value |
| EnvyLegacy.RemoteWinsMeaning | envy.py:138-143 | one entry per name in desired ∪ remote, desired names first in their order; a remote name has its last listed value (the remote wins), any other its desired value |
| EnvyLegacy.PlainVars | envy.py:147-153 | the body lists the merged names in order, each with its value and `isEncrypted` false |
| EnvyLegacy.OverwriteWithRemote | envy.py:138-143 | the loop over the listed variables yields exactly the remote-wins merge: the copied desired dict with each listed value set under its name, a name not yet present added at the end |
| EnvyLegacy.PlainRequest | envy.py:145-153 | the request loop yields one plain, unencrypted entry per merged variable, in order |
| EnvyLegacy.UpdateAppveyor | envy.py:126-157 | the loops build exactly the plain remote-wins body and PUT it once, expecting 204 |
| EnvyLegacy.RunTravisBlock | envy.py:180-188 | the Travis block: add, then update only if the add returned normally |
| EnvyLegacy.RunAppveyorBlock | envy.py:190-198 | the AppVeyor block, likewise |
| EnvyLegacy.RunBlocks | envy.py:178-200 | both blocks run unless skipped; the flag is set iff either raised, and the writes are the Travis block's followed by the AppVeyor block's |
| EnvyLegacy.Run | envy.py:159-200 | a missing token file (read at import) or `[env]` section ends the process; otherwise both blocks run, a Travis failure not skipping AppVeyor, and the exit code is 1 iff either raised |

## Left out

- Text.Upper, Text.Lower: only ASCII letters change case. Python 3 maps all of
  Unicode, and a character such as `ß` can become two characters. The core
  is unaffected: `upper` is applied only to the ASCII provider names
  (base.py:37), and `lower` only feeds the `y`/`n` test (base.py:13), where no
  other character lower-cases to `y` or `n`.
- HTTP transport: headers, basic-auth objects, the session, and response
  decoding. A GET that fails, answers an unexpected status, or returns JSON
  without the expected fields is the oracle's failure value. Tokens are kept
  in the session but are not part of the writes.
- The server is a fixed oracle for a run. A write does not change what a
  later GET of the same run returns.
- JSON encoding: bodies are datatypes. Ids are strings.
- Printing and all log text.
- `argparse`: the parsed options are an `Args` record. `-c` becomes whether
  the configuration file exists (`Option<Config>`). `-v` is not modelled.
- `ConfigParser`: the file is a map from section to an ordered section.
  Values of the `DEFAULT` section, which `ConfigParser` mixes into every
  section, are not modelled. In `bincrafters_envy.py`, `allow_no_value`'s
  `None` is the empty string.
- `ConfigParser` interpolation: a `Config` holds each value as `config[s][k]`
  returns it after `%` interpolation (`%%` already read as `%`, `%(key)s`
  already substituted). A value whose interpolation fails, such as `50%`,
  raises `InterpolationSyntaxError` when it is read; this is not modelled.
  The model takes that read as succeeding, whereas the script crashes when
  it reads `[env]`, a token, an account or an endpoint.
- `ConfigParser` parsing: a file that `config.read` cannot parse raises
  there, and the model starts from a parsed file (`Base.WellFormed`). Such a
  file has a key or section given twice (either script), or a key line
  without a value under `envy.py`, whose `ConfigParser()` does not allow one.
- `os.environ` and the token files are input maps. File read errors other
  than absence are not modelled.
- AppveyorAdapter.Appveyor.Update: `_encrypt` is an uninterpreted function of the server that cannot fail. Its POST to `/account/encrypt` is not in the writes.
- Envy.Session.UpdateAppveyor: `appveyor_encrypt` is modelled the same way. Its POST and its failure are left out.
- Envy.Removal: the prompt follows the Python 2 reading of `raw_input`. Under Python 3 the name is undefined, so every unforced removal raises `NameError`.
- Text.Strip: whitespace is that of a Python 3 `str`. Under Python 2 the token file is read as bytes, and `strip()` then cuts only the six ASCII whitespace characters, so a file that ends in a byte such as `0xA0` keeps it there.
- `fnmatch` is modelled with `*` and `?` only. Bracket classes and the
  case normalisation of `os.path.normcase` on Windows are left out.
- AzureAdapter.NewDefinition: the two constant fields `processParameters` (an empty object) and `drafts` (an empty list) are not part of the definition datatype.
- `bincrafters_envy/main.py` only chooses between Python 2 and 3 imports.
  `tests/test_token.py` calls `travis_token` with one argument. Neither is
  modelled.
- Exceptions are not typed. A raise is "the call did not return normally";
  in `main`, an error outside the `try` blocks is a `Crash` with a message.

## Findings

| source | as written | input that shows it | evidently intended | confidence | as-written member | corrected member |
|---|---|---|---|---|---|---|
| bincrafters_envy/travis.py:75 | `url + '/activate' if enable else '/deactivate'` parses as a conditional over the whole URL | `remove_one("a")` and `remove_one("b")` both POST to the bare path `/deactivate` | POST to the project URL plus `/deactivate`, as the script's `travis_activate` does | high; not executed | TravisAdapter.Travis.DeactivateIgnoresSlug | TravisAdapter.Travis.IntendedDeactivationNamesProject |
