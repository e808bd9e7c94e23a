/**
 * The shared part of every provider adapter (bincrafters_envy/base.py):
 * reading the provider's token, account and host from the parsed
 * configuration, the environment and the working directory, and the
 * interactive y/n confirmation.
 */
module Base {
  import opened Wrappers
  import opened Text
  import opened PyDict

  /** One INI section: its entries in file order. */
  type Section = Dict<string, string>

  /** The parsed configuration file: section name to section. */
  type Config = map<string, Section>

  /** What the INI parser guarantees: no section names a key twice. */
  ghost predicate WellFormed(config: Config)
  {
    forall section :: section in config ==> UniqueKeys(config[section])
  }

  /** `os.environ`. */
  type Environ = map<string, string>

  /** The files of the working directory that exist, with their contents. */
  type Files = map<string, string>

  /** Whether `[section]` gives a non-empty value for `key`, the case where `value or default` keeps the value. */
  predicate HasEntry(config: Config, section: string, key: string)
  {
    section in config && key in Keys(config[section]) && Get(config[section], key) != ""
  }

  /** Python's `value or default` for an optional string: empty and missing both give the default. */
  function Or(value: Option<string>, default: string): (r: string)
    ensures value.Some? && value.value != "" ==> r == value.value
    ensures value.None? || value.value == "" ==> r == default
  {
    if value.Some? && value.value != "" then value.value else default
  }

  // ---------------------------------------------------------------- tokens

  /** The token the `[token]` section gives for `key`, if it gives a non-empty one. */
  function ConfigToken(config: Config, key: string): Option<string>
  {
    if "token" in config && key in Keys(config["token"]) && Get(config["token"], key) != ""
    then Some(Get(config["token"], key)) else None
  }

  /** The token the environment variable gives, if it is set. */
  function EnvironmentToken(environ: Environ, envname: string): Option<string>
  {
    if envname in environ then Some(environ[envname]) else None
  }

  /** The stripped contents of the token file, if it exists. */
  function FileToken(files: Files, filename: string): Option<string>
  {
    if filename in files then Some(Strip(files[filename])) else None
  }

  /** The first candidate that is present. */
  function FirstOf(candidates: seq<Option<string>>): (r: Option<string>)
    ensures r.Some? <==> exists i :: 0 <= i < |candidates| && candidates[i].Some?
    ensures r.Some? ==> exists i :: 0 <= i < |candidates| && candidates[i] == r
                          && forall j :: 0 <= j < i ==> candidates[j].None?
    decreases |candidates|
  {
    if candidates == [] then None
    else if candidates[0].Some? then candidates[0]
    else
      var r := FirstOf(candidates[1..]);
      assert forall i :: 1 <= i < |candidates| ==> candidates[i] == candidates[1..][i - 1];
      r
  }

  function NoTokenMessage(key: string, envname: string, filename: string): string
  {
    "no " + key + " token provided!please specify " + envname
      + " environment variable or create " + filename + " file"
  }

  /**
   * Token resolution as the source writes it: a non-empty `[token]` entry,
   * else the environment variable, else the stripped token file, else raise.
   * A `[token]` section that lacks the key raises `KeyError` instead of
   * falling through. The contract gives the same answer as "the first
   * source, in priority order, that has a token".
   */
  function ResolveToken(config: Config, key: string, envname: string, filename: string,
                        environ: Environ, files: Files): (r: Result<string>)
    ensures "token" in config && key !in Keys(config["token"]) ==> r.Err?
    ensures !("token" in config && key !in Keys(config["token"])) ==>
      r == match FirstOf([ConfigToken(config, key), EnvironmentToken(environ, envname), FileToken(files, filename)])
           case Some(t) => Ok(t)
           case None => Err(NoTokenMessage(key, envname, filename))
  {
    var candidates := [ConfigToken(config, key), EnvironmentToken(environ, envname), FileToken(files, filename)];
    assert candidates[1..] == [candidates[1], candidates[2]] && candidates[1..][1..] == [candidates[2]];
    assert [candidates[2]][1..] == [];
    if "token" in config && key !in Keys(config["token"]) then Err("KeyError: " + key)
    else if "token" in config && Get(config["token"], key) != "" then Ok(Get(config["token"], key))
    else if envname in environ then Ok(environ[envname])
    else if filename in files then Ok(Strip(files[filename]))
    else Err(NoTokenMessage(key, envname, filename))
  }

  /** The environment variable a provider's token is read from: `NAME_TOKEN`. */
  function TokenVariable(name: string): string
  {
    Upper(name) + "_TOKEN"
  }

  /** The file a provider's token is read from: `name.token`. */
  function TokenFile(name: string): string
  {
    name + ".token"
  }

  /** `Base._read_token` for the adapter called `name`. */
  function ReadToken(config: Config, name: string, environ: Environ, files: Files): Result<string>
  {
    ResolveToken(config, name, TokenVariable(name), TokenFile(name), environ, files)
  }

  /**
   * With no `[token]` section, a set `TRAVIS_TOKEN` is the travis adapter's
   * token whatever files exist; without it, a `travis.token` file is read and stripped.
   */
  lemma TravisTokenSources(config: Config, environ: Environ, files: Files)
    requires "token" !in config
    ensures "TRAVIS_TOKEN" in environ ==> ReadToken(config, "travis", environ, files) == Ok(environ["TRAVIS_TOKEN"])
    ensures "TRAVIS_TOKEN" !in environ && "travis.token" in files ==>
      ReadToken(config, "travis", environ, files) == Ok(Strip(files["travis.token"]))
    ensures "TRAVIS_TOKEN" !in environ && "travis.token" !in files ==> ReadToken(config, "travis", environ, files).Err?
  {
    assert TokenVariable("travis") == "TRAVIS_TOKEN";
    assert TokenFile("travis") == "travis.token";
  }

  /** A non-empty `[token]` entry wins over the environment and the file. */
  lemma ConfigTokenWins(config: Config, name: string, environ: Environ, files: Files)
    requires "token" in config && name in Keys(config["token"]) && Get(config["token"], name) != ""
    ensures ReadToken(config, name, environ, files) == Ok(Get(config["token"], name))
  {
  }

  // ------------------------------------------------------ account and host

  /** `Base._read_account(config, name)`: `name` defaults (when empty) to the adapter's own name. */
  function ReadAccount(config: Config, provider: string, name: string): (r: Option<string>)
    ensures var key := if name == "" then provider else name;
      r.Some? <==> "account" in config && key in Keys(config["account"])
    ensures r.Some? ==> r.value == Get(config["account"], if name == "" then provider else name)
  {
    var key := if name == "" then provider else name;
    if "account" in config && key in Keys(config["account"]) then Some(Get(config["account"], key)) else None
  }

  /** `Base._read_host(config)`: the adapter's entry in `[endpoint]`, if any. */
  function ReadHost(config: Config, provider: string): (r: Option<string>)
    ensures r.Some? <==> "endpoint" in config && provider in Keys(config["endpoint"])
    ensures r.Some? ==> r.value == Get(config["endpoint"], provider)
  {
    if "endpoint" in config && provider in Keys(config["endpoint"]) then Some(Get(config["endpoint"], provider)) else None
  }

  // ----------------------------------------------------------- confirmation

  /** An answer the prompt accepts. */
  predicate IsChoice(line: string)
  {
    Lower(line) == "y" || Lower(line) == "n"
  }

  /** The index of the first line the prompt accepts, if any. */
  function FirstChoice(input: seq<string>): (r: Option<nat>)
    ensures r.None? <==> forall i :: 0 <= i < |input| ==> !IsChoice(input[i])
    ensures r.Some? ==> r.value < |input| && IsChoice(input[r.value])
                        && forall j :: 0 <= j < r.value ==> !IsChoice(input[j])
    decreases |input|
  {
    if input == [] then None
    else if IsChoice(input[0]) then Some(0)
    else match FirstChoice(input[1..])
      case None => None
      case Some(i) => Some(i + 1)
  }

  /** The answer the prompt gives on `input`: whether the first accepted line is `y`; `None` when input runs out. */
  function Answer(input: seq<string>): Option<bool>
  {
    match FirstChoice(input)
    case None => None
    case Some(i) => Some(Lower(input[i]) == "y")
  }

  /** The lines left to read after the prompt. */
  function AfterAnswer(input: seq<string>): seq<string>
  {
    match FirstChoice(input)
    case None => []
    case Some(i) => input[i + 1..]
  }

  /**
   * `Base._yes_no()` over the lines still to be read from standard input:
   * reads lines until one is `y` or `n` in either case, and answers whether it
   * was `y`; when input runs out first, `input()` raises (`None` here).
   * `rest` is what is left to read afterwards.
   */
  method YesNo(input: seq<string>) returns (answer: Option<bool>, rest: seq<string>)
    ensures answer == Answer(input) && rest == AfterAnswer(input)
  {
    if |input| == 0 {
      return None, [];
    }
    var choice := Lower(input[0]);
    var i := 1;
    while choice != "y" && choice != "n"
      invariant 1 <= i <= |input|
      invariant choice == Lower(input[i - 1])
      invariant forall j :: 0 <= j < i - 1 ==> !IsChoice(input[j])
      decreases |input| - i
    {
      if i == |input| {
        return None, [];
      }
      choice := Lower(input[i]);
      i := i + 1;
    }
    answer, rest := Some(choice == "y"), input[i..];
  }
}
