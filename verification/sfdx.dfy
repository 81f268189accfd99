/**
 * The tasks that wrap the `sfdx` command-line tool: how the command line and
 * the environment of the subprocess are put together for an org, and how a
 * JSON-reporting task treats each line of output.
 *
 * Running the subprocess and the base environment it inherits are outside
 * this model: the base environment is a parameter. Parsing a line of output
 * as JSON is a parameter `loads`, `None` standing for `json.loads` raising.
 */
module Sfdx {
  import opened Wrappers
  import opened JsonValues

  const SfdxCli := "sfdx"

  /** The command every SFDXJsonTask runs, whatever command was configured. */
  const JsonTaskCommand := "force:mdapi:deploy --json"

  const InstanceUrlVar := "SFDX_INSTANCE_URL"
  const DefaultUsernameVar := "SFDX_DEFAULTUSERNAME"

  /** A scratch org is named by its username; any other org by its instance and access token. */
  datatype OrgConfig =
    | ScratchOrg(username: string)
    | KeychainOrg(instanceUrl: string, accessToken: string)

  /** SFDXBaseTask runs without an org; SFDXOrgTask and its subclass SFDXJsonTask run against one. */
  datatype TaskKind = BaseTask | OrgTask(org: OrgConfig) | JsonTask(org: OrgConfig)

  /** What `_run_task` passes to the subprocess runner. */
  datatype Invocation = Invocation(env: map<string, string>, command: string)

  /** Whether the org's username goes on the command line. */
  predicate PassesUsernameFlag(kind: TaskKind) {
    !kind.BaseTask? && kind.org.ScratchOrg?
  }

  /** Whether the org's credentials go into the environment. */
  predicate PassesCredentialEnv(kind: TaskKind) {
    !kind.BaseTask? && kind.org.KeychainOrg?
  }

  /** `self.options.get("extra")` is truthy: present and not the empty string. */
  predicate HasExtra(options: map<string, string>) {
    "extra" in options && options["extra"] != ""
  }

  /** SFDXBaseTask._get_command: the tool name and the configured command. */
  function BaseCommand(options: map<string, string>): (r: Result<string>)
    ensures r.Err? <==> "command" !in options
    ensures r.Err? ==> r.error == KeyError("command")
    ensures r.Ok? ==> r.value == SfdxCli + " " + options["command"]
  {
    if "command" in options then Ok(SfdxCli + " " + options["command"])
    else Err(KeyError("command"))
  }

  /** `_get_command` of each task: SFDXOrgTask adds ` -u <username>` for a scratch org. */
  function GetCommand(kind: TaskKind, options: map<string, string>): (r: Result<string>)
    ensures r.Err? <==> BaseCommand(options).Err?
    ensures r.Err? ==> r.error == KeyError("command")
    ensures r.Ok? && !PassesUsernameFlag(kind) ==> r.value == BaseCommand(options).value
    ensures r.Ok? && PassesUsernameFlag(kind) ==>
      r.value == BaseCommand(options).value + " -u " + kind.org.username
  {
    match BaseCommand(options)
    case Err(e) => Err(e)
    case Ok(base) =>
      if PassesUsernameFlag(kind) then Ok(base + " -u " + kind.org.username) else Ok(base)
  }

  /** The environment SFDXOrgTask._get_env produces from the inherited one. */
  function CredentialEnv(kind: TaskKind, baseEnv: map<string, string>): map<string, string> {
    if PassesCredentialEnv(kind) then
      baseEnv[InstanceUrlVar := kind.org.instanceUrl][DefaultUsernameVar := kind.org.accessToken]
    else baseEnv
  }

  /**
   * For a non-scratch org the two SFDX variables hold the instance URL and
   * the access token and every other variable is untouched; otherwise the
   * environment is the inherited one.
   */
  lemma CredentialEnvSpec(kind: TaskKind, baseEnv: map<string, string>)
    ensures !PassesCredentialEnv(kind) ==> CredentialEnv(kind, baseEnv) == baseEnv
    ensures PassesCredentialEnv(kind) ==>
      var env := CredentialEnv(kind, baseEnv);
      env.Keys == baseEnv.Keys + {InstanceUrlVar, DefaultUsernameVar}
      && env[InstanceUrlVar] == kind.org.instanceUrl
      && env[DefaultUsernameVar] == kind.org.accessToken
      && forall k :: k in baseEnv && k != InstanceUrlVar && k != DefaultUsernameVar ==> env[k] == baseEnv[k]
  {
  }

  /** `_get_env`: the inherited environment, updated in place for a non-scratch org. */
  method GetEnv(kind: TaskKind, baseEnv: map<string, string>) returns (env: map<string, string>)
    ensures env == CredentialEnv(kind, baseEnv)
    ensures PassesCredentialEnv(kind) ==> env.Keys == baseEnv.Keys + {InstanceUrlVar, DefaultUsernameVar}
    ensures !PassesCredentialEnv(kind) ==> env == baseEnv
  {
    env := baseEnv;
    if !kind.BaseTask? && !kind.org.ScratchOrg? {
      env := env[InstanceUrlVar := kind.org.instanceUrl];
      env := env[DefaultUsernameVar := kind.org.accessToken];
    }
  }

  /**
   * An org task passes the org in exactly one way: a scratch org by the
   * `-u` flag with the environment left alone, any other org through the
   * environment with no flag.
   */
  lemma CredentialsPassedOnce(org: OrgConfig, options: map<string, string>, baseEnv: map<string, string>)
    requires "command" in options
    ensures var kind := OrgTask(org);
      var command := GetCommand(kind, options).value;
      var base := SfdxCli + " " + options["command"];
      (org.ScratchOrg? ==> command == base + " -u " + org.username && CredentialEnv(kind, baseEnv) == baseEnv)
      && (org.KeychainOrg? ==>
            command == base
            && CredentialEnv(kind, baseEnv)[InstanceUrlVar] == org.instanceUrl
            && CredentialEnv(kind, baseEnv)[DefaultUsernameVar] == org.accessToken)
  {
  }

  /**
   * `_run_task` without its logging: the environment, then the command, with
   * ` <extra>` appended after any `-u` flag when the extra option is set and
   * not empty. A missing command raises before anything runs.
   */
  method RunTask(kind: TaskKind, options: map<string, string>, baseEnv: map<string, string>)
    returns (r: Result<Invocation>)
    ensures r.Err? <==> "command" !in options
    ensures r.Err? ==> r.error == KeyError("command")
    ensures r.Ok? ==> r.value.env == CredentialEnv(kind, baseEnv)
    ensures r.Ok? ==>
      r.value.command == SfdxCli + " " + options["command"]
                         + (if PassesUsernameFlag(kind) then " -u " + kind.org.username else "")
                         + (if HasExtra(options) then " " + options["extra"] else "")
  {
    var env := GetEnv(kind, baseEnv);
    var command := GetCommand(kind, options);
    if command.Err? {
      return Err(command.error);
    }
    var line := command.value;
    if "extra" in options && options["extra"] != "" {
      line := line + " " + options["extra"];
    }
    return Ok(Invocation(env, line));
  }

  /** The options of an SFDXJsonTask: the configured ones with the command overwritten. */
  function JsonTaskOptions(kwargs: map<string, string>): map<string, string> {
    kwargs["command" := JsonTaskCommand]
  }

  /**
   * Whatever command the options configured, if any, a JSON task runs the
   * fixed deploy command, followed by the `-u` flag for a scratch org.
   */
  lemma JsonTaskIgnoresConfiguredCommand(org: OrgConfig, kwargs: map<string, string>)
    ensures GetCommand(JsonTask(org), JsonTaskOptions(kwargs))
      == Ok(SfdxCli + " " + JsonTaskCommand + (if org.ScratchOrg? then " -u " + org.username else ""))
  {
    var base := SfdxCli + " " + JsonTaskCommand;
    assert BaseCommand(JsonTaskOptions(kwargs)) == Ok(base);
    if org.ScratchOrg? {
      assert GetCommand(JsonTask(org), JsonTaskOptions(kwargs)) == Ok(base + " -u " + org.username);
      assert base + " -u " + org.username == base + (" -u " + org.username);
    } else {
      assert base + "" == base;
    }
  }

  /**
   * SFDXJsonTask: its options, and what it has done with the subprocess
   * output so far, the parsed values handed to `_process_data` and the
   * lines it logged as unparsable.
   */
  class SfdxJsonTask {
    const org: OrgConfig
    var options: map<string, string>
    var processed: seq<Json>
    var failedLines: seq<string>

    constructor (org: OrgConfig, kwargs: map<string, string>)
      ensures this.org == org
      ensures options == JsonTaskOptions(kwargs)
      ensures processed == [] && failedLines == []
    {
      this.org := org;
      options := map[];
      processed := [];
      failedLines := [];
      new;
      InitOptions(kwargs);
    }

    /** `_init_options`: the configured options, with `command` always overwritten. */
    method InitOptions(kwargs: map<string, string>)
      modifies this
      ensures options == JsonTaskOptions(kwargs)
      ensures options["command"] == JsonTaskCommand
      ensures processed == old(processed) && failedLines == old(failedLines)
    {
      options := kwargs;
      options := options["command" := JsonTaskCommand];
    }

    /** `_process_data`: the parsed value is handed on, once. */
    method ProcessData(data: Json)
      modifies this
      ensures processed == old(processed) + [data]
      ensures failedLines == old(failedLines) && options == old(options)
    {
      processed := processed + [data];
    }

    /**
     * `_process_output`: a line that does not parse is logged and dropped;
     * a line that parses is handed to `_process_data` exactly once.
     */
    method ProcessOutput(line: string, loads: string -> Option<Json>)
      modifies this
      ensures loads(line).None? ==>
        failedLines == old(failedLines) + [line] && processed == old(processed)
      ensures loads(line).Some? ==>
        processed == old(processed) + [loads(line).value] && failedLines == old(failedLines)
      ensures options == old(options)
    {
      var data := loads(line);
      if data.None? {
        failedLines := failedLines + [line];
        return;
      }
      ProcessData(data.value);
    }
  }
}
