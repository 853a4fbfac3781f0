/**
 * The parts of the `common` package that the analyzer base relies on: the Service
 * record it builds and updates, the records it consumes (environment variables,
 * Procfile entries) and the yes/no prompt. The placeholder passes are foreign code
 * and appear only as functions supplied by the caller.
 */
module Common {
  import opened Wrappers

  /** A Go `error`: only its message is observable. */
  datatype Error = Error(message: string)

  /** One project-wide environment variable. */
  datatype EnvVar = EnvVar(key: string, value: string)

  /** One `name: command` declaration of a Procfile, as the Procfile parser returns it. */
  datatype ProcessEntry = ProcessEntry(name: string, command: string)

  /** The value of the Service fields the analyzer base reads or writes. */
  datatype ServiceView = ServiceView(
    name: string,
    command: string,
    envVars: seq<EnvVar>,
    gitBranch: string,
    gitRepo: string,
    buildRoot: string)

  /** A service is shared by reference: the analyzer base updates its fields in place. */
  class Service {
    var name: string
    var command: string
    var envVars: seq<EnvVar>
    var gitBranch: string
    var gitRepo: string
    var buildRoot: string

    /** `&common.Service{Name: name, Command: command}`: every other field has Go's zero value. */
    constructor (name: string, command: string)
      ensures View() == ServiceView(name, command, [], "", "", "")
    {
      this.name := name;
      this.command := command;
      envVars := [];
      gitBranch := "";
      gitRepo := "";
      buildRoot := "";
    }

    /** A composite literal that sets every field the analyzer base knows of. */
    constructor FromView(v: ServiceView)
      ensures View() == v
    {
      name := v.name;
      command := v.command;
      envVars := v.envVars;
      gitBranch := v.gitBranch;
      gitRepo := v.gitRepo;
      buildRoot := v.buildRoot;
    }

    function View(): ServiceView
      reads this
    {
      ServiceView(name, command, envVars, gitBranch, gitRepo, buildRoot)
    }
  }

  /** The values of a list of service references, in list order. */
  function Views(services: seq<Service>): (r: seq<ServiceView>)
    reads services
    ensures |r| == |services|
    ensures forall k :: 0 <= k < |services| ==> r[k] == services[k].View()
  {
    if services == [] then [] else [services[0].View()] + Views(services[1..])
  }

  /** No service reference is listed twice: every listed reference occurs once. */
  ghost predicate Distinct(services: seq<Service>) {
    forall s :: s in services ==> multiset(services)[s] == 1
  }

  /** What the user types at a yes/no prompt: an affirmative token, a negative token, or an empty line. */
  datatype Answer = Yes | No | Blank

  /**
   * `common.AskYesOrNo`: without prompting it answers the default and reads nothing;
   * when prompting, an empty line also selects the default.
   */
  function AskYesOrNo(answer: Answer, defaultValue: bool, shouldPrompt: bool): (r: bool)
    ensures !shouldPrompt || answer == Blank ==> r == defaultValue
  {
    if !shouldPrompt then defaultValue
    else match answer
      case Yes => true
      case No => false
      case Blank => defaultValue
  }

  /** What one placeholder pass returns: the rewritten command and the error it reports, if any. */
  datatype Substitution = Substitution(command: string, err: Option<Error>)

  /** `common.ParseEnvironmentVariables` and `common.ParseUniqueInt`, as functions of the command. */
  datatype Placeholders = Placeholders(
    envVariables: string -> Substitution,
    uniqueInt: string -> Substitution)
}
