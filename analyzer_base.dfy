/**
 * The service derivation of the analyzer base (packs/analyzer-base.go): building
 * services from a Procfile, finding or creating the web service, rewriting the
 * placeholders of every command, stamping every service with the project's context,
 * and confirming the detected databases with the user.
 *
 * Each operation that works step by step on service references is a method; each is
 * specified by a function on service values, and the lemmas state what the source
 * promises about those functions.
 */
module AnalyzerBase {
  import opened Wrappers
  import opened Common
  import opened Strings

  // ---------------------------------------------------------------------------
  // Project metadata

  /** The three strings and the error that `ProjectMetadata` returns. */
  datatype Metadata = Metadata(gitURL: string, gitBranch: string, buildRoot: string, err: Option<Error>)

  /**
   * `ProjectMetadata`, given the answers of the three repository queries: the remote
   * URL, the local branch, and the project directory relative to the repository root.
   */
  function ProjectMetadata(remoteGitURL: string, localGitBranch: string, relativeRoot: Result<string, Error>): (r: Metadata)
    ensures r.err.Some? <==> relativeRoot.Failure?
    ensures r.err.Some? ==> r.gitURL == "" && r.gitBranch == "" && r.buildRoot == "" && r.err.value == relativeRoot.error
    ensures r.err.None? ==> r.gitURL == remoteGitURL && r.gitBranch == localGitBranch && r.buildRoot == relativeRoot.value
  {
    match relativeRoot
    case Failure(e) => Metadata("", "", "", Some(e))
    case Success(root) => Metadata(remoteGitURL, localGitBranch, root, None)
  }

  // ---------------------------------------------------------------------------
  // Find or create the web service

  /** The names that mark the externally reachable process. */
  predicate IsWebName(name: string) {
    name == "web" || name == "custom_web"
  }

  /** The position of the first service named `web` or `custom_web`, if there is one. */
  function FindWeb(vs: seq<ServiceView>): (r: Option<nat>)
    ensures r.Some? ==> r.value < |vs| && IsWebName(vs[r.value].name)
    ensures r.Some? ==> forall j :: 0 <= j < r.value ==> !IsWebName(vs[j].name)
    ensures r.None? <==> forall j :: 0 <= j < |vs| ==> !IsWebName(vs[j].name)
  {
    if vs == [] then None
    else if IsWebName(vs[0].name) then Some(0)
    else match FindWeb(vs[1..])
      case None => None
      case Some(k) => Some(k + 1)
  }

  /** How many services are named `web` or `custom_web`. */
  function CountWeb(vs: seq<ServiceView>): nat {
    if vs == [] then 0 else (if IsWebName(vs[0].name) then 1 else 0) + CountWeb(vs[1..])
  }

  /** `&common.Service{Name: "web"}`. */
  const NewWebService := ServiceView("web", "", [], "", "", "")

  /** The list after a find-or-create of the web service. */
  function WithWebService(vs: seq<ServiceView>): (r: seq<ServiceView>)
    ensures FindWeb(r).Some?
    ensures |vs| <= |r| <= |vs| + 1 && r[..|vs|] == vs
  {
    FindWebAppend(vs, NewWebService);
    if FindWeb(vs).Some? then vs else vs + [NewWebService]
  }

  /** Appending a service moves no web service already found, and may only be found itself. */
  lemma {:induction false} FindWebAppend(vs: seq<ServiceView>, v: ServiceView)
    ensures FindWeb(vs + [v]) ==
      if FindWeb(vs).Some? then FindWeb(vs) else if IsWebName(v.name) then Some(|vs|) else None
  {
    if vs == [] {
      assert vs + [v] == [v];
    } else {
      assert (vs + [v])[1..] == vs[1..] + [v];
      FindWebAppend(vs[1..], v);
    }
  }

  /** Where the web service is found after a find-or-create: where it was, or at the new end. */
  lemma WithWebServiceFinds(vs: seq<ServiceView>)
    ensures FindWeb(WithWebService(vs)) == if FindWeb(vs).Some? then FindWeb(vs) else Some(|vs|)
  {
    FindWebAppend(vs, NewWebService);
  }

  /** A second find-or-create changes nothing. */
  lemma WithWebServiceIdempotent(vs: seq<ServiceView>)
    ensures WithWebService(WithWebService(vs)) == WithWebService(vs)
  {
    WithWebServiceFinds(vs);
  }

  lemma {:induction false} CountWebZero(vs: seq<ServiceView>)
    ensures CountWeb(vs) == 0 <==> FindWeb(vs).None?
  {
    if vs != [] {
      CountWebZero(vs[1..]);
    }
  }

  lemma {:induction false} CountWebAppend(vs: seq<ServiceView>, v: ServiceView)
    ensures CountWeb(vs + [v]) == CountWeb(vs) + if IsWebName(v.name) then 1 else 0
  {
    if vs == [] {
      assert vs + [v] == [v];
    } else {
      assert (vs + [v])[1..] == vs[1..] + [v];
      CountWebAppend(vs[1..], v);
    }
  }

  /** Find-or-create never adds a second web service: it adds one exactly when there was none. */
  lemma WithWebServiceCount(vs: seq<ServiceView>)
    ensures CountWeb(WithWebService(vs)) == if CountWeb(vs) == 0 then 1 else CountWeb(vs)
  {
    CountWebZero(vs);
    if FindWeb(vs).None? {
      CountWebAppend(vs, NewWebService);
    }
  }

  /**
   * `GetOrCreateWebService`: returns the first service named `web` or `custom_web`;
   * when there is none, appends a new `web` service with an empty command and returns it.
   * The slice the Go code updates through its pointer is returned as `services'`.
   */
  method GetOrCreateWebService(services: seq<Service>) returns (service: Service, services': seq<Service>)
    ensures Views(services') == WithWebService(Views(services))
    ensures FindWeb(Views(services')).Some? && service == services'[FindWeb(Views(services')).value]
    ensures FindWeb(Views(services)).Some? ==> services' == services
    ensures FindWeb(Views(services)).None? ==> services' == services + [service] && fresh(service)
  {
    var found: Service? := null;
    var i := 0;
    while i < |services|
      invariant i <= |services|
      invariant forall j :: 0 <= j < i ==> !IsWebName(services[j].name)
    {
      if IsWebName(services[i].name) {
        found := services[i];
        assert FindWeb(Views(services)) == Some(i);
        break;
      }
      i := i + 1;
    }
    if found == null {
      assert FindWeb(Views(services)).None?;
      service := new Service("web", "");
      services' := services + [service];
      assert Views(services') == Views(services) + [NewWebService];
      WithWebServiceFinds(Views(services));
    } else {
      service := found;
      services' := services;
    }
  }

  /**
   * Two find-or-creates in a row: the second returns the service the first returned and
   * leaves the list as the first left it, so the list never gains a second web service.
   */
  method GetOrCreateWebServiceTwice(services: seq<Service>)
    returns (first: Service, second: Service, once: seq<Service>, twice: seq<Service>)
    ensures second == first && twice == once
    ensures Views(once) == WithWebService(Views(services))
  {
    first, once := GetOrCreateWebService(services);
    second, twice := GetOrCreateWebService(once);
  }

  // ---------------------------------------------------------------------------
  // Project context

  /** The project-wide values every service inherits. */
  datatype ProjectContext = ProjectContext(envVars: seq<EnvVar>, gitBranch: string, gitRepo: string, buildRoot: string)

  /** One service after inheriting the project context. */
  function Inherit(v: ServiceView, ctx: ProjectContext): ServiceView {
    v.(envVars := ctx.envVars, gitBranch := ctx.gitBranch, gitRepo := ctx.gitRepo, buildRoot := ctx.buildRoot)
  }

  /** Every service of the list after inheriting the project context. */
  function InheritAll(vs: seq<ServiceView>, ctx: ProjectContext): seq<ServiceView> {
    if vs == [] then [] else [Inherit(vs[0], ctx)] + InheritAll(vs[1..], ctx)
  }

  lemma {:induction false} InheritAllAt(vs: seq<ServiceView>, ctx: ProjectContext, k: nat)
    requires k < |vs|
    ensures |InheritAll(vs, ctx)| == |vs| && InheritAll(vs, ctx)[k] == Inherit(vs[k], ctx)
  {
    if k > 0 {
      InheritAllAt(vs[1..], ctx, k - 1);
    } else if |vs| > 1 {
      InheritAllAt(vs[1..], ctx, 0);
    }
  }

  lemma {:induction false} InheritAllLength(vs: seq<ServiceView>, ctx: ProjectContext)
    ensures |InheritAll(vs, ctx)| == |vs|
  {
    if vs != [] {
      InheritAllLength(vs[1..], ctx);
    }
  }

  /**
   * Inheriting stamps the four context fields on every service, whatever they held,
   * and keeps the length, the order, the names and the commands.
   */
  lemma InheritAllStamps(vs: seq<ServiceView>, ctx: ProjectContext)
    ensures |InheritAll(vs, ctx)| == |vs|
    ensures forall k :: 0 <= k < |vs| ==>
      var r := InheritAll(vs, ctx)[k];
      r.name == vs[k].name && r.command == vs[k].command
      && r.envVars == ctx.envVars && r.gitBranch == ctx.gitBranch
      && r.gitRepo == ctx.gitRepo && r.buildRoot == ctx.buildRoot
  {
    InheritAllLength(vs, ctx);
    forall k | 0 <= k < |vs| ensures InheritAll(vs, ctx)[k] == Inherit(vs[k], ctx) {
      InheritAllAt(vs, ctx, k);
    }
  }

  /** A second inheritance overwrites the first: only the second context remains. */
  lemma {:induction false} InheritAllOverwrites(vs: seq<ServiceView>, first: ProjectContext, second: ProjectContext)
    ensures InheritAll(InheritAll(vs, first), second) == InheritAll(vs, second)
  {
    if vs != [] {
      InheritAllOverwrites(vs[1..], first, second);
    }
  }

  /**
   * `inheritProjectContext`: sets the environment variables, branch, repository URL and
   * build root of every listed service. A reference listed twice is simply set twice.
   */
  method InheritProjectContext(services: seq<Service>, envVars: seq<EnvVar>, gitBranch: string, gitURL: string, buildRoot: string)
    modifies services`envVars, services`gitBranch, services`gitRepo, services`buildRoot
    ensures Views(services) == InheritAll(old(Views(services)), ProjectContext(envVars, gitBranch, gitURL, buildRoot))
  {
    var i := 0;
    while i < |services|
      invariant i <= |services|
      invariant forall k :: 0 <= k < i ==>
        services[k].envVars == envVars && services[k].gitBranch == gitBranch
        && services[k].gitRepo == gitURL && services[k].buildRoot == buildRoot
    {
      var service := services[i];
      service.envVars := envVars;
      service.gitBranch := gitBranch;
      service.gitRepo := gitURL;
      service.buildRoot := buildRoot;
      i := i + 1;
    }
    ghost var ctx := ProjectContext(envVars, gitBranch, gitURL, buildRoot);
    ghost var before := old(Views(services));
    forall k | 0 <= k < |services| ensures Views(services)[k] == Inherit(before[k], ctx) {
      assert before[k] == old(services[k].View());
    }
    InheritAllEach(before, Views(services), ctx);
  }

  /** A list whose every service is the matching one with the context inherited is their inheritance. */
  lemma InheritAllEach(before: seq<ServiceView>, after: seq<ServiceView>, ctx: ProjectContext)
    requires |after| == |before|
    requires forall k :: 0 <= k < |before| ==> after[k] == Inherit(before[k], ctx)
    ensures after == InheritAll(before, ctx)
  {
    InheritAllLength(before, ctx);
    forall k | 0 <= k < |before| ensures after[k] == InheritAll(before, ctx)[k] {
      InheritAllAt(before, ctx, k);
    }
  }

  // ---------------------------------------------------------------------------
  // Command refinement

  /**
   * The environment-variable pass and then the UNIQUE_INT pass. Each pass's command is
   * taken as returned; a reported error is only printed, so the second pass runs anyway.
   */
  function RefineCommand(p: Placeholders, command: string): string {
    p.uniqueInt(p.envVariables(command).command).command
  }

  /** The command after `n` rounds of refinement. */
  function RefineTimes(p: Placeholders, command: string, n: nat): string {
    if n == 0 then command else RefineCommand(p, RefineTimes(p, command, n - 1))
  }

  /** One service after refinement. */
  function Refine(v: ServiceView, p: Placeholders): ServiceView {
    v.(command := RefineCommand(p, v.command))
  }

  /** Every service of the list after refinement. */
  function RefineAll(vs: seq<ServiceView>, p: Placeholders): seq<ServiceView> {
    if vs == [] then [] else [Refine(vs[0], p)] + RefineAll(vs[1..], p)
  }

  lemma {:induction false} RefineAllAt(vs: seq<ServiceView>, p: Placeholders, k: nat)
    requires k < |vs|
    ensures |RefineAll(vs, p)| == |vs| && RefineAll(vs, p)[k] == Refine(vs[k], p)
  {
    if k > 0 {
      RefineAllAt(vs[1..], p, k - 1);
    } else if |vs| > 1 {
      RefineAllAt(vs[1..], p, 0);
    }
  }

  lemma {:induction false} RefineAllLength(vs: seq<ServiceView>, p: Placeholders)
    ensures |RefineAll(vs, p)| == |vs|
  {
    if vs != [] {
      RefineAllLength(vs[1..], p);
    }
  }

  /**
   * Refinement rewrites every command with both passes, in order, and changes nothing
   * else: not the length, the order, the names or the context fields. The second pass
   * runs on whatever the first returned, and neither pass's reported error is consulted.
   */
  lemma RefineAllRewritesCommands(vs: seq<ServiceView>, p: Placeholders)
    ensures |RefineAll(vs, p)| == |vs|
    ensures forall k :: 0 <= k < |vs| ==>
      RefineAll(vs, p)[k] == vs[k].(command := p.uniqueInt(p.envVariables(vs[k].command).command).command)
  {
    RefineAllLength(vs, p);
    forall k | 0 <= k < |vs| ensures RefineAll(vs, p)[k] == Refine(vs[k], p) {
      RefineAllAt(vs, p, k);
    }
  }

  /**
   * `refineServices`: runs both placeholder passes over the command of every listed
   * service, and changes nothing else. A reference listed `n` times has its command
   * refined `n` times.
   */
  method RefineServices(services: seq<Service>, p: Placeholders)
    modifies services`command
    ensures forall s :: s in services ==>
      s.command == RefineTimes(p, old(s.command), multiset(services)[s])
  {
    var i := 0;
    while i < |services|
      invariant i <= |services|
      invariant forall s :: s in services ==>
        s.command == RefineTimes(p, old(s.command), multiset(services[..i])[s])
    {
      var service := services[i];
      ghost var done := multiset(services[..i]);
      assert multiset(services[..i + 1]) == done + multiset{service} by {
        assert services[..i + 1] == services[..i] + [service];
      }
      // Each pass reports an error by printing it; its command is assigned either way.
      var env := p.envVariables(service.command);
      service.command := env.command;
      var unique := p.uniqueInt(service.command);
      service.command := unique.command;
      forall s | s in services
        ensures s.command == RefineTimes(p, old(s.command), multiset(services[..i + 1])[s])
      {
        if s == service {
          assert multiset(services[..i + 1])[s] == done[s] + 1;
        } else {
          assert multiset(services[..i + 1])[s] == done[s];
        }
      }
      i := i + 1;
    }
    assert services[..i] == services;
  }

  /** A list whose every service is the refinement of the matching one is their refinement. */
  lemma RefineAllEach(before: seq<ServiceView>, after: seq<ServiceView>, p: Placeholders)
    requires |after| == |before|
    requires forall k :: 0 <= k < |before| ==> after[k] == Refine(before[k], p)
    ensures after == RefineAll(before, p)
  {
    RefineAllLength(before, p);
    forall k | 0 <= k < |before| ensures after[k] == RefineAll(before, p)[k] {
      RefineAllAt(before, p, k);
    }
  }

  // ---------------------------------------------------------------------------
  // Database confirmation

  /**
   * The detected databases that are kept: each one whose confirmation, default yes, is
   * affirmative. The confirmation of `found[i]` is the `i`-th yes/no prompt, answered by
   * `replies(i)`.
   */
  function Confirmed(found: seq<string>, shouldPrompt: bool, replies: nat -> Answer): (r: seq<string>)
    ensures |r| <= |found|
    ensures forall x :: x in r ==> x in found
  {
    if found == [] then []
    else
      var n := |found| - 1;
      Confirmed(found[..n], shouldPrompt, replies)
      + (if AskYesOrNo(replies(n), true, shouldPrompt) then [found[n]] else [])
  }

  /** The positions, in increasing order, of the detected databases whose confirmation is affirmative. */
  function AcceptedIndices(n: nat, shouldPrompt: bool, replies: nat -> Answer): (r: seq<nat>)
    ensures forall j :: 0 <= j < |r| ==> r[j] < n
    ensures forall j, k :: 0 <= j < k < |r| ==> r[j] < r[k]
    ensures forall i: nat :: i in r <==> i < n && AskYesOrNo(replies(i), true, shouldPrompt)
  {
    if n == 0 then []
    else
      AcceptedIndices(n - 1, shouldPrompt, replies)
      + (if AskYesOrNo(replies(n - 1), true, shouldPrompt) then [n - 1] else [])
  }

  /** The default of the "add others?" prompt: no when something was detected. */
  function AddOthersDefault(found: seq<string>): (r: bool)
    ensures r <==> found == []
  {
    if |found| > 0 then false else true
  }

  /**
   * Whether manual additions are read: the "add others?" prompt, the prompt after all
   * confirmations, must be affirmative, and only while prompting.
   */
  predicate AddsOthers(found: seq<string>, shouldPrompt: bool, replies: nat -> Answer)
    ensures AddsOthers(found, shouldPrompt, replies) ==> shouldPrompt
  {
    AskYesOrNo(replies(|found|), AddOthersDefault(found), shouldPrompt) && shouldPrompt
  }

  /**
   * The list `ConfirmDatabases` returns. `otherLine` is the line read for manual
   * additions, `None` when the read fails.
   */
  function ConfirmedDatabases(found: seq<string>, shouldPrompt: bool, replies: nat -> Answer, otherLine: Option<string>): seq<string> {
    Confirmed(found, shouldPrompt, replies)
    + (if AddsOthers(found, shouldPrompt, replies) && otherLine.Some? then Fields(otherLine.value) else [])
  }

  /**
   * One step of `Confirmed`: if `kept` is `found`'s prefix picked at positions `idx`, then
   * keeping or dropping the last database extends both lists alike.
   */
  lemma SelectsStep(kept: seq<string>, idx: seq<nat>, found: seq<string>, keep: bool)
    requires |found| > 0 && |kept| == |idx|
    requires forall j :: 0 <= j < |idx| ==> idx[j] < |found| - 1 && kept[j] == found[..|found| - 1][idx[j]]
    ensures var n := |found| - 1;
      var kept' := kept + (if keep then [found[n]] else []);
      var idx' := idx + (if keep then [n] else []);
      |kept'| == |idx'| && forall j :: 0 <= j < |idx'| ==> kept'[j] == found[idx'[j]]
  {
    var n := |found| - 1;
    var kept' := kept + (if keep then [found[n]] else []);
    var idx' := idx + (if keep then [n] else []);
    forall j | 0 <= j < |idx'| ensures kept'[j] == found[idx'[j]] {
      if j < |idx| {
        assert kept'[j] == kept[j] && idx'[j] == idx[j];
      }
    }
  }

  /** The kept databases are the detected ones at the accepted positions, in detection order. */
  lemma {:induction false} ConfirmedSelectsAccepted(found: seq<string>, shouldPrompt: bool, replies: nat -> Answer)
    ensures var idx := AcceptedIndices(|found|, shouldPrompt, replies);
      |Confirmed(found, shouldPrompt, replies)| == |idx|
      && forall j :: 0 <= j < |idx| ==> Confirmed(found, shouldPrompt, replies)[j] == found[idx[j]]
  {
    if found != [] {
      var n := |found| - 1;
      ConfirmedSelectsAccepted(found[..n], shouldPrompt, replies);
      SelectsStep(Confirmed(found[..n], shouldPrompt, replies), AcceptedIndices(n, shouldPrompt, replies),
                  found, AskYesOrNo(replies(n), true, shouldPrompt));
    }
  }

  /** When every confirmation is affirmative, every detected database is kept. */
  lemma {:induction false} ConfirmedAllAccepted(found: seq<string>, shouldPrompt: bool, replies: nat -> Answer)
    requires forall i: nat :: i < |found| ==> AskYesOrNo(replies(i), true, shouldPrompt)
    ensures Confirmed(found, shouldPrompt, replies) == found
  {
    if found != [] {
      var n := |found| - 1;
      ConfirmedAllAccepted(found[..n], shouldPrompt, replies);
      assert found == found[..n] + [found[n]];
    }
  }

  /**
   * Without prompting, every detected database is kept and nothing is added by hand,
   * whatever the input holds: the result is the detected list.
   */
  lemma ConfirmDatabasesNonInteractive(found: seq<string>, replies: nat -> Answer, otherLine: Option<string>)
    ensures ConfirmedDatabases(found, false, replies, otherLine) == found
  {
    ConfirmedAllAccepted(found, false, replies);
  }

  /**
   * Manual additions: with an empty answer the "add others?" prompt adds exactly when
   * nothing was detected; entries beyond the kept ones appear only when prompting, the
   * prompt is affirmative and the read succeeds, and then they are the line's words.
   */
  lemma ConfirmDatabasesAdditions(found: seq<string>, shouldPrompt: bool, replies: nat -> Answer, otherLine: Option<string>)
    ensures shouldPrompt && replies(|found|) == Blank ==> (AddsOthers(found, shouldPrompt, replies) <==> found == [])
    ensures var kept := Confirmed(found, shouldPrompt, replies);
      var dbs := ConfirmedDatabases(found, shouldPrompt, replies, otherLine);
      dbs[..|kept|] == kept
      && (|dbs| > |kept| ==> shouldPrompt && AddsOthers(found, shouldPrompt, replies) && otherLine.Some?)
      && (AddsOthers(found, shouldPrompt, replies) && otherLine.Some? ==> dbs[|kept|..] == Fields(otherLine.value))
      && (otherLine.None? ==> dbs == kept)
  {
  }

  /**
   * `ConfirmDatabases`: asks about every detected database (without prompting, it keeps
   * each one), then asks whether to add others and, if so, adds the words of one line.
   * `common.Lister.Add` is taken to append.
   */
  method ConfirmDatabases(found: seq<string>, shouldPrompt: bool, replies: nat -> Answer, otherLine: Option<string>)
    returns (dbs: seq<string>)
    ensures dbs == ConfirmedDatabases(found, shouldPrompt, replies, otherLine)
  {
    dbs := [];
    var i := 0;
    while i < |found|
      invariant i <= |found|
      invariant dbs == Confirmed(found[..i], shouldPrompt, replies)
    {
      if AskYesOrNo(replies(i), true, shouldPrompt) {
        dbs := dbs + [found[i]];
      }
      assert found[..i + 1][..i] == found[..i];
      i := i + 1;
    }
    assert found[..i] == found;
    var defaultValue: bool;
    if |found| > 0 {
      defaultValue := false;
    } else {
      defaultValue := true;
    }
    if AskYesOrNo(replies(|found|), defaultValue, shouldPrompt) && shouldPrompt {
      if otherLine.Some? {
        dbs := dbs + Fields(otherLine.value);
      }
    }
  }

  /** Both detected databases confirmed and nothing added: the detected list comes back. */
  lemma ConfirmDatabasesKeepsConfirmed()
    ensures var replies := (i: nat) => if i < 2 then Yes else No;
      ConfirmedDatabases(["mysql", "redis"], true, replies, Some("")) == ["mysql", "redis"]
  {
    var replies := (i: nat) => if i < 2 then Yes else No;
    ConfirmedAllAccepted(["mysql", "redis"], true, replies);
  }

  /**
   * Nothing detected, the default of the "add others?" prompt accepted, and a line of two
   * words typed (such as `postgres elasticsearch`) and ended by the newline the read
   * stops at: those words are the list.
   */
  lemma ConfirmDatabasesAddsTypedLine(first: string, second: string)
    requires IsWord(first) && IsWord(second)
    ensures ConfirmedDatabases([], true, (i: nat) => Blank, Some(first + " " + second + "\n")) == [first, second]
  {
    FieldsOfWordThenSpace(second, '\n', []);
    assert second + ['\n'] + [] == second + "\n";
    FieldsOfWordThenSpace(first, ' ', second + "\n");
    assert first + [' '] + (second + "\n") == first + " " + second + "\n";
  }

  // ---------------------------------------------------------------------------
  // Procfile services

  /** `&common.Service{Name: proc.Name, Command: proc.Command}`. */
  function ServiceOfEntry(e: ProcessEntry): ServiceView {
    ServiceView(e.name, e.command, [], "", "", "")
  }

  /** One service per Procfile entry, in entry order. */
  function ProcfileViews(entries: seq<ProcessEntry>): seq<ServiceView> {
    if entries == [] then []
    else ProcfileViews(entries[..|entries| - 1]) + [ServiceOfEntry(entries[|entries| - 1])]
  }

  /**
   * What `analyzeProcfile` yields, given whether the Procfile exists and what the
   * Procfile parser makes of it.
   */
  function ProcfileServices(fileExists: bool, parsed: Result<seq<ProcessEntry>, Error>): Result<seq<ServiceView>, Error> {
    if !fileExists then Success([])
    else match parsed
      case Failure(e) => Failure(e)
      case Success(entries) => Success(ProcfileViews(entries))
  }

  /** Every entry becomes one service, in order, with its name and command and nothing else set. */
  lemma {:induction false} ProcfileViewsCopies(entries: seq<ProcessEntry>)
    ensures |ProcfileViews(entries)| == |entries|
    ensures forall k :: 0 <= k < |entries| ==>
      ProcfileViews(entries)[k] == ServiceView(entries[k].name, entries[k].command, [], "", "", "")
  {
    if entries != [] {
      ProcfileViewsCopies(entries[..|entries| - 1]);
    }
  }

  /**
   * A missing Procfile gives no services and no error, whatever the parser would say;
   * a parse error is returned as it is; otherwise every entry becomes a service.
   */
  lemma ProcfileServicesCases(fileExists: bool, parsed: Result<seq<ProcessEntry>, Error>)
    ensures !fileExists ==> ProcfileServices(fileExists, parsed) == Success([])
    ensures fileExists && parsed.Failure? ==> ProcfileServices(fileExists, parsed) == Failure(parsed.error)
    ensures fileExists && parsed.Success? ==>
      ProcfileServices(fileExists, parsed).Success?
      && |ProcfileServices(fileExists, parsed).value| == |parsed.value|
      && forall k :: 0 <= k < |parsed.value| ==>
        ProcfileServices(fileExists, parsed).value[k].name == parsed.value[k].name
        && ProcfileServices(fileExists, parsed).value[k].command == parsed.value[k].command
  {
    if fileExists && parsed.Success? {
      ProcfileViewsCopies(parsed.value);
    }
  }

  /** `analyzeProcfile`: the services declared in the project's Procfile. */
  method AnalyzeProcfile(fileExists: bool, parsed: Result<seq<ProcessEntry>, Error>) returns (r: Result<seq<Service>, Error>)
    ensures match ProcfileServices(fileExists, parsed)
      case Failure(e) => r == Failure(e)
      case Success(vs) => r.Success? && Views(r.value) == vs
  {
    var services: seq<Service> := [];
    if !fileExists {
      return Success(services);
    }
    if parsed.Failure? {
      return Failure(parsed.error);
    }
    var procs := parsed.value;
    var i := 0;
    while i < |procs|
      invariant i <= |procs|
      invariant Views(services) == ProcfileViews(procs[..i])
    {
      var service := new Service(procs[i].name, procs[i].command);
      assert procs[..i + 1][..i] == procs[..i];
      services := services + [service];
      i := i + 1;
    }
    assert procs[..i] == procs;
    return Success(services);
  }

  // ---------------------------------------------------------------------------
  // The derivation pipeline

  /**
   * What `AnalyzeServices` yields: the Procfile's services, passed through the analyzer's
   * `FillServices` (the function `fill`), then refined, then stamped with the context.
   * A Procfile error or an analyzer error is returned instead, and nothing later runs.
   */
  function DerivedServices(
    fileExists: bool, parsed: Result<seq<ProcessEntry>, Error>,
    fill: seq<ServiceView> -> Result<seq<ServiceView>, Error>,
    p: Placeholders, ctx: ProjectContext): Result<seq<ServiceView>, Error>
  {
    match ProcfileServices(fileExists, parsed)
    case Failure(e) => Failure(e)
    case Success(procs) =>
      match fill(procs)
      case Failure(e) => Failure(e)
      case Success(filled) => Success(InheritAll(RefineAll(filled, p), ctx))
  }

  /** The pipeline fails exactly when the Procfile or the analyzer fails, with that error. */
  lemma DerivedServicesErrors(
    fileExists: bool, parsed: Result<seq<ProcessEntry>, Error>,
    fill: seq<ServiceView> -> Result<seq<ServiceView>, Error>,
    p: Placeholders, ctx: ProjectContext)
    ensures fileExists && parsed.Failure? ==> DerivedServices(fileExists, parsed, fill, p, ctx) == Failure(parsed.error)
    ensures ProcfileServices(fileExists, parsed).Success? && fill(ProcfileServices(fileExists, parsed).value).Failure? ==>
      DerivedServices(fileExists, parsed, fill, p, ctx) == Failure(fill(ProcfileServices(fileExists, parsed).value).error)
    ensures DerivedServices(fileExists, parsed, fill, p, ctx).Failure? ==>
      (fileExists && parsed.Failure?) || fill(ProcfileServices(fileExists, parsed).value).Failure?
  {
  }

  /**
   * On success, the result is the analyzer's list with every command refined and every
   * service stamped with the project's context; names and order are the analyzer's.
   */
  lemma DerivedServicesStamped(
    fileExists: bool, parsed: Result<seq<ProcessEntry>, Error>,
    fill: seq<ServiceView> -> Result<seq<ServiceView>, Error>,
    p: Placeholders, ctx: ProjectContext)
    requires DerivedServices(fileExists, parsed, fill, p, ctx).Success?
    ensures var filled := fill(ProcfileServices(fileExists, parsed).value).value;
      var r := DerivedServices(fileExists, parsed, fill, p, ctx).value;
      |r| == |filled|
      && forall k :: 0 <= k < |r| ==>
        r[k] == ServiceView(filled[k].name, RefineCommand(p, filled[k].command),
                            ctx.envVars, ctx.gitBranch, ctx.gitRepo, ctx.buildRoot)
  {
    var filled := fill(ProcfileServices(fileExists, parsed).value).value;
    RefineAllRewritesCommands(filled, p);
    InheritAllStamps(RefineAll(filled, p), ctx);
  }

  /** An analyzer that finds or creates the web service and adds a worker. */
  function WebAndWorker(vs: seq<ServiceView>): Result<seq<ServiceView>, Error> {
    Success(WithWebService(vs) + [ServiceView("worker", "bundle exec sidekiq", [], "", "", "")])
  }

  /**
   * A Procfile holding `web: rackup` and an analyzer adding a worker give two services,
   * both with the project's context, and exactly one web service.
   */
  lemma DerivedServicesWebAndWorker(p: Placeholders, ctx: ProjectContext)
    ensures var r := DerivedServices(true, Success([ProcessEntry("web", "rackup")]), WebAndWorker, p, ctx);
      r.Success? && |r.value| == 2 && CountWeb(r.value) == 1
      && r.value[0] == ServiceView("web", RefineCommand(p, "rackup"), ctx.envVars, ctx.gitBranch, ctx.gitRepo, ctx.buildRoot)
      && r.value[1] == ServiceView("worker", RefineCommand(p, "bundle exec sidekiq"), ctx.envVars, ctx.gitBranch, ctx.gitRepo, ctx.buildRoot)
  {
    var entries := [ProcessEntry("web", "rackup")];
    ProcfileViewsCopies(entries);
    var procs := ProcfileViews(entries);
    assert procs == [ServiceView("web", "rackup", [], "", "", "")];
    assert FindWeb(procs) == Some(0);
    DerivedServicesStamped(true, Success(entries), WebAndWorker, p, ctx);
    var filled := WebAndWorker(procs).value;
    assert filled == [procs[0], ServiceView("worker", "bundle exec sidekiq", [], "", "", "")];
    var r := DerivedServices(true, Success(entries), WebAndWorker, p, ctx).value;
    assert IsWebName(r[0].name) && !IsWebName(r[1].name);
    assert r[1..] == [r[1]] && r[1..][1..] == [];
    assert CountWeb(r[1..][1..]) == 0;
    assert CountWeb(r[1..]) == 0;
  }

  /** Fresh service objects holding the given values, one per value. */
  method Allocate(vs: seq<ServiceView>) returns (services: seq<Service>)
    ensures Views(services) == vs && Distinct(services)
    ensures forall k :: 0 <= k < |services| ==> fresh(services[k])
  {
    services := [];
    var i := 0;
    while i < |vs|
      invariant i <= |vs| && |services| == i
      invariant forall k :: 0 <= k < i ==> services[k].View() == vs[k]
      invariant Distinct(services)
      invariant forall k :: 0 <= k < i ==> fresh(services[k])
    {
      var service := new Service.FromView(vs[i]);
      assert service !in services;
      assert multiset(services + [service]) == multiset(services) + multiset{service};
      services := services + [service];
      i := i + 1;
    }
  }

  /**
   * `RefineServices` on services that are not aliased, in terms of their values: each
   * reference is listed once, so every service is refined exactly once.
   */
  method RefineAllocated(services: seq<Service>, p: Placeholders)
    requires Distinct(services)
    modifies services`command
    ensures Views(services) == RefineAll(old(Views(services)), p)
  {
    ghost var before := Views(services);
    RefineServices(services, p);
    forall k | 0 <= k < |services| ensures Views(services)[k] == Refine(before[k], p) {
      var s := services[k];
      assert s in services && multiset(services)[s] == 1;
      assert RefineTimes(p, old(s.command), 1) == RefineCommand(p, RefineTimes(p, old(s.command), 0));
      assert before[k] == old(s.View());
    }
    RefineAllEach(before, Views(services), p);
  }

  /**
   * `AnalyzeServices`: parse the Procfile, let the analyzer fill in services, refine every
   * command, stamp every service with the project's context. The analyzer is the function
   * `fill` on service values; the services it yields are allocated afresh.
   */
  method AnalyzeServices(
    fileExists: bool, parsed: Result<seq<ProcessEntry>, Error>,
    fill: seq<ServiceView> -> Result<seq<ServiceView>, Error>,
    p: Placeholders, envVars: seq<EnvVar>, gitBranch: string, gitURL: string, buildRoot: string)
    returns (r: Result<seq<Service>, Error>)
    ensures match DerivedServices(fileExists, parsed, fill, p, ProjectContext(envVars, gitBranch, gitURL, buildRoot))
      case Failure(e) => r == Failure(e)
      case Success(vs) => r.Success? && Views(r.value) == vs
  {
    var procfile := AnalyzeProcfile(fileExists, parsed);
    if procfile.Failure? {
      return Failure(procfile.error);
    }
    var filled := fill(Views(procfile.value));
    if filled.Failure? {
      return Failure(filled.error);
    }
    var services := Allocate(filled.value);
    RefineAllocated(services, p);
    InheritProjectContext(services, envVars, gitBranch, gitURL, buildRoot);
    return Success(services);
  }
}
