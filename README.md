# AnalyzerBase service derivation, in Dafny

This project models the shared base of the starter's language analyzers: `AnalyzerBase`
in `packs/analyzer-base.go`. Given a project directory, the base:

- makes services from the project's Procfile;
- lets the language-specific analyzer fill them in (`FillServices`);
- rewrites the placeholders in every service's command;
- stamps every service with the project's environment variables, git branch, git
  repository and build root.

It also finds or creates the `web` service and asks the user to confirm the databases an
analyzer detected.

Modules:

- `Wrappers`: `Option` and `Result`.
- `Common`: the pieces of the `common` package the base relies on.
  - `Service` is a class, because the base updates services in place through pointers.
  - `ServiceView` is the value of its fields.
  - `AskYesOrNo` is the yes/no prompt.
  - `Placeholders` holds the two placeholder passes as functions.
- `Strings`: Go's `strings.Fields`, splitting on `unicode.IsSpace`.
- `AnalyzerBase`: the core.
  - Each loop of the Go code is a `method`. The loops over services work on a
    `seq<Service>`; the loop of `ConfirmDatabases` works on the `seq<string>` of detected
    databases.
  - Each method is proved against a specification function:
    - `GetOrCreateWebService` against `WithWebService`;
    - `InheritProjectContext` against `InheritAll`;
    - `RefineServices` against `RefineTimes`, one refinement per listing of a pointer;
    - `RefineAllocated`, for lists that list each pointer once, against `RefineAll`;
    - `AnalyzeProcfile` against `ProcfileServices`;
    - `AnalyzeServices` against `DerivedServices`.
    All of these functions work on service values. `ConfirmDatabases` is proved against
    `ConfirmedDatabases`, a function on lists of database names.
  - Lemmas state the promised properties of those functions.

Foreign code is modelled as inputs:

| Go call | modelled as |
|---|---|
| `FileExists` and `ParseProcfile` | `fileExists: bool` and `parsed: Result<seq<ProcessEntry>, Error>` |
| `ParseEnvironmentVariables` and `ParseUniqueInt` | the two functions of a `Placeholders` value |
| the language analyzer's `FillServices` | a function from service values to a `Result` of service values |
| the i-th yes/no prompt | answered by `replies(i)`: `Yes`, `No` or an empty line (`Blank`) |
| the line read for manual database additions | `otherLine: Option<string>`, where `None` is a read error |

`bufio.Reader.ReadString('\n')` succeeds only when it reaches a newline, so `Some(line)`
stands for a line that ends in `'\n'`. A last line cut off by the end of input counts as a
read error, and its words are dropped.

Behaviour the code has that a reader might not expect:

- A placeholder pass that reports an error still has its returned command assigned. The
  original command is not kept, and the second pass runs on whatever the first returned
  (lines 131 and 135). `RefineCommand` never consults the reported errors.
- `GetOrCreateWebService` never adds a second `web` service. It does not remove extra
  ones either: a list that already holds two keeps two (`WithWebServiceCount`).
- `AnalyzeServices` itself never calls `GetOrCreateWebService`; analyzers call it from
  `FillServices`. `DerivedServicesWebAndWorker` shows the pipeline with such an analyzer.
- A service pointer listed twice is refined twice (`RefineServices`).

## Model

| member | source | states |
|---|---|---|
| AnalyzerBase.ProjectMetadata | packs/analyzer-base.go:23-32 | An error from the relative-root query gives three empty strings plus that error, and only then. Otherwise the result is the remote URL, the local branch and the relative root. |
| AnalyzerBase.WithWebService | packs/analyzer-base.go:113-126 | The list after a find-or-create always holds a web service. It is the old list, at most one service longer. |
| AnalyzerBase.FindWeb | packs/analyzer-base.go:115-120 | The position of the first service named `web` or `custom_web`. None exactly when no service has either name. |
| AnalyzerBase.FindWebAppend | packs/analyzer-base.go:115-124 | Appending a service keeps a web service found earlier in place. If none was found, the appended one is found when it has a web name. |
| AnalyzerBase.WithWebServiceFinds | packs/analyzer-base.go:113-125 | After a find-or-create, the web service is where it was, or at the old length when it was appended. |
| AnalyzerBase.WithWebServiceIdempotent | packs/analyzer-base.go:113-126 | A second find-or-create leaves the list as the first left it. |
| AnalyzerBase.CountWebZero | packs/analyzer-base.go:115-121 | A list has no web service exactly when the search finds none. |
| AnalyzerBase.CountWebAppend | packs/analyzer-base.go:123 | Appending adds one web service exactly when the appended service has a web name. |
| AnalyzerBase.WithWebServiceCount | packs/analyzer-base.go:113-126 | Find-or-create adds one web service when there was none, and otherwise leaves the count unchanged. |
| AnalyzerBase.GetOrCreateWebService | packs/analyzer-base.go:113-126 | The returned service is the first web service of the new list. If one existed, the list is unchanged. Otherwise the new list is the old one plus one fresh service `web` with an empty command and zero fields. |
| AnalyzerBase.GetOrCreateWebServiceTwice | packs/analyzer-base.go:113-126 | A second call returns the same service and leaves the list unchanged, so no second web service appears. |
| AnalyzerBase.Inherit | packs/analyzer-base.go:143-146 | One service with the four context fields replaced by the context's values. |
| AnalyzerBase.InheritAllStamps | packs/analyzer-base.go:142-147 | Every service gets the given env vars, branch, repository and build root, whatever it held. Length, order, names and commands are kept. |
| AnalyzerBase.InheritAllOverwrites | packs/analyzer-base.go:141-148 | Stamping twice leaves only the second context. |
| AnalyzerBase.InheritAllEach | packs/analyzer-base.go:142-147 | A list whose every service is the stamped version of the matching one is the stamped list. |
| AnalyzerBase.InheritProjectContext | packs/analyzer-base.go:141-148 | The new values of the listed services are the old ones stamped with the context, and only the four context fields change. |
| AnalyzerBase.RefineCommand | packs/analyzer-base.go:131-135 | The command both passes assign: the UNIQUE_INT pass applied to the env-var pass's returned command. Neither pass's reported error is consulted. |
| AnalyzerBase.RefineAllRewritesCommands | packs/analyzer-base.go:130-137 | Every command becomes the UNIQUE_INT pass applied to the env-var pass's result, whatever errors the passes report. Length, order, names and context fields are kept. |
| AnalyzerBase.RefineAllEach | packs/analyzer-base.go:130-138 | A list whose every service is the refinement of the matching one is the refined list. |
| AnalyzerBase.RefineServices | packs/analyzer-base.go:128-139 | Each listed service's command is refined once per listing of its pointer, and only commands change. |
| AnalyzerBase.RefineAllocated | packs/analyzer-base.go:128-139 | With no pointer listed twice, the new values are the old values refined. |
| AnalyzerBase.Confirmed | packs/analyzer-base.go:36-43 | The detected databases whose confirmation is affirmative: never longer than the detected list, and drawn from it. |
| AnalyzerBase.AcceptedIndices | packs/analyzer-base.go:36-43 | The confirmed positions are below the count and strictly increasing. A position is in the list exactly when its prompt is affirmative. |
| AnalyzerBase.SelectsStep | packs/analyzer-base.go:40-42 | Keeping or dropping the last detected database extends the kept list and its positions alike. |
| AnalyzerBase.ConfirmedSelectsAccepted | packs/analyzer-base.go:36-43 | The kept databases are the detected ones at the confirmed positions, in detection order. |
| AnalyzerBase.ConfirmedAllAccepted | packs/analyzer-base.go:36-43 | When every confirmation is affirmative, every detected database is kept. |
| AnalyzerBase.AddOthersDefault | packs/analyzer-base.go:45-53 | The "add others?" default is yes exactly when nothing was detected. |
| AnalyzerBase.AddsOthers | packs/analyzer-base.go:55 | Manual additions are read only when prompting and the "add others?" prompt is affirmative. |
| AnalyzerBase.ConfirmDatabasesNonInteractive | packs/analyzer-base.go:37-55 | Without prompting, the result is the detected list, whatever the replies and the input line. |
| AnalyzerBase.ConfirmDatabasesAdditions | packs/analyzer-base.go:45-65 | An empty answer to "add others?" is yes exactly when nothing was detected. The kept databases come first. Entries after them appear only when prompting, the prompt is affirmative and the read succeeds, and they are then the line's words. A read error adds nothing. |
| AnalyzerBase.ConfirmDatabases | packs/analyzer-base.go:34-67 | The returned list is the confirmed databases followed by the words of the manual-additions line, as `ConfirmedDatabases` defines them. |
| AnalyzerBase.ConfirmDatabasesKeepsConfirmed | packs/analyzer-base.go:36-66 | `mysql` and `redis` confirmed, then no to "add others?": the result is `mysql` and `redis`. |
| AnalyzerBase.ConfirmDatabasesAddsTypedLine | packs/analyzer-base.go:47-64 | Nothing detected, the default accepted, and a line of two words ended by its newline: the result is those two words. |
| AnalyzerBase.ServiceOfEntry | packs/analyzer-base.go:108 | The service a Procfile entry becomes: its name and command, with every other field zero. |
| AnalyzerBase.ProcfileViewsCopies | packs/analyzer-base.go:106-109 | One service per Procfile entry, in entry order, with the entry's name and command and every other field zero. |
| AnalyzerBase.ProcfileServicesCases | packs/analyzer-base.go:94-110 | A missing Procfile gives an empty list and no error. A parse error is returned as it is. Otherwise every entry becomes a service. |
| AnalyzerBase.AnalyzeProcfile | packs/analyzer-base.go:93-111 | Returns the parse error, or service pointers whose values are `ProcfileServices`. |
| AnalyzerBase.DerivedServicesErrors | packs/analyzer-base.go:78-87 | The pipeline fails exactly when the Procfile parse or `FillServices` fails, and returns that error. |
| AnalyzerBase.DerivedServicesStamped | packs/analyzer-base.go:84-90 | On success, each service is the analyzer's, with its command refined and the project context stamped. Names and order are the analyzer's. |
| AnalyzerBase.DerivedServicesWebAndWorker | packs/analyzer-base.go:77-91 | Procfile `web: rackup` plus an analyzer that finds or creates `web` and adds a worker: two stamped services, exactly one of them web. |
| AnalyzerBase.Allocate | packs/analyzer-base.go:84 | Fresh, pairwise distinct service pointers holding the analyzer's values. |
| AnalyzerBase.AnalyzeServices | packs/analyzer-base.go:77-91 | Returns the Procfile error or the analyzer error, or services whose values are the analyzer's list refined and then stamped (`DerivedServices`). |
| Common.AskYesOrNo | packs/analyzer-base.go:40 | Without prompting, or on an empty answer, the prompt yields its default. |
| Common.Service.constructor | packs/analyzer-base.go:122 | A new service holds the given name and command, and every other field has Go's zero value. |
| Strings.IsSpace | packs/analyzer-base.go:63 | Go's `unicode.IsSpace`, which `strings.Fields` splits at: tab, newline, vertical tab, form feed, carriage return, blank, U+0085, U+00A0, U+1680, U+2000 to U+200A, U+2028, U+2029, U+202F, U+205F and U+3000. |
| Strings.Fields | packs/analyzer-base.go:63 | Every field is a non-empty run of non-space characters. |
| Strings.FieldsOfInterleave | packs/analyzer-base.go:63 | Words separated by non-empty runs of white space, with any white space before the first and after the last, split back into exactly those words. |
| Strings.FieldsSplitsAtSeparators | packs/analyzer-base.go:63 | Every line is its fields interleaved with such runs of white space. With `FieldsOfInterleave`, the fields are the only words the line splits into at white space. |
| Strings.FieldsDropsOnlySpace | packs/analyzer-base.go:63 | The fields laid end to end are the line's non-space characters, in order. |
| Strings.FieldsOfJoin | packs/analyzer-base.go:63 | Words joined by single blanks split back into those words. |

## Left out

- Console output: every `fmt.Println`, `fmt.Printf` and `fmt.Print`, including the
  messages for a failed Procfile parse and failed placeholder passes. It is I/O.
- The stdin reader. The line it reads is the input `otherLine`, with `None` for a read
  error.
- `ConfirmVersion`. It depends on the pack's name and a prompt primitive
  (`AskUserWithDefault`) that are not part of this model.
- The git queries of `ProjectMetadata` (`RemoteGitUrl`, `LocalGitBranch`,
  `PathRelativeToGitRoot`). They are not part of this model; their answers are inputs.
- `FileExists`, `ParseProcfile`, `ParseEnvironmentVariables` and `ParseUniqueInt` are
  not part of this model. They are inputs or functions supplied by the caller.
  - The UNIQUE_INT pass is treated as a function of the command. Any counter it keeps
    between calls is not modelled.
- `common.AskYesOrNo`'s reading and parsing of the typed answer is not part of this
  model. Only its three outcomes (affirmative, negative, empty line) are modelled.
- `common.Lister.Add` is not part of this model and is taken to append. Whether it
  removes duplicates is not modelled.
- AnalyzeServices: the analyzer's `FillServices` is modelled as a function on service
  values that may fail, and the services it yields are allocated afresh.
  - This does not capture an analyzer that keeps the Procfile's pointers or lists one
    pointer twice.
  - `RefineServices` alone does model repeated pointers: each listing refines the
    command once more.
- Sharing of the `envVars` slice between services is not modelled. Every service receives
  the same value.
- Strings are modelled as sequences of Unicode characters. Go strings are UTF-8 bytes,
  and `strings.Fields` keeps invalid bytes inside words, where they read as U+FFFD, which is
  not white space. A `seq<char>` cannot hold such bytes.
- The Service fields other than name, command, env vars, git branch, git repository and
  build root are not modelled. The analyzer base neither reads nor writes them.
