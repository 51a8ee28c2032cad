/** The body of `main` in `tools/add_module_plus.py`: from an already parsed
    input document it derives the source-repository identifier, asks a
    registry client to initialise the module and to add it (overriding any
    existing entry), and then runs the validation entry point on it.

    The collaborators (`RegistryClient`, `bcr_validation.main`) are opaque:
    each of their operations is modelled only by the call it appends to a
    shared `CallLog`, so the model states the order of the calls and the
    values passed, not their effect on disk. */
module AddModulePlus {
  import opened StrSplit
  import opened SourceRepository

  /** The module descriptor: the fields of the input's `module` object that
      the script itself reads. */
  datatype Module = Module(name: string, version: string, url: string)

  /** A maintainer record. The script hands the maintainers' JSON objects to
      the registry client without reading them; this record stands in for such
      an object, and no member of the model looks inside it. */
  datatype Maintainer = Maintainer(attributes: map<string, string>)

  /** The parsed input file. */
  datatype InputDocument = InputDocument(descriptor: Module, homepage: string, maintainers: seq<Maintainer>)

  /** One call into a collaborator; `registry` is the root the client was
      created with. */
  datatype Call =
    | InitModule(registry: string, name: string, maintainers: seq<Maintainer>,
                 homepage: string, sourceRepository: string)
    | Add(registry: string, descriptor: Module, override: bool)
    | Validate(argv: seq<string>)

  /** The calls the collaborators have received so far, oldest first. */
  class CallLog {
    var calls: seq<Call>

    constructor ()
      ensures calls == []
    {
      calls := [];
    }

    method Record(call: Call)
      modifies this
      ensures calls == old(calls) + [call]
    {
      calls := calls + [call];
    }
  }

  /** The registry client, bound to a registry root; its operations are
      recorded in `log`. */
  class RegistryClient {
    const root: string
    const log: CallLog

    constructor (root: string, log: CallLog)
      ensures this.root == root && this.log == log
    {
      this.root := root;
      this.log := log;
    }

    method InitModule(name: string, maintainers: seq<Maintainer>, homepage: string,
                      sourceRepository: string)
      modifies log
      ensures log.calls == old(log.calls)
                + [Call.InitModule(root, name, maintainers, homepage, sourceRepository)]
    {
      log.Record(Call.InitModule(root, name, maintainers, homepage, sourceRepository));
    }

    method Add(descriptor: Module, override: bool)
      modifies log
      ensures log.calls == old(log.calls) + [Call.Add(root, descriptor, override)]
    {
      log.Record(Call.Add(root, descriptor, override));
    }
  }

  /** The validation entry point, called with a command line. */
  method ValidationMain(argv: seq<string>, log: CallLog)
    modifies log
    ensures log.calls == old(log.calls) + [Validate(argv)]
  {
    log.Record(Validate(argv));
  }

  const CHECK_FLAG: string := "--check="

  /** The `--check=<name>@<version>` argument that selects the module: when
      the name has no `@`, the text after the flag up to the first `@` is the
      name and everything after that `@` is the version. */
  function CheckArgument(descriptor: Module): (arg: string)
    ensures CHECK_FLAG <= arg
    ensures |arg| == |CHECK_FLAG| + |descriptor.name| + 1 + |descriptor.version|
    ensures '@' !in descriptor.name ==>
              SplitOn(arg[|CHECK_FLAG|..], '@')[0] == descriptor.name
              && arg[|CHECK_FLAG| + |descriptor.name| + 1..] == descriptor.version
  {
    var arg := CHECK_FLAG + descriptor.name + "@" + descriptor.version;
    assert arg[|CHECK_FLAG|..] == descriptor.name + "@" + descriptor.version;
    if '@' !in descriptor.name then
      SplitAtSeparator(descriptor.name, '@', descriptor.version);
      arg
    else
      arg
  }

  /** The command line given to the validation entry point: the check
      argument selecting the module, then `--fix`. */
  function ValidationArgs(descriptor: Module): (argv: seq<string>)
    ensures |argv| == 2 && CHECK_FLAG <= argv[0] && argv[1] == "--fix"
    ensures |argv[0]| == |CHECK_FLAG| + |descriptor.name| + 1 + |descriptor.version|
    ensures '@' !in descriptor.name ==>
              SplitOn(argv[0][|CHECK_FLAG|..], '@')[0] == descriptor.name
              && argv[0][|CHECK_FLAG| + |descriptor.name| + 1..] == descriptor.version
  {
    [CheckArgument(descriptor), "--fix"]
  }

  /** The calls one run makes, in order, or the error that stops it before
      any call is made. */
  function Calls(registry: string, data: InputDocument): (r: Result<seq<Call>>)
    ensures r.Err? ==> r.error == IndexOutOfRange(4)
    ensures r.Ok? ==>
              |r.value| == 3 && r.value[0].InitModule? && r.value[1].Add? && r.value[2].Validate?
              && (r.value[0].sourceRepository == "" <==> !(GITHUB_PREFIX <= data.descriptor.url))
  {
    DeriveFailsIff(data.descriptor.url);
    EmptyIffNotGitHub(data.descriptor.url);
    match DeriveSourceRepository(data.descriptor.url)
    case Err(e) => Err(e)
    case Ok(sourceRepository) =>
      Ok([InitModule(registry, data.descriptor.name, data.maintainers, data.homepage, sourceRepository),
          Add(registry, data.descriptor, true),
          Validate(ValidationArgs(data.descriptor))])
  }

  /** One run of the script on a parsed input document: appends to `log`
      exactly the calls `Calls` lists, or nothing when the derivation of the
      source repository fails. */
  method AddModule(registry: string, data: InputDocument, log: CallLog) returns (result: Result<()>)
    modifies log
    ensures Calls(registry, data).Ok? ==>
              result == Ok(()) && log.calls == old(log.calls) + Calls(registry, data).value
    ensures Calls(registry, data).Err? ==>
              result == Err(Calls(registry, data).error) && log.calls == old(log.calls)
  {
    var descriptor := data.descriptor;
    var homepage := data.homepage;
    var maintainers := data.maintainers;
    var sourceRepository := "";
    var derived := DeriveSourceRepository(descriptor.url);
    if derived.Err? {
      return Err(derived.error);
    }
    sourceRepository := derived.value;

    var client := new RegistryClient(registry, log);
    client.InitModule(descriptor.name, maintainers, homepage, sourceRepository);
    client.Add(descriptor, true);
    ValidationMain(ValidationArgs(descriptor), log);
    result := Ok(());
  }

  /** Number of `Add` calls in a trace. */
  function AddCount(calls: seq<Call>): nat
  {
    if calls == [] then 0 else (if calls[0].Add? then 1 else 0) + AddCount(calls[1..])
  }

  /** A run stops before any call exactly when the URL is a GitHub URL with
      no `/` after the owner. */
  lemma NoCallsIff(registry: string, data: InputDocument)
    ensures Calls(registry, data).Err?
        <==> GITHUB_PREFIX <= data.descriptor.url && '/' !in Path(data.descriptor.url)
  {
    DeriveFailsIff(data.descriptor.url);
  }

  /** A successful run calls `add` exactly once, with `override` set and the
      descriptor unchanged; every `init_module` call comes before it and
      every validation call after it. */
  lemma AddOnceBetweenInitAndValidation(registry: string, data: InputDocument)
    requires Calls(registry, data).Ok?
    ensures var calls := Calls(registry, data).value;
            AddCount(calls) == 1
            && (forall i :: 0 <= i < |calls| && calls[i].Add? ==> calls[i] == Add(registry, data.descriptor, true))
            && (forall i, j :: 0 <= i < j < |calls| ==> !(calls[j].InitModule? && calls[i].Add?))
            && (forall i, j :: 0 <= i < j < |calls| ==> !(calls[j].Add? && calls[i].Validate?))
            && (exists i :: 0 <= i < |calls| && calls[i].InitModule?)
            && (exists i :: 0 <= i < |calls| && calls[i].Validate?)
  {
    var calls := Calls(registry, data).value;
    assert calls[1..][1..][1..] == [];
    assert AddCount(calls[1..][1..]) == 0;
    assert AddCount(calls[1..]) == 1;
    assert calls[0].InitModule? && calls[2].Validate?;
  }

  /** `init_module` receives the name, maintainers and homepage exactly as
      read, together with the derived source repository. This follows from
      the definition of `Calls` alone. */
  lemma InitReceivesInputUnchanged(registry: string, data: InputDocument)
    requires Calls(registry, data).Ok?
    ensures var calls := Calls(registry, data).value;
            forall i :: 0 <= i < |calls| && calls[i].InitModule? ==>
              calls[i] == InitModule(registry, data.descriptor.name, data.maintainers, data.homepage,
                                     DeriveSourceRepository(data.descriptor.url).value)
  {
  }

  /** The check argument determines the module's name and version when
      names contain no `@`; this follows from the contract of
      `CheckArgument`. */
  lemma CheckArgumentInjective(m1: Module, m2: Module)
    requires '@' !in m1.name && '@' !in m2.name
    requires CheckArgument(m1) == CheckArgument(m2)
    ensures m1.name == m2.name && m1.version == m2.version
  {
    var arg := CheckArgument(m1);
    assert m1.name == SplitOn(arg[|CHECK_FLAG|..], '@')[0] == m2.name;
  }

  /** The source repository handed to `init_module` depends only on the
      module's URL. This follows from the definition of `Calls` alone. */
  lemma SourceRepositoryDependsOnlyOnUrl(registry: string, d1: InputDocument, d2: InputDocument)
    requires d1.descriptor.url == d2.descriptor.url
    ensures Calls(registry, d1).Ok? == Calls(registry, d2).Ok?
    ensures Calls(registry, d1).Ok? ==>
              Calls(registry, d1).value[0].sourceRepository == Calls(registry, d2).value[0].sourceRepository
  {
  }

  /** End to end: for a module whose URL lies under
      `https://github.com/<owner>/<repo>`, the run initialises the module with
      `github:<owner>/<repo>`, adds it with override, and validates it with
      `--check=<name>@<version> --fix`. */
  lemma RunOnGitHubModule(registry: string, name: string, version: string,
                          owner: string, repo: string, rest: string,
                          homepage: string, maintainers: seq<Maintainer>)
    requires WellFormed(owner, repo, rest)
    ensures var descriptor := Module(name, version, GitHubUrl(owner, repo, rest));
            Calls(registry, InputDocument(descriptor, homepage, maintainers))
            == Ok([InitModule(registry, name, maintainers, homepage, "github:" + owner + "/" + repo),
                   Add(registry, descriptor, true),
                   Validate(["--check=" + name + "@" + version, "--fix"])])
  {
    DeriveWellFormed(owner, repo, rest);
  }

  /** For a module hosted elsewhere, the run initialises it with an empty
      source repository, then adds and validates it. This follows from the
      definitions of `Calls` and `DeriveSourceRepository` alone. */
  lemma RunOnOtherModule(registry: string, descriptor: Module, homepage: string,
                         maintainers: seq<Maintainer>)
    requires !(GITHUB_PREFIX <= descriptor.url)
    ensures Calls(registry, InputDocument(descriptor, homepage, maintainers))
            == Ok([InitModule(registry, descriptor.name, maintainers, homepage, ""),
                   Add(registry, descriptor, true),
                   Validate(["--check=" + descriptor.name + "@" + descriptor.version, "--fix"])])
  {
  }
}
