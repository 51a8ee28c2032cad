# add_module_plus: source-repository derivation and call sequence

`tools/add_module_plus.py` adds a module to a Bazel registry. It reads a JSON
description of the module, derives a source-repository identifier from the
module's URL, asks a `RegistryClient` to initialise the module's metadata and
to add the module (overriding an existing entry), and then runs
`bcr_validation.main` on it. This project models the logic of its `main`
function in Dafny:

- `str_split.dfy` (module `StrSplit`): Python's `str.split(sep)` for a
  one-character separator. Every occurrence splits and empty segments are
  kept. `Join` is its inverse.
- `source_repository.dfy` (module `SourceRepository`): the derivation at
  lines 82-85, modelled as a pure function. A URL starting with
  `https://github.com/` is split on `/`, and segments 3 and 4 are joined as
  `github:<owner>/<repo>`. Any other URL gives `""`. When the URL has no
  segment 4, Python raises `IndexError`; the model returns
  `Err(IndexOutOfRange(4))` instead.
- `add_module_plus.dfy` (module `AddModulePlus`): the rest of `main`,
  modelled as a method. The collaborators are opaque, so each of their
  operations is modelled only by the `Call` it appends to a shared `CallLog`.
  `AddModule` is proved to append exactly the calls listed by the function
  `Calls`, or none when the derivation fails. The lemmas then state the
  order and arguments of those calls.

The module descriptor is a record with `name`, `version` and `url`. It
replaces the dynamic `module.__dict__ = module_data["module"]` at line 79.
The input document holds the descriptor, `homepage` and `maintainers`.
Maintainer records are passed through without being read.

The code rejects only a GitHub URL whose path has no `/` after the owner.
`https://github.com/acme/` therefore succeeds with an empty repository name
(`TrailingSlashGivesEmptyRepo`), and so does an empty owner segment
(`DeriveWellFormed` allows both).

## Model

| member | source | states |
|---|---|---|
| StrSplit.SplitOn | tools/add_module_plus.py:84 | `url.split("/")` always gives at least one segment, and no segment contains the separator |
| StrSplit.JoinSplit | tools/add_module_plus.py:84 | joining the split segments with the separator gives back the original string |
| StrSplit.SplitJoin | tools/add_module_plus.py:84 | splitting a join of separator-free segments gives back exactly those segments |
| StrSplit.SplitLength | tools/add_module_plus.py:84 | a string has one more segment than it has separators, so empty segments are kept |
| SourceRepository.DeriveSourceRepository | tools/add_module_plus.py:82-85 | a URL without the `https://github.com/` prefix gives `""`; a non-empty result comes from a prefixed URL and starts with `github:` |
| SourceRepository.SplitGitHubUrl | tools/add_module_plus.py:83-84 | a prefixed URL splits into `https:`, `""`, `github.com` and then the segments of its path, so there are at least 4 segments and `parts[3]` is always in range |
| SourceRepository.DeriveFailsIff | tools/add_module_plus.py:83-85 | the derivation fails exactly when the URL has the prefix and its path has no `/`; it then fails at index 4, never at index 3 |
| SourceRepository.DeriveWellFormed | tools/add_module_plus.py:83-85 | `https://github.com/<owner>/<repo><rest>` with `/`-free owner and repo, and rest empty or starting with `/`, gives `github:<owner>/<repo>` |
| SourceRepository.DeriveSucceedsOnlyOnWellFormed | tools/add_module_plus.py:83-85 | conversely, every non-empty result comes from such a URL and names its owner and repo |
| SourceRepository.EmptyIffNotGitHub | tools/add_module_plus.py:82-85 | the result is `""` exactly when the URL lacks the GitHub prefix |
| SourceRepository.IdentifierShape | tools/add_module_plus.py:85 | a non-empty result is `github:` followed by text holding exactly one `/` |
| SourceRepository.OwnerOnlyUrlFails | tools/add_module_plus.py:85 | `https://github.com/acme` fails with an index error at `parts[4]` |
| SourceRepository.TrailingSlashGivesEmptyRepo | tools/add_module_plus.py:84-85 | `https://github.com/acme/` is accepted and gives `github:acme/` |
| AddModulePlus.CallLog.Record | tools/add_module_plus.py:88-94 | a collaborator call is appended to the trace after all earlier calls |
| AddModulePlus.RegistryClient.constructor | tools/add_module_plus.py:87 | the client is bound to the registry root it is given |
| AddModulePlus.RegistryClient.InitModule | tools/add_module_plus.py:88 | `init_module` is recorded with the client's root and exactly the arguments given |
| AddModulePlus.RegistryClient.Add | tools/add_module_plus.py:89 | `add` is recorded with the client's root, the descriptor and the override flag |
| AddModulePlus.ValidationMain | tools/add_module_plus.py:94 | the validation entry point is recorded with exactly its argument list |
| AddModulePlus.CheckArgument | tools/add_module_plus.py:94 | the argument starts with `--check=`; when the name has no `@`, the text after the flag up to the first `@` is the name and the rest is the version |
| AddModulePlus.ValidationArgs | tools/add_module_plus.py:94 | the validation command line has exactly two arguments: the `--check=` argument, then `--fix`; when the name has no `@`, the first argument gives back both the name (up to the first `@`) and the version (everything after it) |
| AddModulePlus.Calls | tools/add_module_plus.py:82-94 | a run fails only with the index error at `parts[4]`; otherwise it makes three calls in the order `init_module`, `add`, validation, and the source repository passed to `init_module` is empty exactly when the URL is not a GitHub URL |
| AddModulePlus.AddModule | tools/add_module_plus.py:76-94 | one run appends exactly the calls of `Calls` and returns `Ok`; when the derivation fails, it returns that error and makes no call |
| AddModulePlus.NoCallsIff | tools/add_module_plus.py:82-89 | a run stops before any collaborator call exactly when the URL is a GitHub URL with no `/` after the owner |
| AddModulePlus.AddOnceBetweenInitAndValidation | tools/add_module_plus.py:88-94 | a successful run calls `add` exactly once, with the unchanged descriptor and override set; `init_module` comes before it and validation after it |
| AddModulePlus.InitReceivesInputUnchanged | tools/add_module_plus.py:79-88 | `init_module` receives the name, maintainers and homepage as read, plus the derived source repository |
| AddModulePlus.CheckArgumentInjective | tools/add_module_plus.py:94 | the argument `--check=<name>@<version>` determines both name and version when the name has no `@` |
| AddModulePlus.SourceRepositoryDependsOnlyOnUrl | tools/add_module_plus.py:82-88 | two inputs with the same URL stop at the same point and pass the same source repository to `init_module` |
| AddModulePlus.RunOnGitHubModule | tools/add_module_plus.py:79-94 | end to end, a module under `https://github.com/<owner>/<repo>` gives `init_module(name, maintainers, homepage, "github:<owner>/<repo>")`, then `add(module, override=True)`, then validation with `["--check=<name>@<version>", "--fix"]` |
| AddModulePlus.RunOnOtherModule | tools/add_module_plus.py:82-94 | end to end, a module hosted elsewhere gives the same three calls with an empty source repository |

## Left out

- Argument parsing (`--registry` with default `"."`, `--input`), at lines 58-73: library plumbing. The registry root is a parameter of `AddModule`.
- Opening the input file and `json.load`, at lines 76-77: I/O and a foreign parser. The model takes the parsed document. A missing or malformed file, a missing `module`, `homepage` or `maintainers` key, or a missing `url` attribute raises before any collaborator call.
- Missing `name` or `version` attributes are not modelled, because the `Module` record makes both fields mandatory. In the code a missing `name` raises at line 88, after the client was built at line 87. A missing `version` is first read at line 90, so it raises after `init_module` and `add` have run, leaving the registry partly written with no rollback.
- `add` receives the module object by reference at line 89. The model assumes that `add` leaves `name` and `version` unchanged, because lines 90-94 read them again after the call. `ValidationArgs` is built from the values read before `add`.
- Module attributes other than `name`, `version` and `url` (compatibility level, dependencies) are handed to `add` unread. The descriptor record does not carry them.
- `RegistryClient`, `Module`, `log` and `bcr_validation.main` are not part of this model. Their effects on disk, their own failures and the validator's exit behaviour are not modelled; only the calls made to them are.
- Log messages and the ANSI colour constants, at lines 50-51, 75 and 90-93: output only.
- The change of working directory from `BUILD_WORKSPACE_DIRECTORY`, and `sys.exit`, at lines 97-101: process environment.
