# Release-tag helper of pypi-workflow-generator, in Dafny

This project models the release-tag helper `pypi_workflow_generator/create_release.py`.
The helper does two things:

- **Version resolver** (`main`, lines 52 to 68). It reads the latest tag printed by
  `git describe --tags --abbrev=0` and strips surrounding whitespace. It then removes
  every leading `v`, splits the rest on `.` and reads three integers. If the command
  fails, or the text is not three numerals, it starts from 0.0.0. It applies the
  requested bump (items 6 to 8 of Semantic Versioning 2.0.0) and writes the next
  tag as `v<major>.<minor>.<patch>`.
- **Tag manager** (`create_release_tag`, lines 5 to 44). It checks whether the tag
  exists locally. If it does and `--overwrite` was not given, it exits with status 1.
  If it does and `--overwrite` was given, it deletes the local tag (a failure is fatal)
  and then tries to delete the tag on `origin` (a failure is ignored). Finally it
  creates the local tag. It never pushes the new tag to origin.

Files:

- `process.dfy` (module `Process`): how one `subprocess.run(..., check=True)` call of
  git ends (`Status`), and the fault oracle that decides it (`Fault`).
- `pytext.dfy` (module `PyText`): the Python string operations the helper uses:
  `strip`, `lstrip`, `split`, `int` on numerals, and `str` on naturals.
- `versions.dfy` (module `Versions`): `Version`, `Bump`, parsing, bumping and formatting.
- `tag_manager.dfy` (module `TagManager`): the git collaborator as a class `GitRepo`
  with `local` and `remote` tag sets and a ghost log of the git calls made. It also
  holds the specification function `ReleaseTagRun` and the imperative
  `CreateReleaseTag`, which is proved equal to it.
- `release.dfy` (module `Release`): `main` once its arguments are parsed.

How the environment is modelled:

- Every git call takes a `Fault`: `NoFault`, `NonZeroExit` or `GitMissing`.
- With `NoFault` the call succeeds exactly when the repository state allows it:
  - `rev-parse` succeeds when the name is a local tag;
  - `tag -d` succeeds when the local tag exists;
  - `push origin :<name>` succeeds when origin has the tag;
  - `tag <name>` succeeds when the local tag does not exist.
- `NonZeroExit` makes the call fail with a non-zero status.
- `GitMissing` makes it raise FileNotFoundError.
- The text printed by `git describe` is a parameter.

Python raises FileNotFoundError at lines 9, 19, 21 and 53 when git is missing, and no
handler there catches FileNotFoundError, so the exception escapes. The model reports this as
`Outcome.Raised(call)`. This is different from `Exit(ToolNotFound)`, the handled case
at line 42. `ReleaseTagRun` states that the handled case is reached only when git was
found at line 9 and then missing at line 36. In a single run where git is absent
throughout, `main` fails at line 53 before any of this, with the uncaught exception.

Two facts about the code that the model keeps:

- `lstrip('v')` at line 54 removes every leading `v`, not only the first
  (`StripsEveryLeadingV`).
- Line 55 catches only `CalledProcessError` and `ValueError`, so a missing git executable
  at line 53 ends `main` with an uncaught FileNotFoundError (`CreateNextRelease`).

## Model

| member | source | states |
|---|---|---|
| `PyText.LStrip` | pypi_workflow_generator/create_release.py:54 | `lstrip` drops the longest prefix of stripped characters: the result is a suffix of the input, everything removed is a stripped character, and the result does not start with one |
| `PyText.RStrip` | pypi_workflow_generator/create_release.py:53 | the mirror image for the end of the text, the trailing half of `strip()` |
| `PyText.Split` | pypi_workflow_generator/create_release.py:54 | `split('.')` gives at least one part, no part contains a dot, and joining the parts with dots gives back the input |
| `PyText.SplitJoin` | pypi_workflow_generator/create_release.py:54 | splitting dot-joined, dot-free parts gives exactly those parts, so `split` is determined by its contract |
| `PyText.Str` | pypi_workflow_generator/create_release.py:68 | `str(n)` is a canonical numeral (digits, no leading zero) and starts with `0` exactly when n is 0 |
| `PyText.ParseStr` | pypi_workflow_generator/create_release.py:54 | `int(str(n)) == n` for every natural n |
| `PyText.StrOfCanonical` | pypi_workflow_generator/create_release.py:54 | `str(int(s)) == s` for every canonical numeral s |
| `Versions.Apply` | pypi_workflow_generator/create_release.py:58-66 | the bump is strictly greater in (major, minor, patch) order. Patch gives the next version overall. Minor keeps major and gives the least version with a larger minor. Major gives the least version with a larger major, so lower components restart at 0 |
| `Versions.BumpExamples` | pypi_workflow_generator/create_release.py:58-66 | 1.2.3 becomes 2.0.0, 1.3.0 and 1.2.4, and 0.0.0 with patch becomes 0.0.1 |
| `Versions.ParseFormat` | pypi_workflow_generator/create_release.py:54-68 | parsing `v<a>.<b>.<c>` as formatted yields (a, b, c) for all naturals |
| `Versions.FormatParse` | pypi_workflow_generator/create_release.py:54-68 | every well-formed tag parses, and formatting the result gives the same text back |
| `Versions.FormatWellFormed` | pypi_workflow_generator/create_release.py:68 | every formatted version has the shape `v<n>.<n>.<n>` with canonical numerals |
| `Versions.NextTag` | pypi_workflow_generator/create_release.py:52-68 | the emitted tag is well formed, parses to the bumped baseline, and is strictly greater than the baseline |
| `Versions.FallbackToZero` | pypi_workflow_generator/create_release.py:52-56 | a failed `git describe`, or text that does not parse, gives the 0.0.0 baseline and the tag of the bumped 0.0.0 |
| `Versions.BaselineOfFormatted` | pypi_workflow_generator/create_release.py:53-54 | output made of a tag this helper wrote plus trailing whitespace gives back exactly that tag's version |
| `Versions.StripsEveryLeadingV` | pypi_workflow_generator/create_release.py:54 | `vv1.2.3` parses to (1, 2, 3) |
| `Versions.TwoPartsRejected` | pypi_workflow_generator/create_release.py:54-56 | `v1.2` does not parse, which is the fallback case |
| `Versions.FourPartsRejected` | pypi_workflow_generator/create_release.py:54-56 | `v1.2.3.4` does not parse |
| `Versions.LetterRejected` | pypi_workflow_generator/create_release.py:54-56 | `v1.x.3` does not parse |
| `Versions.EmptyRejected` | pypi_workflow_generator/create_release.py:54-56 | empty output does not parse |
| `Process.StatusOf` | pypi_workflow_generator/create_release.py:9 | with `check=True`, a call returns only when it succeeds and no fault was injected; a missing executable and only that raises FileNotFoundError |
| `TagManager.GitRepo.Describe` | pypi_workflow_generator/create_release.py:53 | `git describe` changes no tag; its output counts only when it exits with status 0 |
| `TagManager.GitRepo.RevParseTag` | pypi_workflow_generator/create_release.py:9 | the existence check succeeds when the name is a local tag and changes nothing |
| `TagManager.GitRepo.DeleteTag` | pypi_workflow_generator/create_release.py:19 | `git tag -d` removes the local tag when it succeeds and changes nothing otherwise; the remote is untouched |
| `TagManager.GitRepo.PushDelete` | pypi_workflow_generator/create_release.py:21 | `git push origin :<tag>` removes the remote tag when it succeeds and changes nothing otherwise; the local namespace is untouched |
| `TagManager.GitRepo.Tag` | pypi_workflow_generator/create_release.py:36 | `git tag` adds the local tag when it succeeds, fails if it is already there, and never touches the remote |
| `TagManager.CreateStep` | pypi_workflow_generator/create_release.py:33-44 | creation succeeds exactly when git runs and the tag is absent. A failure leaves the namespace as it was and exits with status 1. `ToolNotFound` is reported exactly when git is missing |
| `TagManager.ReleaseTagRun` | pypi_workflow_generator/create_release.py:5-44 | the calls run in one of two fixed orders and may stop early. Deletion is tried only for an existing tag and only with overwrite. No other tag changes, and the remote never gains a tag. Success leaves the tag local. The two refusals change nothing and create nothing. The install hint needs git present at the check and missing at creation |
| `TagManager.AbsentTagIsCreated` | pypi_workflow_generator/create_release.py:6-38 | an absent tag is only created: no deletion, remote unchanged, success exactly when creation runs cleanly, and then the tag is added locally |
| `TagManager.ExistingTagRefused` | pypi_workflow_generator/create_release.py:28-30 | an existing tag without overwrite exits with `TagExists` after the check alone, with both namespaces unchanged |
| `TagManager.OverwriteLocalDeleteFails` | pypi_workflow_generator/create_release.py:18-27 | with overwrite, a failed local delete exits with `DeleteFailed` before any creation, with both namespaces unchanged |
| `TagManager.OverwriteRecreates` | pypi_workflow_generator/create_release.py:16-38 | with overwrite and a successful local delete, a failed remote delete is swallowed and creation still runs. The remote loses the tag only if its deletion succeeded. A successful run leaves the tag local |
| `TagManager.CreateReleaseTag` | pypi_workflow_generator/create_release.py:5-44 | the step-by-step run gives the outcome, final namespaces and git calls of `ReleaseTagRun` |
| `Release.CreateNextRelease` | pypi_workflow_generator/create_release.py:52-70 | a missing git at `git describe` escapes uncaught and changes nothing; otherwise the next tag goes through `create_release_tag` exactly as `ReleaseTagRun` says |
| `Release.ReleaseAfterOwnTag` | pypi_workflow_generator/create_release.py:52-70 | after a tag this helper wrote, the next release creates the bumped tag locally and leaves the remote alone |

## Left out

- Python `int()` accepts surrounding whitespace, a `+` or `-` sign, `_` between digits and non-ASCII decimal digits. The model's parser accepts ASCII digits only, over naturals. So a tag such as `v-1.0.0`, which Python reads with major -1, falls back to 0.0.0 in the model. Python (since 3.11, and in the security releases of 3.7 to 3.10) also limits conversion between int and text to 4300 digits; the model has no such limit:
- ParseNat: accepts a numeral longer than 4300 digits, where Python's `int()` raises ValueError at line 54 and line 55 falls back to 0.0.0.
- NextTag: returns a tag (through `Format` and `Str`) even when a bumped component has 4301 digits or more, where line 68 raises an uncaught ValueError.
- `git rev-parse` resolves any revision, not only tags. The model treats it as "the name is a local tag".
- The output of `git describe` is a parameter. The model does not derive it from the tags in the repository.
- The `print` status lines, and the traceback printed for an escaped exception, are observability only and are not modelled.
- Exit codes are not modelled as numbers. Every `Exit` outcome is `sys.exit(1)`. An escaped exception also ends Python with status 1.
- Each git call has its own fault oracle. This admits runs where git disappears between two calls, which is the only way to reach line 42.
- `pypi-workflow-generator/create_release.py`, an older variant that runs `git tag` and then `git push`, is not part of this model.
- The workflow renderer and the CLI plumbing (`main.py`, `init.py`, `setup.py`) are not part of this model. They render Jinja2 templates and write files. The templates and `generator.py` are not among the available sources.
- Argument parsing (`argparse`, lines 46 to 50) is not modelled. The release type arrives as a `Bump` and `--overwrite` as a boolean.
