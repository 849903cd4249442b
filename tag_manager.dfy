/**
 The tag manager of `create_release.py` (`create_release_tag`): check whether a
 tag name exists locally, refuse or overwrite it, then create it locally.
 The git repository is a collaborator holding a local and a remote (origin)
 tag namespace; each git call is steered by a fault oracle.
 */
module TagManager {
  import opened Process

  /** The git invocations the helper makes, in the order it may make them. */
  datatype GitCall =
    | DescribeTags               // git describe --tags --abbrev=0
    | RevParse(name: string)     // git rev-parse <name>
    | DeleteLocal(name: string)  // git tag -d <name>
    | DeleteRemote(name: string) // git push origin :<name>
    | CreateLocal(name: string)  // git tag <name>

  /** The four failures that end the program with `sys.exit(1)`. */
  datatype TagError = TagExists | DeleteFailed | CreateFailed | ToolNotFound

  /** How a run ends: the tag was created, the program exited with status 1
      after reporting `error`, or a FileNotFoundError raised by `call` escaped
      every handler. */
  datatype Outcome = Created | Exit(error: TagError) | Raised(call: GitCall)

  /** One fault oracle per git call of `create_release_tag`. */
  datatype Faults = Faults(revParse: Fault, deleteLocal: Fault, deleteRemote: Fault, create: Fault)

  /** The git repository as seen through its command-line tool. */
  class GitRepo {
    var local: set<string>
    var remote: set<string>
    /** Every git invocation so far, oldest first. */
    ghost var calls: seq<GitCall>

    constructor (local: set<string>, remote: set<string>)
      ensures this.local == local && this.remote == remote && calls == []
    {
      this.local := local;
      this.remote := remote;
      calls := [];
    }

    /** `git describe --tags --abbrev=0`: prints the latest reachable tag, which
        the environment supplies as `out`; only the oracle decides whether one
        exists. */
    method Describe(fault: Fault, out: string) returns (st: Status, stdout: string)
      modifies this`calls
      ensures st == StatusOf(fault, true)
      ensures stdout == if st == Returned then out else ""
      ensures local == old(local) && remote == old(remote)
      ensures calls == old(calls) + [DescribeTags]
    {
      st := StatusOf(fault, true);
      stdout := if st == Returned then out else "";
      calls := calls + [DescribeTags];
    }

    /** `git rev-parse <name>`: succeeds when the name resolves, taken here as
        "the name is a local tag". */
    method RevParseTag(name: string, fault: Fault) returns (st: Status)
      modifies this`calls
      ensures st == StatusOf(fault, name in local)
      ensures local == old(local) && remote == old(remote)
      ensures calls == old(calls) + [RevParse(name)]
    {
      st := StatusOf(fault, name in local);
      calls := calls + [RevParse(name)];
    }

    /** `git tag -d <name>`: fails when there is no such local tag. */
    method DeleteTag(name: string, fault: Fault) returns (st: Status)
      modifies this`local, this`calls
      ensures st == StatusOf(fault, name in old(local))
      ensures local == if st == Returned then old(local) - {name} else old(local)
      ensures remote == old(remote)
      ensures calls == old(calls) + [DeleteLocal(name)]
    {
      st := StatusOf(fault, name in local);
      if st == Returned {
        local := local - {name};
      }
      calls := calls + [DeleteLocal(name)];
    }

    /** `git push origin :<name>`: fails when origin has no such tag. */
    method PushDelete(name: string, fault: Fault) returns (st: Status)
      modifies this`remote, this`calls
      ensures st == StatusOf(fault, name in old(remote))
      ensures remote == if st == Returned then old(remote) - {name} else old(remote)
      ensures local == old(local)
      ensures calls == old(calls) + [DeleteRemote(name)]
    {
      st := StatusOf(fault, name in remote);
      if st == Returned {
        remote := remote - {name};
      }
      calls := calls + [DeleteRemote(name)];
    }

    /** `git tag <name>`: fails when the local tag already exists. */
    method Tag(name: string, fault: Fault) returns (st: Status)
      modifies this`local, this`calls
      ensures st == StatusOf(fault, name !in old(local))
      ensures local == if st == Returned then old(local) + {name} else old(local)
      ensures remote == old(remote)
      ensures calls == old(calls) + [CreateLocal(name)]
    {
      st := StatusOf(fault, name !in local);
      if st == Returned {
        local := local + {name};
      }
      calls := calls + [CreateLocal(name)];
    }
  }

  /** The result of one run: its outcome, the final namespaces and the git
      calls it made. */
  datatype Run = Run(outcome: Outcome, local: set<string>, remote: set<string>, calls: seq<GitCall>)

  /** The longest run: check, delete locally, delete remotely, create. */
  function OverwriteCalls(name: string): seq<GitCall> {
    [RevParse(name), DeleteLocal(name), DeleteRemote(name), CreateLocal(name)]
  }

  /** The run of a tag that is not (seen to be) there yet. */
  function PlainCalls(name: string): seq<GitCall> {
    [RevParse(name), CreateLocal(name)]
  }

  /** The creation step (lines 33 to 44), entered with namespaces `local` and
      `remote` after the calls `before`. */
  function CreateStep(local: set<string>, remote: set<string>, name: string, fault: Fault,
                      before: seq<GitCall>): (run: Run)
    ensures run.remote == remote && run.calls == before + [CreateLocal(name)]
    ensures run.outcome == Created <==> fault == NoFault && name !in local
    ensures run.outcome == Created ==> run.local == local + {name}
    ensures run.outcome != Created ==> run.local == local && run.outcome.Exit?
    ensures run.outcome == Exit(ToolNotFound) <==> fault == GitMissing
  {
    var calls := before + [CreateLocal(name)];
    match StatusOf(fault, name !in local)
    case Returned => Run(Created, local + {name}, remote, calls)
    case CalledProcessError => Run(Exit(CreateFailed), local, remote, calls)
    case FileNotFound => Run(Exit(ToolNotFound), local, remote, calls)
  }

  /** What `create_release_tag(name, overwrite)` does to a repository whose
      namespaces are `local` and `remote`, under the fault oracles `f`. */
  function ReleaseTagRun(local: set<string>, remote: set<string>, name: string, overwrite: bool,
                         f: Faults): (run: Run)
    // the calls follow one of two fixed orders, and each may stop early
    ensures run.calls != [] && run.calls[0] == RevParse(name)
    ensures run.calls <= OverwriteCalls(name) || run.calls <= PlainCalls(name)
    // deletion is attempted only for a tag that exists, and only on request
    ensures DeleteLocal(name) in run.calls ==> name in local && overwrite
    // no other tag is touched, and no path adds a tag to the remote
    ensures run.local - {name} == local - {name}
    ensures run.remote == remote || run.remote == remote - {name}
    ensures run.outcome == Created ==> name in run.local
    // the install hint is reached only if git was found by the existence check
    ensures run.outcome == Exit(ToolNotFound) ==> f.revParse != GitMissing && f.create == GitMissing
    // the two refusals change nothing
    ensures run.outcome == Exit(TagExists) || run.outcome == Exit(DeleteFailed) ==>
      run.local == local && run.remote == remote && CreateLocal(name) !in run.calls
  {
    match StatusOf(f.revParse, name in local)
    case FileNotFound =>
      Run(Raised(RevParse(name)), local, remote, [RevParse(name)])
    case CalledProcessError =>
      CreateStep(local, remote, name, f.create, [RevParse(name)])
    case Returned =>
      if !overwrite then
        Run(Exit(TagExists), local, remote, [RevParse(name)])
      else
        var checked := [RevParse(name), DeleteLocal(name)];
        match StatusOf(f.deleteLocal, name in local)
        case FileNotFound => Run(Raised(DeleteLocal(name)), local, remote, checked)
        case CalledProcessError => Run(Exit(DeleteFailed), local, remote, checked)
        case Returned =>
          var deleted := checked + [DeleteRemote(name)];
          match StatusOf(f.deleteRemote, name in remote)
          case FileNotFound => Run(Raised(DeleteRemote(name)), local - {name}, remote, deleted)
          case CalledProcessError => CreateStep(local - {name}, remote, name, f.create, deleted)
          case Returned => CreateStep(local - {name}, remote - {name}, name, f.create, deleted)
  }

  /** A name that is not a local tag is simply created: nothing is deleted and
      the remote is left alone. */
  lemma AbsentTagIsCreated(local: set<string>, remote: set<string>, name: string, overwrite: bool,
                           f: Faults)
    requires name !in local && f.revParse != GitMissing
    ensures var run := ReleaseTagRun(local, remote, name, overwrite, f);
      && run.calls == PlainCalls(name)
      && run.remote == remote
      && (run.outcome == Created <==> f.create == NoFault)
      && (run.outcome == Created ==> run.local == local + {name})
      && (run.outcome != Created ==> run.local == local)
  {
  }

  /** An existing tag without `--overwrite` is refused and nothing changes. */
  lemma ExistingTagRefused(local: set<string>, remote: set<string>, name: string, f: Faults)
    requires name in local && f.revParse == NoFault
    ensures ReleaseTagRun(local, remote, name, false, f)
         == Run(Exit(TagExists), local, remote, [RevParse(name)])
  {
  }

  /** Overwriting: a failed local delete is fatal before any creation. */
  lemma OverwriteLocalDeleteFails(local: set<string>, remote: set<string>, name: string, f: Faults)
    requires name in local && f.revParse == NoFault && f.deleteLocal == NonZeroExit
    ensures ReleaseTagRun(local, remote, name, true, f)
         == Run(Exit(DeleteFailed), local, remote, [RevParse(name), DeleteLocal(name)])
  {
  }

  /** Overwriting: once the local delete succeeds, a failed remote delete is
      swallowed and creation runs; the remote loses the tag only when its
      deletion succeeded, and a successful run leaves the tag in the local
      namespace with every other local tag as before. */
  lemma OverwriteRecreates(local: set<string>, remote: set<string>, name: string, f: Faults)
    requires name in local && f.revParse == NoFault && f.deleteLocal == NoFault
    requires f.deleteRemote != GitMissing
    ensures var run := ReleaseTagRun(local, remote, name, true, f);
      && run.calls == OverwriteCalls(name)
      && run.remote == (if f.deleteRemote == NoFault then remote - {name} else remote)
      && (run.outcome == Created <==> f.create == NoFault)
      && (run.outcome == Created ==> run.local == local)
      && (run.outcome != Created ==> run.local == local - {name})
  {
  }

  /** `create_release_tag`: the step-by-step run against the repository. */
  method CreateReleaseTag(git: GitRepo, version: string, overwrite: bool, faults: Faults)
    returns (outcome: Outcome)
    modifies git
    ensures var run := ReleaseTagRun(old(git.local), old(git.remote), version, overwrite, faults);
      && outcome == run.outcome
      && git.local == run.local && git.remote == run.remote
      && git.calls == old(git.calls) + run.calls
  {
    var check := git.RevParseTag(version, faults.revParse);
    if check == FileNotFound {
      return Raised(RevParse(version));
    }
    var tagExists := check == Returned;

    if tagExists {
      if overwrite {
        var deleted := git.DeleteTag(version, faults.deleteLocal);
        if deleted == FileNotFound {
          return Raised(DeleteLocal(version));
        } else if deleted == CalledProcessError {
          return Exit(DeleteFailed);
        }
        var pushed := git.PushDelete(version, faults.deleteRemote);
        if pushed == FileNotFound {
          return Raised(DeleteRemote(version));
        }
        // a CalledProcessError here means the remote had no such tag: ignored
      } else {
        return Exit(TagExists);
      }
    }

    var created := git.Tag(version, faults.create);
    match created
    case Returned => outcome := Created;
    case CalledProcessError => outcome := Exit(CreateFailed);
    case FileNotFound => outcome := Exit(ToolNotFound);
  }
}
