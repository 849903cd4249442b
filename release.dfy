/**
 The entry point of `create_release.py` once the command line is parsed:
 resolve the next tag from the latest one, then hand it to the tag manager.
 */
module Release {
  import opened PyText
  import opened Process
  import opened Versions
  import opened TagManager

  /** The latest tag as the version resolver sees it: the output of
      `git describe`, or `None` when that command exited with a non-zero status. */
  function Latest(describe: Fault, out: string): Option<string> {
    if describe == NoFault then Some(out) else None
  }

  /** `main` (lines 52 to 70) for release type `bump` and flag `overwrite`.
      `describe` and `out` stand for the result of `git describe --tags --abbrev=0`. */
  method CreateNextRelease(git: GitRepo, describe: Fault, out: string, bump: Bump, overwrite: bool,
                           faults: Faults)
    returns (outcome: Outcome)
    modifies git
    // a missing git executable at the first call is not handled
    ensures describe == GitMissing ==>
      && outcome == Raised(DescribeTags)
      && git.local == old(git.local) && git.remote == old(git.remote)
      && git.calls == old(git.calls) + [DescribeTags]
    // otherwise the computed tag goes through `create_release_tag`
    ensures describe != GitMissing ==>
      var run := ReleaseTagRun(old(git.local), old(git.remote), NextTag(Latest(describe, out), bump),
                               overwrite, faults);
      && outcome == run.outcome
      && git.local == run.local && git.remote == run.remote
      && git.calls == old(git.calls) + [DescribeTags] + run.calls
  {
    var st, stdout := git.Describe(describe, out);
    if st == FileNotFound {
      return Raised(DescribeTags);
    }
    var latest := if st == Returned then Some(stdout) else None;
    var tag := NextTag(latest, bump);
    outcome := CreateReleaseTag(git, tag, overwrite, faults);
  }

  /** Releasing on top of a tag this helper created earlier: the baseline is
      that tag's version, and a fresh next tag is created locally without
      touching the remote. */
  lemma ReleaseAfterOwnTag(v: Version, bump: Bump, local: set<string>, remote: set<string>,
                           overwrite: bool, f: Faults)
    requires Format(Apply(v, bump)) !in local
    requires f.revParse == NoFault && f.create == NoFault
    ensures var run := ReleaseTagRun(local, remote, NextTag(Latest(NoFault, Format(v) + "\n"), bump),
                                     overwrite, f);
      && run.outcome == Created
      && run.local == local + {Format(Apply(v, bump))}
      && run.remote == remote
  {
    assert IsSpace('\n');
    BaselineOfFormatted(v, "\n");
    var tag := NextTag(Latest(NoFault, Format(v) + "\n"), bump);
    assert tag == Format(Apply(v, bump));
    AbsentTagIsCreated(local, remote, tag, overwrite, f);
  }
}
