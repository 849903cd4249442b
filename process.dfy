/**
 How one `subprocess.run([...], check=True)` call of the git executable ends,
 and the fault the environment may inject into it.
 */
module Process {

  /** What the Python caller observes. */
  datatype Status =
    | Returned            // exit status 0
    | CalledProcessError  // non-zero exit status, raised because of check=True
    | FileNotFound        // no git executable on PATH: FileNotFoundError

  /** The oracle for one call: behave as the repository's state dictates, fail
      with a non-zero exit status anyway (not a repository, no network, ...),
      or find no git executable. */
  datatype Fault = NoFault | NonZeroExit | GitMissing

  /** The status of a call that succeeds on a healthy system exactly when
      `succeeds` holds. */
  function StatusOf(fault: Fault, succeeds: bool): (st: Status)
    ensures st == Returned <==> fault == NoFault && succeeds
    ensures st == FileNotFound <==> fault == GitMissing
  {
    match fault
    case GitMissing => FileNotFound
    case NonZeroExit => CalledProcessError
    case NoFault => if succeeds then Returned else CalledProcessError
  }
}
