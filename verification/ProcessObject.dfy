/** What `AppObject` can say about the process behind it. One `GetExitCodeProcess` call answers with
    an exit code, or with `None` when it fails. */
module ProcessObject {
  import opened Wrappers
  import opened TaskTable

  const STILL_ACTIVE := 259

  type Query = Option<int>

  /** `getProcessExitCode`: the result and the exit code, which stays 0 unless the process exited. */
  function ExitCodeResult(started: bool, q: Query): (int, int) {
    if !started || q.None? then (NOT_STARTED, 0)
    else if q.value == STILL_ACTIVE then (STILL_RUNNING, 0)
    else (EXITED, q.value)
  }

  predicate IsRunning(started: bool, q: Query) {
    ExitCodeResult(started, q).0 == STILL_RUNNING
  }

  /** A process that has been seen to exit keeps its code. */
  predicate CanFollow(q: Query, q': Query) {
    q.Some? && q.value != STILL_ACTIVE && q'.Some? ==> q' == q
  }

  predicate HonestCode(code: int) {
    code == NOT_STARTED || code == EXITED
  }

  /** The client asks twice: `isRunning` first, then for the code. What it then reports is an honest
      code unless the first query failed on a process that is still alive. */
  lemma {:induction false} ReportedCode(started: bool, q: Query, q': Query)
    requires CanFollow(q, q') && !IsRunning(started, q)
    ensures HonestCode(ExitCodeResult(started, q').0) <==> !(started && q.None? && q' == Some(STILL_ACTIVE))
    ensures var (code, exitCode) := ExitCodeResult(started, q');
            && (code == EXITED <==> started && q'.Some? && q'.value != STILL_ACTIVE)
            && (code == EXITED ==> q' == Some(exitCode))
            && (code != EXITED ==> exitCode == 0)
  {
  }

  /** Only a started process whose query answers 259 is taken to be running; so one that has exited with that
      code is taken to be running for ever, and no other exit code is. */
  lemma {:induction false} ExitCode259IsNeverSeen(started: bool, q: Query)
    ensures IsRunning(started, q) <==> started && q == Some(STILL_ACTIVE)
  {
  }
}
