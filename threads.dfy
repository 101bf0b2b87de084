/**
 * The worker-count set-up of `InitOpenMP` (src/solver.cpp lines 13-27).  The
 * number of processors and whether the build has OpenMP are inputs; the
 * console message and the R warning are the advisory flag.
 */
module Threads {

  /** The thread count the solver then runs with, and whether the caller was told about a correction. */
  datatype ThreadSetting = ThreadSetting(threads: int, advisory: bool)

  /**
   * With OpenMP, a request for more threads than processors is clamped to the
   * processor count, with a message.  Without OpenMP the solver runs on one
   * thread, and a request for more than one draws a warning.
   */
  function InitOpenMP(requested: int, procs: int, openmp: bool): (s: ThreadSetting)
    ensures openmp ==> s.threads <= requested && s.threads <= procs
    ensures openmp ==> s.threads == requested || s.threads == procs
    ensures openmp ==> (s.advisory <==> procs < requested)
    ensures !openmp ==> s.threads == 1 && (s.advisory <==> requested > 1)
  {
    if openmp then
      if procs < requested then ThreadSetting(procs, true) else ThreadSetting(requested, false)
    else ThreadSetting(1, requested > 1)
  }

  /** The effective count is min(requested, procs): never more than asked for, and only lowered with an advisory. */
  lemma ClampIsMinimum(requested: int, procs: int, openmp: bool, t: int)
    requires openmp && t <= requested && t <= procs
    ensures t <= InitOpenMP(requested, procs, openmp).threads
    ensures InitOpenMP(requested, procs, openmp).threads < requested <==> InitOpenMP(requested, procs, openmp).advisory
  {
  }

  /** A positive request on a machine with at least one processor yields at least one thread, and never fails. */
  lemma ClampPositive(requested: int, procs: int, openmp: bool)
    requires requested >= 1 && procs >= 1
    ensures InitOpenMP(requested, procs, openmp).threads >= 1
  {
  }
}
