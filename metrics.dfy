/**
 * The five per-repository metrics of the GitHub branch (lines 40-89), each
 * a value or the "n/a" sentinel. Every fetch the source makes inside a
 * `try` is an input that either returned a value or threw; timestamps are
 * whole seconds, and `now` is the single clock reading of line 29.
 */
module Metrics {
  import Pagination

  /** A metric: a value, or the `'n/a'` sentinel. */
  datatype Metric<T> = Known(value: T) | NA

  /** The result of a call into the hosting API (or of the whole `try` body). */
  datatype Fetch<T> = Threw | Returned(value: T)

  const SecondsPerDay: nat := 86400

  /** `(now - since).days`: whole days, rounded down as `timedelta` does. */
  function DaysBetween(now: int, since: int): (d: int)
    ensures d * SecondsPerDay <= now - since < d * SecondsPerDay + SecondsPerDay
  {
    (now - since) / SecondsPerDay
  }

  /**
   * MTTU (lines 41-52) and MTTC (lines 55-66): `history` is the listing in
   * the order the API serves it, as creation timestamps.
   * "n/a" when the listing is empty or any step threw; otherwise the days
   * since the item read from the last page, divided by the item count.
   */
  function MeanTimeBetween(history: Fetch<seq<int>>, now: int): (m: Metric<real>)
    ensures m.NA? <==> history.Threw? || |history.value| == 0
    ensures history.Returned? && |history.value| > 0 ==>
      m.Known? &&
      m.value * (|history.value| as real) == DaysBetween(now, history.value[|history.value| - 1]) as real
  {
    match history
    case Threw => NA
    case Returned(items) =>
      if |items| == 0 then NA
      else
        var first := Pagination.LastOfLastPage(items);
        Known(DaysBetween(now, first) as real / |items| as real)
  }

  /** A newest-first listing: creation times never increase. */
  predicate NewestFirst(items: seq<int>)
  {
    forall i, j :: 0 <= i < j < |items| ==> items[j] <= items[i]
  }

  /**
   * When the API serves its listing newest first, the item read from the
   * last page is the earliest one, so MTTU/MTTC count the days since the
   * very first release or commit.
   */
  lemma LastOfLastPageIsEarliest(items: seq<int>)
    requires |items| > 0 && NewestFirst(items)
    ensures forall i :: 0 <= i < |items| ==> Pagination.LastOfLastPage(items) <= items[i]
  {
  }

  /** Lines 69-72: the contributor count plus one for the owner, or "n/a". */
  function ContributorCount(total: Fetch<nat>): (m: Metric<int>)
    ensures m.NA? <==> total.Threw?
    ensures m.Known? ==> m.value >= 1 && m.value - 1 == total.value
  {
    match total
    case Threw => NA
    case Returned(n) => Known(n + 1)
  }

  /**
   * What `gitRepo.get_branch(gitRepo.default_branch)` yields (lines 76-77):
   * its protection flag and the author date of its head commit, each read
   * later and each able to throw on its own. `latestCommit` is `Threw` also
   * when the subtraction of line 86 raises (an offset-aware commit date
   * minus the naive `now`).
   */
  datatype GitHubBranch = GitHubBranch(protected: Fetch<bool>, latestCommit: Fetch<int>)

  /** Lines 75-80: the flag, or "n/a" if the lookup or the flag threw. */
  function BranchProtection(branch: Fetch<GitHubBranch>): (m: Metric<bool>)
    ensures m.Known? <==> branch.Returned? && branch.value.protected.Returned?
    ensures m.Known? ==> m.value == branch.value.protected.value
  {
    match branch
    case Threw => NA
    case Returned(b) =>
      match b.protected
      case Threw => NA
      case Returned(flag) => Known(flag)
  }

  /**
   * Lines 83-89: days since the head commit of the default branch. When the
   * lookup of lines 76-77 threw, `branch` was never bound, so reading it
   * raises too and the metric is "n/a".
   */
  function InactivePeriod(branch: Fetch<GitHubBranch>, now: int): (m: Metric<int>)
    ensures m.Known? <==> branch.Returned? && branch.value.latestCommit.Returned?
    ensures m.Known? ==>
      m.value * SecondsPerDay <= now - branch.value.latestCommit.value < m.value * SecondsPerDay + SecondsPerDay
  {
    match branch
    case Threw => NA
    case Returned(b) =>
      match b.latestCommit
      case Threw => NA
      case Returned(t) => Known(DaysBetween(now, t))
  }

  /** A failed default-branch lookup blanks both branch metrics. */
  lemma FailedLookupBlanksBranchMetrics(now: int)
    ensures BranchProtection(Threw) == NA && InactivePeriod(Threw, now) == NA
  {
  }
}
