/**
 * `process_repository` (lines 12-132): locate the repository, dispatch on
 * the domain, gather the metrics, and assemble the output record. Its three
 * results are a record, `None` (a swallowed error or an unsupported domain)
 * and an exception that escapes the function.
 */
module Repository {
  import opened Wrappers
  import opened Locator
  import opened Metrics

  /** The exceptions that escape `process_repository`. */
  datatype Error =
    | IndexOutOfRange            // `query.split('/')[-2]` at line 24
    | UnboundLocal(variable: string)  // reading a local never assigned, lines 126-130

  /** The dictionary of lines 125-130, before conversion. */
  datatype Record = Record(
    name: string,
    contributors: Metric<int>,
    inactivePeriod: Metric<int>,
    mttu: Metric<real>,
    mttc: Metric<real>,
    branchProtection: Metric<bool>)

  datatype Outcome =
    | Produced(record: Record)
    | Skipped                    // `return None`
    | Raised(error: Error)

  /** A local variable of `process_repository` at line 125: assigned or not. */
  datatype Local<T> = Unbound | Bound(value: T)

  /**
   * Lines 125-132: the keys are filled in order name, NC, IP, MU, MC, BP;
   * the first variable that was never assigned raises.
   */
  function Assemble(
    name: string,
    nc: Local<Metric<int>>,
    ip: Local<Metric<int>>,
    mu: Local<Metric<real>>,
    mc: Local<Metric<real>>,
    bp: Local<Metric<bool>>): (o: Outcome)
    ensures !o.Skipped?
    ensures o.Produced? <==> nc.Bound? && ip.Bound? && mu.Bound? && mc.Bound? && bp.Bound?
    ensures o.Produced? ==> o.record == Record(name, nc.value, ip.value, mu.value, mc.value, bp.value)
    ensures o.Raised? ==> o.error == UnboundLocal(
      if nc.Unbound? then "NC"
      else if ip.Unbound? then "IP"
      else if mu.Unbound? then "MU"
      else if mc.Unbound? then "MC"
      else "BP")
  {
    match (nc, ip, mu, mc, bp)
    case (Unbound, _, _, _, _) => Raised(UnboundLocal("NC"))
    case (Bound(_), Unbound, _, _, _) => Raised(UnboundLocal("IP"))
    case (Bound(_), Bound(_), Unbound, _, _) => Raised(UnboundLocal("MU"))
    case (Bound(_), Bound(_), Bound(_), Unbound, _) => Raised(UnboundLocal("MC"))
    case (Bound(_), Bound(_), Bound(_), Bound(_), Unbound) => Raised(UnboundLocal("BP"))
    case (Bound(c), Bound(i), Bound(u), Bound(t), Bound(p)) => Produced(Record(name, c, i, u, t, p))
  }

  /** What the GitHub API answers once `get_repo(query)` has succeeded. */
  datatype GitHubRepo = GitHubRepo(
    releases: Fetch<seq<int>>,   // release creation times, in the order the API serves them
    commits: Fetch<seq<int>>,    // commit author dates, in the same order
    contributors: Fetch<nat>,    // `contributors.totalCount`
    branch: Fetch<GitHubBranch>) // `get_branch(default_branch)`

  /**
   * Lines 31-93. `repo` is `Threw` when `get_repo` or `get_contributors`
   * raises: the outer `except` returns `None`. Otherwise every metric is
   * assigned (a value or "n/a") with the same `now`, and a record results.
   */
  function GitHubOutcome(name: string, repo: Fetch<GitHubRepo>, now: int): (o: Outcome)
    ensures o.Skipped? <==> repo.Threw?
    ensures !o.Raised?
    ensures o.Produced? ==> && o.record.name == name
                            && o.record.contributors == ContributorCount(repo.value.contributors)
                            && o.record.inactivePeriod == InactivePeriod(repo.value.branch, now)
                            && o.record.mttu == MeanTimeBetween(repo.value.releases, now)
                            && o.record.mttc == MeanTimeBetween(repo.value.commits, now)
                            && o.record.branchProtection == BranchProtection(repo.value.branch)
  {
    match repo
    case Threw => Skipped
    case Returned(r) =>
      Assemble(name,
        Bound(ContributorCount(r.contributors)),
        Bound(InactivePeriod(r.branch, now)),
        Bound(MeanTimeBetween(r.releases, now)),
        Bound(MeanTimeBetween(r.commits, now)),
        Bound(BranchProtection(r.branch)))
  }

  /** One entry of `project.branches.list()`. */
  datatype GitLabBranch = GitLabBranch(
    isDefault: bool,
    protected: bool,
    authoredDate: Fetch<int>)  // `strptime` of `commit['authored_date']` (line 113)

  /** What python-gitlab answers once `projects.get(query)` has succeeded. */
  datatype GitLabProject = GitLabProject(
    branches: Fetch<seq<GitLabBranch>>,  // `project.branches.list()`
    contributors: Fetch<nat>)           // `len(repository_contributors(get_all=True))`

  /** Line 102: `next((b for b in branches if b.default), None)`. */
  function FirstDefault(branches: seq<GitLabBranch>): (r: Option<GitLabBranch>)
    ensures r.None? <==> forall i :: 0 <= i < |branches| ==> !branches[i].isDefault
    ensures r.Some? ==> exists k :: 0 <= k < |branches| && branches[k] == r.value && r.value.isDefault &&
                                    forall j :: 0 <= j < k ==> !branches[j].isDefault
  {
    if |branches| == 0 then None
    else if branches[0].isDefault then Some(branches[0])
    else
      var r := FirstDefault(branches[1..]);
      if r.Some? then
        var k :| 0 <= k < |branches| - 1 && branches[1..][k] == r.value && r.value.isDefault &&
                 forall j :: 0 <= j < k ==> !branches[1..][j].isDefault;
        assert branches[k + 1] == r.value;
        r
      else r
  }

  /**
   * Lines 95-119. Any exception inside the `try` -- a failed fetch, no
   * default branch (`None.protected` at line 109), a date that does not
   * parse -- returns `None`. When everything succeeds, MU and MC were never
   * assigned on this path, so line 128 raises.
   */
  function GitLabOutcome(name: string, project: Fetch<GitLabProject>, now: int): (o: Outcome)
    ensures !o.Produced?
    ensures o.Raised? <==>
      && project.Returned?
      && project.value.branches.Returned?
      && project.value.contributors.Returned?
      && FirstDefault(project.value.branches.value).Some?
      && FirstDefault(project.value.branches.value).value.authoredDate.Returned?
    ensures o.Raised? ==> o.error == UnboundLocal("MU")
  {
    match project
    case Threw => Skipped
    case Returned(p) =>
      match p.branches
      case Threw => Skipped
      case Returned(bs) =>
        var defaultBranch := FirstDefault(bs);
        match p.contributors
        case Threw => Skipped
        case Returned(nc) =>
          match defaultBranch
          case None => Skipped
          case Some(b) =>
            match b.authoredDate
            case Threw => Skipped
            case Returned(t) =>
              Assemble(name, Bound(Known(nc)), Bound(Known(DaysBetween(now, t))), Unbound, Unbound, Bound(Known(b.protected)))
  }

  /**
   * One input URL: its path and network location as `urlparse` gives them,
   * the clock reading of line 29, and what each host's API would answer.
   */
  datatype RepoInput = RepoInput(
    path: string,
    netloc: string,
    now: int,
    github: Fetch<GitHubRepo>,
    gitlab: Fetch<GitLabProject>)

  /** `process_repository(url)`. */
  function ProcessRepository(input: RepoInput): (o: Outcome)
    ensures o == Raised(IndexOutOfRange) <==> Separator !in Query(input.path)
    ensures o.Produced? ==> SelectHost(input.netloc) == GitHub && input.github.Returned?
    ensures o.Produced? ==> o.record.name == Locate(input.path).value.name
    ensures o.Produced? ==> EndsWithOwnerAndName(Query(input.path), Locate(input.path).value.owner, o.record.name)
    ensures o.Produced? ==>
      && o.record.contributors == ContributorCount(input.github.value.contributors)
      && o.record.inactivePeriod == InactivePeriod(input.github.value.branch, input.now)
      && o.record.mttu == MeanTimeBetween(input.github.value.releases, input.now)
      && o.record.mttc == MeanTimeBetween(input.github.value.commits, input.now)
      && o.record.branchProtection == BranchProtection(input.github.value.branch)
  {
    match Locate(input.path)
    case None => Raised(IndexOutOfRange)
    case Some(ref) =>
      match SelectHost(input.netloc)
      case GitHub => GitHubOutcome(ref.name, input.github, input.now)
      case GitLab => GitLabOutcome(ref.name, input.gitlab, input.now)
      case Unsupported => Skipped
  }

  /** Every other domain returns `None` without looking at any host's answers. */
  lemma UnsupportedDomainSkipped(input: RepoInput)
    requires Separator in Query(input.path)
    requires input.netloc !in {"github.com", "salsa.debian.org", "gitlab.freedesktop.org"}
    ensures ProcessRepository(input) == Skipped
  {
  }

  /** A GitLab-hosted repository never yields a record (lines 95-128). */
  lemma GitLabNeverProduces(input: RepoInput)
    requires input.netloc in {"salsa.debian.org", "gitlab.freedesktop.org"}
    ensures !ProcessRepository(input).Produced?
    ensures ProcessRepository(input).Raised? ==>
      ProcessRepository(input).error == IndexOutOfRange || ProcessRepository(input).error == UnboundLocal("MU")
  {
  }

  /** On github.com a well-formed path gives a record exactly when `get_repo` succeeds. */
  lemma GitHubProducesUnlessLookupFails(input: RepoInput)
    requires Separator in Query(input.path)
    requires input.netloc == "github.com"
    ensures ProcessRepository(input).Produced? <==> input.github.Returned?
    ensures ProcessRepository(input).Skipped? <==> input.github.Threw?
  {
  }

  /** A JSON value of the output dictionary. */
  datatype Number = Whole(n: int) | Fraction(q: real)
  datatype Value =
    | Text(s: string)                // stored as is (the name)
    | Str(shown: Metric<Number>)     // passed through `str()`
    | Raw(flag: Metric<bool>)        // stored unconverted (bool or 'n/a')

  const Keys: seq<string> :=
    ["name", "Number of Contributors", "Inactive Period", "MTTU", "MTTC", "Branch Protection"]

  function ShowWhole(m: Metric<int>): Metric<Number>
  {
    match m
    case Known(n) => Known(Whole(n))
    case NA => NA
  }

  function ShowFraction(m: Metric<real>): Metric<Number>
  {
    match m
    case Known(q) => Known(Fraction(q))
    case NA => NA
  }

  /** Lines 125-130: the dictionary in insertion order. */
  function Entries(r: Record): (e: seq<(string, Value)>)
    ensures |e| == |Keys|
    ensures forall i :: 0 <= i < |e| ==> e[i].0 == Keys[i]
    ensures e[0].1.Text? && e[5].1.Raw?
    ensures forall i :: 1 <= i < 5 ==> e[i].1.Str?
  {
    [ ("name", Text(r.name)),
      ("Number of Contributors", Str(ShowWhole(r.contributors))),
      ("Inactive Period", Str(ShowWhole(r.inactivePeriod))),
      ("MTTU", Str(ShowFraction(r.mttu))),
      ("MTTC", Str(ShowFraction(r.mttc))),
      ("Branch Protection", Raw(r.branchProtection)) ]
  }

  function ReadWhole(m: Metric<Number>): Option<Metric<int>>
  {
    match m
    case NA => Some(NA)
    case Known(Whole(n)) => Some(Known(n))
    case Known(Fraction(_)) => None
  }

  function ReadFraction(m: Metric<Number>): Option<Metric<real>>
  {
    match m
    case NA => Some(NA)
    case Known(Fraction(q)) => Some(Known(q))
    case Known(Whole(_)) => None
  }

  /** Reads a record back from an output dictionary laid out as `Entries` lays it out. */
  function FromEntries(e: seq<(string, Value)>): Option<Record>
  {
    if |e| != |Keys| || (exists i :: 0 <= i < |e| && e[i].0 != Keys[i]) then None
    else match (e[0].1, e[1].1, e[2].1, e[3].1, e[4].1, e[5].1)
      case (Text(name), Str(c), Str(i), Str(u), Str(t), Raw(p)) =>
        (match (ReadWhole(c), ReadWhole(i), ReadFraction(u), ReadFraction(t))
         case (Some(c'), Some(i'), Some(u'), Some(t')) => Some(Record(name, c', i', u', t', p))
         case _ => None)
      case _ => None
  }

  /** No metric is lost or altered on its way into the dictionary. */
  lemma EntriesRoundTrip(r: Record)
    ensures FromEntries(Entries(r)) == Some(r)
  {
  }

  /** The six keys are distinct, so the dictionary holds six entries. */
  lemma KeysDistinct()
    ensures forall i, j :: 0 <= i < j < |Keys| ==> Keys[i] != Keys[j]
  {
  }
}
