# AutoMetric: a Dafny model of its repository-metrics core

AutoMetric reads a list of repository URLs and, for each one, queries the
hosting API for the number of contributors, the inactive period, MTTU (mean
time to update), MTTC (mean time to commit) and the branch-protection flag.
Only the github.com branch of the code builds a record; the GitLab branch
returns `None` or raises. The records are returned as a list.
This project models the decision logic of `AutoMetric.py` with the API calls
replaced by inputs, and proves what that logic guarantees.

Modules, one per component of the script:

- `Wrappers`: `Option` and `Result`.
- `Locator`: `path[1:]`, Python's `str.split('/')`, the owner/name
  extraction of lines 21-25, and the domain dispatch of lines 31, 95 and 120.
- `Pagination`: the page number `(n - 1) // 30` and the page read from it.
- `Metrics`: the `Known(v) | NA` metric type (`NA` is `'n/a'`). Every API call
  or `try` body is a `Fetch<T>` that either returned a value or threw. Also the
  five GitHub metrics.
- `Repository`: `process_repository`. Its outcome is a record, `None` or an
  escaping exception. The record reads the five locals in the order of lines
  126-130 (NC, IP, MU, MC, BP), and the first one never assigned raises. Also
  the GitLab branch and the output dictionary.
- `Aggregate`: `process_repositories`, a loop that appends records in order. It
  is written as a method over an arbitrary per-URL step, `CollectRecords`, and
  then instantiated with `ProcessRepository`.

Timestamps are whole seconds. `now` is the one clock reading per repository
(line 29), and every metric of that repository is computed against it.
`timedelta.days` is division by 86400 rounded down.

## Exceptions that end the run

Besides the exceptions of lines 21-32 that the model assumes never happen
(see "## Left out"), two exceptions escape `process_repository`, and `process_repositories`
(lines 142-147) does not catch them, so either one ends the whole run
(`Aggregate.CollectRecords`):

- A path with fewer than two segments raises `IndexError` at line 24,
  outside any `try`, whatever the domain.
- The GitLab branch (lines 95-119) never assigns `MU` or `MC`. When all of
  its fetches succeed, `str(MU)` at line 128 raises; otherwise its `try`
  returns `None`. It therefore never yields a record
  (`Repository.GitLabOutcome`).

## Model

| member | source | states |
|---|---|---|
| `Locator.Split` | AutoMetric.py:24-25 | `str.split('/')`: at least one segment, no segment contains the separator, and joining the segments restores the string |
| `Locator.SplitJoin` | AutoMetric.py:24-25 | splitting the join of separator-free segments returns exactly those segments, so the specification of `Split` determines it |
| `Locator.SplitHasTwoSegments` | AutoMetric.py:24 | the split has a second-to-last segment exactly when the query contains '/' |
| `Locator.Query` | AutoMetric.py:21 | `path[1:]`: the path minus its first character, or empty for an empty path |
| `Locator.LastTwoSegments` | AutoMetric.py:24-25 | when '/' occurs, the last two split segments are a trailing `owner/name` pair preceded by the start or by '/' |
| `Locator.Locate` | AutoMetric.py:21-25 | fails (the IndexError of `[-2]`) exactly when the query has no '/'; otherwise owner and name are the last two '/'-free segments and the query ends with `owner/name` |
| `Locator.OwnerAndNameUnique` | AutoMetric.py:24-25 | at most one owner/name pair fits a query, so the extraction is determined by the query |
| `Locator.SelectHost` | AutoMetric.py:31-122 | GitHub exactly for `github.com`; GitLab exactly for `salsa.debian.org` or `gitlab.freedesktop.org`; unsupported for every other domain |
| `Pagination.LastPageNumber` | AutoMetric.py:46 | page `(n-1)//30` starts before item n and ends at or after it |
| `Pagination.Page` | AutoMetric.py:47 | a page is empty exactly when it starts past the end; otherwise it holds exactly min(30, n-30p) items, items `30p ..` in order |
| `Pagination.LastPageHoldsLastItem` | AutoMetric.py:46-48 | for n > 0 the page read is non-empty, so `[-1]` cannot raise, and its last element is item n-1 of the listing |
| `Pagination.LaterPagesEmpty` | AutoMetric.py:46-47 | every page after `(n-1)//30` is empty, so the page read is the last one |
| `Pagination.LastOfLastPage` | AutoMetric.py:60-62 | `get_page((n-1)//30)[-1]` is the last item of the whole listing |
| `Metrics.DaysBetween` | AutoMetric.py:49 | whole days rounded down: `d*86400 <= now - t < (d+1)*86400` |
| `Metrics.MeanTimeBetween` | AutoMetric.py:41-66 | MTTU/MTTC is "n/a" exactly when the fetch threw or the listing is empty; otherwise value times count equals the days since the last listed (oldest) item |
| `Metrics.LastOfLastPageIsEarliest` | AutoMetric.py:48 | for a newest-first listing, the item read is the earliest release or commit |
| `Metrics.ContributorCount` | AutoMetric.py:69-72 | "n/a" exactly when `totalCount` threw; otherwise `totalCount + 1`, so at least 1 |
| `Metrics.BranchProtection` | AutoMetric.py:75-80 | the flag when the branch lookup and the flag both succeed; "n/a" otherwise |
| `Metrics.InactivePeriod` | AutoMetric.py:83-89 | known exactly when the branch lookup succeeded (else `branch` is unbound) and the head commit date was read; then it is the floored day count since that date |
| `Metrics.FailedLookupBlanksBranchMetrics` | AutoMetric.py:75-89 | a failed default-branch lookup makes both Branch Protection and Inactive Period "n/a" |
| `Repository.Assemble` | AutoMetric.py:124-132 | a record exactly when all five locals are bound, holding them unchanged; otherwise it raises for the first unbound one in the order NC, IP, MU, MC, BP |
| `Repository.GitHubOutcome` | AutoMetric.py:31-93 | `None` exactly when `get_repo` or `get_contributors` threw; otherwise a record whose fields are the five metrics for the same `now`; never raises |
| `Repository.FirstDefault` | AutoMetric.py:102 | `None` exactly when no branch is flagged default; otherwise the first branch flagged default |
| `Repository.GitLabOutcome` | AutoMetric.py:95-119 | never a record; raises (unbound `MU`) exactly when the project, branches, contributors, default branch and date all succeed; `None` otherwise |
| `Repository.ProcessRepository` | AutoMetric.py:12-132 | raises IndexError exactly when the query has no '/'; a record only on github.com with a successful lookup, named by the last path segment, whose five metrics are the GitHub metrics of that repository for its one `now` |
| `Repository.UnsupportedDomainSkipped` | AutoMetric.py:120-122 | every other domain returns `None` whatever the hosts would answer |
| `Repository.GitLabNeverProduces` | AutoMetric.py:95-128 | a GitLab-hosted repository never yields a record; if it raises, the error is the IndexError or the unbound `MU` |
| `Repository.GitHubProducesUnlessLookupFails` | AutoMetric.py:34-93 | on github.com with a well-formed path: a record exactly when `get_repo` succeeds, `None` exactly when it throws |
| `Repository.Entries` | AutoMetric.py:125-130 | the dictionary has exactly the six keys in insertion order; the four numeric fields pass through `str()`; Branch Protection is stored unconverted |
| `Repository.EntriesRoundTrip` | AutoMetric.py:125-130 | the record can be read back from its dictionary unchanged |
| `Repository.KeysDistinct` | AutoMetric.py:125-130 | the six keys are distinct |
| `Aggregate.Outcomes` | AutoMetric.py:143-144 | one outcome per URL, in input order |
| `Aggregate.RecordsAppend` | AutoMetric.py:145-146 | filtering distributes over concatenation, so records keep their input order |
| `Aggregate.RecordsLength` | AutoMetric.py:142-147 | the number of records equals the number of URLs that produced one |
| `Aggregate.RecordsMembership` | AutoMetric.py:145-146 | a record is reported exactly when some URL produced it |
| `Aggregate.CollectRecords` | AutoMetric.py:142-147 | without an escaping exception: the filtered records in order; otherwise the first escaping exception, with every earlier URL handled without raising |
| `Aggregate.ProcessRepositories` | AutoMetric.py:134-147 | the same, with `process_repository` as the per-URL step |

## Left out

- The PyGithub and python-gitlab calls (`get_repo`, `get_contributors`, `get_releases`, `get_commits`, `get_page`, `get_branch`, `projects.get`, `branches.list`, `repository_contributors`): these are foreign calls. Their results are inputs (`Fetch` values).
- Repository.GitHubOutcome: a throw from `get_contributors()` is folded into the `get_repo` failure, because both sit in the outer `try` and both return `None`.
- Metrics.MeanTimeBetween: any raise inside the MTTU/MTTC `try` is one `Threw` input. This includes a naive/aware datetime mismatch in the subtraction. `totalCount` is taken to be the length of the listing.
- Metrics.InactivePeriod: a raise in the subtraction of line 86 (the same naive/aware datetime mismatch) is folded into the `latestCommit` input being `Threw`.
- `datetime.now`, `timedelta`, microseconds and the `strptime` parse of line 113: timestamps are whole seconds, and a failed parse is a `Threw` input.
- Float division at lines 50 and 64: MTTU/MTTC are exact reals, not IEEE doubles.
- Repository.Entries: `str()` is marked, not rendered. The model keeps the value that is converted and does not produce Python's decimal or float text.
- Repository.ProcessRepository: `urllib.parse.urlparse` (lines 21 and 23) and `parse.quote` (line 27) are not modelled; path and network location are given strings, and `parse_url` is never used. Both calls run outside any `try`, and the model assumes they never raise; `urlparse` raises `ValueError` for a network location with an unbalanced bracket, and `quote` raises `UnicodeEncodeError` for a lone surrogate, and either would escape and end the run.
- Repository.ProcessRepository: assumes that `Github(githubToken)` at line 32, which runs outside the `try` of line 34, never raises (whether it can depends on the PyGithub version and the token); if it did, that exception would also escape and end the run. The token itself is not modelled. The `gitlab.Gitlab(...)` construction of line 97 is inside the `try` and is part of the project fetch.
- `print` logging, `main`, the input-file fallback, `json.dumps`, the output file and `argparse`: these are I/O and command-line plumbing.
- Python truthiness of `if repo_data:`: a record always has six keys, so it is truthy. The model appends every record and skips every `None`.
