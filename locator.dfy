/**
 * The repository locator and the host dispatch of `process_repository`:
 * the URL path loses its first character, is split on '/', and its last two
 * segments are taken as owner and name; the network location alone selects
 * the GitHub branch, the GitLab branch or "unsupported".
 */
module Locator {
  import opened Wrappers

  const Separator: char := '/'

  /** `parts[0] + sep + parts[1] + ... + sep + parts[|parts|-1]` */
  function Join(parts: seq<string>, sep: char): string
    requires |parts| >= 1
  {
    if |parts| == 1 then parts[0] else parts[0] + [sep] + Join(parts[1..], sep)
  }

  /**
   * Python's `s.split(sep)` for a one-character separator: never empty,
   * no part holds the separator, and joining the parts gives `s` back.
   */
  function Split(s: string, sep: char): (parts: seq<string>)
    ensures |parts| >= 1
    ensures forall i :: 0 <= i < |parts| ==> sep !in parts[i]
    ensures Join(parts, sep) == s
  {
    if s == [] then [""]
    else
      var rest := Split(s[1..], sep);
      if s[0] == sep then
        assert ([""] + rest)[1..] == rest;
        [""] + rest
      else
        var parts := [[s[0]] + rest[0]] + rest[1..];
        assert parts[1..] == rest[1..];
        assert s == [s[0]] + s[1..];
        parts
  }

  lemma {:induction false} JoinAppend(a: seq<string>, b: seq<string>, sep: char)
    requires |a| >= 1 && |b| >= 1
    ensures Join(a + b, sep) == Join(a, sep) + [sep] + Join(b, sep)
  {
    if |a| == 1 {
      assert (a + b)[1..] == b;
    } else {
      assert (a + b)[1..] == a[1..] + b;
      JoinAppend(a[1..], b, sep);
    }
  }

  lemma SplitWithoutSeparator(s: string, sep: char)
    requires sep !in s
    ensures Split(s, sep) == [s]
  {
  }

  lemma {:induction false} SplitAtFirstSeparator(x: string, y: string, sep: char)
    requires sep !in x
    ensures Split(x + [sep] + y, sep) == [x] + Split(y, sep)
  {
    if x == [] {
      assert (x + [sep] + y)[1..] == y;
    } else {
      assert (x + [sep] + y)[1..] == x[1..] + [sep] + y;
      SplitAtFirstSeparator(x[1..], y, sep);
      assert [x[0]] + x[1..] == x;
    }
  }

  /** `Split` is the only separator-free decomposition of a string. */
  lemma {:induction false} SplitJoin(parts: seq<string>, sep: char)
    requires |parts| >= 1
    requires forall i :: 0 <= i < |parts| ==> sep !in parts[i]
    ensures Split(Join(parts, sep), sep) == parts
  {
    if |parts| == 1 {
      SplitWithoutSeparator(parts[0], sep);
    } else {
      SplitJoin(parts[1..], sep);
      SplitAtFirstSeparator(parts[0], Join(parts[1..], sep), sep);
      assert [parts[0]] + parts[1..] == parts;
    }
  }

  /** `s.split(sep)` has a second segment exactly when `sep` occurs in `s`. */
  lemma SplitHasTwoSegments(s: string, sep: char)
    ensures |Split(s, sep)| >= 2 <==> sep in s
  {
    if sep !in s {
      SplitWithoutSeparator(s, sep);
    }
  }

  /** `path[1:]`: the path with its first character removed. */
  function Query(path: string): (q: string)
    ensures |path| > 0 ==> [path[0]] + q == path
    ensures |path| == 0 ==> q == ""
  {
    if |path| == 0 then "" else path[1..]
  }

  /**
   * `owner` and `name` are the last two `sep`-free segments of `q`: `q` ends
   * with `owner + "/" + name`, and what precedes `owner` is empty or ends
   * with the separator.
   */
  predicate EndsWithOwnerAndName(q: string, owner: string, name: string)
  {
    && Separator !in owner
    && Separator !in name
    && |owner| + 1 + |name| <= |q|
    && q[|q| - |name|..] == name
    && q[|q| - |name| - 1] == Separator
    && q[|q| - |name| - 1 - |owner|..|q| - |name| - 1] == owner
    && (|owner| + 1 + |name| == |q| || q[|q| - |name| - |owner| - 2] == Separator)
  }

  /** The repository as `process_repository` derives it (lines 21-25). */
  datatype RepoRef = RepoRef(query: string, owner: string, name: string)

  /** A string built as `pre + owner + "/" + name` ends with that pair. */
  lemma TailShape(q: string, pre: string, owner: string, name: string)
    requires q == pre + owner + [Separator] + name
    requires Separator !in owner && Separator !in name
    requires pre == [] || pre[|pre| - 1] == Separator
    ensures EndsWithOwnerAndName(q, owner, name)
  {
    assert q[|q| - |name|..] == name;
    assert q[|q| - |name| - 1 - |owner|..|q| - |name| - 1] == owner;
    if pre != [] {
      assert q[|q| - |name| - |owner| - 2] == pre[|pre| - 1];
    }
  }

  lemma LastTwoSegments(q: string)
    requires Separator in q
    ensures var parts := Split(q, Separator);
      |parts| >= 2 && EndsWithOwnerAndName(q, parts[|parts| - 2], parts[|parts| - 1])
  {
    var parts := Split(q, Separator);
    SplitHasTwoSegments(q, Separator);
    var k := |parts|;
    var owner, name := parts[k - 2], parts[k - 1];
    assert Join(parts[k - 2..], Separator) == owner + [Separator] + name by {
      assert parts[k - 2..][1..] == [name];
    }
    if k == 2 {
      assert parts[k - 2..] == parts;
      TailShape(q, [], owner, name);
    } else {
      var front := parts[..k - 2];
      assert front + parts[k - 2..] == parts;
      JoinAppend(front, parts[k - 2..], Separator);
      var pre := Join(front, Separator) + [Separator];
      TailShape(q, pre, owner, name);
    }
  }

  /**
   * Lines 21-25: `query = path[1:]`, `owner = query.split('/')[-2]`,
   * `name = query.split('/')[-1]`. `None` is the IndexError that `[-2]`
   * raises when the query has no second segment.
   */
  function Locate(path: string): (r: Option<RepoRef>)
    ensures r.None? <==> Separator !in Query(path)
    ensures r.Some? ==> r.value.query == Query(path)
    ensures r.Some? ==> EndsWithOwnerAndName(r.value.query, r.value.owner, r.value.name)
  {
    var query := Query(path);
    var parts := Split(query, Separator);
    SplitHasTwoSegments(query, Separator);
    if |parts| < 2 then None
    else
      LastTwoSegments(query);
      Some(RepoRef(query, parts[|parts| - 2], parts[|parts| - 1]))
  }

  /** Owner and name are determined by the query alone: there is one such pair. */
  lemma OwnerAndNameUnique(q: string, o1: string, n1: string, o2: string, n2: string)
    requires EndsWithOwnerAndName(q, o1, n1) && EndsWithOwnerAndName(q, o2, n2)
    ensures o1 == o2 && n1 == n2
  {
  }

  /** The code path that line 31 / line 95 / line 120 select. */
  datatype Host = GitHub | GitLab | Unsupported

  const GitHubDomain: string := "github.com"
  const GitLabDomains: seq<string> := ["salsa.debian.org", "gitlab.freedesktop.org"]

  /** Exact string comparison of the network location; no normalisation. */
  function SelectHost(domain: string): (h: Host)
    ensures h == GitHub <==> domain == "github.com"
    ensures h == GitLab <==> domain == "salsa.debian.org" || domain == "gitlab.freedesktop.org"
    ensures h == Unsupported <==> domain !in {"github.com", "salsa.debian.org", "gitlab.freedesktop.org"}
  {
    if domain == GitHubDomain then GitHub
    else if domain in GitLabDomains then GitLab
    else Unsupported
  }
}
