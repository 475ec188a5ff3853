/**
 * The simulated backend of src/lib/api.ts: an in-memory list of repositories
 * that `createRepository` appends to, `getRepository` searches and
 * `getRepositories` returns, plus the repository-name derivation and the
 * activity-level bucketing. Delays, random ids and clock readings are
 * parameters.
 */
module MockApi {
  import opened Optional
  import opened Text
  import opened Types

  /** The three seeded repositories. */
  const InitialRepositories: seq<Repository> := [
    Repository("1", "facebook/react", "https://github.com/facebook/react",
      "2013-05-24T16:07:38Z", 203000, 42000,
      "A declarative, efficient, and flexible JavaScript library for building user interfaces."),
    Repository("2", "vercel/next.js", "https://github.com/vercel/next.js",
      "2016-10-05T23:32:51Z", 112000, 24000, "The React Framework."),
    Repository("3", "tailwindlabs/tailwindcss", "https://github.com/tailwindlabs/tailwindcss",
      "2017-11-01T10:35:42Z", 75000, 4000, "A utility-first CSS framework for rapid UI development.")
  ]

  const NewRepositoryDescription := "Newly simulated repository"

  /** The last two '/'-separated segments joined by '/', or the URL itself when that is empty. */
  function RepoName(url: string): string
  {
    var parts := Split(url, '/');
    var tail := if |parts| >= 2 then parts[|parts| - 2..] else parts;
    var joined := Join(tail, '/');
    if joined == "" then url else joined
  }

  predicate IsSuffix(suffix: string, s: string)
  {
    |suffix| <= |s| && s[|s| - |suffix|..] == suffix
  }

  /** The derived name is always a suffix of the URL. */
  lemma {:induction false} RepoNameIsSuffix(url: string)
    ensures IsSuffix(RepoName(url), url)
  {
    var parts := Split(url, '/');
    JoinSplit(url, '/');
    if |parts| > 2 {
      var n := |parts|;
      assert parts == parts[..n - 2] + parts[n - 2..];
      JoinAppend(parts[..n - 2], parts[n - 2..], '/');
    }
  }

  /** A URL without '/' is its own name. */
  lemma RepoNameWithoutSlash(url: string)
    requires '/' !in url
    ensures RepoName(url) == url
  {
    SplitWithoutSeparator(url, '/');
  }

  /** The name of `…/owner/repo` is `owner/repo`; for example "https://github.com/org/repo" gives "org/repo". */
  lemma RepoNameOfTwoSegments(prefix: string, owner: string, repo: string)
    requires '/' !in owner && '/' !in repo
    ensures RepoName(prefix + "/" + owner + "/" + repo) == owner + "/" + repo
  {
    SplitOfTail(prefix, owner, repo);
    var parts := Split(prefix + "/" + owner + "/" + repo, '/');
    var tail := parts[|parts| - 2..];
    assert tail == [owner, repo] && tail[1..] == [repo];
    assert Join(tail, '/') == owner + "/" + repo;
  }

  /** The split of `prefix/owner/repo` ends with the pieces owner and repo. */
  lemma {:induction false} SplitOfTail(prefix: string, owner: string, repo: string)
    requires '/' !in owner && '/' !in repo
    ensures var parts := Split(prefix + "/" + owner + "/" + repo, '/');
      |parts| >= 3 && parts[|parts| - 2..] == [owner, repo]
    decreases |prefix|
  {
    var s := prefix + "/" + owner + "/" + repo;
    if prefix == [] {
      assert s == "/" + (owner + "/" + repo);
      SplitTwo(owner, repo);
      assert s[1..] == owner + "/" + repo;
    } else {
      SplitOfTail(prefix[1..], owner, repo);
      assert s[1..] == prefix[1..] + "/" + owner + "/" + repo;
    }
  }

  /** `owner/repo` splits into its two pieces. */
  lemma {:induction false} SplitTwo(owner: string, repo: string)
    requires '/' !in owner && '/' !in repo
    ensures Split(owner + "/" + repo, '/') == [owner, repo]
    decreases |owner|
  {
    var s := owner + "/" + repo;
    if owner == [] {
      assert s == "/" + repo && s[1..] == repo;
      SplitWithoutSeparator(repo, '/');
    } else {
      SplitTwo(owner[1..], repo);
      assert s[0] == owner[0] && s[1..] == owner[1..] + "/" + repo;
      assert [owner[0]] + owner[1..] == owner;
    }
  }

  /** The first record with that id. */
  function Find(repos: seq<Repository>, id: string): (r: Option<Repository>)
    ensures r.None? <==> forall i :: 0 <= i < |repos| ==> repos[i].id != id
    ensures r.Some? ==>
      (exists k :: 0 <= k < |repos| && repos[k] == r.value && r.value.id == id
         && forall j :: 0 <= j < k ==> repos[j].id != id)
  {
    if repos == [] then None
    else if repos[0].id == id then Some(repos[0])
    else
      var r := Find(repos[1..], id);
      if r.Some? then
        ghost var k :| 0 <= k < |repos| - 1 && repos[1..][k] == r.value && r.value.id == id
          && forall j :: 0 <= j < k ==> repos[1..][j].id != id;
        assert repos[k + 1] == r.value;
        r
      else r
  }

  /** Appending a record changes a search only when nothing earlier had that id. */
  lemma {:induction false} FindAfterAppend(repos: seq<Repository>, added: Repository, id: string)
    ensures Find(repos + [added], id) ==
      if Find(repos, id).Some? then Find(repos, id)
      else if added.id == id then Some(added)
      else None
  {
    if repos != [] {
      assert (repos + [added])[1..] == repos[1..] + [added];
      FindAfterAppend(repos[1..], added, id);
    }
  }

  /** The activity level of a day's commit count. */
  function Level(count: int): (level: int)
    ensures 0 <= level <= 4
    ensures level == 0 <==> count == 0
    ensures 1 <= count <= 4 ==> level == 1
    ensures 5 <= count <= 9 ==> level == 2
    ensures 10 <= count <= 14 ==> level == 3
    ensures count >= 15 ==> level == 4
  {
    if count == 0 then 0 else if count < 5 then 1 else if count < 10 then 2 else if count < 15 then 3 else 4
  }

  /** More commits never give a lower level. */
  lemma LevelMonotonic(a: nat, b: nat)
    requires a <= b
    ensures Level(a) <= Level(b)
  {
  }

  /** The module-level `MOCK_REPOS` array and the three async operations over it. */
  class Store {
    var repos: seq<Repository>

    constructor ()
      ensures repos == InitialRepositories
    {
      repos := InitialRepositories;
    }

    /** `getRepositories`: the current list, including everything created so far. */
    method GetRepositories() returns (r: seq<Repository>)
      ensures r == repos
    {
      r := repos;
    }

    /**
     * `createRepository(url)`: builds the record (id and timestamp are given,
     * standing for `Math.random` and the clock) and pushes it onto the list.
     */
    method CreateRepository(url: string, id: string, createdAt: string) returns (created: Repository)
      modifies this
      ensures created.url == url && created.name == RepoName(url)
      ensures created.id == id && created.createdAt == createdAt
      ensures created.starCount == 0 && created.forkCount == 0
      ensures created.description == NewRepositoryDescription
      ensures repos == old(repos) + [created]
    {
      created := Repository(id, RepoName(url), url, createdAt, 0, 0, NewRepositoryDescription);
      repos := repos + [created];
    }

    /** `getRepository(id)`: the first record with that id, or undefined. */
    method GetRepository(id: string) returns (r: Option<Repository>)
      ensures r == Find(repos, id)
    {
      r := Find(repos, id);
    }
  }
}
