/**
 * The home page (src/app/page.tsx): the case-insensitive repository search
 * and the add-repository handler that hands the URL to the create mutation.
 */
module Dashboard {
  import opened Optional
  import opened Text
  import opened Types
  import opened Sequences
  import MockApi
  import RepositoryQueries

  /** The lower-cased name contains the lower-cased query. */
  predicate Matches(repo: Repository, query: string)
  {
    Contains(Lower(repo.name), Lower(query))
  }

  /** `filteredRepositories` */
  function Filter(repos: seq<Repository>, query: string): (r: seq<Repository>)
    ensures forall x :: x in r <==> x in repos && Matches(x, query)
    ensures IsSubsequence(r, repos)
    ensures forall x :: multiset(r)[x] == if Matches(x, query) then multiset(repos)[x] else 0
  {
    if repos == [] then []
    else
      var rest := Filter(repos[1..], query);
      assert repos == [repos[0]] + repos[1..];
      assert multiset(repos) == multiset{repos[0]} + multiset(repos[1..]);
      if Matches(repos[0], query) then
        assert multiset([repos[0]] + rest) == multiset{repos[0]} + multiset(rest);
        [repos[0]] + rest
      else rest
  }

  /** The empty query keeps every repository. */
  lemma {:induction false} EmptyQueryKeepsAll(repos: seq<Repository>)
    ensures Filter(repos, "") == repos
  {
    if repos != [] {
      ContainsEmpty(Lower(repos[0].name));
      EmptyQueryKeepsAll(repos[1..]);
    }
  }

  /** Only the lower-cased query matters, so changing its letter case changes nothing. */
  lemma {:induction false} CaseInsensitive(repos: seq<Repository>, q1: string, q2: string)
    requires Lower(q1) == Lower(q2)
    ensures Filter(repos, q1) == Filter(repos, q2)
  {
    if repos != [] {
      CaseInsensitive(repos[1..], q1, q2);
    }
  }

  /** A longer query that contains a shorter one keeps a subset of what the shorter one keeps. */
  lemma Narrowing(repos: seq<Repository>, q1: string, q2: string)
    requires Contains(q2, q1)
    ensures forall x :: x in Filter(repos, q2) ==> x in Filter(repos, q1)
  {
    ContainsLower(q2, q1);
    forall x | x in Filter(repos, q2)
      ensures x in Filter(repos, q1)
    {
      ContainsTransitive(Lower(x.name), Lower(q2), Lower(q1));
    }
  }

  /**
   * `handleAddRepository(url)` with the list cache independent of the store,
   * as when `getRepositories` hands out a copy: the URL goes unchanged to the
   * create mutation, whose success handler appends the result to the list
   * cache, so a cache that agreed with the store still agrees with it.
   */
  method HandleAddRepository(store: MockApi.Store, cache: RepositoryQueries.Cache,
                             url: string, id: string, createdAt: string)
    returns (created: Types.Repository, newCache: RepositoryQueries.Cache)
    modifies store
    ensures created.url == url
    ensures store.repos == old(store.repos) + [created]
    ensures newCache == RepositoryQueries.OnCreateSuccess(cache, created)
    ensures RepositoryQueries.CachedList(cache) == Some(old(store.repos)) ==>
      RepositoryQueries.CachedList(newCache) == Some(store.repos)
  {
    created := store.CreateRepository(url, id, createdAt);
    newCache := RepositoryQueries.OnCreateSuccess(cache, created);
    RepositoryQueries.CreateUpdatesListOnly(cache, created);
  }

  /**
   * `handleAddRepository(url)` as written, once the list query has loaded:
   * the list cache holds the store's own array, so the push in
   * `createRepository` already shows in it when the success handler appends
   * the new record a second time.
   */
  method HandleAddRepositoryShared(store: MockApi.Store, cache: RepositoryQueries.Cache,
                                   url: string, id: string, createdAt: string)
    returns (created: Types.Repository, newCache: RepositoryQueries.Cache)
    requires RepositoryQueries.CachedList(cache) == Some(store.repos)
    modifies store
    ensures created.url == url
    ensures store.repos == old(store.repos) + [created]
    ensures RepositoryQueries.CachedList(newCache) == Some(old(store.repos) + [created, created])
  {
    created := store.CreateRepository(url, id, createdAt);
    // the cached entry is the pushed-to array
    var seen := cache[RepositoryQueries.ListKey := RepositoryQueries.RepositoryList(store.repos)];
    newCache := RepositoryQueries.OnCreateSuccess(seen, created);
    RepositoryQueries.CreateUpdatesListOnly(seen, created);
    assert store.repos + [created] == old(store.repos) + [created, created];
  }

  /**
   * With the shared array, the dashboard lists a newly created repository
   * twice (until the next refetch), whatever the search query matched before.
   */
  lemma {:induction false} SharedListShowsNewRepositoryTwice(repos: seq<Repository>, created: Repository)
    requires created !in repos
    ensures multiset(Filter(RepositoryQueries.AppendCreated(Some(repos + [created]), created), ""))[created] == 2
  {
    var list := RepositoryQueries.AppendCreated(Some(repos + [created]), created);
    assert list == repos + [created, created];
    EmptyQueryKeepsAll(list);
    assert multiset(list) == multiset(repos) + multiset{created, created};
  }

  /** With a cache independent of the store, the new repository is listed once more than before. */
  lemma {:induction false} CopiedListShowsNewRepositoryOnce(repos: seq<Repository>, created: Repository)
    ensures multiset(Filter(RepositoryQueries.AppendCreated(Some(repos), created), ""))[created] ==
      multiset(repos)[created] + 1
  {
    var list := RepositoryQueries.AppendCreated(Some(repos), created);
    assert list == repos + [created];
    EmptyQueryKeepsAll(list);
    assert multiset(list) == multiset(repos) + multiset{created};
  }
}
