/**
 * The query keys, `enabled` predicates and the create-mutation cache updater
 * of src/hooks/useRepositories.ts, over a query cache that maps keys to
 * cached values.
 */
module RepositoryQueries {
  import opened Optional
  import opened Types

  type QueryKey = seq<string>

  /** `['repositories']`, read by the list query and written by the create updater. */
  const ListKey: QueryKey := ["repositories"]

  function RepositoryKey(id: string): QueryKey
  {
    ["repository", id]
  }

  function StatsKey(id: string): QueryKey
  {
    ["repository-stats", id]
  }

  /** `enabled: !!id` of both the single-repository and the stats query. */
  predicate Enabled(id: string)
  {
    id != ""
  }

  /** The three queries use pairwise different keys, and each id gets its own key. */
  lemma KeysDistinct(id: string, other: string)
    ensures ListKey != RepositoryKey(id) && ListKey != StatsKey(id)
    ensures RepositoryKey(id) != StatsKey(other)
    ensures RepositoryKey(id) == RepositoryKey(other) <==> id == other
    ensures StatsKey(id) == StatsKey(other) <==> id == other
  {
    assert RepositoryKey(id)[0] != StatsKey(other)[0];
    assert RepositoryKey(id)[1] == id && StatsKey(id)[1] == id;
  }

  /** What a cache entry holds. */
  datatype Cached =
    | RepositoryList(repos: seq<Repository>)
    | RepositoryDetail(repo: Option<Repository>)
    | RepositoryStats

  type Cache = map<QueryKey, Cached>

  /** What the list query sees: the cached list, if any. */
  function CachedList(cache: Cache): Option<seq<Repository>>
  {
    if ListKey in cache && cache[ListKey].RepositoryList? then Some(cache[ListKey].repos) else None
  }

  /** The list-cache updater: the old list, or none, followed by the new record. */
  function AppendCreated(previous: Option<seq<Repository>>, newRepo: Repository): (r: seq<Repository>)
    ensures previous.None? ==> r == [newRepo]
    ensures previous.Some? ==> |r| == |previous.value| + 1 && r[..|previous.value|] == previous.value
    ensures r[|r| - 1] == newRepo
  {
    if previous.Some? then previous.value + [newRepo] else [newRepo]
  }

  /** `onSuccess`: `setQueryData(['repositories'], updater)`. */
  function OnCreateSuccess(cache: Cache, newRepo: Repository): Cache
  {
    cache[ListKey := RepositoryList(AppendCreated(CachedList(cache), newRepo))]
  }

  /**
   * After a create succeeds the list query reads the old list with the new
   * repository at the end, and every other cached query is untouched.
   */
  lemma CreateUpdatesListOnly(cache: Cache, newRepo: Repository)
    ensures CachedList(OnCreateSuccess(cache, newRepo)) == Some(CachedList(cache).GetOr([]) + [newRepo])
    ensures forall k :: k in cache && k != ListKey ==>
      k in OnCreateSuccess(cache, newRepo) && OnCreateSuccess(cache, newRepo)[k] == cache[k]
    ensures OnCreateSuccess(cache, newRepo).Keys == cache.Keys + {ListKey}
  {
    var previous := CachedList(cache);
    assert AppendCreated(previous, newRepo) == previous.GetOr([]) + [newRepo];
  }
}
