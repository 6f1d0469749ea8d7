/**
 * The user store: who talked to the bot and when, their favourite jobs, their
 * search history and the keywords they search for most, kept in one JSON
 * document (user_data.json) beside a list of jobs (jobs.json).
 *
 * The two files are the fields of a UserManager. Every operation loads the
 * document, changes its copy and saves that copy back. add_favorite and
 * record_search load first and call add_user next. add_user saves its own
 * change, and then the stale copy is saved over it. The model keeps that order.
 * Timestamps are the `now` parameter, one per operation.
 */
module UserManagement {
  import opened Wrappers
  import opened Text
  import opened Sorting
  import opened Dicts

  // ------------------------------------------------------------------ records

  /** One entry of a user's preferred_keywords. */
  datatype Preferred = Preferred(keyword: string, count: int, lastSearched: string)

  /** An entry of "users"; an absent preferred_keywords list reads as []. */
  datatype User = User(firstInteraction: string, lastInteraction: string, searchCount: int,
                       favoriteCount: int, preferredKeywords: seq<Preferred>, userInfo: map<string, string>)

  /** An entry of a user's "favorites" list. */
  datatype Favorite = Favorite(jobId: string, addedAt: string)

  /** An entry of a user's "search_history" list. */
  datatype SearchRecord = SearchRecord(keyword: string, searchedAt: string)

  /**
   * user_data.json. Histories are kept in insertion order, which decides how
   * get_popular_keywords breaks ties.
   */
  datatype UserData = UserData(users: map<string, User>, favorites: map<string, seq<Favorite>>,
                               searchHistory: Dict<string, seq<SearchRecord>>)

  /** An entry of the "jobs" list of jobs.json: its "id" and its other fields. */
  datatype StoredJob = StoredJob(id: string, fields: map<string, string>)

  /** A copy of a job with "favorited_at" added. */
  datatype FavoriteJob = FavoriteJob(job: StoredJob, favoritedAt: string)

  /** What get_user_stats reports. */
  datatype Stats = Stats(firstInteraction: string, lastInteraction: string, searchCount: nat,
                         favoriteCount: nat, preferredKeywords: seq<Preferred>)

  /** What init_files writes when there is no user file yet. */
  const EmptyData := UserData(map[], map[], [])

  /** How many searches a user's history keeps. */
  const HistoryLimit := 50

  /** How many preferred keywords a user keeps. */
  const PreferredLimit := 10

  /** The user's favourites; none when the user has no "favorites" key. */
  function FavoritesOf(d: UserData, userId: string): seq<Favorite> {
    if userId in d.favorites then d.favorites[userId] else []
  }

  /** The user's search history; none when the user has no "search_history" key. */
  function HistoryOf(d: UserData, userId: string): seq<SearchRecord> {
    Get(d.searchHistory, userId).GetOr([])
  }

  // ----------------------------------------------------------------- add_user

  /** The data once add_user has run. */
  function WithUser(d: UserData, userId: string, info: map<string, string>, now: string): (r: UserData)
    ensures r.users.Keys == d.users.Keys + {userId}
    ensures userId !in d.users ==>
      var u := r.users[userId];
      u.firstInteraction == now && u.lastInteraction == now && u.searchCount == 0
      && u.favoriteCount == 0 && u.preferredKeywords == [] && u.userInfo == info
    ensures userId in d.users ==> r.users[userId] == d.users[userId].(lastInteraction := now)
    ensures forall v :: v in d.users && v != userId ==> r.users[v] == d.users[v]
    ensures r.favorites == d.favorites && r.searchHistory == d.searchHistory
  {
    var user := if userId in d.users then d.users[userId].(lastInteraction := now)
                else User(now, now, 0, 0, [], info);
    d.(users := d.users[userId := user])
  }

  /** Sets the favourite count of a user who is in `users`; anyone else is left out. */
  function WithFavoriteCount(users: map<string, User>, userId: string, n: int): (r: map<string, User>)
    ensures r.Keys == users.Keys
    ensures userId in users ==> r[userId] == users[userId].(favoriteCount := n)
    ensures forall v :: v in users && v != userId ==> r[v] == users[v]
  {
    if userId in users then users[userId := users[userId].(favoriteCount := n)] else users
  }

  // ------------------------------------------------------------- add_favorite

  /**
   * The data add_favorite saves. It is built from the copy loaded before
   * add_user ran, so add_user's change is lost. The duplicate test never
   * holds, so the favourite is always appended.
   */
  function FavoriteAdded(d: UserData, userId: string, jobId: string, now: string): (r: UserData)
    ensures r.favorites.Keys == d.favorites.Keys + {userId}
    ensures r.favorites[userId] == FavoritesOf(d, userId) + [Favorite(jobId, now)]
    ensures forall v :: v in d.favorites && v != userId ==> r.favorites[v] == d.favorites[v]
    ensures r.users.Keys == d.users.Keys
    ensures userId in d.users ==> r.users[userId] == d.users[userId].(favoriteCount := |FavoritesOf(d, userId)| + 1)
    ensures forall v :: v in d.users && v != userId ==> r.users[v] == d.users[v]
    ensures r.searchHistory == d.searchHistory
  {
    var favs := FavoritesOf(d, userId) + [Favorite(jobId, now)];
    d.(favorites := d.favorites[userId := favs], users := WithFavoriteCount(d.users, userId, |favs|))
  }

  lemma FavoriteAddedIs(d: UserData, userId: string, jobId: string, now: string, data: UserData)
    requires data.favorites == d.favorites[userId := FavoritesOf(d, userId) + [Favorite(jobId, now)]]
    requires data.users == WithFavoriteCount(d.users, userId, |FavoritesOf(d, userId)| + 1)
    requires data.searchHistory == d.searchHistory
    ensures data == FavoriteAdded(d, userId, jobId, now)
  {
  }

  // ---------------------------------------------------------- remove_favorite

  /** The favourites whose job id is not the given one, in order. */
  function WithoutJob(favs: seq<Favorite>, jobId: string): (r: seq<Favorite>)
    ensures |r| <= |favs|
    ensures forall f :: f in r <==> f in favs && f.jobId != jobId
    decreases |favs|
  {
    if favs == [] then []
    else (if favs[0].jobId != jobId then [favs[0]] else []) + WithoutJob(favs[1..], jobId)
  }

  /** The filter works piece by piece, so the entries it keeps stay in their order. */
  lemma {:induction false} WithoutJobConcat(a: seq<Favorite>, b: seq<Favorite>, jobId: string)
    ensures WithoutJob(a + b, jobId) == WithoutJob(a, jobId) + WithoutJob(b, jobId)
    decreases |a|
  {
    if a != [] {
      var head := if a[0].jobId != jobId then [a[0]] else [];
      assert (a + b)[0] == a[0] && (a + b)[1..] == a[1..] + b;
      WithoutJobConcat(a[1..], b, jobId);
      assert WithoutJob(a, jobId) == head + WithoutJob(a[1..], jobId);
      assert WithoutJob(a + b, jobId) == head + (WithoutJob(a[1..], jobId) + WithoutJob(b, jobId));
    } else {
      assert a + b == b;
    }
  }

  /** A list without the job is left as it is. */
  lemma {:induction false} WithoutAbsentJob(favs: seq<Favorite>, jobId: string)
    requires forall i :: 0 <= i < |favs| ==> favs[i].jobId != jobId
    ensures WithoutJob(favs, jobId) == favs
    decreases |favs|
  {
    if favs != [] {
      WithoutAbsentJob(favs[1..], jobId);
    }
  }

  /** The data remove_favorite saves, for a user who has a "favorites" key. */
  function FavoriteRemoved(d: UserData, userId: string, jobId: string): (r: UserData)
    requires userId in d.favorites
    ensures r.favorites.Keys == d.favorites.Keys
    ensures r.favorites[userId] == WithoutJob(d.favorites[userId], jobId)
    ensures forall v :: v in d.favorites && v != userId ==> r.favorites[v] == d.favorites[v]
    ensures r.users.Keys == d.users.Keys
    ensures userId in d.users ==> r.users[userId].favoriteCount == |r.favorites[userId]|
    ensures userId in d.users ==> r.users[userId] == d.users[userId].(favoriteCount := r.users[userId].favoriteCount)
    ensures forall v :: v in d.users && v != userId ==> r.users[v] == d.users[v]
    ensures r.searchHistory == d.searchHistory
  {
    var favs := WithoutJob(d.favorites[userId], jobId);
    d.(favorites := d.favorites[userId := favs], users := WithFavoriteCount(d.users, userId, |favs|))
  }

  /** Removing a job twice is removing it once. */
  lemma RemoveFavoriteIdempotent(d: UserData, userId: string, jobId: string)
    requires userId in d.favorites
    ensures FavoriteRemoved(FavoriteRemoved(d, userId, jobId), userId, jobId) == FavoriteRemoved(d, userId, jobId)
  {
    var once := FavoriteRemoved(d, userId, jobId);
    var favs := once.favorites[userId];
    forall i | 0 <= i < |favs| ensures favs[i].jobId != jobId {
      assert favs[i] in favs;
    }
    WithoutAbsentJob(favs, jobId);
  }

  /** Removing right after adding takes away that job, and only that job. */
  lemma RemoveAfterAdd(d: UserData, userId: string, jobId: string, now: string)
    ensures var r := FavoriteRemoved(FavoriteAdded(d, userId, jobId, now), userId, jobId);
      r.favorites[userId] == WithoutJob(FavoritesOf(d, userId), jobId)
  {
    WithoutJobConcat(FavoritesOf(d, userId), [Favorite(jobId, now)], jobId);
    assert WithoutJob([Favorite(jobId, now)], jobId) == [];
  }

  // ------------------------------------------------------- get_user_favorites

  /** The first job with the given id, as the inner loop with `break` finds it. */
  function FindJob(jobs: seq<StoredJob>, id: string): (r: Option<StoredJob>)
    ensures r.None? <==> forall k :: 0 <= k < |jobs| ==> jobs[k].id != id
    ensures r.Some? ==> exists k :: 0 <= k < |jobs| && jobs[k] == r.value && r.value.id == id
                          && forall j :: 0 <= j < k ==> jobs[j].id != id
    decreases |jobs|
  {
    if jobs == [] then None
    else if jobs[0].id == id then Some(jobs[0])
    else
      var r := FindJob(jobs[1..], id);
      assert r.Some? ==> exists k :: 0 <= k < |jobs[1..]| && jobs[1..][k] == r.value
                          && forall j :: 0 <= j < k ==> jobs[1..][j].id != id;
      assert forall k :: 1 <= k < |jobs| ==> jobs[k] == jobs[1..][k - 1];
      r
  }

  /** The inner loop of get_user_favorites: the first job with the id, stopping at it. */
  method SearchJob(jobs: seq<StoredJob>, id: string) returns (r: Option<StoredJob>)
    ensures r == FindJob(jobs, id)
  {
    r := None;
    for k := 0 to |jobs|
      invariant r.None?
      invariant forall j :: 0 <= j < k ==> jobs[j].id != id
    {
      if jobs[k].id == id {
        r := Some(jobs[k]);
        assert FindJob(jobs, id) == r;
        return;
      }
    }
  }

  /** The favourite's job with its favorited_at stamp, when the job is in the list. */
  function FavoriteJobOf(fav: Favorite, jobs: seq<StoredJob>): seq<FavoriteJob> {
    match FindJob(jobs, fav.jobId)
    case None => []
    case Some(job) => [FavoriteJob(job, fav.addedAt)]
  }

  /**
   * What get_user_favorites returns for these favourites: the jobs found, in
   * favourite order, so at most one job per favourite.
   */
  function FavoriteJobsOf(favs: seq<Favorite>, jobs: seq<StoredJob>): (r: seq<FavoriteJob>)
    ensures |r| <= |favs|
    decreases |favs|
  {
    if favs == [] then []
    else FavoriteJobsOf(favs[..|favs| - 1], jobs) + FavoriteJobOf(favs[|favs| - 1], jobs)
  }

  /** One more favourite adds its job, if it has one. */
  lemma FavoriteJobsStep(favs: seq<Favorite>, i: nat, jobs: seq<StoredJob>)
    requires i < |favs|
    ensures FavoriteJobsOf(favs[..i + 1], jobs) == FavoriteJobsOf(favs[..i], jobs) + FavoriteJobOf(favs[i], jobs)
  {
    assert favs[..i + 1][..i] == favs[..i];
  }

  /** Every job reported is a job of the list, and some favourite names it with that stamp. */
  lemma {:induction false} FavoriteJobsSound(favs: seq<Favorite>, jobs: seq<StoredJob>)
    ensures forall i :: 0 <= i < |FavoriteJobsOf(favs, jobs)| ==> NamedBy(FavoriteJobsOf(favs, jobs)[i], favs, jobs)
    decreases |favs|
  {
    if favs != [] {
      var init := favs[..|favs| - 1];
      var last := favs[|favs| - 1];
      FavoriteJobsSound(init, jobs);
      var before := FavoriteJobsOf(init, jobs);
      var extra := FavoriteJobOf(last, jobs);
      var r := FavoriteJobsOf(favs, jobs);
      assert r == before + extra;
      forall i | 0 <= i < |r| ensures NamedBy(r[i], favs, jobs) {
        if i < |before| {
          assert r[i] == before[i];
          assert NamedBy(before[i], init, jobs);
          var f :| f in init && f.jobId == r[i].job.id && f.addedAt == r[i].favoritedAt;
          InitMember(favs, f);
        } else {
          assert r[i] == extra[0];
          var k :| 0 <= k < |jobs| && jobs[k] == FindJob(jobs, last.jobId).value;
          assert last in favs;
        }
      }
    }
  }

  /** The job is one of the list, and some favourite names it with that stamp. */
  predicate NamedBy(fj: FavoriteJob, favs: seq<Favorite>, jobs: seq<StoredJob>) {
    fj.job in jobs && exists f :: f in favs && f.jobId == fj.job.id && f.addedAt == fj.favoritedAt
  }

  lemma InitMember<T>(s: seq<T>, x: T)
    requires s != [] && x in s[..|s| - 1]
    ensures x in s
  {
  }

  /** Job i is the one favourite i names, with its stamp, for every i. */
  predicate OnePerFavorite(r: seq<FavoriteJob>, favs: seq<Favorite>) {
    |r| == |favs| && forall i :: 0 <= i < |r| ==> r[i].job.id == favs[i].jobId && r[i].favoritedAt == favs[i].addedAt
  }

  lemma OnePerFavoriteSnoc(r: seq<FavoriteJob>, favs: seq<Favorite>, x: FavoriteJob, f: Favorite)
    requires OnePerFavorite(r, favs) && x.job.id == f.jobId && x.favoritedAt == f.addedAt
    ensures OnePerFavorite(r + [x], favs + [f])
  {
  }

  lemma InitLast<T>(s: seq<T>)
    requires s != []
    ensures s == s[..|s| - 1] + [s[|s| - 1]]
  {
  }

  /** When every favourite's job is in the list, there is one job for each favourite, in the same order. */
  lemma {:induction false} FavoriteJobsComplete(favs: seq<Favorite>, jobs: seq<StoredJob>)
    requires forall i :: 0 <= i < |favs| ==> FindJob(jobs, favs[i].jobId).Some?
    ensures OnePerFavorite(FavoriteJobsOf(favs, jobs), favs)
    decreases |favs|
  {
    if favs != [] {
      var init := favs[..|favs| - 1];
      var last := favs[|favs| - 1];
      assert forall i :: 0 <= i < |init| ==> init[i] == favs[i];
      FavoriteJobsComplete(init, jobs);
      assert FindJob(jobs, last.jobId).Some?;
      var x := FavoriteJob(FindJob(jobs, last.jobId).value, last.addedAt);
      assert FavoriteJobsOf(favs, jobs) == FavoriteJobsOf(init, jobs) + [x];
      OnePerFavoriteSnoc(FavoriteJobsOf(init, jobs), init, x, last);
      InitLast(favs);
    }
  }

  /**
   * At most one job per favourite. Every job reported is a job of the list, and
   * some favourite names it with that stamp. When every favourite's job is in the
   * list, there is exactly one job for each favourite, in the same order.
   */
  lemma FavoriteJobsMeaning(favs: seq<Favorite>, jobs: seq<StoredJob>)
    ensures var r := FavoriteJobsOf(favs, jobs);
      |r| <= |favs|
      && (forall i :: 0 <= i < |r| ==>
            r[i].job in jobs && exists f :: f in favs && f.jobId == r[i].job.id && f.addedAt == r[i].favoritedAt)
      && ((forall i :: 0 <= i < |favs| ==> FindJob(jobs, favs[i].jobId).Some?) ==>
            |r| == |favs| && forall i :: 0 <= i < |r| ==> r[i].job.id == favs[i].jobId && r[i].favoritedAt == favs[i].addedAt)
  {
    FavoriteJobsSound(favs, jobs);
    var r := FavoriteJobsOf(favs, jobs);
    assert forall i :: 0 <= i < |r| ==> NamedBy(r[i], favs, jobs);
    if forall i :: 0 <= i < |favs| ==> FindJob(jobs, favs[i].jobId).Some? {
      FavoriteJobsComplete(favs, jobs);
      assert OnePerFavorite(r, favs);
    }
  }

  // ------------------------------------------------------------ record_search

  /** The newest HistoryLimit records, or all of them when there are fewer. */
  function Recent<T>(history: seq<T>): (r: seq<T>)
    ensures |r| == if |history| <= HistoryLimit then |history| else HistoryLimit
    ensures r == history[|history| - |r|..]
  {
    if |history| <= HistoryLimit then history else history[|history| - HistoryLimit..]
  }

  /** The sort key of a preferred keyword. */
  function PreferredCount(p: Preferred): real {
    p.count as real
  }

  /** The keyword of entry k matches the searched keyword, ignoring case. */
  predicate SameKeyword(preferred: seq<Preferred>, k: int, keyword: string)
    requires 0 <= k < |preferred|
  {
    Lower(preferred[k].keyword) == Lower(keyword)
  }

  /** The first entry that matches the keyword, ignoring case, if any. */
  function FirstMatch(preferred: seq<Preferred>, keyword: string): (r: Option<nat>)
    ensures r.None? <==> forall k :: 0 <= k < |preferred| ==> !SameKeyword(preferred, k, keyword)
    ensures r.Some? ==> r.value < |preferred| && SameKeyword(preferred, r.value, keyword)
                          && forall j :: 0 <= j < r.value ==> !SameKeyword(preferred, j, keyword)
    decreases |preferred|
  {
    if preferred == [] then None
    else if SameKeyword(preferred, 0, keyword) then Some(0)
    else
      var r := FirstMatch(preferred[1..], keyword);
      assert forall k :: 1 <= k < |preferred| ==>
        (SameKeyword(preferred, k, keyword) <==> SameKeyword(preferred[1..], k - 1, keyword));
      if r.None? then None
      else
        assert SameKeyword(preferred[1..], r.value, keyword);
        assert SameKeyword(preferred, r.value + 1, keyword);
        assert forall j :: 0 <= j < r.value + 1 ==> !SameKeyword(preferred, j, keyword);
        Some(r.value + 1)
  }

  /** The list once the search is counted: the matching entry goes up by one, or a new entry is appended. */
  function Counted(preferred: seq<Preferred>, keyword: string, now: string): (r: seq<Preferred>)
    ensures FirstMatch(preferred, keyword).Some? ==>
      var k := FirstMatch(preferred, keyword).value;
      |r| == |preferred| && r[k] == preferred[k].(count := preferred[k].count + 1, lastSearched := now)
      && forall j :: 0 <= j < |r| && j != k ==> r[j] == preferred[j]
    ensures FirstMatch(preferred, keyword).None? ==> r == preferred + [Preferred(keyword, 1, now)]
  {
    match FirstMatch(preferred, keyword)
    case Some(k) => preferred[k := preferred[k].(count := preferred[k].count + 1, lastSearched := now)]
    case None => preferred + [Preferred(keyword, 1, now)]
  }

  /** The preferred keywords _update_preferred_keywords leaves for this search. */
  function PreferredAfter(preferred: seq<Preferred>, keyword: string, now: string): (r: seq<Preferred>)
    ensures |r| <= PreferredLimit
    ensures |r| <= |Counted(preferred, keyword, now)| && r == SortDesc(Counted(preferred, keyword, now), PreferredCount)[..|r|]
  {
    Take(SortDesc(Counted(preferred, keyword, now), PreferredCount), PreferredLimit)
  }

  /**
   * The kept entries are the first ten of the stable sort by count, falling:
   * in count order, with entries of equal count in their previous order.
   */
  lemma PreferredAfterSorted(preferred: seq<Preferred>, keyword: string, now: string)
    ensures SortedDesc(PreferredAfter(preferred, keyword, now), PreferredCount)
    ensures var counted := Counted(preferred, keyword, now);
      var sorted := SortDesc(counted, PreferredCount);
      multiset(sorted) == multiset(counted)
      && (forall v :: WithKey(sorted, PreferredCount, v) == WithKey(counted, PreferredCount, v))
      && (|counted| <= PreferredLimit ==> PreferredAfter(preferred, keyword, now) == sorted)
  {
    var counted := Counted(preferred, keyword, now);
    var sorted := SortDesc(counted, PreferredCount);
    SortDescSorted(counted, PreferredCount);
    SortDescPermutation(counted, PreferredCount);
    forall v ensures WithKey(sorted, PreferredCount, v) == WithKey(counted, PreferredCount, v) {
      SortDescStable(counted, PreferredCount, v);
    }
    var r := PreferredAfter(preferred, keyword, now);
    forall i, j | 0 <= i < j < |r| ensures PreferredCount(r[i]) >= PreferredCount(r[j]) {
      assert r[i] == sorted[i] && r[j] == sorted[j];
    }
  }

  /** The histories once the record is appended to the user's and the newest 50 kept. */
  function HistoryAfter(history: Dict<string, seq<SearchRecord>>, userId: string, rec: SearchRecord)
    : (r: Dict<string, seq<SearchRecord>>)
    ensures Keys(r) == if userId in Keys(history) then Keys(history) else Keys(history) + [userId]
    ensures Get(r, userId) == Some(Recent(Get(history, userId).GetOr([]) + [rec]))
  {
    Put(history, userId, Recent(Get(history, userId).GetOr([]) + [rec]))
  }

  /** The users once the search is counted for a user of the loaded copy. */
  function UsersAfterSearch(users: map<string, User>, userId: string, keyword: string, now: string)
    : (r: map<string, User>)
    ensures r.Keys == users.Keys
    ensures userId in users ==> r[userId].searchCount == users[userId].searchCount + 1
    ensures forall v :: v in users && v != userId ==> r[v] == users[v]
  {
    if userId in users then
      var u := users[userId];
      users[userId := u.(searchCount := u.searchCount + 1,
        preferredKeywords := PreferredAfter(u.preferredKeywords, keyword, now))]
    else users
  }

  /**
   * A search adds no user and removes none. The searching user, when the loaded
   * copy knows them, has one search more and the updated preferred keywords, and
   * everything else stays. Every other user is left alone, and a user the
   * loaded copy does not know stays unknown.
   */
  lemma SearchCounted(users: map<string, User>, userId: string, keyword: string, now: string)
    ensures var r := UsersAfterSearch(users, userId, keyword, now);
      r.Keys == users.Keys
      && (userId in users ==>
            r[userId].searchCount == users[userId].searchCount + 1
            && r[userId].preferredKeywords == PreferredAfter(users[userId].preferredKeywords, keyword, now)
            && r[userId].(searchCount := users[userId].searchCount,
                          preferredKeywords := users[userId].preferredKeywords) == users[userId])
      && (userId !in users ==> r == users)
      && forall v :: v in users && v != userId ==> r[v] == users[v]
  {
  }

  /** The data record_search saves, built from the copy loaded before add_user ran. */
  function SearchRecorded(d: UserData, userId: string, keyword: string, now: string): (r: UserData)
    ensures r.searchHistory == HistoryAfter(d.searchHistory, userId, SearchRecord(keyword, now))
    ensures r.users == UsersAfterSearch(d.users, userId, keyword, now)
    ensures r.favorites == d.favorites
  {
    UserData(UsersAfterSearch(d.users, userId, keyword, now), d.favorites,
             HistoryAfter(d.searchHistory, userId, SearchRecord(keyword, now)))
  }

  /**
   * After a search the user's history holds at most 50 records. The new record is
   * last, and the rest are the newest of the old ones, in order.
   */
  lemma RecentAppend<T>(old_: seq<T>, x: T)
    ensures var h := Recent(old_ + [x]);
      |h| <= HistoryLimit && h != [] && h[|h| - 1] == x
      && h[..|h| - 1] == old_[|old_| + 1 - |h|..]
      && (|old_| < HistoryLimit ==> h == old_ + [x])
  {
    var all := old_ + [x];
    var h := Recent(all);
    assert h[|h| - 1] == all[|all| - 1];
    assert h[..|h| - 1] == all[|all| - |h|..|all| - 1];
    assert all[|all| - |h|..|all| - 1] == old_[|old_| + 1 - |h|..];
  }

  /** Nobody else's history changes. */
  lemma RecordSearchOthers(history: Dict<string, seq<SearchRecord>>, userId: string, rec: SearchRecord, v: string)
    requires v != userId
    ensures Get(HistoryAfter(history, userId, rec), v) == Get(history, v)
  {
    PutOther(history, userId, Recent(Get(history, userId).GetOr([]) + [rec]), v);
  }

  // ----------------------------------------------------------- get_user_stats

  /** get_user_stats: None for a user not in "users"; the counts are the lengths of the lists. */
  function StatsOf(d: UserData, userId: string): (r: Option<Stats>)
    ensures r.None? <==> userId !in d.users
    ensures r.Some? ==>
      var u := d.users[userId];
      r.value.searchCount == |HistoryOf(d, userId)| && r.value.favoriteCount == |FavoritesOf(d, userId)|
      && r.value.firstInteraction == u.firstInteraction && r.value.lastInteraction == u.lastInteraction
      && r.value.preferredKeywords == u.preferredKeywords
  {
    if userId !in d.users then None
    else
      var u := d.users[userId];
      Some(Stats(u.firstInteraction, u.lastInteraction, |HistoryOf(d, userId)|, |FavoritesOf(d, userId)|,
                 u.preferredKeywords))
  }

  /** After a search the stats count exactly as many searches as the history keeps. */
  lemma StatsAfterSearch(d: UserData, userId: string, keyword: string, now: string)
    requires userId in d.users
    ensures var s := StatsOf(SearchRecorded(d, userId, keyword, now), userId);
      s.Some? && s.value.searchCount == if |HistoryOf(d, userId)| < HistoryLimit then |HistoryOf(d, userId)| + 1
                                                                                  else HistoryLimit
  {
  }

  // ------------------------------------------------------ get_popular_keywords

  /** The lowered keywords of some search records, in order. */
  function LoweredKeywords(searches: seq<SearchRecord>): (r: seq<string>)
    ensures |r| == |searches| && forall i :: 0 <= i < |r| ==> r[i] == Lower(searches[i].keyword)
  {
    seq(|searches|, i requires 0 <= i < |searches| => Lower(searches[i].keyword))
  }

  lemma LoweredKeywordsSnoc(searches: seq<SearchRecord>, j: int)
    requires 0 <= j < |searches|
    ensures LoweredKeywords(searches[..j + 1]) == LoweredKeywords(searches[..j]) + [Lower(searches[j].keyword)]
  {
    assert searches[..j + 1][j] == searches[j];
  }

  /** Every lowered keyword of every user's history, users in history order. */
  function AllKeywords(history: Dict<string, seq<SearchRecord>>): (r: seq<string>)
    ensures forall w :: w in r <==> exists k :: 0 <= k < |history| && w in LoweredKeywords(history[k].1)
    decreases |history|
  {
    if history == [] then []
    else
      var pre := history[..|history| - 1];
      var r := AllKeywords(pre) + LoweredKeywords(history[|history| - 1].1);
      forall w ensures w in r <==> exists k :: 0 <= k < |history| && w in LoweredKeywords(history[k].1) {
        if w in r && w !in LoweredKeywords(history[|history| - 1].1) {
          var k :| 0 <= k < |pre| && w in LoweredKeywords(pre[k].1);
          assert history[k] == pre[k];
        }
        if exists k :: 0 <= k < |history| && w in LoweredKeywords(history[k].1) {
          var k :| 0 <= k < |history| && w in LoweredKeywords(history[k].1);
          if k < |pre| {
            assert history[k] == pre[k];
          }
        }
      }
      r
  }

  lemma AllKeywordsStep(history: Dict<string, seq<SearchRecord>>, i: nat)
    requires i < |history|
    ensures AllKeywords(history[..i + 1]) == AllKeywords(history[..i]) + LoweredKeywords(history[i].1)
  {
    assert history[..i + 1][..i] == history[..i];
  }

  /** Counting one more search of a user bumps its lowered keyword. */
  lemma TallyKeywordStep(before: seq<string>, searches: seq<SearchRecord>, j: nat)
    requires j < |searches|
    ensures Tally(before + LoweredKeywords(searches[..j + 1]))
         == Bump(Tally(before + LoweredKeywords(searches[..j])), Lower(searches[j].keyword))
  {
    var seen := before + LoweredKeywords(searches[..j]);
    LoweredKeywordsSnoc(searches, j);
    assert before + LoweredKeywords(searches[..j + 1]) == seen + [Lower(searches[j].keyword)];
    TallySnoc(seen, Lower(searches[j].keyword));
  }

  /** get_popular_keywords(limit): the tally of lowered keywords, by falling count, cut at limit. */
  function PopularOf(history: Dict<string, seq<SearchRecord>>, limit: int): (r: seq<(string, nat)>)
    ensures limit >= 0 ==> |r| <= limit
    ensures |r| <= |Tally(AllKeywords(history))|
  {
    MostCommon(AllKeywords(history), limit)
  }

  /**
   * At most limit pairs, by falling count. No keyword appears twice, and each
   * carries the number of searches for it, ignoring case. A keyword left out was
   * searched no more often than any kept one. With a limit that leaves nothing
   * out, every keyword searched is there.
   */
  lemma PopularKeywordsMeaning(history: Dict<string, seq<SearchRecord>>, limit: int)
    ensures var r := PopularOf(history, limit);
      var words := multiset(AllKeywords(history));
      (limit >= 0 ==> |r| <= limit)
      && SortedDesc(r, Count)
      && NoDup(Keys(r))
      && (forall i :: 0 <= i < |r| ==> r[i].1 == words[r[i].0] > 0)
      && (forall w :: w in words && w !in Keys(r) ==> forall i :: 0 <= i < |r| ==> r[i].1 >= words[w])
      && (limit >= |Tally(AllKeywords(history))| ==> forall w :: w in words ==> w in Keys(r))
  {
    var all := AllKeywords(history);
    MostCommonSorted(all, limit);
    MostCommonCounts(all, limit);
    forall w | w in multiset(all) && w !in Keys(MostCommon(all, limit))
      ensures forall i :: 0 <= i < |MostCommon(all, limit)| ==> MostCommon(all, limit)[i].1 >= multiset(all)[w]
    {
      MostCommonLeftOut(all, limit, w);
    }
    if limit >= |Tally(all)| {
      forall w | w in multiset(all) ensures w in Keys(MostCommon(all, limit)) {
        MostCommonComplete(all, limit, w);
      }
    }
  }

  // ------------------------------------------------------------------ the store

  class UserManager {
    /** The contents of user_data.json. */
    var store: UserData
    /** The "jobs" list of jobs.json. */
    var jobs: seq<StoredJob>

    /** init_files: a missing file starts out empty; a present one is kept. */
    constructor(savedUsers: Option<UserData>, savedJobs: Option<seq<StoredJob>>)
      ensures store == savedUsers.GetOr(EmptyData)
      ensures jobs == savedJobs.GetOr([])
    {
      store := savedUsers.GetOr(EmptyData);
      jobs := savedJobs.GetOr([]);
    }

    /** load_user_data: the saved document. */
    method LoadUserData() returns (data: UserData)
      ensures data == store
    {
      data := store;
    }

    /** save_user_data: replaces the saved document. */
    method SaveUserData(data: UserData) returns (ok: bool)
      modifies this
      ensures store == data && jobs == old(jobs)
      ensures ok
    {
      store := data;
      ok := true;
    }

    /** add_user: registers a new user, or stamps the last interaction of a known one. */
    method AddUser(userId: string, userInfo: map<string, string>, now: string) returns (ok: bool)
      modifies this
      ensures store == WithUser(old(store), userId, userInfo, now)
      ensures jobs == old(jobs) && ok
    {
      var data := LoadUserData();
      if userId !in data.users {
        data := data.(users := data.users[userId := User(now, now, 0, 0, [], userInfo)]);
      } else {
        data := data.(users := data.users[userId := data.users[userId].(lastInteraction := now)]);
      }
      ok := SaveUserData(data);
    }

    /** add_favorite: appends the job to the user's favourites and reports success. */
    method AddFavorite(userId: string, jobId: string, now: string) returns (ok: bool)
      modifies this
      ensures store == FavoriteAdded(old(store), userId, jobId, now)
      ensures jobs == old(jobs) && ok
    {
      var data := LoadUserData();
      var _ := AddUser(userId, map[], now);
      if userId !in data.favorites {
        data := data.(favorites := data.favorites[userId := []]);
      }
      // The duplicate test compares the job id with whole favourite records, so it never finds one.
      var favs := data.favorites[userId] + [Favorite(jobId, now)];
      assert favs == FavoritesOf(old(store), userId) + [Favorite(jobId, now)];
      data := data.(favorites := data.favorites[userId := favs]);
      if userId in data.users {
        data := data.(users := data.users[userId := data.users[userId].(favoriteCount := |favs|)]);
      }
      assert data.favorites == old(store).favorites[userId := favs];
      assert data.users == WithFavoriteCount(old(store).users, userId, |favs|);
      FavoriteAddedIs(old(store), userId, jobId, now, data);
      var _ := SaveUserData(data);
      ok := true;
    }

    /** remove_favorite: drops every favourite with that job id; false when the user has no favourites key. */
    method RemoveFavorite(userId: string, jobId: string) returns (ok: bool)
      modifies this
      ensures ok <==> userId in old(store).favorites
      ensures ok ==> store == FavoriteRemoved(old(store), userId, jobId)
      ensures !ok ==> store == old(store)
      ensures jobs == old(jobs)
    {
      var data := LoadUserData();
      if userId in data.favorites {
        var favs := WithoutJob(data.favorites[userId], jobId);
        data := data.(favorites := data.favorites[userId := favs]);
        if userId in data.users {
          data := data.(users := data.users[userId := data.users[userId].(favoriteCount := |favs|)]);
        }
        var _ := SaveUserData(data);
        ok := true;
      } else {
        ok := false;
      }
    }

    /** get_user_favorites: for each favourite, the first job with its id, stamped. */
    method GetUserFavorites(userId: string) returns (favoriteJobs: seq<FavoriteJob>)
      ensures favoriteJobs == if userId in store.favorites then FavoriteJobsOf(store.favorites[userId], jobs) else []
    {
      var data := LoadUserData();
      if userId !in data.favorites {
        return [];
      }
      favoriteJobs := [];
      var userFavorites := data.favorites[userId];
      for i := 0 to |userFavorites|
        invariant favoriteJobs == FavoriteJobsOf(userFavorites[..i], jobs)
      {
        FavoriteJobsStep(userFavorites, i, jobs);
        var fav := userFavorites[i];
        var found := SearchJob(jobs, fav.jobId);
        if found.Some? {
          favoriteJobs := favoriteJobs + [FavoriteJob(found.value, fav.addedAt)];
        }
      }
      assert userFavorites[..|userFavorites|] == userFavorites;
    }

    /** record_search: appends to the user's history, keeps the newest 50 and counts the search. */
    method RecordSearch(userId: string, keyword: string, now: string) returns (ok: bool)
      modifies this
      ensures store == SearchRecorded(old(store), userId, keyword, now)
      ensures jobs == old(jobs) && ok
    {
      var data := LoadUserData();
      var _ := AddUser(userId, map[], now);
      var history := AppendSearch(data.searchHistory, userId, SearchRecord(keyword, now));
      var users := CountSearch(data.users, userId, keyword, now);
      ok := SaveUserData(UserData(users, data.favorites, history));
    }

    /** get_user_stats. */
    method GetUserStats(userId: string) returns (stats: Option<Stats>)
      ensures stats == StatsOf(store, userId)
    {
      var data := LoadUserData();
      if userId !in data.users {
        return None;
      }
      var user := data.users[userId];
      var favoriteCount := |FavoritesOf(data, userId)|;
      var searchHistoryCount := |HistoryOf(data, userId)|;
      stats := Some(Stats(user.firstInteraction, user.lastInteraction, searchHistoryCount, favoriteCount,
                          user.preferredKeywords));
    }

    /** get_popular_keywords: counts lowered keywords over every history, then the top `limit`. */
    method GetPopularKeywords(limit: int) returns (popular: seq<(string, nat)>)
      ensures popular == PopularOf(store.searchHistory, limit)
    {
      var data := LoadUserData();
      var history := data.searchHistory;
      var counts: Dict<string, nat> := [];
      for i := 0 to |history|
        invariant counts == Tally(AllKeywords(history[..i]))
      {
        AllKeywordsStep(history, i);
        var searches := history[i].1;
        ghost var before := AllKeywords(history[..i]);
        assert before + LoweredKeywords(searches[..0]) == before;
        for j := 0 to |searches|
          invariant counts == Tally(before + LoweredKeywords(searches[..j]))
        {
          var keyword := Lower(searches[j].keyword);
          TallyKeywordStep(before, searches, j);
          counts := Bump(counts, keyword);
        }
        assert searches[..|searches|] == searches;
      }
      assert history[..|history|] == history;
      popular := Take(SortDesc(counts, Count), limit);
    }
  }

  /** Adds the user's history if missing, appends the record and keeps the newest 50. */
  method AppendSearch(searchHistory: Dict<string, seq<SearchRecord>>, userId: string, rec: SearchRecord)
    returns (history: Dict<string, seq<SearchRecord>>)
    ensures history == HistoryAfter(searchHistory, userId, rec)
  {
    history := searchHistory;
    if userId !in Keys(history) {
      history := Put(history, userId, []);
    }
    var records := Get(history, userId).value + [rec];
    records := Recent(records);
    PutPut(searchHistory, userId, [], records);
    history := Put(history, userId, records);
  }

  /** For a user of the loaded copy: one search more, and the preferred keywords updated. */
  method CountSearch(users: map<string, User>, userId: string, keyword: string, now: string)
    returns (updated: map<string, User>)
    ensures updated == UsersAfterSearch(users, userId, keyword, now)
  {
    updated := users;
    if userId in updated {
      var user := updated[userId];
      var preferred := UpdatePreferredKeywords(user.preferredKeywords, keyword, now);
      updated := updated[userId := user.(searchCount := user.searchCount + 1, preferredKeywords := preferred)];
    }
  }

  /** _update_preferred_keywords: counts the search against the first matching entry or appends one, then keeps the top ten. */
  method UpdatePreferredKeywords(preferred: seq<Preferred>, keyword: string, now: string) returns (updated: seq<Preferred>)
    ensures updated == PreferredAfter(preferred, keyword, now)
  {
    updated := preferred;
    var found := false;
    for k := 0 to |preferred|
      invariant updated == preferred && !found
      invariant forall j :: 0 <= j < k ==> !SameKeyword(preferred, j, keyword)
    {
      if Lower(preferred[k].keyword) == Lower(keyword) {
        updated := updated[k := updated[k].(count := updated[k].count + 1, lastSearched := now)];
        found := true;
        assert SameKeyword(preferred, k, keyword);
        assert FirstMatch(preferred, keyword) == Some(k);
        assert updated == Counted(preferred, keyword, now);
        break;
      }
    }
    if !found {
      updated := updated + [Preferred(keyword, 1, now)];
      assert FirstMatch(preferred, keyword) == None;
    }
    assert updated == Counted(preferred, keyword, now);
    updated := Take(SortDesc(updated, PreferredCount), PreferredLimit);
  }
}
