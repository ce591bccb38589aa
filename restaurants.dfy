/**
 * RestaurantController: the area search (validation, area cache, grid tiling,
 * the cell loop with its `seenPlaceIds` filter and record merge, shuffle) and
 * the cached details lookup. The remote endpoints are inputs (`Remote`), the
 * shuffle is any permutation, and the cache stores are objects the controller
 * updates in place.
 */
module Restaurants {
  import opened Wrappers
  import opened GridSearch
  import opened Places
  import opened Merge
  import opened Cache

  /** Largest radius, in metres, the request validation admits. */
  const MaxRadius: real := 5000.0

  /** A request field: its PHP string form, as interpolated into the area key, and its numeric reading. */
  datatype Input = Input(text: string, value: real)

  datatype SearchRequest = SearchRequest(latitude: Input, longitude: Input, radius: Input)

  /**
   * Why a search failed: the request did not validate, or an exception (a
   * thrown nearby request or a provider `error_message`) reached the catch.
   */
  datatype Failure = ValidationFailed | Caught(message: string)

  /** The JSON answer: `success=true` with `data`, `total`, `grid_points_count`, or `success=false`. */
  datatype SearchResponse =
    | Found(data: seq<Restaurant>, total: int, gridPointsCount: int)
    | Failed(reason: Failure)

  /**
   * What the remote Places endpoints answer during one call: the nearby
   * search at a cell centre, and the two details lookups for a place id.
   */
  datatype Remote = Remote(nearby: GridPoint -> CellOutcome, details: string -> DetailExchange)

  const AreaKeyPrefix := "restaurants:"
  const DetailsKeyPrefix := "place_details:"

  /** Cache key of an area search: `restaurants:{lat}:{lng}:{radius}`, from the fields' string forms. */
  function AreaKey(request: SearchRequest): string {
    AreaKeyPrefix + request.latitude.text + ":" + request.longitude.text + ":" + request.radius.text
  }

  /** Cache key of a details lookup: `place_details:{placeId}`. */
  function DetailsKey(placeId: string): (key: string)
    ensures |key| == |DetailsKeyPrefix| + |placeId|
    ensures key[..|DetailsKeyPrefix|] == DetailsKeyPrefix && key[|DetailsKeyPrefix|..] == placeId
  {
    DetailsKeyPrefix + placeId
  }

  /** Distinct places have distinct details keys. */
  lemma DetailsKeyInjective(placeId: string, otherId: string)
    ensures DetailsKey(placeId) == DetailsKey(otherId) ==> placeId == otherId
  {
    if DetailsKey(placeId) == DetailsKey(otherId) {
      assert placeId == DetailsKey(placeId)[|DetailsKeyPrefix|..];
      assert otherId == DetailsKey(otherId)[|DetailsKeyPrefix|..];
    }
  }

  /** No details key is an area key. */
  lemma AreaKeyNotDetailsKey(request: SearchRequest, placeId: string)
    ensures AreaKey(request) != DetailsKey(placeId)
  {
    assert AreaKey(request)[0] == 'r';
    assert DetailsKey(placeId)[0] == 'p';
  }

  /**
   * The area key is built from the fields' string forms: a radius whose string
   * form is `1500` and one whose string form is `1500.0` give two keys, so the
   * second request misses.
   */
  lemma AreaKeyIsTextual(latitude: Input, longitude: Input)
    ensures AreaKey(SearchRequest(latitude, longitude, Input("1500", 1500.0)))
         != AreaKey(SearchRequest(latitude, longitude, Input("1500.0", 1500.0)))
  {
    var short := AreaKey(SearchRequest(latitude, longitude, Input("1500", 1500.0)));
    var long := AreaKey(SearchRequest(latitude, longitude, Input("1500.0", 1500.0)));
    assert |long| == |short| + 2;
  }

  /** The cell outcome for each grid point, in grid order. */
  function CellOutcomes(points: seq<GridPoint>, remote: Remote): (cells: seq<CellOutcome>)
    ensures |cells| == |points|
    ensures forall k :: 0 <= k < |points| ==> cells[k] == remote.nearby(points[k])
  {
    if points == [] then []
    else
      var init := CellOutcomes(points[..|points| - 1], remote);
      init + [remote.nearby(points[|points| - 1])]
  }

  /** The details producer for one place id. */
  function ProducedDetails(placeId: string, remote: Remote, env: Env): Option<Details> {
    ShapeDetails(remote.details(placeId), env)
  }

  /** The details a search sees for an id, given the details entries when the search began. */
  function SeenDetails(entries: map<string, Details>, remote: Remote, env: Env, placeId: string): Option<Details> {
    AfterRemember(entries, DetailsKey(placeId), ProducedDetails(placeId, remote, env)).value
  }

  /** `SeenDetails` for every id. */
  function DetailsThrough(entries: map<string, Details>, remote: Remote, env: Env): string -> Option<Details> {
    placeId => SeenDetails(entries, remote, env, placeId)
  }

  /** The details entries after looking up the places in order, each through the cache. */
  function Warmed(entries: map<string, Details>, places: seq<RawPlace>, remote: Remote, env: Env): map<string, Details> {
    if places == [] then entries
    else
      var p := places[|places| - 1];
      var before := Warmed(entries, places[..|places| - 1], remote, env);
      AfterRemember(before, DetailsKey(p.placeId), ProducedDetails(p.placeId, remote, env)).entries
  }

  /** Looking up places leaves the entry of every other place id as it was. */
  lemma {:induction false} WarmedElsewhere(entries: map<string, Details>, places: seq<RawPlace>,
                                           remote: Remote, env: Env, placeId: string)
    requires placeId !in IdsOf(places)
    ensures DetailsKey(placeId) in Warmed(entries, places, remote, env) <==> DetailsKey(placeId) in entries
    ensures DetailsKey(placeId) in entries ==>
              Warmed(entries, places, remote, env)[DetailsKey(placeId)] == entries[DetailsKey(placeId)]
  {
    if places != [] {
      var init := places[..|places| - 1];
      var p := places[|places| - 1];
      assert places == init + [p];
      IdsOfSnoc(init, p);
      WarmedElsewhere(entries, init, remote, env, placeId);
      DetailsKeyInjective(placeId, p.placeId);
    }
  }

  /** The state of the cell loop: the ids seen, the records built, the details entries. */
  datatype Scan = Scan(seenPlaceIds: set<string>, allRestaurants: seq<Restaurant>, entries: map<string, Details>)

  /**
   * The state the cell loop reaches after looking at `places` in order,
   * starting from no ids, no records and the details entries `entries0`: a
   * place whose id was seen is skipped; otherwise its id is marked seen, its
   * details are looked up through the cache and its record is appended.
   */
  function ScanPlaces(entries0: map<string, Details>, places: seq<RawPlace>, remote: Remote, env: Env): Scan {
    if places == [] then Scan({}, [], entries0)
    else
      var s := ScanPlaces(entries0, places[..|places| - 1], remote, env);
      var p := places[|places| - 1];
      if p.placeId in s.seenPlaceIds then s
      else
        var r := AfterRemember(s.entries, DetailsKey(p.placeId), ProducedDetails(p.placeId, remote, env));
        Scan(s.seenPlaceIds + {p.placeId}, s.allRestaurants + [MakeRestaurant(p, r.value, env.apiKey)], r.entries)
  }

  /**
   * The loop state is the declarative one: the ids seen are the ids of all
   * places; the records are those of the first-seen places, each built with
   * the details the search sees for its id; and the details entries are those
   * left by looking up the first-seen places in order.
   */
  lemma {:induction false} ScanPlacesMeetsSpec(entries0: map<string, Details>, places: seq<RawPlace>, remote: Remote, env: Env)
    ensures ScanPlaces(entries0, places, remote, env) ==
              Scan(IdsOf(places), Records(Dedup(places), DetailsThrough(entries0, remote, env), env.apiKey),
                   Warmed(entries0, Dedup(places), remote, env))
  {
    if places != [] {
      var init := places[..|places| - 1];
      var p := places[|places| - 1];
      assert places == init + [p];
      ScanPlacesMeetsSpec(entries0, init, remote, env);
      IdsOfSnoc(init, p);
      if p.placeId !in IdsOf(init) {
        FirstSeenStep(entries0, init, p, remote, env);
      }
    }
  }

  /** A place with a new id adds its record, built with the details the search sees, and its details entry. */
  lemma FirstSeenStep(entries0: map<string, Details>, init: seq<RawPlace>, p: RawPlace, remote: Remote, env: Env)
    requires p.placeId !in IdsOf(init)
    ensures var r := AfterRemember(Warmed(entries0, Dedup(init), remote, env), DetailsKey(p.placeId),
                                   ProducedDetails(p.placeId, remote, env));
            && Dedup(init + [p]) == Dedup(init) + [p]
            && r.value == DetailsThrough(entries0, remote, env)(p.placeId)
            && Warmed(entries0, Dedup(init + [p]), remote, env) == r.entries
            && Records(Dedup(init + [p]), DetailsThrough(entries0, remote, env), env.apiKey) ==
                 Records(Dedup(init), DetailsThrough(entries0, remote, env), env.apiKey)
                   + [MakeRestaurant(p, r.value, env.apiKey)]
  {
    var kept := Dedup(init);
    SnocInit(init, p);
    assert Dedup(init + [p]) == kept + [p];
    DedupFirstSeen(init);
    WarmedElsewhere(entries0, kept, remote, env, p.placeId);
    SnocInit(kept, p);
  }

  /**
   * What the loop over the cells `cells` leaves behind, starting from the
   * details entries `entries0`: the details of the first-seen places before
   * the first aborting cell are cached, and the loop reports that cell's
   * message or else the merged records.
   */
  ghost predicate Queried(cells: seq<CellOutcome>, entries0: map<string, Details>, entries: map<string, Details>,
                          remote: Remote, env: Env, aborted: Option<string>, allRestaurants: seq<Restaurant>)
  {
    && entries == Warmed(entries0, Dedup(Flatten(cells[..ErrorIndex(cells)])), remote, env)
    && match MergeCells(cells, DetailsThrough(entries0, remote, env), env.apiKey)
       case Aborted(message) => aborted == Some(message)
       case Merged(restaurants) => aborted == None && allRestaurants == restaurants
  }

  /** The loop stopping at the first aborting cell, cell `k`, meets `Queried`. */
  lemma QueriedOnAbort(cells: seq<CellOutcome>, k: nat, entries0: map<string, Details>, entries: map<string, Details>,
                       remote: Remote, env: Env, allRestaurants: seq<Restaurant>)
    requires k < |cells| && Aborts(cells[k])
    requires forall m :: 0 <= m < k ==> !Aborts(cells[m])
    requires entries == ScanPlaces(entries0, Flatten(cells[..k]), remote, env).entries
    ensures Queried(cells, entries0, entries, remote, env, Some(cells[k].message), allRestaurants)
  {
    ScanPlacesMeetsSpec(entries0, Flatten(cells[..k]), remote, env);
    AbortAt(cells, k, DetailsThrough(entries0, remote, env), env.apiKey);
  }

  /** The loop running through every cell meets `Queried`. */
  lemma QueriedAll(cells: seq<CellOutcome>, entries0: map<string, Details>, entries: map<string, Details>,
                   remote: Remote, env: Env, allRestaurants: seq<Restaurant>)
    requires forall m :: 0 <= m < |cells| ==> !Aborts(cells[m])
    requires entries == ScanPlaces(entries0, Flatten(cells), remote, env).entries
    requires allRestaurants == ScanPlaces(entries0, Flatten(cells), remote, env).allRestaurants
    ensures Queried(cells, entries0, entries, remote, env, None, allRestaurants)
  {
    ScanPlacesMeetsSpec(entries0, Flatten(cells), remote, env);
    MergeComplete(cells, DetailsThrough(entries0, remote, env), env.apiKey);
  }

  /** What the area producer does: return a response, or throw with a message. */
  datatype Produced = Returned(response: SearchResponse) | Thrown(message: string)

  /** Every output of `shuffle` is a permutation of its input. */
  ghost predicate IsShuffle(shuffle: seq<Restaurant> -> seq<Restaurant>) {
    forall s :: multiset(shuffle(s)) == multiset(s)
  }

  class RestaurantController {
    /** The API key and the string conversions. */
    const env: Env
    /** The geometry of the grid service. */
    const trig: Trig
    /** The area-search namespace of the cache (entries kept 7 days). */
    const areaCache: CacheStore<SearchResponse>
    /** The place-details namespace of the cache (entries kept 30 days). */
    const detailsCache: CacheStore<Details>

    constructor (env: Env, trig: Trig, areaCache: CacheStore<SearchResponse>, detailsCache: CacheStore<Details>)
      ensures this.env == env && this.trig == trig
      ensures this.areaCache == areaCache && this.detailsCache == detailsCache
    {
      this.env := env;
      this.trig := trig;
      this.areaCache := areaCache;
      this.detailsCache := detailsCache;
    }

    /**
     * getPlaceDetails: the stored details for the place if any; otherwise the
     * shaped remote answer, stored unless it is null.
     */
    method GetPlaceDetails(placeId: string, remote: Remote) returns (placeDetails: Option<Details>, ghost produced: bool)
      modifies detailsCache
      ensures Remembered(placeDetails, produced, detailsCache.entries) ==
                AfterRemember(old(detailsCache.entries), DetailsKey(placeId), ProducedDetails(placeId, remote, env))
    {
      placeDetails, produced := detailsCache.Remember(DetailsKey(placeId), () => ShapeDetails(remote.details(placeId), env));
    }

    /** The loop state after looking at the places `done`, starting from the details entries `entries0`. */
    ghost predicate Accumulated(done: seq<RawPlace>, entries0: map<string, Details>, remote: Remote,
                                seenPlaceIds: set<string>, allRestaurants: seq<Restaurant>)
      reads detailsCache
    {
      Scan(seenPlaceIds, allRestaurants, detailsCache.entries) == ScanPlaces(entries0, done, remote, env)
    }

    /**
     * The loop over one cell's results: a place whose id is new is marked
     * seen, its details are looked up and its record is appended; a place
     * whose id was seen is skipped.
     */
    method AddPlaces(results: seq<RawPlace>, remote: Remote, ghost done: seq<RawPlace>, ghost entries0: map<string, Details>,
                     seen0: set<string>, all0: seq<Restaurant>)
      returns (seenPlaceIds: set<string>, allRestaurants: seq<Restaurant>)
      requires Accumulated(done, entries0, remote, seen0, all0)
      modifies detailsCache
      ensures Accumulated(done + results, entries0, remote, seenPlaceIds, allRestaurants)
    {
      seenPlaceIds, allRestaurants := seen0, all0;
      ghost var processed := done;
      var n := 0;
      assert done + results[..0] == done;
      while n < |results|
        invariant 0 <= n <= |results|
        invariant processed == done + results[..n]
        invariant Accumulated(processed, entries0, remote, seenPlaceIds, allRestaurants)
      {
        var place := results[n];
        seenPlaceIds, allRestaurants := AddPlace(place, remote, processed, entries0, seenPlaceIds, allRestaurants);
        assert results[..n + 1] == results[..n] + [place];
        processed := processed + [place];
        n := n + 1;
      }
      assert results[..n] == results;
    }

    /** One iteration of the loop over a cell's results. */
    method AddPlace(place: RawPlace, remote: Remote, ghost done: seq<RawPlace>, ghost entries0: map<string, Details>,
                    seen0: set<string>, all0: seq<Restaurant>)
      returns (seenPlaceIds: set<string>, allRestaurants: seq<Restaurant>)
      requires Accumulated(done, entries0, remote, seen0, all0)
      modifies detailsCache
      ensures Accumulated(done + [place], entries0, remote, seenPlaceIds, allRestaurants)
    {
      seenPlaceIds, allRestaurants := seen0, all0;
      SnocInit(done, place);
      if place.placeId !in seenPlaceIds {
        seenPlaceIds := seenPlaceIds + {place.placeId};
        var placeDetails, _ := GetPlaceDetails(place.placeId, remote);
        allRestaurants := allRestaurants + [MakeRestaurant(place, placeDetails, env.apiKey)];
      }
    }

    /** One cell of the loop over the grid points that does not abort it. */
    method AddCell(outcome: CellOutcome, remote: Remote, ghost done: seq<RawPlace>, ghost entries0: map<string, Details>,
                   seen0: set<string>, all0: seq<Restaurant>)
      returns (seenPlaceIds: set<string>, allRestaurants: seq<Restaurant>)
      requires !Aborts(outcome)
      requires Accumulated(done, entries0, remote, seen0, all0)
      modifies detailsCache
      ensures Accumulated(done + CellPlaces(outcome), entries0, remote, seenPlaceIds, allRestaurants)
    {
      if outcome.Results? {
        seenPlaceIds, allRestaurants := AddPlaces(outcome.places, remote, done, entries0, seen0, all0);
      } else {
        assert done + [] == done;
        seenPlaceIds, allRestaurants := seen0, all0;
      }
    }

    /**
     * The loop over the grid points: each cell is queried in order; a non-2xx
     * answer is skipped, a thrown request or a provider error aborts with its
     * message, and the places of a successful answer go through `AddPlaces`.
     */
    method QueryCells(gridPoints: seq<GridPoint>, remote: Remote)
      returns (aborted: Option<string>, allRestaurants: seq<Restaurant>)
      modifies detailsCache
      ensures Queried(CellOutcomes(gridPoints, remote), old(detailsCache.entries), detailsCache.entries,
                      remote, env, aborted, allRestaurants)
    {
      ghost var cells := CellOutcomes(gridPoints, remote);
      ghost var entries0 := detailsCache.entries;

      allRestaurants := [];
      var seenPlaceIds: set<string> := {};
      ghost var processed: seq<RawPlace> := [];
      var k := 0;
      while k < |gridPoints|
        invariant 0 <= k <= |gridPoints|
        invariant forall m :: 0 <= m < k ==> !Aborts(cells[m])
        invariant processed == Flatten(cells[..k])
        invariant Accumulated(processed, entries0, remote, seenPlaceIds, allRestaurants)
      {
        var outcome := remote.nearby(gridPoints[k]);
        FlattenPrefixStep(cells, k);
        if Aborts(outcome) {
          QueriedOnAbort(cells, k, entries0, detailsCache.entries, remote, env, allRestaurants);
          return Some(outcome.message), allRestaurants;
        }
        seenPlaceIds, allRestaurants := AddCell(outcome, remote, processed, entries0, seenPlaceIds, allRestaurants);
        processed := processed + CellPlaces(outcome);
        k := k + 1;
      }
      assert cells[..k] == cells;
      QueriedAll(cells, entries0, detailsCache.entries, remote, env, allRestaurants);
      aborted := None;
    }

    /**
     * The producer passed to `Cache::remember` for an area: the grid points
     * are computed and their cells queried. The first aborting cell throws,
     * with the details looked up so far left cached; otherwise the records of
     * the first-seen places are returned in some order, with their count and
     * the number of grid points.
     */
    method ProduceAreaResult(request: SearchRequest, remote: Remote, shuffle: seq<Restaurant> -> seq<Restaurant>)
      returns (result: Produced)
      requires IsShuffle(shuffle)
      modifies detailsCache
      ensures var points := GridPoints(Disc(request.latitude.value, request.longitude.value, request.radius.value), trig);
              var cells := CellOutcomes(points, remote);
              && detailsCache.entries ==
                   Warmed(old(detailsCache.entries), Dedup(Flatten(cells[..ErrorIndex(cells)])), remote, env)
              && match MergeCells(cells, DetailsThrough(old(detailsCache.entries), remote, env), env.apiKey)
                 case Aborted(message) => result == Thrown(message)
                 case Merged(restaurants) =>
                   && result.Returned? && result.response.Found?
                   && multiset(result.response.data) == multiset(restaurants)
                   && (forall a, b :: 0 <= a < b < |result.response.data| ==>
                         result.response.data[a].placeId != result.response.data[b].placeId)
                   && result.response.total == |result.response.data|
                   && result.response.gridPointsCount == |points|
    {
      ghost var entries0 := detailsCache.entries;
      var gridPoints := CalculateGridPoints(request.latitude.value, request.longitude.value, request.radius.value, trig);
      var aborted, allRestaurants := QueryCells(gridPoints, remote);
      if aborted.Some? {
        return Thrown(aborted.value);
      }
      var data := shuffle(allRestaurants);
      MergedRecords(CellOutcomes(gridPoints, remote), DetailsThrough(entries0, remote, env), env.apiKey);
      PermutationKeepsDistinctIds(data, allRestaurants);
      result := Returned(Found(data, |data|, |gridPoints|));
    }

    /**
     * searchRestaurantsInArea. An invalid radius fails at once. A stored area
     * result is returned as it is, with no remote call and no cache change.
     * Otherwise the producer runs: when it throws, the search fails with the
     * exception's message and nothing is stored under the area key; when it
     * returns, its response is stored under the area key and returned.
     */
    method SearchRestaurantsInArea(request: SearchRequest, remote: Remote, shuffle: seq<Restaurant> -> seq<Restaurant>)
      returns (response: SearchResponse)
      requires IsShuffle(shuffle)
      modifies areaCache, detailsCache
      ensures request.radius.value > MaxRadius ==>
                && response == Failed(ValidationFailed)
                && areaCache.entries == old(areaCache.entries)
                && detailsCache.entries == old(detailsCache.entries)
      ensures request.radius.value <= MaxRadius && AreaKey(request) in old(areaCache.entries) ==>
                && response == old(areaCache.entries)[AreaKey(request)]
                && areaCache.entries == old(areaCache.entries)
                && detailsCache.entries == old(detailsCache.entries)
      ensures request.radius.value <= MaxRadius && AreaKey(request) !in old(areaCache.entries) ==>
                var points := GridPoints(Disc(request.latitude.value, request.longitude.value, request.radius.value), trig);
                var cells := CellOutcomes(points, remote);
                && detailsCache.entries ==
                     Warmed(old(detailsCache.entries), Dedup(Flatten(cells[..ErrorIndex(cells)])), remote, env)
                && match MergeCells(cells, DetailsThrough(old(detailsCache.entries), remote, env), env.apiKey)
                   case Aborted(message) =>
                     && response == Failed(Caught(message))
                     && areaCache.entries == old(areaCache.entries)
                   case Merged(restaurants) =>
                     && response.Found?
                     && multiset(response.data) == multiset(restaurants)
                     && (forall a, b :: 0 <= a < b < |response.data| ==> response.data[a].placeId != response.data[b].placeId)
                     && response.total == |response.data|
                     && response.gridPointsCount == |points|
                     && areaCache.entries == old(areaCache.entries)[AreaKey(request) := response]
    {
      if request.radius.value > MaxRadius {
        return Failed(ValidationFailed);
      }
      var cacheKey := AreaKey(request);
      var cached := areaCache.Get(cacheKey);
      if cached.Some? {
        return cached.value;
      }
      var result := ProduceAreaResult(request, remote, shuffle);
      match result {
        case Thrown(message) =>
          response := Failed(Caught(message));
        case Returned(r) =>
          areaCache.Put(cacheKey, r);
          response := r;
      }
    }
  }
}
