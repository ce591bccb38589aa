# Restaurant area search, modelled in Dafny

This project models the restaurant area search of a Laravel backend:
`RestaurantController::searchRestaurantsInArea` with its helpers
`getPlaceDetails` and `getPhotoUrl`, and `GridSearchService::calculateGridPoints`.

The search works in these steps:

1. A request (centre latitude and longitude, radius in metres) is validated.
2. The area cache is consulted under `restaurants:{lat}:{lng}:{radius}`, built from the PHP string forms of the three fields.
3. On a miss, the disc is tiled into a square lattice of cell centres. Each centre is queried with a nearby search.
4. Places are deduplicated across cells by `place_id`. The first time an id is seen, its details are looked up through the details cache (`place_details:{id}`), and one merged record is appended.
5. The records are shuffled and returned with their count and the number of grid points. That response is stored in the area cache.

A nearby request that throws (a connection error or timeout), or a provider `error_message` in any cell, aborts the search with that exception's message, and nothing is stored under the area key. A cell whose request answers with a non-2xx status is skipped.

Modules:

- `GridSearch` is the tiler. `CalculateGridPoints` and its loops are proved against `GridPoints`, which filters the row-major lattice. Lemmas cover the lattice's size, members and order, and the filter's soundness, completeness and order preservation.
- `Places` holds the record types and the details shaping, including the Uber Eats ordering-link rule. It also holds photo URLs and `MakeRestaurant`, the fallback chains of one merged record.
- `Cache` holds `Cache::remember` as a map-backed `CacheStore` class, plus the pure `AfterRemember` it is proved against.
- `Merge` is the fan-in as values. It covers per-cell outcomes, the first-seen filter `Dedup`, the records, the first aborting cell, and the merged result `MergeCells`. Lemmas prove the stated properties of each.
- `Restaurants` holds the `RestaurantController` class. It has the two caches as objects it updates in place, and methods for the search and for each of its loops. Each loop method is proved against `ScanPlaces`, the state the `seenPlaceIds` loop reaches. `ScanPlacesMeetsSpec` proves that state equal to the declarative one: ids seen, records of first-seen places, details cached.
- `Text` is the substring test behind `strpos(...) !== false` and decimal rendering of widths. `Wrappers` is `Option`.

Remote endpoints, trigonometry, `urlencode`, float-to-string interpolation in the store link, and the shuffle are inputs of the model:

- `Remote`: the nearby search per grid point (including a thrown request), and the two details lookups per place id.
- `Trig`: the two degree offsets and the distance.
- `Env`: the API key and the two string conversions.
- A permutation function for the shuffle.

Notes on the source's behaviour that the model keeps:

- In `getPlaceDetails`, the website lookup (RestaurantController.php:199) sits inside the same `try` as the main lookup. If that second request throws, the whole details value is null, not just the ordering link. Only an unsuccessful (non-2xx) website answer leaves the link absent.
- Laravel turns PHP warnings into exceptions, and the catch-all at RestaurantController.php:225-228 turns every exception into null. So the details value is also null in two more cases:
  - a result has a location but no `name`;
  - a result has `opening_hours` without `weekday_text`.
- When details are null, the address falls back to `vicinity` and then to the empty string. It is not left absent.
- A validation failure raises inside the `try` at RestaurantController.php:27-32 and is caught by the same `catch (\Exception $e)` as any other error. The model returns it as `Failed(ValidationFailed)`: a failure result that touches no cache and makes no remote call.
- `Http::get` at RestaurantController.php:71 throws when no answer arrives. Nothing inside the area producer catches it, so it leaves `Cache::remember` without storing anything and reaches the catch at :143-152, exactly like a provider `error_message`. Details cached for earlier cells stay cached.
- The area key interpolates the PHP string form of each request field. For query or form input that is the text as sent, so `1500` and `1500.0` name two different cache entries. A JSON number is decoded first, so `1500.0` there is written as `1500`. The model takes the string form as part of each field.
- `Cache::remember` treats a stored null as a miss. So a null details result is never memoised, and the next search asks the remote again. The model stores nothing for `None`.

## Model

| member | source | states |
|---|---|---|
| Text.ContainsIff | app/Http/Controllers/RestaurantController.php:205 | the `strpos(...) !== false` test holds exactly when the domain occurs at some index of the website, both directions |
| Text.DecimalRoundTrip | app/Http/Controllers/RestaurantController.php:234 | the interpolated width is a non-empty string of digits that reads back as the same number |
| GridSearch.Ceil | app/Services/GridSearchService.php:19 | `ceil` yields the least integer not below its argument |
| GridSearch.GridCount | app/Services/GridSearchService.php:19 | `gridCount` is the least integer with `gridCount * 1000 >= radius` |
| GridSearch.CalculateGridPoints | app/Services/GridSearchService.php:12-40 | the returned list is exactly the lattice candidates, in row-major order, that pass the distance test (`GridPoints`) |
| GridSearch.LatticePoints | app/Services/GridSearchService.php:21-39 | the nested loops over `i` then `j` in `-gridCount..gridCount` append exactly the kept candidates of the whole lattice |
| GridSearch.AddRow | app/Services/GridSearchService.php:25-36 | the inner loop over `j` contributes the kept candidates of row `i`, in increasing `j` |
| GridSearch.KeptRowsIsKept | app/Services/GridSearchService.php:24-37 | accumulating row by row gives the same list as filtering the concatenated rows |
| GridSearch.KeptAppend | app/Services/GridSearchService.php:30-35 | the distance filter distributes over concatenation of candidate lists |
| GridSearch.RowPairsShape | app/Services/GridSearchService.php:25 | one row has `jEnd + g` pairs, exactly those with offset `i` and `-g <= j < jEnd`, strictly increasing |
| GridSearch.RowsShape | app/Services/GridSearchService.php:24-25 | the complete rows below `iEnd` have `(iEnd + g) * (2g+1)` pairs, exactly those in range, in strict row-major order |
| GridSearch.LatticeSize | app/Services/GridSearchService.php:24-25 | exactly `(2·gridCount+1)²` offset pairs are considered |
| GridSearch.LatticeRowMajor | app/Services/GridSearchService.php:24-25 | the pairs considered are exactly those with both offsets in `-gridCount..gridCount`, each once, `i` outer and `j` inner |
| GridSearch.KeptIsFilter | app/Services/GridSearchService.php:30-35 | the output is the order-preserving subsequence at increasing positions; a position is kept exactly when its candidate passes the test |
| GridSearch.KeptWithin | app/Services/GridSearchService.php:26-35 | every returned point is within the radius and is the cell centre `(lat + i·latOffset·1.5, lng + j·lngOffset·1.5)` of a lattice pair |
| GridSearch.KeptComplete | app/Services/GridSearchService.php:30-35 | no candidate that passes the distance test is dropped |
| GridSearch.GridPointsBound | app/Services/GridSearchService.php:19-39 | at most `(2·gridCount+1)²` points are returned |
| GridSearch.CentreKept | app/Services/GridSearchService.php:26-30 | for a non-negative radius the centre itself is returned, given a zero self-distance |
| GridSearch.GridCountAtMostFive | app/Services/GridSearchService.php:19 | a radius admitted by validation (at most 5000 m) gives at most 5 steps a side, at most 121 candidates |
| GridSearch.GridCountExample | app/Services/GridSearchService.php:19 | a 1500 m radius gives `gridCount` 2 and 25 candidates |
| Places.ShapeDetails | app/Http/Controllers/RestaurantController.php:180-228 | a details value exists only after a successful main lookup, and carries that result's rating and rating count; `DetailsNullCases` states the rest |
| Places.OrderingUrl | app/Http/Controllers/RestaurantController.php:185-211 | the ordering-link step; `OrderingUrlRule` and `OrderingUrlOnUberEats` state its properties |
| Places.WeekdayText | app/Http/Controllers/RestaurantController.php:216 | the opening-hours step, which raises when `weekday_text` is missing; `DetailsNullCases` states its effect |
| Places.OrderingUrlRule | app/Http/Controllers/RestaurantController.php:185-211 | a non-null details value has no ordering link exactly when there is no location or the website lookup was unsuccessful; otherwise it is the website verbatim when it contains `ubereats.com`, else the synthesised store URL from name, lat, lng |
| Places.OrderingUrlOnUberEats | app/Http/Controllers/RestaurantController.php:205-209 | every ordering link produced points at `ubereats.com` |
| Places.DetailsNullCases | app/Http/Controllers/RestaurantController.php:180-228 | the details value is null exactly on an unsuccessful or thrown main lookup, a location without name, a thrown website lookup, or opening hours without weekday text; otherwise address, hours, rating and count come from the result |
| Places.PhotoUrl | app/Http/Controllers/RestaurantController.php:232-235 | the photo URL at a width; `PhotoReferenceRoundTrip`, `SmallAndLargeDiffer` and `DecimalRoundTrip` state its properties |
| Places.Photos | app/Http/Controllers/RestaurantController.php:107-114 | the `photos` field; `PhotosFromFirstOnly` states its properties |
| Places.PhotoReferenceRoundTrip | app/Http/Controllers/RestaurantController.php:232-235 | a photo URL is recognised as one for its own width and key, and the photo reference is read back from it, so distinct photos give distinct URLs |
| Places.PhotoWidthChecked | app/Http/Controllers/RestaurantController.php:110-111 | a URL of width 800 is not recognised as one of width 400, nor the reverse |
| Places.SmallAndLargeDiffer | app/Http/Controllers/RestaurantController.php:110-111 | the 400- and 800-wide URLs of one photo differ |
| Places.PhotosFromFirstOnly | app/Http/Controllers/RestaurantController.php:107-114 | `photos` is null exactly when the place has none; otherwise one entry whose small URL is the 400-wide and whose large URL is the 800-wide URL of the first photo's reference, other photos ignored |
| Places.MakeRestaurant | app/Http/Controllers/RestaurantController.php:96-117 | the merged record; `NullDetailsFallBack` and `DetailsPreferred` state its fallback chains |
| Places.NullDetailsFallBack | app/Http/Controllers/RestaurantController.php:96-116 | with null details the place is still returned, rating from the cell or null, count from the cell or 0, address from `vicinity` or '', no hours, no link |
| Places.DetailsPreferred | app/Http/Controllers/RestaurantController.php:96-116 | a value present in the details wins over the cell's; an absent rating, rating count or address falls back to the cell's value, then null, 0 or ''; hours and link come from the details only |
| Cache.AfterRemember | app/Http/Controllers/RestaurantController.php:162 | get-or-compute-and-store without storing null; `RememberStable` states its properties |
| Cache.RememberStable | app/Http/Controllers/RestaurantController.php:162 | `remember` touches only its key, and once the key holds a value a later `remember` returns it without running the producer and changes nothing |
| Cache.CacheStore.Get | app/Http/Controllers/RestaurantController.php:48 | the lookup finds a value exactly when the key is stored, and returns the stored value |
| Cache.CacheStore.Put | app/Http/Controllers/RestaurantController.php:48 | storing changes only the given key |
| Cache.CacheStore.Remember | app/Http/Controllers/RestaurantController.php:162 | the returned value, whether the producer ran, and the new entries are those of get-or-compute-and-store |
| Merge.ErrorIndex | app/Http/Controllers/RestaurantController.php:71-83 | the position of the first cell whose request threw or carries `error_message`, or the number of cells when none does |
| Merge.DedupFirstSeen | app/Http/Controllers/RestaurantController.php:88-90 | the first-seen filter keeps every id that occurs, each once, and keeps its first occurrence |
| Merge.LaterDuplicatesIgnored | app/Http/Controllers/RestaurantController.php:89-118 | places whose ids were already seen change neither the seen ids nor the kept places |
| Merge.RecordsAt | app/Http/Controllers/RestaurantController.php:99-117 | one record per kept place, in order, each built from that place and its own details |
| Merge.MergedRecords | app/Http/Controllers/RestaurantController.php:53-119 | the merged ids are pairwise distinct; every id in any successful cell appears; each record is built from the first place with its id |
| Merge.RecordsOfFirstSeen | app/Http/Controllers/RestaurantController.php:88-118 | the records have distinct ids, and each is built from the first occurrence of its id |
| Merge.RecordsCoverIds | app/Http/Controllers/RestaurantController.php:88-90 | every id among the places has a record |
| Merge.AbortedOnException | app/Http/Controllers/RestaurantController.php:71-83 | the search aborts exactly when some cell's request threw or has `error_message`, with the message of the first such cell; a non-2xx answer alone never aborts |
| Merge.MergeCells | app/Http/Controllers/RestaurantController.php:53-126 | what the cell loop yields; `AbortedOnException`, `MergedRecords` and `FailedCellSkipped` state its properties |
| Merge.Dedup | app/Http/Controllers/RestaurantController.php:89-90 | the first-seen filter; `DedupFirstSeen` and `LaterDuplicatesIgnored` state its properties |
| Merge.PermutationKeepsDistinctIds | app/Http/Controllers/RestaurantController.php:129 | shuffling records with pairwise distinct ids keeps the ids pairwise distinct |
| Merge.FailedCellSkipped | app/Http/Controllers/RestaurantController.php:120-125 | inserting a failed cell anywhere leaves the merged result unchanged |
| Merge.FailedCellFlattensAway | app/Http/Controllers/RestaurantController.php:120-125 | a failed cell contributes no places |
| Merge.FailedCellErrorIndex | app/Http/Controllers/RestaurantController.php:120-125 | a non-2xx cell does not change which cell is the first whose request threw or carries `error_message`; it only shifts that cell's index past itself |
| Restaurants.AreaKey | app/Http/Controllers/RestaurantController.php:45 | the area key from the string forms of the request fields; `AreaKeyNotDetailsKey` and `AreaKeyIsTextual` state its properties |
| Restaurants.DetailsKey | app/Http/Controllers/RestaurantController.php:159 | the key starts with `place_details:` and the place id can be read back from it |
| Restaurants.DetailsKeyInjective | app/Http/Controllers/RestaurantController.php:159 | distinct place ids have distinct details keys |
| Restaurants.AreaKeyNotDetailsKey | app/Http/Controllers/RestaurantController.php:45 | no area key equals a details key |
| Restaurants.AreaKeyIsTextual | app/Http/Controllers/RestaurantController.php:34-45 | a radius written `1500` and one written `1500.0` give different area keys |
| Restaurants.ScanPlaces | app/Http/Controllers/RestaurantController.php:53-126 | the state of the `seenPlaceIds` loop; `ScanPlacesMeetsSpec` states what it equals |
| Restaurants.CellOutcomes | app/Http/Controllers/RestaurantController.php:56-71 | one nearby-search outcome per grid point, in grid order |
| Restaurants.WarmedElsewhere | app/Http/Controllers/RestaurantController.php:162 | looking up other places leaves a place's details entry as it was |
| Restaurants.ScanPlacesMeetsSpec | app/Http/Controllers/RestaurantController.php:88-118 | after any sequence of places, `seenPlaceIds` is the set of their ids, `allRestaurants` the records of the first-seen places with the details the search sees, and the details cache what looking those up leaves |
| Restaurants.FirstSeenStep | app/Http/Controllers/RestaurantController.php:89-117 | a place with a new id adds exactly its record, built with the details seen through the cache, and its cache entry |
| Restaurants.QueriedOnAbort | app/Http/Controllers/RestaurantController.php:71-83 | stopping at the first cell whose request threw or carries `error_message` yields that cell's message, with the details of earlier first-seen places cached |
| Restaurants.QueriedAll | app/Http/Controllers/RestaurantController.php:53-126 | running through all cells yields the merged records |
| Restaurants.RestaurantController.constructor | app/Http/Controllers/RestaurantController.php:18-23 | the controller holds the given configuration, geometry and cache stores |
| Restaurants.RestaurantController.GetPlaceDetails | app/Http/Controllers/RestaurantController.php:156-230 | the details value and the new details entries are those of `remember` with the shaped remote answer as producer |
| Restaurants.RestaurantController.AddPlace | app/Http/Controllers/RestaurantController.php:89-118 | one place moves the loop state one step of `ScanPlaces` |
| Restaurants.RestaurantController.AddPlaces | app/Http/Controllers/RestaurantController.php:88-119 | the loop over a cell's results moves the loop state over all of them |
| Restaurants.RestaurantController.AddCell | app/Http/Controllers/RestaurantController.php:73-125 | a failed cell leaves the loop state unchanged; a cell with results moves it over those results |
| Restaurants.RestaurantController.QueryCells | app/Http/Controllers/RestaurantController.php:53-126 | the cell loop aborts with the message of the first thrown request or provider error, or else returns the merged records; the details cache holds what the first-seen places before that cell left |
| Restaurants.RestaurantController.ProduceAreaResult | app/Http/Controllers/RestaurantController.php:48-141 | the producer throws with the message of the first thrown request or provider error, or returns `data` as a permutation of the merged records with pairwise distinct ids, `total` its length and `grid_points_count` the number of grid points |
| Restaurants.RestaurantController.SearchRestaurantsInArea | app/Http/Controllers/RestaurantController.php:25-154 | an invalid radius fails with no cache change; a result stored under the key of the fields' string forms is returned verbatim with no change; otherwise an exception from a cell fails with its message and stores nothing under the area key, and a success (distinct ids, a permutation of the merged records) is stored under it and returned |

## Left out

- HTTP I/O: the nearby and details endpoints are inputs (`Remote`). A remote is assumed to answer the same way for the same point or id during one search. Request parameters (`type`, `language`, `fields`) are not modelled.
- Logging (`Log::info`, `Log::error`), `env('GOOGLE_MAPS_API_KEY')` (the key is an input), and the HTTP status codes of the JSON responses.
- Cache expiry (7 and 30 days) and eviction. The area and details namespaces are two `CacheStore` objects standing for one store whose keys carry distinct prefixes; `DetailsKeyInjective` and `AreaKeyNotDetailsKey` show those keys never collide.
- Floating-point trigonometry (`deg2rad`, `rad2deg`, `cos`, the haversine distance at GridSearchService.php:45-59) is left abstract in `Trig`. Coverage of the disc by the cells is not claimed.
- `urlencode` and the interpolation of a float into a string are opaque functions of `Env`. Cache keys built from them are compared as strings.
- The randomness of `Arr::shuffle`: the shuffle is any function returning a permutation of its input.
- Validation is modelled only as its radius bound (`radius > 5000` fails). Each field is its text plus its numeric reading; missing or non-numeric fields, and the link between a text and its reading, are not modelled, nor is the validation message text.
- Missing required keys of a raw place (`place_id`, `name`) and a details result with a location lacking `lat` or `lng` are not modelled; they raise in PHP and are excluded by the record types.
- `photos` is modelled as the list of each photo's `photo_reference`, and the empty list stands for an unset `photos` key. The source reads `$place['photos'][0]` (RestaurantController.php:110) outside the details `try`, so a set but empty `photos` array raises and fails the whole search; the model does not capture that failure.
- Restaurants.RestaurantController.SearchRestaurantsInArea: the JSON response object cached by Laravel is modelled as the `SearchResponse` value.
