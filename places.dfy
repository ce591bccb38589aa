/**
 * Place records: the raw nearby-search result, the place-details lookup and
 * its shaping (including the Uber Eats ordering-link rule), photo URLs, and
 * the merged record the area search returns.
 */
module Places {
  import opened Wrappers
  import opened Text

  /**
   * The outcome of one `Http::get`: it threw (connection error and the like),
   * it answered with a non-2xx status, or it answered successfully with a body.
   */
  datatype Lookup<T> = Threw | Unsuccessful | Successful(body: T)

  /** A computation that either finishes with a value or raises an exception. */
  datatype Attempt<T> = Done(value: T) | Raised

  datatype Location = Location(lat: real, lng: real)

  /** The `opening_hours` object of a details result. */
  datatype OpeningHours = OpeningHours(weekdayText: Option<seq<string>>)

  /** The `result` object of a successful place-details response; absent keys are `None`. */
  datatype DetailResult = DetailResult(
    formattedAddress: Option<string>,
    openingHours: Option<OpeningHours>,
    rating: Option<real>,
    userRatingsTotal: Option<int>,
    name: Option<string>,
    location: Option<Location>)

  /**
   * What the remote details endpoint answers for one place: the main lookup
   * and the website-only lookup (made only when the main result has a location).
   */
  datatype DetailExchange = DetailExchange(details: Lookup<DetailResult>, website: Lookup<Option<string>>)

  /** The array `getPlaceDetails` returns when it does not return null. */
  datatype Details = Details(
    address: Option<string>,
    openingHours: Option<seq<string>>,
    rating: Option<real>,
    userRatingsTotal: Option<int>,
    uberEatsUrl: Option<string>)

  /** Reading any key of a null details value yields null, as for these all-absent details. */
  const NoDetails := Details(None, None, None, None, None)

  /**
   * Process configuration and the string conversions the model leaves opaque:
   * the API key, PHP's `urlencode`, and the interpolation of a float into a string.
   */
  datatype Env = Env(apiKey: string, urlEncode: string -> string, numberText: real -> string)

  /** One element of the nearby-search `results` list; absent optional keys are `None`. */
  datatype RawPlace = RawPlace(
    placeId: string,
    name: string,
    rating: Option<real>,
    userRatingsTotal: Option<int>,
    vicinity: Option<string>,
    openNow: Option<bool>,
    photoReferences: seq<string>,  // the `photo_reference` of each `photos` entry; empty when `photos` is unset
    types: Option<seq<string>>)

  datatype PhotoUrls = PhotoUrls(small: string, large: string)

  /** One record of the `data` list of an area search. */
  datatype Restaurant = Restaurant(
    placeId: string,
    name: string,
    rating: Option<real>,
    userRatingsTotal: int,
    address: string,
    openingHours: Option<seq<string>>,
    openNow: Option<bool>,
    photos: Option<seq<PhotoUrls>>,
    types: seq<string>,
    uberEatsUrl: Option<string>)

  // ---------------------------------------------------------------------------
  // getPlaceDetails: shaping a details response

  const UberEatsDomain := "ubereats.com"
  const UberEatsStorePrefix := "https://www." + UberEatsDomain + "/tw/store/"

  /** The synthesised store link `https://www.ubereats.com/tw/store/{name}-{lat}-{lng}`. */
  function StoreUrl(encodedName: string, loc: Location, env: Env): string {
    UberEatsStorePrefix + encodedName + "-" + env.numberText(loc.lat) + "-" + env.numberText(loc.lng)
  }

  /**
   * The ordering link of a details result. Without a location there is none.
   * With one, the name is read (a missing name raises) and the website lookup
   * is made: it may throw (which raises), fail (no link), or give a website,
   * used verbatim when it mentions ubereats.com and otherwise replaced by the
   * synthesised store link (a missing website counts as the empty string).
   */
  function OrderingUrl(result: DetailResult, website: Lookup<Option<string>>, env: Env): Attempt<Option<string>> {
    match result.location
    case None => Done(None)
    case Some(loc) =>
      match result.name
      case None => Raised
      case Some(name) =>
        match website
        case Threw => Raised
        case Unsuccessful => Done(None)
        case Successful(site) =>
          var w := site.GetOr("");
          if Contains(w, UberEatsDomain) then Done(Some(w))
          else Done(Some(StoreUrl(env.urlEncode(name), loc, env)))
  }

  /** The `weekday_text` of the opening hours, if any; opening hours without it raise. */
  function WeekdayText(hours: Option<OpeningHours>): Attempt<Option<seq<string>>> {
    match hours
    case None => Done(None)
    case Some(h) =>
      match h.weekdayText
      case None => Raised
      case Some(text) => Done(Some(text))
  }

  /**
   * What the details producer computes for one place: null when the main
   * lookup throws or is unsuccessful, or when anything raises afterwards (the
   * catch-all turns every exception into null); otherwise the shaped details.
   */
  function ShapeDetails(exchange: DetailExchange, env: Env): (r: Option<Details>)
    ensures r.Some? ==> exchange.details.Successful?
    ensures r.Some? ==> (r.value.rating == exchange.details.body.rating
                         && r.value.userRatingsTotal == exchange.details.body.userRatingsTotal)
  {
    match exchange.details
    case Threw => None
    case Unsuccessful => None
    case Successful(result) =>
      match OrderingUrl(result, exchange.website, env)
      case Raised => None
      case Done(url) =>
        match WeekdayText(result.openingHours)
        case Raised => None
        case Done(hours) =>
          Some(Details(result.formattedAddress, hours, result.rating, result.userRatingsTotal, url))
  }

  /**
   * The ordering-link rule, both directions: a shaped details value has no link
   * exactly when the result has no location or the website lookup was
   * unsuccessful; otherwise the link is the website when it mentions
   * ubereats.com, and the synthesised store link when it does not.
   */
  lemma OrderingUrlRule(exchange: DetailExchange, env: Env)
    requires ShapeDetails(exchange, env).Some?
    ensures exchange.details.Successful?
    ensures var result := exchange.details.body;
            var url := ShapeDetails(exchange, env).value.uberEatsUrl;
            && (url.None? <==> result.location.None? || exchange.website.Unsuccessful?)
            && (url.Some? ==>
                  && result.name.Some? && exchange.website.Successful?
                  && var w := exchange.website.body.GetOr("");
                     url.value == if Contains(w, UberEatsDomain) then w
                                  else StoreUrl(env.urlEncode(result.name.value), result.location.value, env))
  {
  }

  /** Every ordering link the details lookup produces points at ubereats.com. */
  lemma OrderingUrlOnUberEats(exchange: DetailExchange, env: Env)
    requires ShapeDetails(exchange, env).Some?
    requires ShapeDetails(exchange, env).value.uberEatsUrl.Some?
    ensures Contains(ShapeDetails(exchange, env).value.uberEatsUrl.value, UberEatsDomain)
  {
    var result := exchange.details.body;
    var w := exchange.website.body.GetOr("");
    if !Contains(w, UberEatsDomain) {
      var loc := result.location.value;
      var rest := env.urlEncode(result.name.value) + "-" + env.numberText(loc.lat) + "-" + env.numberText(loc.lng);
      var u := StoreUrl(env.urlEncode(result.name.value), loc, env);
      var scheme := "https://www.";
      assert u == scheme + UberEatsDomain + ("/tw/store/" + rest);
      assert u[|scheme|..|scheme| + |UberEatsDomain|] == UberEatsDomain;
      assert OccursAt(u, UberEatsDomain, 12);
      ContainsIff(u, UberEatsDomain);
    }
  }

  /**
   * The details lookup is null exactly when the main lookup failed or threw, a
   * location came without a name, the website lookup threw, or opening hours
   * came without weekday text; in every other case the address, opening
   * hours, rating and rating count are those of the result.
   */
  lemma DetailsNullCases(exchange: DetailExchange, env: Env)
    ensures ShapeDetails(exchange, env).None? <==>
              || !exchange.details.Successful?
              || var result := exchange.details.body;
                 || (result.location.Some? && (result.name.None? || exchange.website.Threw?))
                 || (result.openingHours.Some? && result.openingHours.value.weekdayText.None?)
    ensures ShapeDetails(exchange, env).Some? ==>
              var result := exchange.details.body;
              var d := ShapeDetails(exchange, env).value;
              && d.address == result.formattedAddress
              && d.rating == result.rating
              && d.userRatingsTotal == result.userRatingsTotal
              && d.openingHours == (if result.openingHours.Some? then result.openingHours.value.weekdayText else None)
  {
  }

  // ---------------------------------------------------------------------------
  // getPhotoUrl

  const PhotoEndpoint := "https://maps.googleapis.com/maps/api/place/photo?maxwidth="
  const SmallWidth: nat := 400
  const LargeWidth: nat := 800

  /** The photo URL for a photo reference at a maximum width. */
  function PhotoUrl(photoReference: string, maxWidth: nat, apiKey: string): string {
    PhotoEndpoint + DecimalText(maxWidth) + "&photo_reference=" + photoReference + "&key=" + apiKey
  }

  /**
   * Reads the photo reference back out of a photo URL, provided the URL is one
   * for the given width and key: it starts with the endpoint and that width,
   * and ends with that key.
   */
  function PhotoReferenceOf(url: string, maxWidth: nat, apiKey: string): Option<string> {
    var head := PhotoEndpoint + DecimalText(maxWidth) + "&photo_reference=";
    var tail := "&key=" + apiKey;
    if |head| + |tail| <= |url| && url[..|head|] == head && url[|url| - |tail|..] == tail
    then Some(url[|head|..|url| - |tail|])
    else None
  }

  /** The photo reference round-trips through its URL, so distinct photos give distinct URLs. */
  lemma PhotoReferenceRoundTrip(photoReference: string, maxWidth: nat, apiKey: string)
    ensures PhotoReferenceOf(PhotoUrl(photoReference, maxWidth, apiKey), maxWidth, apiKey) == Some(photoReference)
  {
    var head := PhotoEndpoint + DecimalText(maxWidth) + "&photo_reference=";
    var tail := "&key=" + apiKey;
    var url := PhotoUrl(photoReference, maxWidth, apiKey);
    assert url == head + photoReference + tail;
    assert url[..|head|] == head;
    assert url[|url| - |tail|..] == tail;
    assert url[|head|..|url| - |tail|] == photoReference;
  }

  /** A large photo URL is not read as a small one: the width is part of what is checked. */
  lemma PhotoWidthChecked(photoReference: string, apiKey: string)
    ensures PhotoReferenceOf(PhotoUrl(photoReference, LargeWidth, apiKey), SmallWidth, apiKey) == None
    ensures PhotoReferenceOf(PhotoUrl(photoReference, SmallWidth, apiKey), LargeWidth, apiKey) == None
  {
    var small := PhotoUrl(photoReference, SmallWidth, apiKey);
    var large := PhotoUrl(photoReference, LargeWidth, apiKey);
    assert DecimalText(4) == "4" && DecimalText(8) == "8";
    assert DecimalText(40) == "40" && DecimalText(80) == "80";
    assert DecimalText(SmallWidth) == "400" && DecimalText(LargeWidth) == "800";
    var smallHead := PhotoEndpoint + DecimalText(SmallWidth) + "&photo_reference=";
    var largeHead := PhotoEndpoint + DecimalText(LargeWidth) + "&photo_reference=";
    assert smallHead[|PhotoEndpoint|] == '4' && small[|PhotoEndpoint|] == '4';
    assert largeHead[|PhotoEndpoint|] == '8' && large[|PhotoEndpoint|] == '8';
    assert |smallHead| == |largeHead|;
    if |smallHead| <= |large| {
      assert large[..|smallHead|][|PhotoEndpoint|] == '8';
    }
    if |largeHead| <= |small| {
      assert small[..|largeHead|][|PhotoEndpoint|] == '4';
    }
  }

  /** The small and the large URL of one photo differ (widths 400 and 800). */
  lemma SmallAndLargeDiffer(photoReference: string, apiKey: string)
    ensures PhotoUrl(photoReference, SmallWidth, apiKey) != PhotoUrl(photoReference, LargeWidth, apiKey)
  {
    var small := PhotoUrl(photoReference, SmallWidth, apiKey);
    var large := PhotoUrl(photoReference, LargeWidth, apiKey);
    assert DecimalText(4) == "4" && DecimalText(8) == "8";
    assert DecimalText(40) == "40" && DecimalText(80) == "80";
    assert DecimalText(SmallWidth) == "400" && DecimalText(LargeWidth) == "800";
    assert small[|PhotoEndpoint|] == '4';
    assert large[|PhotoEndpoint|] == '8';
  }

  /** The `photos` entry of a record: only the first photo is used, at both widths. */
  function Photos(photoReferences: seq<string>, apiKey: string): Option<seq<PhotoUrls>> {
    if photoReferences == [] then None
    else
      var first := photoReferences[0];
      Some([PhotoUrls(PhotoUrl(first, SmallWidth, apiKey), PhotoUrl(first, LargeWidth, apiKey))])
  }

  /**
   * A place without photos gets null; otherwise exactly one entry, whose small
   * and large URLs carry the first photo's reference, and the other photos are
   * ignored.
   */
  lemma PhotosFromFirstOnly(photoReferences: seq<string>, apiKey: string)
    ensures Photos(photoReferences, apiKey).None? <==> photoReferences == []
    ensures photoReferences != [] ==>
              var entries := Photos(photoReferences, apiKey).value;
              && |entries| == 1
              && PhotoReferenceOf(entries[0].small, SmallWidth, apiKey) == Some(photoReferences[0])
              && PhotoReferenceOf(entries[0].large, LargeWidth, apiKey) == Some(photoReferences[0])
              && entries[0].small != entries[0].large
              && Photos(photoReferences, apiKey) == Photos(photoReferences[..1], apiKey)
  {
    if photoReferences != [] {
      PhotoReferenceRoundTrip(photoReferences[0], SmallWidth, apiKey);
      PhotoReferenceRoundTrip(photoReferences[0], LargeWidth, apiKey);
      SmallAndLargeDiffer(photoReferences[0], apiKey);
    }
  }

  // ---------------------------------------------------------------------------
  // The merged record

  /**
   * The record for a first-seen place: detail values are preferred and cell
   * values are the fallback, then null, 0 or the empty string; a null details
   * lookup behaves as details with every field absent.
   */
  function MakeRestaurant(place: RawPlace, placeDetails: Option<Details>, apiKey: string): Restaurant {
    var d := placeDetails.GetOr(NoDetails);
    Restaurant(
      place.placeId,
      place.name,
      d.rating.OrElse(place.rating),
      d.userRatingsTotal.OrElse(place.userRatingsTotal).GetOr(0),
      d.address.OrElse(place.vicinity).GetOr(""),
      d.openingHours,
      place.openNow,
      Photos(place.photoReferences, apiKey),
      place.types.GetOr([]),
      d.uberEatsUrl)
  }

  /**
   * When the details lookup is null the place is still returned, with every
   * field taken from the cell result or its default: rating from the cell or
   * null, rating count from the cell or 0, address from `vicinity` or '', and
   * no opening hours and no ordering link.
   */
  lemma NullDetailsFallBack(place: RawPlace, apiKey: string)
    ensures var r := MakeRestaurant(place, None, apiKey);
            && r.placeId == place.placeId && r.name == place.name
            && r.rating == place.rating
            && r.userRatingsTotal == place.userRatingsTotal.GetOr(0)
            && r.address == place.vicinity.GetOr("")
            && r.openingHours.None? && r.uberEatsUrl.None?
            && r.openNow == place.openNow
  {
  }

  /**
   * A value present in the details always wins over the cell's, and an absent
   * one falls back to the cell's value or its default; opening hours and the
   * ordering link come from the details only.
   */
  lemma DetailsPreferred(place: RawPlace, d: Details, apiKey: string)
    ensures var r := MakeRestaurant(place, Some(d), apiKey);
            && (d.rating.Some? ==> r.rating == d.rating)
            && (d.userRatingsTotal.Some? ==> r.userRatingsTotal == d.userRatingsTotal.value)
            && (d.address.Some? ==> r.address == d.address.value)
            && r.openingHours == d.openingHours
            && r.uberEatsUrl == d.uberEatsUrl
            && (d.rating.None? ==> r.rating == place.rating)
            && (d.userRatingsTotal.None? ==> r.userRatingsTotal == place.userRatingsTotal.GetOr(0))
            && (d.address.None? ==> r.address == place.vicinity.GetOr(""))
  {
  }
}
