/**
 * lib/coffee-stores.ts: the nearby-store fetcher. The photo search and the
 * places request are network calls; they are parameters here, as
 * functions from what is asked to what comes back.
 */
module CoffeeStores {
  import opened Js

  const NearbyPlacesUrl: string := "https://api.foursquare.com/v3/places/nearby"
  const DefaultLatLong: string := "51.5131768,-0.1399411"
  const DefaultLimit: int := 6
  const DefaultQuery: string := "coffee"

  /** What the photo search asks for. */
  datatype PhotoQuery = PhotoQuery(query: string, perPage: nat, orientation: string)

  const CoffeePhotoQuery: PhotoQuery := PhotoQuery("coffee cafe", 40, "landscape")

  datatype PhotoUrls = PhotoUrls(raw: string, full: string, regular: string, small: string, thumb: string)
  datatype Photo = Photo(urls: PhotoUrls)

  /** The photo search's answer: `response` is absent when the search reports an error. */
  datatype PhotoSearch = PhotoSearch(response: Option<seq<Photo>>)

  datatype PlaceLocation = PlaceLocation(formattedAddress: Option<string>, neighborhood: Option<seq<string>>)
  datatype Place = Place(fsqId: string, name: string, location: Option<PlaceLocation>)

  /** The places response's JSON: `results` is absent when the body has none. */
  datatype PlacesBody = PlacesBody(results: Option<seq<Place>>)

  /** A network call that either delivers its value or throws. */
  datatype Call<T> = Delivered(value: T) | Threw

  /** `imgUrl` is `undefined` (None) when there are fewer photos than places. */
  datatype CoffeeStore = CoffeeStore(
    id: string, name: string, imgUrl: Option<string>,
    websiteUrl: string, address: string, neighbourhood: string)

  /** `getUrlForCoffeeStores`: the values are pasted in without URL encoding. */
  function GetUrlForCoffeeStores(latLong: string, query: string, limit: int): string {
    NearbyPlacesUrl + "?ll=" + latLong + "&query=" + query + "&limit=" + IntToDecimal(limit)
  }

  /** Position of the first `c` in `s`. */
  function IndexOf(s: string, c: char): (i: nat)
    requires c in s
    ensures i < |s| && s[i] == c && c !in s[..i]
    decreases |s|
  {
    if s[0] == c then 0
    else
      assert c in s[1..];
      var k := IndexOf(s[1..], c);
      assert s[..k + 1] == [s[0]] + s[1..][..k];
      k + 1
  }

  lemma IndexOfFirst(a: string, c: char, b: string)
    requires c !in a
    ensures c in a + [c] + b && IndexOf(a + [c] + b, c) == |a|
  {
    var s := a + [c] + b;
    assert s[|a|] == c;
    assert s[..|a|] == a;
  }

  /** `s.split(sep)` for a one-character separator. */
  function Split(s: string, sep: char): (parts: seq<string>)
    ensures |parts| == multiset(s)[sep] + 1
    decreases |s|
  {
    if sep !in s then
      assert multiset(s)[sep] == 0;
      [s]
    else
      var i := IndexOf(s, sep);
      assert s == s[..i] + [sep] + s[i + 1..];
      assert multiset(s) == multiset(s[..i]) + multiset([sep]) + multiset(s[i + 1..]);
      assert multiset(s[..i])[sep] == 0;
      [s[..i]] + Split(s[i + 1..], sep)
  }

  lemma SplitCons(a: string, sep: char, b: string)
    requires sep !in a
    ensures Split(a + [sep] + b, sep) == [a] + Split(b, sep)
  {
    IndexOfFirst(a, sep, b);
    var s := a + [sep] + b;
    assert s[..|a|] == a;
    assert s[|a| + 1..] == b;
  }

  lemma SplitSingle(a: string, sep: char)
    requires sep !in a
    ensures Split(a, sep) == [a]
  {
  }

  /** A `key=value` pair, split at the first `=`. */
  function Parameter(part: string): (string, string) {
    if '=' in part then
      var i := IndexOf(part, '=');
      (part[..i], part[i + 1..])
    else (part, "")
  }

  /**
   * The query-string parameters of a URL, in order: the partner of
   * GetUrlForCoffeeStores. It splits at the first `?`, then at `&`, then
   * each part at its first `=`. Unlike a server's query parser it decodes
   * neither `%xx` nor `+`, and does not stop at a `#`.
   */
  function QueryParameters(url: string): (ps: seq<(string, string)>)
    ensures '?' in url ==> |ps| == multiset(url[IndexOf(url, '?') + 1..])['&'] + 1
  {
    var query := if '?' in url then url[IndexOf(url, '?') + 1..] else "";
    Parameters(Split(query, '&'))
  }

  function Parameters(parts: seq<string>): (ps: seq<(string, string)>)
    ensures |ps| == |parts|
  {
    seq(|parts|, i requires 0 <= i < |parts| => Parameter(parts[i]))
  }

  lemma ParameterOf(name: string, value: string)
    requires '=' !in name
    ensures Parameter(name + "=" + value) == (name, value)
  {
    IndexOfFirst(name, '=', value);
    var s := name + "=" + value;
    assert s == name + ['='] + value;
    assert s[..|name|] == name;
    assert s[|name| + 1..] == value;
  }

  /** The query string of the request URL. */
  function QueryStringOf(latLong: string, query: string, limit: int): string {
    "ll=" + latLong + "&query=" + query + "&limit=" + IntToDecimal(limit)
  }

  lemma UrlSplitsAtQuestionMark(latLong: string, query: string, limit: int)
    ensures var url := GetUrlForCoffeeStores(latLong, query, limit);
      && '?' in url
      && url[..IndexOf(url, '?')] == NearbyPlacesUrl
      && url[IndexOf(url, '?') + 1..] == QueryStringOf(latLong, query, limit)
  {
    var digits := IntToDecimal(limit);
    assert "?ll=" == ['?'] + "ll=";
    assert '?' !in NearbyPlacesUrl;
    Regroup5(NearbyPlacesUrl, "ll=", latLong, "&query=", query, "&limit=", digits, '?');
    SplitsAtFirst(NearbyPlacesUrl, '?', QueryStringOf(latLong, query, limit));
  }

  lemma Regroup5(x0: string, x1: string, x2: string, x3: string, x4: string, x5: string, x6: string, c: char)
    ensures x0 + ([c] + x1) + x2 + x3 + x4 + x5 + x6 == x0 + [c] + (x1 + x2 + x3 + x4 + x5 + x6)
  {
  }

  /** A string cut at the first `c`: what precedes it and what follows it. */
  lemma SplitsAtFirst(a: string, c: char, b: string)
    requires c !in a
    ensures var s := a + [c] + b;
      c in s && s[..IndexOf(s, c)] == a && s[IndexOf(s, c) + 1..] == b
  {
    IndexOfFirst(a, c, b);
    var s := a + [c] + b;
    assert s[..|a|] == a;
    assert s[|a| + 1..] == b;
  }

  lemma LimitPartHasNoAmpersand(limit: int)
    ensures '&' !in "limit=" + IntToDecimal(limit)
  {
    var digits := IntToDecimal(limit);
    var p3 := "limit=" + digits;
    forall k | 0 <= k < |p3| ensures p3[k] != '&' {
      if k >= 6 { assert p3[k] == digits[k - 6]; }
    }
  }

  lemma Regroup(x1: string, x2: string, x3: string, x4: string, x5: string, x6: string, c: char)
    ensures x1 + x2 + ([c] + x3) + x4 + ([c] + x5) + x6 == (x1 + x2) + [c] + ((x3 + x4) + [c] + (x5 + x6))
  {
  }

  /** The query string is its three `name=value` parts joined by `&`. */
  lemma QueryStringIsParts(latLong: string, query: string, limit: int)
    ensures QueryStringOf(latLong, query, limit)
      == ("ll=" + latLong) + ['&'] + (("query=" + query) + ['&'] + ("limit=" + IntToDecimal(limit)))
  {
    assert "&query=" == ['&'] + "query=";
    assert "&limit=" == ['&'] + "limit=";
    Regroup("ll=", latLong, "query=", query, "limit=", IntToDecimal(limit), '&');
  }

  lemma SplitThree(p1: string, p2: string, p3: string, sep: char)
    requires sep !in p1 && sep !in p2 && sep !in p3
    ensures Split(p1 + [sep] + (p2 + [sep] + p3), sep) == [p1, p2, p3]
  {
    SplitCons(p1, sep, p2 + [sep] + p3);
    SplitCons(p2, sep, p3);
    SplitSingle(p3, sep);
  }

  lemma NamedPartHasNoAmpersand(name: string, value: string)
    requires '&' !in name && '&' !in value
    ensures '&' !in name + "=" + value
  {
  }

  lemma QueryStringParts(latLong: string, query: string, limit: int)
    requires '&' !in latLong && '&' !in query
    ensures Split(QueryStringOf(latLong, query, limit), '&')
      == ["ll=" + latLong, "query=" + query, "limit=" + IntToDecimal(limit)]
  {
    LimitPartHasNoAmpersand(limit);
    assert "ll=" == "ll" + "=" && "query=" == "query" + "=";
    NamedPartHasNoAmpersand("ll", latLong);
    NamedPartHasNoAmpersand("query", query);
    QueryStringIsParts(latLong, query, limit);
    SplitThree("ll=" + latLong, "query=" + query, "limit=" + IntToDecimal(limit), '&');
  }

  lemma QueryStringAmpersands(latLong: string, query: string, limit: int)
    requires '&' in latLong || '&' in query
    ensures multiset(QueryStringOf(latLong, query, limit))['&'] > 2
  {
    var p1 := "ll=" + latLong;
    var p2 := "query=" + query;
    assert '&' in latLong ==> '&' in p1 by {
      if '&' in latLong {
        var k :| 0 <= k < |latLong| && latLong[k] == '&';
        assert p1[k + 3] == '&';
      }
    }
    assert '&' in query ==> '&' in p2 by {
      if '&' in query {
        var k :| 0 <= k < |query| && query[k] == '&';
        assert p2[k + 6] == '&';
      }
    }
    QueryStringIsParts(latLong, query, limit);
    JoinedAmpersands(p1, p2, "limit=" + IntToDecimal(limit), '&');
  }

  /** Two separators plus at least one inside the first two parts. */
  lemma JoinedAmpersands(p1: string, p2: string, p3: string, sep: char)
    requires sep in p1 || sep in p2
    ensures multiset(p1 + [sep] + (p2 + [sep] + p3))[sep] > 2
  {
    assert multiset(p1 + [sep] + (p2 + [sep] + p3))
      == multiset(p1) + multiset([sep]) + (multiset(p2) + multiset([sep]) + multiset(p3));
    assert multiset(p1)[sep] > 0 || multiset(p2)[sep] > 0;
  }

  /**
   * The request URL is the places endpoint followed by `?`, and its query
   * reads back as exactly the three parameters `ll`, `query` and `limit`
   * with the values given precisely when neither `latLong` nor `query`
   * holds an `&`: nothing is encoded.
   */
  lemma UrlCarriesArguments(latLong: string, query: string, limit: int)
    ensures var url := GetUrlForCoffeeStores(latLong, query, limit);
      QueryParameters(url) == [("ll", latLong), ("query", query), ("limit", IntToDecimal(limit))]
      <==> ('&' !in latLong && '&' !in query)
  {
    var parts := Split(QueryStringOf(latLong, query, limit), '&');
    UrlParametersAreParts(latLong, query, limit);
    if '&' !in latLong && '&' !in query {
      QueryStringParts(latLong, query, limit);
      PartsReadBack(latLong, query, IntToDecimal(limit));
    } else {
      QueryStringAmpersands(latLong, query, limit);
    }
  }

  lemma UrlParametersAreParts(latLong: string, query: string, limit: int)
    ensures QueryParameters(GetUrlForCoffeeStores(latLong, query, limit))
      == Parameters(Split(QueryStringOf(latLong, query, limit), '&'))
  {
    UrlSplitsAtQuestionMark(latLong, query, limit);
  }

  lemma PartsReadBack(latLong: string, query: string, limit: string)
    ensures Parameters(["ll=" + latLong, "query=" + query, "limit=" + limit])
      == [("ll", latLong), ("query", query), ("limit", limit)]
  {
    var parts := ["ll=" + latLong, "query=" + query, "limit=" + limit];
    NamedParameter("ll", latLong);
    NamedParameter("query", query);
    NamedParameter("limit", limit);
    assert parts[0] == "ll" + "=" + latLong;
    assert parts[1] == "query" + "=" + query;
    assert parts[2] == "limit" + "=" + limit;
    assert Parameters(parts)[0] == Parameter(parts[0]);
    assert Parameters(parts)[1] == Parameter(parts[1]);
    assert Parameters(parts)[2] == Parameter(parts[2]);
  }

  lemma NamedParameter(name: string, value: string)
    requires name in {"ll", "query", "limit"}
    ensures Parameter(name + "=" + value) == (name, value)
  {
    assert name + "=" + value == name + ['='] + value;
    ParameterOf(name, value);
  }

  /**
   * `getListOfCoffeeStorePhotos`: the `small` URL of every result, in
   * order; none when the search answered no response.
   */
  function ListOfCoffeeStorePhotos(search: PhotoSearch): (urls: seq<string>)
    ensures search.response.None? ==> urls == []
    ensures search.response.Some? ==> |urls| == |search.response.value|
    ensures search.response.Some? ==>
      forall i :: 0 <= i < |urls| ==> urls[i] == search.response.value[i].urls.small
  {
    match search.response
    case None => []
    case Some(results) => SmallUrls(results)
  }

  function SmallUrls(results: seq<Photo>): (urls: seq<string>)
    ensures |urls| == |results|
    ensures forall i :: 0 <= i < |urls| ==> urls[i] == results[i].urls.small
    decreases |results|
  {
    if results == [] then [] else [results[0].urls.small] + SmallUrls(results[1..])
  }

  /** The store built from the idx-th place, paired with the idx-th photo. */
  function ToCoffeeStore(place: Place, photos: seq<string>, idx: nat): CoffeeStore {
    var address :=
      if place.location.Some? && place.location.value.formattedAddress.Some?
      then place.location.value.formattedAddress.value else "";
    var neighbourhood :=
      if place.location.Some? && place.location.value.neighborhood.Some?
      then Join(place.location.value.neighborhood.value, ", ") else "";
    CoffeeStore(place.fsqId, place.name, if idx < |photos| then Some(photos[idx]) else None, "", address, neighbourhood)
  }

  /**
   * `fetchCoffeeStores`: absent arguments take their defaults; photos are
   * fetched first, then the places for the URL built from the arguments;
   * any throw, including `.map` on absent results, gives no stores.
   */
  function FetchCoffeeStores(
    latLong: Option<string>, limit: Option<int>, query: Option<string>,
    searchPhotos: PhotoQuery -> Call<PhotoSearch>,
    fetchPlaces: string -> Call<PlacesBody>): (stores: seq<CoffeeStore>)
    ensures var url := GetUrlForCoffeeStores(
        if latLong.Some? then latLong.value else DefaultLatLong,
        if query.Some? then query.value else DefaultQuery,
        if limit.Some? then limit.value else DefaultLimit);
      var photos := searchPhotos(CoffeePhotoQuery);
      var places := fetchPlaces(url);
      && (photos.Threw? || places.Threw? || places.value.results.None? ==> stores == [])
      && (photos.Delivered? && places.Delivered? && places.value.results.Some? ==>
          var ps := places.value.results.value;
          var urls := ListOfCoffeeStorePhotos(photos.value);
          && |stores| == |ps|
          && forall i :: 0 <= i < |ps| ==>
               && stores[i] == ToCoffeeStore(ps[i], urls, i)
               && stores[i].id == ps[i].fsqId
               && stores[i].name == ps[i].name
               && stores[i].imgUrl == (if i < |urls| then Some(urls[i]) else None)
               && stores[i].websiteUrl == "")
  {
    var ll := if latLong.Some? then latLong.value else DefaultLatLong;
    var n := if limit.Some? then limit.value else DefaultLimit;
    var q := if query.Some? then query.value else DefaultQuery;
    match searchPhotos(CoffeePhotoQuery)
    case Threw => []
    case Delivered(search) =>
      var photos := ListOfCoffeeStorePhotos(search);
      match fetchPlaces(GetUrlForCoffeeStores(ll, q, n))
      case Threw => []
      case Delivered(body) =>
        match body.results
        case None => []
        case Some(places) =>
          seq(|places|, i requires 0 <= i < |places| => ToCoffeeStore(places[i], photos, i))
  }

  /**
   * A store's address is the place's formatted address when it has a
   * non-empty one, else empty; its neighbourhood is the neighbourhood
   * list joined with ", " when there is one, else empty.
   */
  lemma StoreAddressDefaults(place: Place, photos: seq<string>, idx: nat)
    ensures var s := ToCoffeeStore(place, photos, idx);
      && (place.location.None? || place.location.value.formattedAddress.None? ==> s.address == "")
      && (place.location.Some? && place.location.value.formattedAddress.Some? ==>
            s.address == place.location.value.formattedAddress.value)
      && (place.location.None? || place.location.value.neighborhood.None? ==> s.neighbourhood == "")
      && (place.location.Some? && place.location.value.neighborhood.Some? ==>
            s.neighbourhood == Join(place.location.value.neighborhood.value, ", "))
      && s.imgUrl == (if idx < |photos| then Some(photos[idx]) else None)
  {
  }
}
