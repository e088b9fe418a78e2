/** Geographic data of a session (main.js:140-155, 300-340): regions and
    their coordinates, the backfill done when a country file is loaded, the
    built-in fallback, and the choice of a region. */
module Geo {
  import opened Wrappers
  import opened Text
  import opened Oracle

  /** A point of a region (`labelText` is the source's `label`); `weight` is
      absent when the data gives none. */
  datatype Coordinate = Coordinate(lat: real, lng: real, labelText: Option<string>, weight: Option<real>)

  /** A named region; its centre may be missing from the data. A missing
      `coords` list is the empty list. */
  datatype Region = Region(name: string, tz: string, lat: Option<real>, lng: Option<real>, coords: seq<Coordinate>)

  /** The country record of a geo file. A missing `regions` list is the empty list. */
  datatype GeoData = GeoData(
    country: string, name: string, defaultLang: string, googleUrl: string, defaultTz: string,
    regions: seq<Region>)

  datatype RegionMode = Rotating | Fixed

  const DefaultRegion := Region(
    "Buenos Aires", "America/Argentina/Buenos_Aires", Some(-34.6037), Some(-58.3816),
    [Coordinate(-34.6037, -58.3816, Some("centro"), None)])

  const DefaultGeo := GeoData(
    "AR", "Argentina", "es-AR", "https://www.google.com/search", "America/Argentina/Buenos_Aires",
    [DefaultRegion])

  /** The region fix-up of `loadCountryGeo`: a falsy centre coordinate is
      taken from the first coordinate, when there is one. */
  function BackfillRegion(r: Region): Region {
    var lat := if !TruthyNumber(r.lat) && r.coords != [] then Some(r.coords[0].lat) else r.lat;
    var lng := if !TruthyNumber(r.lng) && r.coords != [] then Some(r.coords[0].lng) else r.lng;
    r.(lat := lat, lng := lng)
  }

  /** A region with coordinates has a centre after the backfill; a truthy
      centre is kept; nothing else changes; a second backfill changes nothing. */
  lemma BackfillProperties(r: Region)
    ensures var b := BackfillRegion(r);
      && b.name == r.name && b.tz == r.tz && b.coords == r.coords
      && (TruthyNumber(r.lat) ==> b.lat == r.lat)
      && (TruthyNumber(r.lng) ==> b.lng == r.lng)
      && (r.coords != [] ==> b.lat.Some? && b.lng.Some?)
      && (r.coords != [] && !TruthyNumber(r.lat) ==> b.lat == Some(r.coords[0].lat))
      && (r.coords != [] && !TruthyNumber(r.lng) ==> b.lng == Some(r.coords[0].lng))
      && (r.coords == [] ==> b == r)
      && BackfillRegion(b) == b
  {
  }

  /** `loadCountryGeo`. `parsed` is the outcome of reading and parsing the
      country file (None: missing, unreadable or not JSON). A parsed record
      has each region backfilled in place; otherwise the built-in record is
      returned under the requested country code. */
  method LoadCountryGeo(countryCode: string, parsed: Option<GeoData>) returns (geo: GeoData)
    ensures parsed.None? ==> geo == DefaultGeo.(country := countryCode, name := countryCode)
    ensures parsed.None? ==> geo.country == countryCode && geo.regions == [DefaultRegion] && DefaultRegion.coords != []
    ensures parsed.Some? ==>
              && geo == parsed.value.(regions := geo.regions)
              && |geo.regions| == |parsed.value.regions|
              && forall i :: 0 <= i < |geo.regions| ==> geo.regions[i] == BackfillRegion(parsed.value.regions[i])
  {
    if parsed.None? {
      return DefaultGeo.(country := countryCode, name := countryCode);
    }
    var regions: seq<Region> := [];
    var source := parsed.value.regions;
    for i := 0 to |source|
      invariant |regions| == i
      invariant forall j :: 0 <= j < i ==> regions[j] == BackfillRegion(source[j])
    {
      regions := regions + [BackfillRegion(source[i])];
    }
    geo := parsed.value.(regions := regions);
  }

  /** The comparison form of a region name: lowercased, then accent-stripped
      by `fold` (the source's NFD-based `removerAcentos`). */
  function Normalize(fold: string -> string, s: string): string {
    fold(Lower(s))
  }

  /** The `find` predicate of fixed mode: the normalised name equals or
      contains the normalised target. */
  predicate NameMatches(fold: string -> string, region: Region, target: string) {
    Normalize(fold, region.name) == target || Contains(Normalize(fold, region.name), target)
  }

  /** `Array.prototype.find` for `NameMatches`: the first matching index. */
  function FindRegion(regions: seq<Region>, fold: string -> string, target: string): (k: Option<nat>)
    ensures k.Some? ==> k.value < |regions| && NameMatches(fold, regions[k.value], target)
    ensures k.Some? ==> forall j :: 0 <= j < k.value ==> !NameMatches(fold, regions[j], target)
    ensures k.None? ==> forall j :: 0 <= j < |regions| ==> !NameMatches(fold, regions[j], target)
    decreases |regions|
  {
    if regions == [] then None
    else if NameMatches(fold, regions[0], target) then Some(0)
    else
      match FindRegion(regions[1..], fold, target)
      case None => None
      case Some(j) => Some(j + 1)
  }

  /** `pickProvince`: the built-in region when there are none; in fixed mode
      with a non-empty name, the first region whose normalised name equals or
      contains the normalised name; otherwise the region at a random index
      (`u` is the `Math.random()` draw). */
  function PickProvince(regions: seq<Region>, mode: RegionMode, provinceName: string,
                        fold: string -> string, u: real): (r: Region)
    requires IsUnit(u)
    ensures regions == [] ==> r == DefaultRegion
    ensures regions != [] ==> r in regions
    ensures regions != [] && mode == Fixed && provinceName != ""
            && (exists k :: 0 <= k < |regions| && NameMatches(fold, regions[k], Normalize(fold, provinceName)))
            ==> exists k :: 0 <= k < |regions| && r == regions[k]
                  && NameMatches(fold, regions[k], Normalize(fold, provinceName))
                  && forall j :: 0 <= j < k ==> !NameMatches(fold, regions[j], Normalize(fold, provinceName))
    ensures regions != [] && (mode == Rotating || provinceName == "") ==> r == regions[RandomIndex(u, |regions|)]
    ensures regions != [] && mode == Fixed && provinceName != ""
            && (forall k :: 0 <= k < |regions| ==> !NameMatches(fold, regions[k], Normalize(fold, provinceName)))
            ==> r == regions[RandomIndex(u, |regions|)]
  {
    if regions == [] then DefaultRegion
    else
      var found := if mode == Fixed && provinceName != ""
                   then FindRegion(regions, fold, Normalize(fold, provinceName)) else None;
      if found.Some? then regions[found.value] else regions[RandomIndex(u, |regions|)]
  }
}
