/**
  The network-backed backends of api/services/real.py, with the HTTP exchange taken out:
  each backend builds its request, a `network` function (the outside world) answers it,
  and what remains is the interpretation of that answer.
 */
module Real {
  import opened Base
  import Text

  // ---------------------------------------------------------------------------
  // Geocoder (Nominatim)

  const NominatimUrl: string := "https://nominatim.openstreetmap.org/search?"

  /** The query parameters sent to the geocoder (headers and timeout are not modelled). */
  datatype NominatimRequest = NominatimRequest(url: string, q: string, format: string)

  /** One candidate place of the JSON array; a key that is absent is None. */
  datatype Candidate = Candidate(lat: Option<string>, lon: Option<string>)

  datatype NominatimBody = Candidates(places: seq<Candidate>) | NotJson

  /** What the HTTP call yields: a transport failure, or a reply with its status line and body. */
  datatype NominatimResponse =
    | NominatimRequestFailed
    | NominatimReply(status: int, reason: string, body: NominatimBody)

  type NominatimNetwork = NominatimRequest -> NominatimResponse

  /** `" ".join([street, str(house_number), "תל", "אביב"])`. */
  function NominatimQuery(street: string, houseNumber: string): (q: string)
    ensures q == street + " " + houseNumber + " " + "תל" + " " + "אביב"
  {
    var parts := [street, houseNumber, "תל", "אביב"];
    assert parts[1..] == [houseNumber, "תל", "אביב"] && parts[1..][1..] == ["תל", "אביב"];
    assert parts[1..][1..][1..] == ["אביב"];
    assert Text.Join(" ", parts[1..][1..]) == "תל" + " " + "אביב";
    assert Text.Join(" ", parts[1..]) == houseNumber + " " + "תל" + " " + "אביב";
    Text.Join(" ", parts)
  }

  function NominatimRequestFor(street: string, houseNumber: string): (req: NominatimRequest)
    ensures req.url == NominatimUrl && req.format == "json"
    ensures req.q == street + " " + houseNumber + " " + "תל" + " " + "אביב"
  {
    NominatimRequest(NominatimUrl, NominatimQuery(street, houseNumber), "json")
  }

  /** httpx's `raise_for_status` accepts exactly the 2xx statuses. */
  predicate IsSuccess(status: int)
  {
    200 <= status < 300
  }

  /** `place.get('lat') and place.get('lon')`: both present and non-empty. */
  predicate Qualifies(c: Candidate)
  {
    c.lat.Some? && c.lat.value != "" && c.lon.Some? && c.lon.value != ""
  }

  /** The dictionary comprehension of real.py: original index -> (lon, lat) of every qualifying candidate. */
  function QualifyingPlaces(places: seq<Candidate>): (m: map<int, Coordinate>)
    ensures forall i :: i in m ==> 0 <= i < |places| && Qualifies(places[i])
    ensures forall i :: 0 <= i < |places| && Qualifies(places[i]) ==>
              i in m && m[i] == [places[i].lon.value, places[i].lat.value]
  {
    map i | 0 <= i < |places| && Qualifies(places[i]) :: [places[i].lon.value, places[i].lat.value]
  }

  /**
    `RealNominativeQuery.fetch_data` after the HTTP call: the error table, then the
    lookup of key 0 in the map of qualifying candidates.
   */
  function InterpretNominatim(response: NominatimResponse): (r: Result<Coordinate>)
    ensures response.NominatimRequestFailed? ==> r == Err(ErrorResponse("Nominatim request failed", 500))
    ensures response.NominatimReply? && !IsSuccess(response.status) ==>
              r == Err(ErrorResponse("Nominatim API error: " + Text.IntToString(response.status) + " " + response.reason,
                                     response.status))
    ensures response.NominatimReply? && IsSuccess(response.status) && response.body.NotJson? ==>
              r == Err(ErrorResponse("Invalid JSON response from Nominatim", 500))
  {
    match response
    case NominatimRequestFailed => Err(ErrorResponse("Nominatim request failed", 500))
    case NominatimReply(status, reason, body) =>
      if !IsSuccess(status) then
        Err(ErrorResponse("Nominatim API error: " + Text.IntToString(status) + " " + reason, status))
      else
        match body
        case NotJson => Err(ErrorResponse("Invalid JSON response from Nominatim", 500))
        case Candidates(places) => SelectCandidate(places)
  }

  /** `if not data`, the comprehension, `if not places`, `return places[0]`. */
  function SelectCandidate(places: seq<Candidate>): (r: Result<Coordinate>)
    ensures places == [] ==> r == Err(ErrorResponse("could not locate address", 500))
    ensures places != [] && (forall i :: 0 <= i < |places| ==> !Qualifies(places[i])) ==>
              r == Err(ErrorResponse("No valid lat/lon found in Nominatim results", 500))
    ensures r.Ok? <==> places != [] && Qualifies(places[0])
    ensures r.Ok? ==> r.value == [places[0].lon.value, places[0].lat.value]
    ensures (exists i :: 0 < i < |places| && Qualifies(places[i])) && !Qualifies(places[0]) ==>
              r == Err(Raised(KeyError(0)))
  {
    if places == [] then Err(ErrorResponse("could not locate address", 500))
    else
      var found := QualifyingPlaces(places);
      if found == map[] then
        Err(ErrorResponse("No valid lat/lon found in Nominatim results", 500))
      else if 0 in found then Ok(found[0])
      else Err(Raised(KeyError(0)))
  }

  /** `RealNominativeQuery().fetch_data(street, house_number)` against a given network. */
  function RealNominativeFetch(network: NominatimNetwork, street: string, houseNumber: string): Result<Coordinate>
  {
    InterpretNominatim(network(NominatimRequestFor(street, houseNumber)))
  }

  /** Every failure of the real geocoder is an error response carrying status 500 or the HTTP status. */
  lemma NominatimFailureStatus(response: NominatimResponse)
    ensures InterpretNominatim(response).Err? && InterpretNominatim(response).failure.ErrorResponse? ==>
              InterpretNominatim(response).failure.status == 500 ||
              (response.NominatimReply? && !IsSuccess(response.status) &&
               InterpretNominatim(response).failure.status == response.status)
    ensures InterpretNominatim(response).Err? && InterpretNominatim(response).failure.Raised? ==>
              InterpretNominatim(response).failure.exception == KeyError(0)
  {
  }

  /** A success is `(lon, lat)` of candidate 0 of a 2xx reply, and nothing else succeeds. */
  lemma NominatimSuccess(response: NominatimResponse)
    ensures InterpretNominatim(response).Ok? <==>
              response.NominatimReply? && IsSuccess(response.status) && response.body.Candidates? &&
              response.body.places != [] && Qualifies(response.body.places[0])
    ensures InterpretNominatim(response).Ok? ==>
              InterpretNominatim(response).value
              == [response.body.places[0].lon.value, response.body.places[0].lat.value]
  {
  }

  /** The real geocoder always returns a pair: the shape check of handle_address never fires for it. */
  lemma RealNominativeReturnsPair(network: NominatimNetwork)
    ensures ReturnsPair((street, houseNumber) => RealNominativeFetch(network, street, houseNumber))
  {
  }

  /**
    The real geocoder RETURNS its error responses instead of raising DataRetrievalError as the
    interface of base.py states: an empty reply shows it.
   */
  lemma RealNominativeDoesNotRaise()
    ensures var emptyReply := (request: NominatimRequest) => NominatimReply(200, "OK", Candidates([]));
            !FailsByRaising((street, houseNumber) => RealNominativeFetch(emptyReply, street, houseNumber))
  {
    var emptyReply := (request: NominatimRequest) => NominatimReply(200, "OK", Candidates([]));
    var fetch := (street: string, houseNumber: string) => RealNominativeFetch(emptyReply, street, houseNumber);
    assert fetch("", "").failure == ErrorResponse("could not locate address", 500);
  }

  /**
    The reply of tests/test_real_services.py:205-229 (first candidate without coordinates, second
    with them): the test expects the second candidate, but looking up key 0 raises KeyError.
   */
  lemma FirstCandidateWithoutCoordinates()
    ensures SelectCandidate([Candidate(None, None), Candidate(Some("32.0698820"), Some("34.7735910"))])
         == Err(Raised(KeyError(0)))
  {
    var places := [Candidate(None, None), Candidate(Some("32.0698820"), Some("34.7735910"))];
    assert Qualifies(places[1]);
  }

  // ---------------------------------------------------------------------------
  // Feature query (GISN)

  const GisnUrl: string := "https://gisn.tel-aviv.gov.il/arcgis/rest/services/WM/IView2WM/MapServer/772/query?"

  /** The attribute fields the feature query asks for. */
  const OutFieldNames: seq<string> := ["addresses", "building_stage", "sw_tama_38"]

  /**
    The feature-query request: the point geometry `{"x": ..., "y": ...}` and every other
    query parameter by name.
   */
  datatype GisnRequest = GisnRequest(url: string, x: Ordinate, y: Ordinate, params: map<string, string>)

  /** The decoded 200 body: a JSON object whose "features" key may be missing. */
  datatype GisnBody = FeatureObject(features: Option<seq<Place>>) | GisnNotJson

  datatype GisnResponse =
    | GisnRequestFailed(error: string)
    | GisnReply(status: int, text: string, body: GisnBody)

  type GisnNetwork = GisnRequest -> GisnResponse

  /** The query parameters of real.py that do not depend on the request. */
  const FixedGisnParams: map<string, string> := map[
    "where" := "1=1", "text" := "", "objectIds" := "", "time" := "",
    "timeRelation" := "esriTimeRelationOverlaps",
    "geometryType" := "esriGeometryPoint", "inSR" := "4326",
    "spatialRel" := "esriSpatialRelIntersects",
    "units" := "esriSRUnit_Meter", "relationParam" := "",
    "returnGeometry" := "false", "returnTrueCurves" := "false",
    "maxAllowableOffset" := "", "geometryPrecision" := "", "outSR" := "",
    "havingClause" := "", "returnIdsOnly" := "false", "returnCountOnly" := "false",
    "orderByFields" := "", "groupByFieldsForStatistics" := "", "outStatistics" := "",
    "returnZ" := "false", "returnM" := "false", "gdbVersion" := "", "historicMoment" := "",
    "returnDistinctValues" := "false", "resultOffset" := "", "resultRecordCount" := "",
    "returnExtentOnly" := "false", "sqlFormat" := "none", "datumTransformation" := "",
    "parameterValues" := "", "rangeValues" := "", "quantizationParameters" := "",
    "featureEncoding" := "esriDefault", "f" := "pjson"
  ]

  /** `",".join(["addresses", "building_stage", "sw_tama_38"])`. */
  function OutFieldsParam(): (s: string)
    ensures s == "addresses" + "," + "building_stage" + "," + "sw_tama_38"
  {
    var fields := OutFieldNames;
    assert fields[1..] == ["building_stage", "sw_tama_38"] && fields[1..][1..] == ["sw_tama_38"];
    Text.Join(",", fields)
  }

  /**
    The feature-query request for a coordinate and radius: the point geometry from the first
    two components, and every query parameter other than `geometry` by name.
   */
  function GisnRequestFor(coordinate: Coordinate, radius: int): (req: GisnRequest)
    requires |coordinate| >= 2
    ensures req.url == GisnUrl
    ensures req.x == coordinate[0] && req.y == coordinate[1]
    ensures "distance" in req.params && req.params["distance"] == Text.IntToString(radius)
    ensures "outFields" in req.params && req.params["outFields"] == "addresses" + "," + "building_stage" + "," + "sw_tama_38"
    ensures forall k :: k in FixedGisnParams && k != "distance" && k != "outFields" ==>
              k in req.params && req.params[k] == FixedGisnParams[k]
    ensures req.params.Keys == FixedGisnParams.Keys + {"distance", "outFields"}
  {
    var params := FixedGisnParams + map["distance" := Text.IntToString(radius), "outFields" := OutFieldsParam()];
    GisnRequest(GisnUrl, coordinate[0], coordinate[1], params)
  }

  /** The fixed parameters ask for intersecting features within a distance in meters, without geometry. */
  lemma FixedGisnParamsSelectPointBuffer()
    ensures "spatialRel" in FixedGisnParams && FixedGisnParams["spatialRel"] == "esriSpatialRelIntersects"
    ensures "units" in FixedGisnParams && FixedGisnParams["units"] == "esriSRUnit_Meter"
    ensures "returnGeometry" in FixedGisnParams && FixedGisnParams["returnGeometry"] == "false"
    ensures "inSR" in FixedGisnParams && FixedGisnParams["inSR"] == "4326"
    ensures "outSR" in FixedGisnParams && FixedGisnParams["outSR"] == ""
  {
  }

  /** `RealGISNQuery.fetch_data` after the HTTP call. */
  function InterpretGisn(response: GisnResponse): (r: Result<seq<Place>>)
    ensures response.GisnRequestFailed? ==>
              r == Err(ErrorResponse("GISN API request failed:  " + response.error, 503))
    ensures response.GisnReply? && response.status != 200 ==>
              r == Err(ErrorResponse("GISN API error: " + Text.IntToString(response.status) + " " + response.text,
                                     response.status))
    ensures r.Ok? <==> response.GisnReply? && response.status == 200 && response.body.FeatureObject?
    ensures r.Ok? ==> r.value == match response.body.features case Some(fs) => fs case None => []
  {
    match response
    case GisnRequestFailed(error) => Err(ErrorResponse("GISN API request failed:  " + error, 503))
    case GisnReply(status, text, body) =>
      if status != 200 then
        Err(ErrorResponse("GISN API error: " + Text.IntToString(status) + " " + text, status))
      else
        match body
        case GisnNotJson => Err(Raised(JsonDecodeError))
        case FeatureObject(Some(features)) => Ok(features)
        case FeatureObject(None) => Ok([])
  }

  /** `RealGISNQuery().fetch_data(coordinate, radius)`; indexing a too-short tuple raises first. */
  function RealGisnFetch(network: GisnNetwork, coordinate: Coordinate, radius: int): (r: Result<seq<Place>>)
    ensures |coordinate| < 2 ==> r == Err(Raised(IndexError("tuple index out of range")))
  {
    if |coordinate| < 2 then Err(Raised(IndexError("tuple index out of range")))
    else InterpretGisn(network(GisnRequestFor(coordinate, radius)))
  }

  /** A 200 reply whose object lacks "features" is zero features, not an error; so is `{"features": []}`. */
  lemma GisnMissingFeaturesIsEmpty(text: string)
    ensures InterpretGisn(GisnReply(200, text, FeatureObject(None))) == Ok([])
    ensures InterpretGisn(GisnReply(200, text, FeatureObject(Some([])))) == Ok([])
  {
  }

  /** Transport failures and error statuses never pass for an empty feature list. */
  lemma GisnFailuresAreNotEmptySuccess(response: GisnResponse)
    requires response.GisnRequestFailed? || response.status != 200
    ensures InterpretGisn(response).Err? && InterpretGisn(response).failure.ErrorResponse?
    ensures InterpretGisn(response).failure.status == (if response.GisnRequestFailed? then 503 else response.status)
  {
  }
}
