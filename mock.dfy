/**
  The fixture-backed backends of api/services/mock.py: constant answers, whatever the
  address, coordinate or radius. The JSON texts of the source are given here already
  parsed.
 */
module Mock {
  import opened Base
  import Real
  import Services

  /** The two candidates of the geocoder fixture (only their lat/lon fields matter). */
  const MockNominatimCandidates: seq<Real.Candidate> := [
    Real.Candidate(Some("32.062745"), Some("34.770447")),
    Real.Candidate(Some("32.064218"), Some("34.775547"))
  ]

  /** `MockNominativeQuery.fetch_data`: `(lon, lat)` of fixture candidate 0. */
  function MockNominativeFetch(street: string, houseNumber: string): (r: Result<Coordinate>)
    ensures r.Ok? && |r.value| == 2
    ensures r.value[0] == MockNominatimCandidates[0].lon.value && r.value[1] == MockNominatimCandidates[0].lat.value
  {
    var first := MockNominatimCandidates[0];
    Ok([first.lon.value, first.lat.value])
  }

  function Record(address: string, stage: string): Place
  {
    Wrapped(map["addresses" := address, "building_stage" := stage, "sw_tama_38" := "לא"], None)
  }

  const Rothschild16: Place := Record("שדרות רוטשילד 16", "קיים היתר")
  const Herzl5: Place := Record("הרצל 5, שדרות רוטשילד 9", "בבניה")
  const Herzl7: Place := Record("הרצל 7, שדרות רוטשילד 10, שדרות רוטשילד 10א", "בתהליך היתר")

  /** The feature fixture: four permitted, one under construction, eight in the permit process. */
  const MockPlaces: seq<Place> := [
    Rothschild16, Rothschild16, Rothschild16, Rothschild16,
    Herzl5,
    Herzl7, Herzl7, Herzl7, Herzl7, Herzl7, Herzl7, Herzl7, Herzl7
  ]

  /** `MockGISNQuery.fetch_data`: the fixture, whatever the coordinate and radius. */
  function MockGisnFetch(coordinate: Coordinate, radius: int): (r: Result<seq<Place>>)
    ensures r.Ok? && |r.value| == 13
  {
    Ok(MockPlaces)
  }

  /** The mock geocoder answers what the real one makes of a 200 reply carrying the fixture. */
  lemma MockNominativeMatchesRealReply(street: string, houseNumber: string)
    ensures MockNominativeFetch(street, houseNumber)
         == Real.InterpretNominatim(Real.NominatimReply(200, "OK", Real.Candidates(MockNominatimCandidates)))
  {
    assert Real.Qualifies(MockNominatimCandidates[0]);
  }

  /** The mock geocoder keeps the interface of base.py: a pair, and it never fails. */
  lemma MockNominativeHonoursInterface()
    ensures HonoursNominativeInterface(MockNominativeFetch)
  {
  }

  /** The mock feature query answers what the real one makes of a 200 reply carrying the fixture. */
  lemma MockGisnMatchesRealReply(coordinate: Coordinate, radius: int, text: string)
    ensures MockGisnFetch(coordinate, radius)
         == Real.InterpretGisn(Real.GisnReply(200, text, Real.FeatureObject(Some(MockPlaces))))
  {
  }

  /** Every fixture entry is an attributes-only record with the three requested fields. */
  lemma MockPlacesShape()
    ensures |MockPlaces| == 13
    ensures forall i :: 0 <= i < |MockPlaces| ==>
              MockPlaces[i].Wrapped? && MockPlaces[i].geometry.None? &&
              MockPlaces[i].attributes.Keys == {"addresses", "building_stage", "sw_tama_38"}
  {
  }

  /** Exactly one fixture entry, number 4, is under construction. */
  lemma MockPlacesOneDangerous()
    ensures forall i :: 0 <= i < |MockPlaces| ==> (Services.IsDangerous(MockPlaces[i]) <==> i == 4)
  {
    assert Services.IsDangerous(Herzl5);
    assert !Services.IsDangerous(Rothschild16);
    assert !Services.IsDangerous(Herzl7);
  }

  /** The risk filter over the fixture yields that one entry, without geometry. */
  lemma MockAssessment()
    ensures Services.Assess(MockPlaces) == [Services.RiskResult(Herzl5.attributes, None)]
  {
    MockPlacesOneDangerous();
    Services.AssessSingleDangerous(MockPlaces, 4);
  }
}
