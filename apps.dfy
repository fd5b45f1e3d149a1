/**
  The backend switch of api/apps.py: at start-up `ApiConfig.ready` picks the real or the mock
  variant of each backend from two settings flags and stores one instance of each. The
  instances are turned into the fetch functions that the pipeline is given.
 */
module Apps {
  import opened Base
  import Real
  import Mock
  import Services

  datatype NominativeService = RealNominativeQuery | MockNominativeQuery

  datatype GisnService = RealGISNQuery | MockGISNQuery

  /** The two flags of the settings module; None when a setting is not defined. */
  datatype Settings = Settings(useMockNominative: Option<bool>, useMockGisn: Option<bool>)

  /** `getattr(settings, flag, False)`: an undefined flag reads as false. */
  function FlagSet(flag: Option<bool>): (b: bool)
    ensures b <==> flag == Some(true)
  {
    match flag
    case Some(b) => b
    case None => false
  }

  /** `MockNominativeQuery if USE_MOCK_NOMINATIVE else RealNominativeQuery`. */
  function ChooseNominative(settings: Settings): (service: NominativeService)
    ensures service == MockNominativeQuery <==> settings.useMockNominative == Some(true)
  {
    if FlagSet(settings.useMockNominative) then MockNominativeQuery else RealNominativeQuery
  }

  /** `MockGISNQuery if USE_MOCK_GISN else RealGISNQuery`. */
  function ChooseGisn(settings: Settings): (service: GisnService)
    ensures service == MockGISNQuery <==> settings.useMockGisn == Some(true)
  {
    if FlagSet(settings.useMockGisn) then MockGISNQuery else RealGISNQuery
  }

  /** The `fetch_data` of a resolver instance; the real one talks to the given network. */
  function NominativeFetchOf(service: NominativeService, network: Real.NominatimNetwork): NominativeFetch
  {
    match service
    case RealNominativeQuery => (street, houseNumber) => Real.RealNominativeFetch(network, street, houseNumber)
    case MockNominativeQuery => Mock.MockNominativeFetch
  }

  /** The `fetch_data` of a feature-query instance; the real one talks to the given network. */
  function GisnFetchOf(service: GisnService, network: Real.GisnNetwork): GisnFetch
  {
    match service
    case RealGISNQuery => (coordinate, radius) => Real.RealGisnFetch(network, coordinate, radius)
    case MockGISNQuery => Mock.MockGisnFetch
  }

  /** The Django application configuration of the `api` app. */
  class ApiConfig {
    const name: string
    const defaultAutoField: string
    var nominativeService: Option<NominativeService>
    var gisnService: Option<GisnService>

    constructor ()
      ensures name == "api" && defaultAutoField == "django.db.models.BigAutoField"
      ensures nominativeService == None && gisnService == None
    {
      name := "api";
      defaultAutoField := "django.db.models.BigAutoField";
      nominativeService := None;
      gisnService := None;
    }

    /** `ready()`: one instance of each chosen class, stored in the two service fields. */
    method Ready(settings: Settings)
      modifies this
      ensures nominativeService == Some(ChooseNominative(settings))
      ensures gisnService == Some(ChooseGisn(settings))
    {
      var nominativeClass := ChooseNominative(settings);
      var gisnClass := ChooseGisn(settings);
      nominativeService := Some(nominativeClass);
      gisnService := Some(gisnClass);
    }
  }

  /** Each choice reads its own flag only: changing one flag never changes the other backend. */
  lemma ChoicesIndependent(settings: Settings, nominativeFlag: Option<bool>, gisnFlag: Option<bool>)
    ensures ChooseGisn(settings.(useMockNominative := nominativeFlag)) == ChooseGisn(settings)
    ensures ChooseNominative(settings.(useMockGisn := gisnFlag)) == ChooseNominative(settings)
    ensures ChooseNominative(Settings(None, None)) == RealNominativeQuery
    ensures ChooseGisn(Settings(None, None)) == RealGISNQuery
  {
  }

  /**
    With both mock backends the pipeline is closed: for every address and radius it returns
    exactly the one fixture entry under construction, without geometry.
   */
  lemma MockPipelineEndToEnd(nominatim: Real.NominatimNetwork, gisn: Real.GisnNetwork,
                             street: string, houseNumber: string, radius: int)
    ensures Services.HandleAddress(NominativeFetchOf(MockNominativeQuery, nominatim), GisnFetchOf(MockGISNQuery, gisn),
                                   street, houseNumber, radius)
         == Ok([Services.RiskResult(Mock.Herzl5.attributes, None)])
  {
    Mock.MockAssessment();
  }

  /**
    With both real backends, a resolved address sends the feature query the longitude as x
    and the latitude as y of the geocoder's first candidate.
   */
  lemma RealPipelineAxisOrder(nominatim: Real.NominatimNetwork, street: string, houseNumber: string, radius: int)
    requires Real.RealNominativeFetch(nominatim, street, houseNumber).Ok?
    ensures var reply := nominatim(Real.NominatimRequestFor(street, houseNumber));
            var request := Real.GisnRequestFor(Real.RealNominativeFetch(nominatim, street, houseNumber).value, radius);
            && reply.NominatimReply? && reply.body.Candidates? && reply.body.places != []
            && request.x == reply.body.places[0].lon.value
            && request.y == reply.body.places[0].lat.value
  {
    Real.NominatimSuccess(nominatim(Real.NominatimRequestFor(street, houseNumber)));
  }

  /**
    With both real backends, a resolved address hands the features of the feature query's
    answer to the risk filter; an error response of that query trips over the missing `get`.
   */
  lemma RealPipelineFeedsFilter(nominatim: Real.NominatimNetwork, gisn: Real.GisnNetwork,
                                street: string, houseNumber: string, radius: int)
    requires Real.RealNominativeFetch(nominatim, street, houseNumber).Ok?
    ensures var request := Real.GisnRequestFor(Real.RealNominativeFetch(nominatim, street, houseNumber).value, radius);
            Services.HandleAddress(NominativeFetchOf(RealNominativeQuery, nominatim), GisnFetchOf(RealGISNQuery, gisn),
                                   street, houseNumber, radius)
            == match Real.InterpretGisn(gisn(request))
               case Ok(places) => Ok(Services.Assess(places))
               case Err(ErrorResponse(_, _)) => Err(Raised(Services.ErrorResponseNotAList))
               case Err(Raised(e)) => Err(Raised(e))
  {
    Real.NominatimSuccess(nominatim(Real.NominatimRequestFor(street, houseNumber)));
  }
}
