/**
  The risk filter and the pipeline glue of api/services/services.py: which retrieved
  features are under construction, how their polygon rings are flipped for the map, and
  how `handle_address` chains the two backends. The backends are passed in explicitly
  instead of being read from the process-wide application state.
 */
module Services {
  import opened Base
  import Text

  /** The construction stages flagged as dangerous: only "under construction". */
  const DangerousStages: seq<string> := ["בבניה"]

  // ---------------------------------------------------------------------------
  // Normalising a feature record

  /** A record with an "attributes" key contributes that value; otherwise the record is its own attributes. */
  function AttributesOf(place: Place): Attributes
  {
    match place
    case Wrapped(attributes, _) => attributes
    case Bare(attributes) => attributes
  }

  /** The rings of a record, when it has a geometry and that geometry has a "rings" key. */
  function RingsOf(place: Place): Option<seq<Ring>>
  {
    match place
    case Wrapped(_, Some(Geometry(Some(rings)))) => Some(rings)
    case _ => None
  }

  /** `attributes.get("building_stage") in dangerous_stage`: a missing stage is never dangerous. */
  predicate IsDangerous(place: Place)
  {
    "building_stage" in AttributesOf(place) && AttributesOf(place)["building_stage"] in DangerousStages
  }

  // ---------------------------------------------------------------------------
  // Ring conversion

  function Swap(p: Point): Point
  {
    Point(p.second, p.first)
  }

  /** `convert_rings_to_leaflet_format`: every point `[a, b]` of every ring becomes `[b, a]`. */
  function ConvertRings(rings: seq<Ring>): (r: seq<Ring>)
    ensures |r| == |rings|
    ensures forall i :: 0 <= i < |rings| ==> |r[i]| == |rings[i]|
    ensures forall i, j :: 0 <= i < |rings| && 0 <= j < |rings[i]| ==>
              r[i][j].first == rings[i][j].second && r[i][j].second == rings[i][j].first
  {
    seq(|rings|, i requires 0 <= i < |rings| =>
      seq(|rings[i]|, j requires 0 <= j < |rings[i]| => Swap(rings[i][j])))
  }

  /** Flipping twice gives back the rings the feature service sent. */
  lemma ConvertRingsInvolutive(rings: seq<Ring>)
    ensures ConvertRings(ConvertRings(rings)) == rings
  {
    var back := ConvertRings(ConvertRings(rings));
    forall i | 0 <= i < |rings|
      ensures back[i] == rings[i]
    {
      assert |back[i]| == |rings[i]|;
      forall j | 0 <= j < |rings[i]|
        ensures back[i][j] == rings[i][j]
      {
      }
    }
  }

  // ---------------------------------------------------------------------------
  // The risk filter

  /** The `{"rings": ...}` object attached to a result. */
  datatype LeafletGeometry = LeafletGeometry(rings: seq<Ring>)

  /** `{"attributes": ..., "geometry": ...}`; geometry None is the explicit "no shape available". */
  datatype RiskResult = RiskResult(attributes: Attributes, geometry: Option<LeafletGeometry>)

  /** The output record for one dangerous place. */
  function ToRiskResult(place: Place): (r: RiskResult)
    ensures r.attributes == place.attributes
    ensures r.geometry.None? <==> (place.Bare? || place.geometry.None? || place.geometry.value.rings.None?)
    ensures place.Wrapped? && place.geometry.Some? && place.geometry.value.rings.Some? ==>
              r.geometry == Some(LeafletGeometry(ConvertRings(place.geometry.value.rings.value)))
  {
    match RingsOf(place)
    case Some(rings) => RiskResult(AttributesOf(place), Some(LeafletGeometry(ConvertRings(rings))))
    case None => RiskResult(AttributesOf(place), None)
  }

  /** What `risk_assessment` returns: one result per dangerous place, in input order. */
  function Assess(places: seq<Place>): seq<RiskResult>
  {
    if places == [] then []
    else (if IsDangerous(places[0]) then [ToRiskResult(places[0])] else []) + Assess(places[1..])
  }

  /** The positions of the dangerous places, in increasing order (a reference for Assess). */
  function DangerousIndices(places: seq<Place>): seq<nat>
  {
    if places == [] then []
    else
      var n := |places| - 1;
      DangerousIndices(places[..n]) + (if IsDangerous(places[n]) then [n] else [])
  }

  /** `risk_assessment(dangerous_places)`: the loop of services.py appending into a list. */
  method RiskAssessment(places: seq<Place>) returns (results: seq<RiskResult>)
    ensures results == Assess(places)
  {
    results := [];
    for i := 0 to |places|
      invariant results == Assess(places[..i])
    {
      var place := places[i];
      AssessAppend(places[..i], [place]);
      assert places[..i] + [place] == places[..i + 1];
      if IsDangerous(place) {
        results := results + [ToRiskResult(place)];
      }
    }
    assert places[..|places|] == places;
  }

  /** The filter works record by record: it distributes over concatenation. */
  lemma {:induction false} AssessAppend(a: seq<Place>, b: seq<Place>)
    ensures Assess(a + b) == Assess(a) + Assess(b)
  {
    if a != [] {
      var head := if IsDangerous(a[0]) then [ToRiskResult(a[0])] else [];
      assert (a + b)[0] == a[0] && (a + b)[1..] == a[1..] + b;
      AssessAppend(a[1..], b);
      calc {
        Assess(a + b);
        head + Assess(a[1..] + b);
        head + (Assess(a[1..]) + Assess(b));
        (head + Assess(a[1..])) + Assess(b);
      }
    } else {
      assert a + b == b;
    }
  }

  lemma {:induction false} DangerousIndicesSound(places: seq<Place>)
    ensures forall k :: 0 <= k < |DangerousIndices(places)| ==>
              DangerousIndices(places)[k] < |places| && IsDangerous(places[DangerousIndices(places)[k]])
    ensures forall k, l :: 0 <= k < l < |DangerousIndices(places)| ==>
              DangerousIndices(places)[k] < DangerousIndices(places)[l]
    ensures forall i :: 0 <= i < |places| && IsDangerous(places[i]) ==> i in DangerousIndices(places)
  {
    if places != [] {
      var n := |places| - 1;
      var prefix := places[..n];
      var earlier := DangerousIndices(prefix);
      var all := DangerousIndices(places);
      DangerousIndicesSound(prefix);
      assert all == earlier + (if IsDangerous(places[n]) then [n] else []);
      forall k | 0 <= k < |earlier|
        ensures earlier[k] < n && IsDangerous(places[earlier[k]])
      {
        assert prefix[earlier[k]] == places[earlier[k]];
      }
      forall i | 0 <= i < n && IsDangerous(places[i])
        ensures i in all
      {
        assert prefix[i] == places[i];
        assert i in earlier;
      }
    }
  }

  /**
    `risk_assessment` keeps exactly the dangerous places, in input order: its k-th result is
    the result of the k-th dangerous place.
   */
  lemma {:induction false} AssessSelectsDangerous(places: seq<Place>)
    ensures |Assess(places)| == |DangerousIndices(places)|
    ensures forall k :: 0 <= k < |Assess(places)| ==>
              DangerousIndices(places)[k] < |places| &&
              Assess(places)[k] == ToRiskResult(places[DangerousIndices(places)[k]])
  {
    DangerousIndicesSound(places);
    if places != [] {
      var n := |places| - 1;
      AssessSelectsDangerous(places[..n]);
      AssessAppend(places[..n], [places[n]]);
      assert places[..n] + [places[n]] == places;
      assert [places[n]][1..] == [];
    }
  }

  /** The output is never longer than the input, and `risk_assessment([]) == []`. */
  lemma {:induction false} AssessAtMostInput(places: seq<Place>)
    ensures |Assess(places)| <= |places|
    ensures places == [] ==> Assess(places) == []
  {
    AssessSelectsDangerous(places);
    DangerousIndicesSound(places);
    DistinctIndicesBounded(DangerousIndices(places), |places|);
  }

  /** A strictly increasing sequence of indices below n has at most n entries. */
  lemma {:induction false} DistinctIndicesBounded(ix: seq<nat>, n: nat)
    requires forall k :: 0 <= k < |ix| ==> ix[k] < n
    requires forall k, l :: 0 <= k < l < |ix| ==> ix[k] < ix[l]
    ensures |ix| <= n
  {
    if ix != [] {
      var m := |ix| - 1;
      assert forall k :: 0 <= k < m ==> ix[..m][k] < ix[m];
      DistinctIndicesBounded(ix[..m], ix[m]);
    }
  }

  /** The result is empty exactly when no place has a dangerous stage. */
  lemma {:induction false} AssessEmptyIffNoneDangerous(places: seq<Place>)
    ensures Assess(places) == [] <==> forall i :: 0 <= i < |places| ==> !IsDangerous(places[i])
  {
    AssessSelectsDangerous(places);
    DangerousIndicesSound(places);
    if Assess(places) != [] {
      assert IsDangerous(places[DangerousIndices(places)[0]]);
    }
  }

  /** When exactly one place is dangerous, the result is that place's result alone. */
  lemma {:induction false} AssessSingleDangerous(places: seq<Place>, i: nat)
    requires i < |places|
    requires forall j :: 0 <= j < |places| ==> (IsDangerous(places[j]) <==> j == i)
    ensures Assess(places) == [ToRiskResult(places[i])]
  {
    var before, after, here := places[..i], places[i + 1..], [places[i]];
    forall j | 0 <= j < |before| ensures !IsDangerous(before[j]) {
      assert before[j] == places[j];
    }
    forall j | 0 <= j < |after| ensures !IsDangerous(after[j]) {
      assert after[j] == places[i + 1 + j];
    }
    AssessEmptyIffNoneDangerous(before);
    AssessEmptyIffNoneDangerous(after);
    assert Assess(here) == [ToRiskResult(places[i])] by {
      assert here[1..] == [];
    }
    AssessAppend(before + here, after);
    AssessAppend(before, here);
    assert places == before + here + after;
  }

  /**
    Every output keeps the attributes of a dangerous input unchanged, and its geometry is
    None exactly when that input has no rings; otherwise it is the input's rings flipped.
   */
  lemma {:induction false} AssessOutputs(places: seq<Place>, k: nat)
    requires k < |Assess(places)|
    ensures exists i :: 0 <= i < |places| && IsDangerous(places[i]) &&
              Assess(places)[k].attributes == AttributesOf(places[i]) &&
              (Assess(places)[k].geometry.None? <==> RingsOf(places[i]).None?) &&
              (RingsOf(places[i]).Some? ==>
                 Assess(places)[k].geometry == Some(LeafletGeometry(ConvertRings(RingsOf(places[i]).value))))
  {
    AssessSelectsDangerous(places);
    DangerousIndicesSound(places);
    var i := DangerousIndices(places)[k];
    assert IsDangerous(places[i]);
  }

  // ---------------------------------------------------------------------------
  // Pipeline orchestration

  /** Python's `str()` of a tuple of strings (quoting and escaping simplified to plain quotes). */
  function TupleText(c: Coordinate): (text: string)
    ensures |text| >= 2 && text[0] == '(' && text[|text| - 1] == ')'
  {
    var items := seq(|c|, i requires 0 <= i < |c| => "'" + c[i] + "'");
    "(" + Text.Join(", ", items) + (if |c| == 1 then "," else "") + ")"
  }

  const NominatimErrorPrefix: string := "Nominatim error: "
  const InvalidCoordinatePrefix: string := "Invalid coordinate format from Nominatim: "

  /** What `risk_assessment` raises when it is handed a GISN error response instead of a list. */
  const ErrorResponseNotAList: PyException := AttributeError("'bytes' object has no attribute 'get'")

  /**
    `handle_address(street, house_number, radius)`, with the two backends injected.
    A resolver error response becomes `Exception("Nominatim error: " + message)`;
    an exception the resolver raises propagates unchanged; a result that is not a pair
    fails the shape check; otherwise the features near the coordinate are filtered.
    A GISN error response is not checked here: the filter crashes on it.
   */
  function HandleAddress(nominative: NominativeFetch, gisn: GisnFetch,
                         street: string, houseNumber: string, radius: int): (r: Result<seq<RiskResult>>)
    ensures nominative(street, houseNumber).Err? && nominative(street, houseNumber).failure.ErrorResponse? ==>
              r == Err(Raised(Exception(NominatimErrorPrefix + nominative(street, houseNumber).failure.message)))
    ensures nominative(street, houseNumber).Err? && nominative(street, houseNumber).failure.Raised? ==>
              r == Err(nominative(street, houseNumber).failure)
    ensures nominative(street, houseNumber).Ok? && |nominative(street, houseNumber).value| != 2 ==>
              r.Err? && r.failure.Raised? && r.failure.exception.Exception? &&
              InvalidCoordinatePrefix <= r.failure.exception.message
    ensures r.Ok? <==>
              nominative(street, houseNumber).Ok? && |nominative(street, houseNumber).value| == 2 &&
              gisn(nominative(street, houseNumber).value, radius).Ok?
    ensures r.Ok? ==> r.value == Assess(gisn(nominative(street, houseNumber).value, radius).value)
  {
    match nominative(street, houseNumber)
    case Err(ErrorResponse(message, _)) => Err(Raised(Exception(NominatimErrorPrefix + message)))
    case Err(Raised(e)) => Err(Raised(e))
    case Ok(coordinate) =>
      if |coordinate| != 2 then
        Err(Raised(Exception(InvalidCoordinatePrefix + TupleText(coordinate))))
      else
        match gisn(coordinate, radius)
        case Ok(places) => Ok(Assess(places))
        case Err(ErrorResponse(_, _)) => Err(Raised(ErrorResponseNotAList))
        case Err(Raised(e)) => Err(Raised(e))
  }

  /** When the resolver fails, the feature query is never consulted: its answer cannot matter. */
  lemma ResolverFailureSkipsFeatureQuery(nominative: NominativeFetch, gisn1: GisnFetch, gisn2: GisnFetch,
                                         street: string, houseNumber: string, radius1: int, radius2: int)
    requires nominative(street, houseNumber).Err? || |nominative(street, houseNumber).value| != 2
    ensures HandleAddress(nominative, gisn1, street, houseNumber, radius1)
         == HandleAddress(nominative, gisn2, street, houseNumber, radius2)
    ensures HandleAddress(nominative, gisn1, street, houseNumber, radius1).Err?
  {
  }

  /**
    The feature query receives the resolved coordinate and the caller's radius unchanged,
    and a GISN error response makes the pipeline fail rather than succeed empty.
   */
  lemma FeatureQueryGetsCoordinateAndRadius(nominative: NominativeFetch, gisn: GisnFetch,
                                            street: string, houseNumber: string, radius: int)
    requires nominative(street, houseNumber).Ok? && |nominative(street, houseNumber).value| == 2
    ensures gisn(nominative(street, houseNumber).value, radius).Ok? ==>
              HandleAddress(nominative, gisn, street, houseNumber, radius)
              == Ok(Assess(gisn(nominative(street, houseNumber).value, radius).value))
    ensures gisn(nominative(street, houseNumber).value, radius).Err? ==>
              HandleAddress(nominative, gisn, street, houseNumber, radius).Err?
  {
  }

  /**
    Against a resolver that keeps the interface of base.py, the shape check never fires and
    every resolver failure reaches the caller unchanged, as the DataRetrievalError it raised.
   */
  lemma InterfaceResolverNeverMalformed(nominative: NominativeFetch, gisn: GisnFetch,
                                        street: string, houseNumber: string, radius: int)
    requires HonoursNominativeInterface(nominative)
    ensures nominative(street, houseNumber).Ok? ==> |nominative(street, houseNumber).value| == 2
    ensures nominative(street, houseNumber).Err? ==>
              HandleAddress(nominative, gisn, street, houseNumber, radius) == Err(nominative(street, houseNumber).failure) &&
              nominative(street, houseNumber).failure.exception.DataRetrievalError?
  {
  }
}
