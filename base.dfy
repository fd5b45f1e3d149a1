/**
  The shared vocabulary of the address-to-risk pipeline (api/services/base.py and the
  records the backends exchange): values that are absent or present, the two ways a
  backend can fail, the error record `DataRetrievalError`, the feature records,
  and the two backend interfaces.
 */
module Base {

  datatype Option<+T> = None | Some(value: T)

  /**
    The exceptions the pipeline raises or lets through. `DataRetrievalError` is the
    record of base.py; the others are Python's own, raised by the code itself.
   */
  datatype PyException =
    | DataRetrievalError(message: string, statusCode: Option<int>)
    | Exception(message: string)
    | KeyError(key: int)
    | IndexError(message: string)
    | AttributeError(message: string)
    | JsonDecodeError

  /**
    How a backend call fails. `ErrorResponse` is the JSON error response
    (`{"error": message}` with an HTTP status) that the real backends RETURN in
    place of a value; `Raised` is an exception that propagates to the caller.
   */
  datatype Failure =
    | ErrorResponse(message: string, status: int)
    | Raised(exception: PyException)

  datatype Result<+T> = Ok(value: T) | Err(failure: Failure)

  /** `DataRetrievalError(message, status_code=None)`: the status code is optional. */
  function NewDataRetrievalError(message: string, statusCode: Option<int> := None): (e: PyException)
    ensures e.DataRetrievalError?
    ensures e.message == message && e.statusCode == statusCode
  {
    DataRetrievalError(message, statusCode)
  }

  // ---------------------------------------------------------------------------
  // Feature records

  /** A coordinate component: the decimal text of the number (no floating point here). */
  type Ordinate = string

  /** One ring point `[a, b]`, in the order the feature service sends it. */
  datatype Point = Point(first: Ordinate, second: Ordinate)

  type Ring = seq<Point>

  /** Attribute name -> value, e.g. "addresses", "building_stage", "sw_tama_38". */
  type Attributes = map<string, string>

  /** A `geometry` object; `rings` is None when the object has no "rings" key. */
  datatype Geometry = Geometry(rings: Option<seq<Ring>>)

  /**
    A feature record in either shape the risk filter accepts: a dictionary with an
    "attributes" key (and a "geometry" key, None when absent or null), or the attributes
    mapping itself.
   */
  datatype Place =
    | Wrapped(attributes: Attributes, geometry: Option<Geometry>)
    | Bare(attributes: Attributes)

  // ---------------------------------------------------------------------------
  // Backend interfaces

  /**
    The value the coordinate resolver returns, as the sequence of the components of the
    tuple (a well-formed one is `[lon, lat]`).
   */
  type Coordinate = seq<Ordinate>

  /** `BaseNominativeQuery.fetch_data(street, house_number)`. */
  type NominativeFetch = (string, string) -> Result<Coordinate>

  /** `BaseGISNQuery.fetch_data(coordinate, radius)`. */
  type GisnFetch = (Coordinate, int) -> Result<seq<Place>>

  /** The resolver interface promises a (longitude, latitude) pair on success. */
  ghost predicate ReturnsPair(fetch: NominativeFetch)
  {
    forall street, houseNumber :: fetch(street, houseNumber).Ok? ==> |fetch(street, houseNumber).value| == 2
  }

  /** The resolver interface signals failure by raising DataRetrievalError. */
  ghost predicate FailsByRaising(fetch: NominativeFetch)
  {
    forall street, houseNumber :: fetch(street, houseNumber).Err? ==>
      fetch(street, houseNumber).failure.Raised? && fetch(street, houseNumber).failure.exception.DataRetrievalError?
  }

  /** A resolver that keeps the whole documented contract of BaseNominativeQuery. */
  ghost predicate HonoursNominativeInterface(fetch: NominativeFetch)
  {
    ReturnsPair(fetch) && FailsByRaising(fetch)
  }
}
