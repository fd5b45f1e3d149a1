# Address-to-risk pipeline of TamaOd, in Dafny

This project models the core of TamaOd, a small Django service for Tel Aviv. Given a street, a house number and a radius, it reports which nearby buildings are under construction. The pipeline has three steps:

1. The coordinate resolver (Nominatim geocoding) turns the address into a `(lon, lat)` pair.
2. The feature query (the municipal GISN feature server) returns the building records within the radius.
3. The risk filter keeps the records whose `building_stage` is "בבניה" (under construction). It also flips their polygon rings into the point order the web map expects.

Each backend has a real variant and a mock variant. `ApiConfig.ready` picks one variant of each at start-up.

Files and modules:

- `text.dfy` (`Text`): Python's `str(int)` for status codes and radii, with a read-back round trip, and `sep.join`.
- `base.dfy` (`Base`): the `DataRetrievalError` record and the result channel. A backend either returns a value, returns an error response, or raises an exception. This file also holds the feature records and the two backend interfaces. The interfaces are function types, and their documented contract is written as predicates.
- `services.dfy` (`Services`):
  - `risk_assessment` as a loop method, proved equal to the function `Assess`.
  - The ring conversion.
  - `handle_address`, which takes the two backends as arguments.
- `real.dfy` (`Real`): the real backends with the HTTP exchange taken out. Each builds its request. A `network` function supplies the reply. The model then interprets that reply.
- `mock.dfy` (`Mock`): the fixture backends, with their JSON already parsed.
- `apps.dfy` (`Apps`): the backend switch and the end-to-end lemmas.

Injected inputs:

- Network replies come in through `Real.NominatimNetwork` and `Real.GisnNetwork`. A reply is modelled after JSON decoding: candidate records, a feature object, or "not JSON".
- The two settings flags come in through `Apps.Settings`.
- `handle_address` receives the two backends as function values. It does not read them from the application-state module, which is not part of this model.

## Model

| member | source | states |
|---|---|---|
| `Base.NewDataRetrievalError` | api/services/base.py:4-19 | the error keeps the message and the status code it was given; the status code defaults to None |
| `Text.IntToString` | api/services/real.py:74 | `str(n)` is non-empty decimal digits, with a leading minus sign exactly for negative numbers |
| `Text.NatToStringRoundTrip` | api/services/real.py:74 | reading back the decimal text of a number gives the number again |
| `Text.IntToStringInjective` | api/services/real.py:28 | different integers (status codes, radii) never render as the same text |
| `Services.AttributesOf` | api/services/services.py:51-56 | the attributes of a record: the value under "attributes" for a wrapped record, the record itself otherwise (a definition, no contract) |
| `Services.RingsOf` | api/services/services.py:59-60 | the rings of a record: present only for a wrapped record whose geometry has a "rings" key (a definition, no contract) |
| `Services.IsDangerous` | api/services/services.py:48-58 | a record is dangerous when its `building_stage` is present and is one of the dangerous stages (a definition, no contract) |
| `Services.ConvertRings` | api/services/services.py:37-42 | the number of rings and each ring's length are kept, and every point `[a, b]` becomes `[b, a]` |
| `Services.ConvertRingsInvolutive` | api/services/services.py:37-42 | converting twice gives back the original rings |
| `Services.ToRiskResult` | api/services/services.py:59-76 | the output keeps the normalised attributes unchanged; its geometry is None exactly when the record has no geometry or the geometry has no rings, and otherwise it is the converted rings |
| `Services.Assess` | api/services/services.py:45-77 | the value of `risk_assessment`: the results of the dangerous records, in input order; its properties are the filter lemmas below (a definition, no contract) |
| `Services.RiskAssessment` | api/services/services.py:45-77 | the appending loop returns exactly `Assess(places)` |
| `Services.AssessAppend` | api/services/services.py:50-76 | the filter decides record by record: filtering a concatenation gives the concatenation of the filtered parts |
| `Services.DangerousIndicesSound` | api/services/services.py:50-58 | the reference list holds, in increasing order, exactly the positions whose stage is in the dangerous set |
| `Services.AssessSelectsDangerous` | api/services/services.py:48-58 | the k-th output is the result for the k-th dangerous record, so the filter is stable and drops every other record |
| `Services.AssessAtMostInput` | api/services/services.py:47-77 | the output is never longer than the input, and the empty input gives the empty output |
| `Services.AssessEmptyIffNoneDangerous` | api/services/services.py:58 | the output is empty if and only if no record has a dangerous stage |
| `Services.AssessSingleDangerous` | api/services/services.py:50-76 | when exactly one record is dangerous, the output is that record's result alone |
| `Services.AssessOutputs` | api/services/services.py:51-76 | every output carries the unchanged attributes of some dangerous input, and a geometry that is None exactly when that input has no rings |
| `Services.TupleText` | api/services/services.py:31 | the text of the resolved value in the error message is a parenthesised tuple |
| `Services.HandleAddress` | api/services/services.py:4-34 | a resolver error response becomes "Nominatim error: " plus its message; a raised resolver exception propagates unchanged; a result that is not a pair fails with "Invalid coordinate format from Nominatim: …"; success means a pair was resolved and the feature query succeeded, and the value is that query's features filtered |
| `Services.ResolverFailureSkipsFeatureQuery` | api/services/services.py:14-33 | when the resolver fails or returns a malformed value, the outcome is a failure that does not depend on the feature query or the radius |
| `Services.FeatureQueryGetsCoordinateAndRadius` | api/services/services.py:33-34 | the feature query receives the resolved coordinate and the caller's radius unchanged; a feature-query failure makes the pipeline fail, never succeed empty |
| `Services.InterfaceResolverNeverMalformed` | api/services/base.py:26-39 | for a resolver that keeps the base-class contract, the shape check never fires, and its DataRetrievalError reaches the caller unchanged |
| `Real.NominatimQuery` | api/services/real.py:11 | the query text is street, house number, "תל" and "אביב" separated by single spaces |
| `Real.NominatimRequestFor` | api/services/real.py:11-16 | the request goes to the fixed search URL with `format=json` and that query text |
| `Real.QualifyingPlaces` | api/services/real.py:38-42 | an index is a key exactly when that candidate has non-empty lat and lon, and its value is `(lon, lat)` of that candidate |
| `Real.InterpretNominatim` | api/services/real.py:23-32 | a transport failure gives ("Nominatim request failed", 500); a non-2xx status gives ("Nominatim API error: <code> <reason>", code); an undecodable body gives ("Invalid JSON response from Nominatim", 500) |
| `Real.SelectCandidate` | api/services/real.py:34-47 | no candidates gives ("could not locate address", 500); no qualifying candidate gives ("No valid lat/lon found in Nominatim results", 500); success holds exactly when candidate 0 qualifies, and the value is its `(lon, lat)`; a later qualifying candidate behind a non-qualifying candidate 0 raises KeyError(0) |
| `Real.Qualifies` | api/services/real.py:41 | a candidate qualifies when both `lat` and `lon` are present and non-empty (a definition, no contract) |
| `Real.RealNominativeFetch` | api/services/real.py:10-47 | `RealNominativeQuery.fetch_data`: the request for the address, answered by the network, then interpreted; its properties are `Real.NominatimSuccess`, `Real.NominatimFailureStatus` and `Real.RealNominativeReturnsPair` (a definition, no contract) |
| `Real.NominatimFailureStatus` | api/services/real.py:27-45 | every error response of the geocoder carries status 500 or the HTTP status of a non-2xx reply; the only exception raised is KeyError(0) |
| `Real.NominatimSuccess` | api/services/real.py:23-47 | the geocoder succeeds exactly on a 2xx reply whose candidate 0 qualifies, and returns that candidate's `(lon, lat)` |
| `Real.RealNominativeReturnsPair` | api/services/real.py:38-47 | on every network, whatever the real geocoder returns is a pair |
| `Real.RealNominativeDoesNotRaise` | api/services/real.py:34-35 | the real geocoder breaks the raising half of the base-class contract: an empty reply is returned as an error response |
| `Real.FirstCandidateWithoutCoordinates` | api/services/real.py:38-47 | the reply used by tests/test_real_services.py:205-229 raises KeyError(0) instead of yielding the second candidate |
| `Real.OutFieldsParam` | api/services/real.py:62 | the requested fields are "addresses", "building_stage" and "sw_tama_38", joined by commas |
| `Real.GisnRequestFor` | api/services/real.py:57-104 | the point geometry is x = coordinate[0] and y = coordinate[1]; `distance` is `str(radius)`; `outFields` is the three fields; every other parameter is the fixed table, and there are no parameters besides these |
| `Real.FixedGisnParamsSelectPointBuffer` | api/services/real.py:64-104 | the fixed parameters ask for intersecting features within a distance in meters, input in WGS84, without geometry, and leave the output reference empty |
| `Real.InterpretGisn` | api/services/real.py:112-128 | a transport failure gives ("GISN API request failed:  " + message, 503), with two spaces; a status other than 200 gives ("GISN API error: <code> <text>", code); success holds exactly for a 200 JSON object, and the value is its features, or [] when the key is absent |
| `Real.RealGisnFetch` | api/services/real.py:53-60 | a coordinate with fewer than two components raises IndexError before any request is sent |
| `Real.GisnMissingFeaturesIsEmpty` | api/services/real.py:121-122 | a 200 reply without "features", and one with an empty list, both give [] |
| `Real.GisnFailuresAreNotEmptySuccess` | api/services/real.py:115-128 | transport failures and non-200 statuses are error responses with status 503 or the HTTP status, never an empty success |
| `Mock.MockNominativeFetch` | api/services/mock.py:7-37 | for any street and house number it returns the pair (lon, lat) of fixture candidate 0, with the longitude first |
| `Mock.MockNominativeMatchesRealReply` | api/services/mock.py:11-37 | the mock answer is what the real geocoder makes of a 200 reply that carries the fixture |
| `Mock.MockNominativeHonoursInterface` | api/services/mock.py:5-37 | the mock geocoder keeps the base-class contract: it always returns a pair |
| `Mock.MockGisnFetch` | api/services/mock.py:42-76 | for any coordinate and radius it returns the 13 fixture records |
| `Mock.MockGisnMatchesRealReply` | api/services/mock.py:42-76 | the mock answer is what the real feature query makes of a 200 reply that carries the fixture |
| `Mock.MockPlacesShape` | api/services/mock.py:44-74 | the fixture has 13 attributes-only records, each with exactly `addresses`, `building_stage` and `sw_tama_38`, and no geometry |
| `Mock.MockPlacesOneDangerous` | api/services/mock.py:53-54 | entry 4 is the only one under construction |
| `Mock.MockAssessment` | api/services/mock.py:44-76 | the filter over the fixture gives exactly entry 4, with geometry None |
| `Apps.FlagSet` | api/apps.py:16-17 | a flag counts as set only when it is defined and true; an absent flag is false |
| `Apps.ChooseNominative` | api/apps.py:16 | the mock resolver is chosen exactly when USE_MOCK_NOMINATIVE is true, and the real one otherwise |
| `Apps.ChooseGisn` | api/apps.py:17 | the mock feature query is chosen exactly when USE_MOCK_GISN is true, and the real one otherwise |
| `Apps.ApiConfig.constructor` | api/apps.py:5-7 | the app is named "api" with the big-integer auto field, and no service is stored yet |
| `Apps.ApiConfig.Ready` | api/apps.py:9-20 | one instance of each chosen class is stored in the two service fields, and nothing else changes |
| `Apps.NominativeFetchOf` | api/apps.py:19 | the `fetch_data` of the stored resolver instance: the real geocoder on the given network, or the mock (a definition, no contract) |
| `Apps.GisnFetchOf` | api/apps.py:20 | the `fetch_data` of the stored feature-query instance: the real query on the given network, or the mock (a definition, no contract) |
| `Apps.ChoicesIndependent` | api/apps.py:16-17 | each choice reads only its own flag, and with neither flag defined both real variants are chosen |
| `Apps.MockPipelineEndToEnd` | api/services/services.py:11-34 | with both mocks, every address and radius yields exactly the one fixture record under construction, without geometry |
| `Apps.RealPipelineAxisOrder` | api/services/real.py:38-60 | with both real backends, the feature query gets the longitude of the geocoder's first candidate as x and its latitude as y |
| `Apps.RealPipelineFeedsFilter` | api/services/services.py:14-34 | with both real backends and a resolved address, the pipeline filters exactly the features the feature query returns; its error response becomes the AttributeError, and a raised exception propagates |

## Where the code and its tests disagree

The model follows the code in each case below.

- **Error channel.** The real backends return error responses (api/services/real.py:27-45, 115-128). `handle_address` recognises this only for Nominatim (api/services/services.py:18-27).
  - The newer tests expect a raised `DataRetrievalError` instead (tests/test_real_services.py:120-124).
  - `Real.RealNominativeDoesNotRaise` shows that the real geocoder breaks the raising half of the interface contract.
  - A GISN error response is passed on to `risk_assessment` without a check. Iterating a JSON response yields its content as one `bytes` object, and `bytes.get` raises AttributeError. The model returns that exception (`Services.ErrorResponseNotAList`).
- **First candidate.** `places[0]` looks the candidate up by its original index, so a first candidate without coordinates raises KeyError. tests/test_real_services.py:205-229 expects the first valid candidate instead. See `Real.FirstCandidateWithoutCoordinates`.
- **Coordinate type.** The real geocoder returns the raw `lon`/`lat` strings, as api/services/test_real_services.py:53 expects. tests/test_real_services.py:108 expects floats. The model keeps the strings.
- **GISN transport message.** The code writes two spaces after the colon (api/services/real.py:126). tests/test_real_services.py:312 looks for one.
- **Status check.** For Nominatim, only 2xx counts as success, because httpx's `raise_for_status` decides. For GISN, only exactly 200 counts.
- **Output spatial reference.** The comment at api/services/services.py:39 assumes that GISN returns `[lat, lon]` rings for `outSR=4326`. The request does not ask for that: it sends `inSR=4326`, leaves `outSR` empty and sets `returnGeometry` to "false" (api/services/real.py:72, 78, 82). The model sends the request as written; `Real.FixedGisnParamsSelectPointBuffer` states those three entries.

## Left out

- HTTP itself is not modelled: the URLs' transport, the headers read from environment variables, and the 5-second timeout. The reply is an input.
- `json.loads` and `response.json()` are not modelled. Replies are given already decoded, in the shapes the code expects: a list of candidate records from the geocoder, and an object from the feature server. Other JSON shapes, such as a dictionary from the geocoder or a list from the feature server, are not modelled, and neither are the TypeError and AttributeError they would cause.
- Ill-typed feature records are not modelled. The model assumes attribute values are strings, rings are lists of two-number points and `attributes` is a mapping. Unpacking a point of another length, or a `geometry` key on a bare attributes record, is not modelled. A bare record (`Base.Place.Bare`) whose mapping itself has an "attributes" key is a value of the model that no Python input produces, since api/services/services.py:52 would read it as the wrapped shape; the filter lemmas also cover it, which adds cases but loses none.
- Floating point is not modelled. Coordinates and ring numbers are their decimal text. The `float(...)` conversions in api/services/mock.py:35-36 and api/services/real.py:58-59 are left out, including the ValueError they raise on bad text.
- `Services.HandleAddress`: the text after "Invalid coordinate format from Nominatim: " is the components in plain single quotes. Python's escaping inside a tuple's `repr` is not modelled.
- `Services.HandleAddress`: the fallback messages for an error response without an "error" key, or with undecodable content (api/services/services.py:24-26), are unreachable. Every error response in the model carries its message.
- `str(house_number)` is not modelled: the house number is taken as the text `str` would give.
- The application-state accessors that `handle_address` reads are not part of this model. The services are passed in instead.
- The interface `BaseGISNQuery` documents no contract beyond its signature, so the model states none.
- Django request handling is not modelled: the views, URL routing, CSRF, rate limiting and the static front end are outside the pipeline.
