/** Annotating one row with the geocoder's answer (process_address and
    geocode_address in geocode_addresses.py). */
module Geocode {
  import opened Outcomes
  import opened Rows
  import opened Address

  /** The attributes of a pygeocoder result the script copies; the provider
      may leave any of them as None. */
  datatype GeocodeResult = GeocodeResult(
    latitude: Value,
    longitude: Value,
    streetNumber: Value,
    route: Value,
    city: Value,
    county: Value,
    neighborhood: Value,
    state: Value,
    province: Value,
    postalCode: Value,
    country: Value,
    formattedAddress: Value,
    validAddress: bool)

  /** geocode_address: the network lookup, with every exception turned
      into None. It is a parameter of the model, not a definition. */
  type Geocoder = string -> Option<GeocodeResult>

  const GeocodableKey := "geocodable"

  /** The twelve geocode columns, in the order the script writes them. */
  const GeocodeKeys: seq<string> := [
    "g_latitude", "g_longitude", "g_street_num", "g_street", "g_city", "g_county",
    "g_neighborhood", "g_state", "g_province", "g_postal_code", "g_country",
    "g_formatted_address"]

  /** Every column the script adds to a row, in the order it writes them. */
  const AddedColumns: seq<string> := [GeocodableKey] + GeocodeKeys

  const AddedKeys: set<string> := set k | k in AddedColumns

  /** A processed row and whether it was geocodable. */
  datatype Processed = Processed(row: OutputRow, geocodable: bool)

  /** The result's attributes, position by position matching GeocodeKeys
      (g_street_num is the street number, g_street the route). */
  function Attributes(result: GeocodeResult): (values: seq<Value>)
    ensures |values| == |GeocodeKeys|
  {
    [ result.latitude, result.longitude, result.streetNumber, result.route,
      result.city, result.county, result.neighborhood, result.state,
      result.province, result.postalCode, result.country, result.formattedAddress ]
  }

  /** Keys that are pairwise different. */
  ghost predicate Distinct(keys: seq<string>) {
    forall i, j :: 0 <= i < j < |keys| ==> keys[i] != keys[j]
  }

  lemma AddedColumnsDistinct()
    ensures Distinct(AddedColumns)
  {
  }

  /** The thirteen cells the script writes: the flag, and the twelve geocode
      columns holding the result's attributes when `ok`, None otherwise. */
  function AddedCells(result: Option<GeocodeResult>, ok: bool): (cells: OutputRow)
    requires ok ==> result.Some?
    ensures cells.Keys == AddedKeys
    ensures cells[GeocodableKey] == Bool(ok)
    ensures forall i :: 0 <= i < |GeocodeKeys| ==>
      cells[GeocodeKeys[i]] == if ok then Attributes(result.value)[i] else Null
  {
    map[
      GeocodableKey := Bool(ok),
      "g_latitude" := if ok then result.value.latitude else Null,
      "g_longitude" := if ok then result.value.longitude else Null,
      "g_street_num" := if ok then result.value.streetNumber else Null,
      "g_street" := if ok then result.value.route else Null,
      "g_city" := if ok then result.value.city else Null,
      "g_county" := if ok then result.value.county else Null,
      "g_neighborhood" := if ok then result.value.neighborhood else Null,
      "g_state" := if ok then result.value.state else Null,
      "g_province" := if ok then result.value.province else Null,
      "g_postal_code" := if ok then result.value.postalCode else Null,
      "g_country" := if ok then result.value.country else Null,
      "g_formatted_address" := if ok then result.value.formattedAddress else Null]
  }

  /** `addr[key] = value` for the flag and each geocode column: the input
      cells stay, except that the added columns overwrite any input column
      of the same name. */
  function Annotate(row: InputRow, result: Option<GeocodeResult>, ok: bool): (out: OutputRow)
    requires ok ==> result.Some?
    ensures out.Keys == row.Keys + AddedKeys
    ensures forall k :: k in AddedKeys ==> out[k] == AddedCells(result, ok)[k]
    ensures forall k :: k in row && k !in AddedKeys ==> out[k] == Str(row[k])
  {
    Cells(row) + AddedCells(result, ok)
  }

  /** process_address: extract the address (a missing key is fatal), ask the
      geocoder, and record the outcome in the row. */
  function ProcessAddress(cfg: AddressConfig, geocode: Geocoder, row: InputRow): (r: Result<Processed, ExtractError>)
    ensures r.Ok? <==> ExtractAddress(cfg, row).Ok?
    ensures r.Err? ==> r.error == ExtractAddress(cfg, row).error
    ensures r.Ok? ==>
      var result := geocode(ExtractAddress(cfg, row).value);
      && (r.value.geocodable <==> result.Some? && result.value.validAddress)
      && r.value.row.Keys == row.Keys + AddedKeys
      && r.value.row[GeocodableKey] == Bool(r.value.geocodable)
      && (forall k :: k in row && k !in AddedKeys ==> r.value.row[k] == Str(row[k]))
      && (forall i :: 0 <= i < |GeocodeKeys| ==>
           r.value.row[GeocodeKeys[i]] == if r.value.geocodable then Attributes(result.value)[i] else Null)
  {
    var address :- ExtractAddress(cfg, row);
    var result := geocode(address);
    var geocodable := if result == None then false else result.value.validAddress;
    Ok(Processed(Annotate(row, result, geocodable), geocodable))
  }

  lemma {:induction false} DistinctCardinality(keys: seq<string>)
    requires Distinct(keys)
    ensures |set k | k in keys| == |keys|
  {
    if |keys| > 0 {
      DistinctCardinality(keys[1..]);
      assert (set k | k in keys) == {keys[0]} + set k | k in keys[1..];
      assert keys[0] !in keys[1..];
    }
  }

  /** Thirteen columns are added: the flag and twelve distinct geocode columns. */
  lemma AddedKeysCount()
    ensures |GeocodeKeys| == 12 && GeocodableKey !in GeocodeKeys
    ensures |AddedKeys| == 13
  {
    AddedColumnsDistinct();
    DistinctCardinality(AddedColumns);
  }

  /** Geocoder failure and an invalid answer look the same in the output:
      the flag is false and every geocode column is None. */
  lemma FailedLookupNullsColumns(cfg: AddressConfig, geocode: Geocoder, row: InputRow)
    requires ExtractAddress(cfg, row).Ok?
    requires geocode(ExtractAddress(cfg, row).value).None?
      || !geocode(ExtractAddress(cfg, row).value).value.validAddress
    ensures ProcessAddress(cfg, geocode, row).Ok?
    ensures ProcessAddress(cfg, geocode, row).value.row[GeocodableKey] == Bool(false)
    ensures forall k :: k in GeocodeKeys ==> ProcessAddress(cfg, geocode, row).value.row[k] == Null
  {
  }

  /** With the settings the script ships with, the postal column is read
      unconditionally: every row needs "stp_zipcode", and a row that has
      the street, city and state columns but not it stops the run on it. */
  lemma ShippedSettingsNeedPostalColumn(geocode: Geocoder, row: InputRow)
    requires "stp_zipcode" !in row
    ensures ProcessAddress(SourceConfig, geocode, row).Err?
    ensures "stp_address" in row && "cty_name" in row && "stp_state" in row ==>
      ProcessAddress(SourceConfig, geocode, row) == Err(MissingKey("stp_zipcode"))
  {
  }
}
