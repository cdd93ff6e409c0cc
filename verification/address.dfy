/** Building the one-line address that is sent to the geocoder
    (extract_address in geocode_addresses.py). */
module Address {
  import opened Outcomes
  import opened Rows

  /** Which CSV columns hold each part of the address. Street, city and state
      are always read; street number, postal code and country only when
      their key is set. */
  datatype AddressConfig = AddressConfig(
    streetNumberKey: Option<string>,
    streetKey: string,
    cityKey: string,
    stateKey: string,
    postalKey: Option<string>,
    countryKey: Option<string>)

  /** The settings the script ships with. */
  const SourceConfig := AddressConfig(None, "stp_address", "cty_name", "stp_state", Some("stp_zipcode"), None)

  /** An optional key takes part only when it is truthy in Python's sense:
      None and the empty string both switch the part off. */
  predicate Enabled(key: Option<string>) {
    key.Some? && key.value != ""
  }

  /** The lookup `csv_row[key]` raised KeyError; the script exits. */
  datatype ExtractError = MissingKey(key: string)

  /** The keys the extraction reads, in the order it reads them. */
  function LookupOrder(cfg: AddressConfig): seq<string> {
    (if Enabled(cfg.streetNumberKey) then [cfg.streetNumberKey.value] else [])
    + [cfg.streetKey, cfg.cityKey, cfg.stateKey]
    + (if Enabled(cfg.postalKey) then [cfg.postalKey.value] else [])
    + (if Enabled(cfg.countryKey) then [cfg.countryKey.value] else [])
  }

  /** The row holds every key the extraction reads. */
  predicate HasAddressKeys(cfg: AddressConfig, row: InputRow) {
    && cfg.streetKey in row && cfg.cityKey in row && cfg.stateKey in row
    && (Enabled(cfg.streetNumberKey) ==> cfg.streetNumberKey.value in row)
    && (Enabled(cfg.postalKey) ==> cfg.postalKey.value in row)
    && (Enabled(cfg.countryKey) ==> cfg.countryKey.value in row)
  }

  /** `key` is the first key of `order` that `row` lacks. */
  ghost predicate FirstMissing(order: seq<string>, row: InputRow, key: string) {
    exists i :: 0 <= i < |order| && order[i] == key && key !in row
      && forall j :: 0 <= j < i ==> order[j] in row
  }

  function Lookup(row: InputRow, key: string): (r: Result<string, ExtractError>)
    ensures r.Ok? <==> key in row
    ensures r.Ok? ==> r.value == row[key]
    ensures r.Err? ==> r.error == MissingKey(key)
  {
    if key in row then Ok(row[key]) else Err(MissingKey(key))
  }

  /** An optional part as it appears in the address: its cell between its
      separators when the part is switched on, nothing otherwise. */
  function Rendered(row: InputRow, key: Option<string>, before: string, after: string): string
    requires Enabled(key) ==> key.value in row
  {
    if Enabled(key) then before + row[key.value] + after else ""
  }

  /** The "%s" rendering of an optional part between its separators, or ""
      when the part is switched off. */
  function OptionalPart(row: InputRow, key: Option<string>, before: string, after: string): (r: Result<string, ExtractError>)
    ensures r.Ok? <==> (Enabled(key) ==> key.value in row)
    ensures r.Ok? ==> r.value == Rendered(row, key, before, after)
    ensures r.Err? ==> r.error == MissingKey(key.value)
  {
    if Enabled(key) then
      var cell :- Lookup(row, key.value);
      Ok(before + cell + after)
    else
      Ok("")
  }

  /** The address line: the street number part, street, city and state
      joined by ", ", then the postal and country parts. The optional parts
      arrive already rendered with their separators, or empty. */
  function Template(number: string, street: string, city: string, state: string, postal: string, country: string): string {
    number + street + ", " + city + ", " + state + postal + country
  }

  /** The address `[num ]street, city, state[ postal][, country]`, or the
      first configured key the row lacks. */
  function ExtractAddress(cfg: AddressConfig, row: InputRow): (r: Result<string, ExtractError>)
    ensures r.Ok? <==> HasAddressKeys(cfg, row)
    ensures r.Ok? ==> r.value == Template(
      Rendered(row, cfg.streetNumberKey, "", " "),
      row[cfg.streetKey], row[cfg.cityKey], row[cfg.stateKey],
      Rendered(row, cfg.postalKey, " ", ""),
      Rendered(row, cfg.countryKey, ", ", ""))
  {
    var number := OptionalPart(row, cfg.streetNumberKey, "", " ");
    var street := Lookup(row, cfg.streetKey);
    var city := Lookup(row, cfg.cityKey);
    var state := Lookup(row, cfg.stateKey);
    var postal := OptionalPart(row, cfg.postalKey, " ", "");
    var country := OptionalPart(row, cfg.countryKey, ", ", "");
    if number.Err? then Err(number.error)
    else if street.Err? then Err(street.error)
    else if city.Err? then Err(city.error)
    else if state.Err? then Err(state.error)
    else if postal.Err? then Err(postal.error)
    else if country.Err? then Err(country.error)
    else Ok(Template(number.value, street.value, city.value, state.value, postal.value, country.value))
  }

  /** The error names the first key, in the order the script reads them,
      that the row lacks. */
  lemma ExtractionReportsFirstMissingKey(cfg: AddressConfig, row: InputRow)
    requires ExtractAddress(cfg, row).Err?
    ensures FirstMissing(LookupOrder(cfg), row, ExtractAddress(cfg, row).error.key)
  {
    var order := LookupOrder(cfg);
    var key := ExtractAddress(cfg, row).error.key;
    var n := if Enabled(cfg.streetNumberKey) then 1 else 0;
    var p := if Enabled(cfg.postalKey) then 1 else 0;
    assert order[n] == cfg.streetKey && order[n + 1] == cfg.cityKey && order[n + 2] == cfg.stateKey;
    if Enabled(cfg.streetNumberKey) && cfg.streetNumberKey.value !in row {
      assert order[0] == key;
    } else if cfg.streetKey !in row {
      assert order[n] == key;
    } else if cfg.cityKey !in row {
      assert order[n + 1] == key;
    } else if cfg.stateKey !in row {
      assert order[n + 2] == key;
    } else if Enabled(cfg.postalKey) && cfg.postalKey.value !in row {
      assert order[n + 3] == key;
    } else {
      assert order[n + 3 + p] == key;
    }
  }

  /** Street, city and state are never optional: without any of them the
      extraction fails, whatever else the row holds. */
  lemma RequiredKeysAreRequired(cfg: AddressConfig, row: InputRow)
    requires cfg.streetKey !in row || cfg.cityKey !in row || cfg.stateKey !in row
    ensures ExtractAddress(cfg, row).Err?
  {
  }

  /** A configured optional key is read unconditionally, so a row without it
      fails as well; an unconfigured one is never read. */
  lemma ConfiguredOptionalKeysAreRequired(cfg: AddressConfig, row: InputRow)
    requires cfg.streetKey in row && cfg.cityKey in row && cfg.stateKey in row
    ensures ExtractAddress(cfg, row).Ok? <==>
      && (Enabled(cfg.streetNumberKey) ==> cfg.streetNumberKey.value in row)
      && (Enabled(cfg.postalKey) ==> cfg.postalKey.value in row)
      && (Enabled(cfg.countryKey) ==> cfg.countryKey.value in row)
  {
  }

  /** Python's str.split(','). */
  function Split(s: string): (r: seq<string>)
    ensures |r| >= 1
  {
    if |s| == 0 then [""]
    else
      var rest := Split(s[1..]);
      if s[0] == ',' then [""] + rest else [[s[0]] + rest[0]] + rest[1..]
  }

  lemma {:induction false} SplitWithoutComma(s: string)
    requires ',' !in s
    ensures Split(s) == [s]
  {
    if |s| > 0 {
      SplitWithoutComma(s[1..]);
      assert [s[0]] + s[1..] == s;
    }
  }

  lemma {:induction false} SplitAtComma(x: string, y: string)
    requires ',' !in x
    ensures Split(x + "," + y) == [x] + Split(y)
  {
    if |x| == 0 {
      assert x + "," + y == [','] + y;
      assert (x + "," + y)[1..] == y;
    } else {
      assert (x + "," + y)[1..] == x[1..] + "," + y;
      SplitAtComma(x[1..], y);
      assert [x[0]] + x[1..] == x;
    }
  }

  /** Three or four comma-free parts joined with ", " split back into those
      parts, each but the first keeping the blank after its comma. */
  lemma {:induction false} SplitJoined(a: string, b: string, c: string, d: Option<string>)
    requires ',' !in a && ',' !in b && ',' !in c
    requires d.Some? ==> ',' !in d.value
    ensures Split(a + ", " + b + ", " + c + (if d.Some? then ", " + d.value else "")) ==
      [a, " " + b, " " + c] + (if d.Some? then [" " + d.value] else [])
  {
    var tail := if d.Some? then ", " + d.value else "";
    var last := " " + c + tail;
    assert a + ", " + b + ", " + c + tail == a + "," + (" " + b + "," + last);
    SplitAtComma(a, " " + b + "," + last);
    SplitAtComma(" " + b, last);
    if d.Some? {
      assert last == " " + c + "," + (" " + d.value);
      SplitAtComma(" " + c, " " + d.value);
      SplitWithoutComma(" " + d.value);
    } else {
      assert last == " " + c;
      SplitWithoutComma(" " + c);
    }
  }

  /** When no cell the address is built from contains a comma, splitting the
      address at its commas gives back the parts in order: the (numbered)
      street, the city, the state with its postal code, and the country when
      one is configured. */
  lemma AddressSegments(cfg: AddressConfig, row: InputRow)
    requires HasAddressKeys(cfg, row)
    requires ',' !in row[cfg.streetKey] && ',' !in row[cfg.cityKey] && ',' !in row[cfg.stateKey]
    requires Enabled(cfg.streetNumberKey) ==> ',' !in row[cfg.streetNumberKey.value]
    requires Enabled(cfg.postalKey) ==> ',' !in row[cfg.postalKey.value]
    requires Enabled(cfg.countryKey) ==> ',' !in row[cfg.countryKey.value]
    ensures Split(ExtractAddress(cfg, row).value) ==
        [ Rendered(row, cfg.streetNumberKey, "", " ") + row[cfg.streetKey],
          " " + row[cfg.cityKey],
          " " + row[cfg.stateKey] + Rendered(row, cfg.postalKey, " ", "")]
        + (if Enabled(cfg.countryKey) then [" " + row[cfg.countryKey.value]] else [])
  {
    var number := Rendered(row, cfg.streetNumberKey, "", " ");
    var postal := Rendered(row, cfg.postalKey, " ", "");
    var country := if Enabled(cfg.countryKey) then Some(row[cfg.countryKey.value]) else None;
    var street, city, state := row[cfg.streetKey], row[cfg.cityKey], row[cfg.stateKey];
    var address := ExtractAddress(cfg, row).value;
    assert address == Template(number, street, city, state, postal, Rendered(row, cfg.countryKey, ", ", ""));
    assert Rendered(row, cfg.countryKey, ", ", "") == if country.Some? then ", " + country.value else "";
    TemplateAsJoin(number, street, city, state, postal, country);
    SplitJoined(number + street, city, state + postal, country);
    assert " " + (state + postal) == " " + state + postal;
  }

  /** The address template is the numbered street, the city, the state with
      its postal part and the optional country, joined by ", ". */
  lemma TemplateAsJoin(number: string, street: string, city: string, state: string, postal: string, country: Option<string>)
    ensures Template(number, street, city, state, postal, if country.Some? then ", " + country.value else "")
      == (number + street) + ", " + city + ", " + (state + postal) + (if country.Some? then ", " + country.value else "")
  {
  }

  /** The example address from the script's own default argument: with
      street, city and state columns and no optional parts configured, the
      three cells are joined by ", ". */
  lemma MassachusettsAvenueExample()
    ensures
      var cfg := AddressConfig(None, "street", "city", "state", None, None);
      var row := map["street" := "77 Massachusetts Avenue", "city" := "Cambridge", "state" := "MA"];
      ExtractAddress(cfg, row) == Ok("77 Massachusetts Avenue, Cambridge, MA")
  {
    var cfg := AddressConfig(None, "street", "city", "state", None, None);
    var row := map["street" := "77 Massachusetts Avenue", "city" := "Cambridge", "state" := "MA"];
    assert HasAddressKeys(cfg, row);
    assert Rendered(row, cfg.streetNumberKey, "", " ") == "" && Rendered(row, cfg.postalKey, " ", "") == "";
    assert Template("", "77 Massachusetts Avenue", "Cambridge", "MA", "", "") == "77 Massachusetts Avenue, Cambridge, MA";
  }
}
