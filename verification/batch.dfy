/** The row loop of main in geocode_addresses.py: every row is processed in
    order, collected, and counted. */
module Batch {
  import opened Outcomes
  import opened Rows
  import opened Address
  import opened Geocode

  /** processed_list, address_count and geocodeable_count after the loop. */
  datatype Tally = Tally(processed: seq<OutputRow>, addressCount: nat, geocodeableCount: nat)

  predicate IsGeocodable(row: OutputRow) {
    GeocodableKey in row && row[GeocodableKey] == Bool(true)
  }

  /** The number of rows flagged geocodable. */
  function CountGeocodable(rows: seq<OutputRow>): (n: nat)
    ensures n <= |rows|
  {
    if |rows| == 0 then 0
    else CountGeocodable(rows[..|rows| - 1]) + (if IsGeocodable(rows[|rows| - 1]) then 1 else 0)
  }

  /** What the loop does with one row: process_address, or the fatal error. */
  type Step = InputRow -> Result<Processed, ExtractError>

  /** The first row, in file order, on which the step fails. */
  ghost predicate FirstFailure(step: Step, rows: seq<InputRow>, k: int) {
    && 0 <= k < |rows| && step(rows[k]).Err?
    && forall j :: 0 <= j < k ==> step(rows[j]).Ok?
  }

  /** The loop over the rows: apply the step to each row in order, append the
      row it returns and bump the counters; the first failure ends the run. */
  function Loop(step: Step, rows: seq<InputRow>): (r: Result<Tally, ExtractError>)
    ensures r.Ok? ==> |r.value.processed| == r.value.addressCount == |rows|
    decreases |rows|
  {
    if |rows| == 0 then Ok(Tally([], 0, 0))
    else
      var tally :- Loop(step, rows[..|rows| - 1]);
      var p :- step(rows[|rows| - 1]);
      Ok(Tally(
        tally.processed + [p.row],
        tally.addressCount + 1,
        if p.geocodable then tally.geocodeableCount + 1 else tally.geocodeableCount))
  }

  /** The loop fails exactly when some row fails, and then with the error of
      the first failing row. */
  lemma {:induction false} LoopFailsAtFirstFailure(step: Step, rows: seq<InputRow>)
    ensures Loop(step, rows).Ok? <==> forall i :: 0 <= i < |rows| ==> step(rows[i]).Ok?
    ensures Loop(step, rows).Err? ==>
      exists k :: FirstFailure(step, rows, k) && Loop(step, rows).error == step(rows[k]).error
    decreases |rows|
  {
    if |rows| > 0 {
      var n := |rows| - 1;
      var front := rows[..n];
      LoopFailsAtFirstFailure(step, front);
      assert forall i :: 0 <= i < n ==> front[i] == rows[i];
      if Loop(step, front).Err? {
        var k :| FirstFailure(step, front, k) && Loop(step, front).error == step(front[k]).error;
        assert FirstFailure(step, rows, k);
      } else if step(rows[n]).Err? {
        assert FirstFailure(step, rows, n);
      }
    }
  }

  /** A step that flags its row exactly when it reports it geocodable. */
  ghost predicate FlagsHonestly(step: Step) {
    forall row :: step(row).Ok? ==> (IsGeocodable(step(row).value.row) <==> step(row).value.geocodable)
  }

  /** On success the output has the step's row for each input row, in input
      order, and the geocodable counter counts the rows flagged geocodable. */
  lemma {:induction false} LoopKeepsOrderAndCounts(step: Step, rows: seq<InputRow>)
    requires FlagsHonestly(step)
    requires Loop(step, rows).Ok?
    ensures forall i :: 0 <= i < |rows| ==>
      step(rows[i]).Ok? && Loop(step, rows).value.processed[i] == step(rows[i]).value.row
    ensures Loop(step, rows).value.geocodeableCount == CountGeocodable(Loop(step, rows).value.processed)
    decreases |rows|
  {
    if |rows| > 0 {
      var n := |rows| - 1;
      var front := rows[..n];
      LoopKeepsOrderAndCounts(step, front);
      var t := Loop(step, rows).value;
      var f := Loop(step, front).value;
      var p := step(rows[n]).value;
      assert t.processed == f.processed + [p.row];
      assert t.processed[..n] == f.processed;
      forall i | 0 <= i < |rows|
        ensures step(rows[i]).Ok? && t.processed[i] == step(rows[i]).value.row
      {
        if i < n {
          assert front[i] == rows[i];
        }
      }
    }
  }

  /** process_address with the settings and the geocoder fixed. */
  function ProcessStep(cfg: AddressConfig, geocode: Geocoder): Step {
    (row: InputRow) => ProcessAddress(cfg, geocode, row)
  }

  lemma ProcessStepFlagsHonestly(cfg: AddressConfig, geocode: Geocoder)
    ensures FlagsHonestly(ProcessStep(cfg, geocode))
  {
  }

  /** The loop of main with process_address as its step. */
  function BatchGeocode(cfg: AddressConfig, geocode: Geocoder, rows: seq<InputRow>): (r: Result<Tally, ExtractError>)
    ensures r.Ok? <==> forall i :: 0 <= i < |rows| ==> ExtractAddress(cfg, rows[i]).Ok?
    ensures r.Err? ==> exists k ::
      && 0 <= k < |rows| && ExtractAddress(cfg, rows[k]).Err?
      && r.error == ExtractAddress(cfg, rows[k]).error
      && forall j :: 0 <= j < k ==> ExtractAddress(cfg, rows[j]).Ok?
    ensures r.Ok? ==>
      && |r.value.processed| == r.value.addressCount == |rows|
      && (forall i :: 0 <= i < |rows| ==> r.value.processed[i] == ProcessAddress(cfg, geocode, rows[i]).value.row)
      && r.value.geocodeableCount == CountGeocodable(r.value.processed)
      && r.value.geocodeableCount <= r.value.addressCount
  {
    var step := ProcessStep(cfg, geocode);
    LoopFailsAtFirstFailure(step, rows);
    if Loop(step, rows).Ok? then
      ProcessStepFlagsHonestly(cfg, geocode);
      LoopKeepsOrderAndCounts(step, rows);
      Loop(step, rows)
    else
      Loop(step, rows)
  }

  /** When every row holds its address columns the loop completes, and every
      processed row has its input columns plus the thirteen added ones,
      whether or not it was geocodable. */
  lemma BatchAddsColumns(cfg: AddressConfig, geocode: Geocoder, rows: seq<InputRow>)
    requires forall i :: 0 <= i < |rows| ==> HasAddressKeys(cfg, rows[i])
    ensures BatchGeocode(cfg, geocode, rows).Ok?
    ensures forall i :: 0 <= i < |rows| ==>
      BatchGeocode(cfg, geocode, rows).value.processed[i].Keys == rows[i].Keys + AddedKeys
  {
  }

  /** main's for-loop as written: process each row, append it, count it,
      and count it again when it is geocodable; a failing row ends the run
      at that row. */
  method ProcessRows(step: Step, rows: seq<InputRow>) returns (r: Result<Tally, ExtractError>)
    ensures r == Loop(step, rows)
    ensures r.Ok? <==> forall i :: 0 <= i < |rows| ==> step(rows[i]).Ok?
  {
    var processed: seq<OutputRow> := [];
    var addressCount := 0;
    var geocodeableCount := 0;
    var i := 0;
    while i < |rows|
      invariant 0 <= i <= |rows|
      invariant Loop(step, rows[..i]) == Ok(Tally(processed, addressCount, geocodeableCount))
    {
      var p := step(rows[i]);
      assert rows[..i + 1][..i] == rows[..i];
      if p.Err? {
        LoopFailsAtFirstFailure(step, rows[..i]);
        LoopFailsAtFirstFailure(step, rows);
        ghost var k :| FirstFailure(step, rows, k) && Loop(step, rows).error == step(rows[k]).error;
        assert k == i by {
          assert forall j :: 0 <= j < i ==> rows[..i][j] == rows[j];
        }
        return Err(p.error);
      }
      processed := processed + [p.value.row];
      addressCount := addressCount + 1;
      if p.value.geocodable {
        geocodeableCount := geocodeableCount + 1;
      }
      i := i + 1;
    }
    assert rows[..i] == rows;
    LoopFailsAtFirstFailure(step, rows);
    return Ok(Tally(processed, addressCount, geocodeableCount));
  }
}
