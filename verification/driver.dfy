/** main in geocode_addresses.py, without its I/O: options, the rows of the
    input file, the loop, the header of the output file and the summary. */
module Driver {
  import opened Outcomes
  import opened Rows
  import opened Address
  import opened Geocode
  import opened Options
  import opened Batch

  /** The contents of the CSV file with a given name, or None when opening or
      reading it raises IOError. */
  type FileSystem = string -> Option<seq<InputRow>>

  /** Why a run ends without writing its output. */
  datatype RunError =
    | Usage(reason: UsageError)      // parse_opts printed the usage text
    | CannotRead(infile: string)     // 'Could not open ... to read'
    | Fatal(missing: ExtractError)   // extract_address exited
    | EmptyInput                     // processed_list[0] raised IndexError

  /** What a successful run writes and prints: the output file name, its
      header (the columns of the first processed row), its rows, the two
      counters and the success percentage. */
  datatype Report = Report(
    outfile: string,
    header: set<string>,
    rows: seq<OutputRow>,
    addressCount: nat,
    geocodeableCount: nat,
    rate: real)

  /** Every row has the same columns. */
  ghost predicate Uniform(rows: seq<InputRow>) {
    forall i :: 0 <= i < |rows| ==> rows[i].Keys == rows[0].Keys
  }

  /** The success percentage printed at the end, geocodeable_count over
      address_count times 100. */
  function Rate(geocodeableCount: nat, addressCount: nat): (rate: real)
    requires 0 < addressCount && geocodeableCount <= addressCount
    ensures 0.0 <= rate <= 100.0
    ensures rate * (addressCount as real) == 100.0 * (geocodeableCount as real)
  {
    var g := geocodeableCount as real;
    var a := addressCount as real;
    assert g / a <= 1.0 by {
      assert g <= a;
    }
    g / a * 100.0
  }

  /** Writing the output and the summary: the header is the column set of
      the first processed row, so an empty input fails there. */
  function Summarize(outfile: string, tally: Tally): (r: Result<Report, RunError>)
    requires |tally.processed| == tally.addressCount
    requires tally.geocodeableCount <= tally.addressCount
    ensures r.Err? <==> |tally.processed| == 0
    ensures r.Err? ==> r.error == EmptyInput
    ensures r.Ok? ==>
      && r.value.outfile == outfile
      && r.value.header == tally.processed[0].Keys
      && r.value.rows == tally.processed
      && r.value.addressCount == tally.addressCount
      && r.value.geocodeableCount == tally.geocodeableCount
      && 0.0 <= r.value.rate <= 100.0
      && r.value.rate * (r.value.addressCount as real) == 100.0 * (r.value.geocodeableCount as real)
  {
    if |tally.processed| == 0 then Err(EmptyInput)
    else Ok(Report(outfile, tally.processed[0].Keys, tally.processed,
                   tally.addressCount, tally.geocodeableCount,
                   Rate(tally.geocodeableCount, tally.addressCount)))
  }

  /** main after parse_opts, once the input file has been read: the loop
      over its rows, then the output file and the summary. */
  function Process(cfg: AddressConfig, outfile: string, input: seq<InputRow>, geocode: Geocoder): (r: Result<Report, RunError>)
    ensures r.Ok? <==> |input| > 0 && forall i :: 0 <= i < |input| ==> ExtractAddress(cfg, input[i]).Ok?
    ensures |input| == 0 ==> r == Err(EmptyInput)
    ensures r.Err? && |input| > 0 ==> exists k ::
      && 0 <= k < |input| && ExtractAddress(cfg, input[k]).Err?
      && r.error == Fatal(ExtractAddress(cfg, input[k]).error)
      && forall j :: 0 <= j < k ==> ExtractAddress(cfg, input[j]).Ok?
  {
    match BatchGeocode(cfg, geocode, input)
    case Err(e) => Err(Fatal(e))
    case Ok(tally) => Summarize(outfile, tally)
  }

  /** main: parse the options, read the input file, and process its rows.
      Each stage's failure ends the run. */
  function Run(cfg: AddressConfig, opts: seq<Opt>, files: FileSystem, geocode: Geocoder): (r: Result<Report, RunError>)
    ensures ParseOpts(opts).Err? ==> r == Err(Usage(ParseOpts(opts).error))
    ensures ParseOpts(opts).Ok? && files(ParseOpts(opts).value.infile).None? ==>
      r == Err(CannotRead(ParseOpts(opts).value.infile))
    ensures ParseOpts(opts).Ok? && files(ParseOpts(opts).value.infile).Some? ==>
      r == Process(cfg, ParseOpts(opts).value.outfile, files(ParseOpts(opts).value.infile).value, geocode)
  {
    match ParseOpts(opts)
    case Err(e) => Err(Usage(e))
    case Ok(names) =>
      match files(names.infile)
      case None => Err(CannotRead(names.infile))
      case Some(input) => Process(cfg, names.outfile, input, geocode)
  }

  /** When every row holds its address columns, the run writes the processed
      rows, in input order, under a header made of the first row's columns and the
      thirteen added ones. The counters are the row count and the number of
      geocodable rows, and the percentage is their Rate (so within 0..100,
      and times the row count it is 100 times the geocodable count). */
  lemma ProcessReport(cfg: AddressConfig, outfile: string, input: seq<InputRow>, geocode: Geocoder)
    requires |input| > 0
    requires forall i :: 0 <= i < |input| ==> HasAddressKeys(cfg, input[i])
    ensures Process(cfg, outfile, input, geocode).Ok?
    ensures
      var report := Process(cfg, outfile, input, geocode).value;
      && report.outfile == outfile
      && |report.rows| == report.addressCount == |input|
      && report.header == input[0].Keys + AddedKeys
      && (forall i :: 0 <= i < |input| ==> report.rows[i] == ProcessAddress(cfg, geocode, input[i]).value.row)
      && report.geocodeableCount == CountGeocodable(report.rows)
      && 0.0 <= report.rate <= 100.0
      && 0 < report.addressCount && report.geocodeableCount <= report.addressCount
      && report.rate == Rate(report.geocodeableCount, report.addressCount)
  {
  }

  /** When the input rows all have the same columns, as csv.DictReader gives
      them, every output row has exactly the header's columns, so DictWriter
      can write each of them. */
  lemma ProcessRowsMatchHeader(cfg: AddressConfig, outfile: string, input: seq<InputRow>, geocode: Geocoder)
    requires |input| > 0
    requires forall i :: 0 <= i < |input| ==> HasAddressKeys(cfg, input[i])
    requires Uniform(input)
    ensures Process(cfg, outfile, input, geocode).Ok?
    ensures
      var report := Process(cfg, outfile, input, geocode).value;
      forall i :: 0 <= i < |report.rows| ==> report.rows[i].Keys == report.header
  {
  }

  /** A missing address column ends the run on the first row that lacks
      one, whatever the geocoder would have answered. */
  lemma FatalRunIgnoresGeocoder(cfg: AddressConfig, outfile: string, input: seq<InputRow>, g1: Geocoder, g2: Geocoder)
    requires exists i :: 0 <= i < |input| && !HasAddressKeys(cfg, input[i])
    ensures Process(cfg, outfile, input, g1).Err? && Process(cfg, outfile, input, g1).error.Fatal?
    ensures Process(cfg, outfile, input, g2) == Process(cfg, outfile, input, g1)
  {
  }

  /** main end to end: a run completes exactly when the options name a ".csv"
      file (the last -s), that file can be read, it has rows, and every row
      holds its address columns. The output then goes to a file named after
      the input, which is never the input itself. */
  lemma RunSucceedsExactly(cfg: AddressConfig, opts: seq<Opt>, files: FileSystem, geocode: Geocoder)
    ensures Run(cfg, opts, files, geocode).Ok? <==>
      && ParseOpts(opts).Ok?
      && files(LastSource(opts).value).Some?
      && |files(LastSource(opts).value).value| > 0
      && forall i :: 0 <= i < |files(LastSource(opts).value).value| ==>
           HasAddressKeys(cfg, files(LastSource(opts).value).value[i])
    ensures Run(cfg, opts, files, geocode).Ok? ==>
      var outfile := Run(cfg, opts, files, geocode).value.outfile;
      && outfile == OutputName(LastSource(opts).value)
      && EndsWith(outfile, OutputSuffix)
      && outfile != LastSource(opts).value
  {
    if ParseOpts(opts).Ok? {
      var names := ParseOpts(opts).value;
      assert OutputName(names.infile) == names.outfile;
    }
  }
}
