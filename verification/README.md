# geocode_addresses, modelled in Dafny

`geocode_addresses.py` is a batch geocoder. It reads a CSV file of addresses
and builds a one-line address from each row. It asks Google's geocoder
(through pygeocoder) for each address, adds a `geocodable` flag and twelve
`g_*` columns to the row, writes all rows to `<stem>_geocoded.csv`, and prints
how many rows could be geocoded.

This project models the logic of that script as pure Dafny functions:

- `address.dfy` (module `Address`) models `extract_address`. The column settings
  (the module constants `ST_NUM_KEY` … `COUNTRY_KEY`) become an
  `AddressConfig` record. `SourceConfig` holds the values the script ships with.
  A missing column, which makes the script call `exit`, becomes an
  `ExtractError`.
- `geocode.dfy` (module `Geocode`) models `process_address`. `geocode_address`
  is a parameter of type `Geocoder = string -> Option<GeocodeResult>`. `None`
  stands for every exception the real call swallows.
- `options.dfy` (module `Options`) models the part of `parse_opts` that runs
  after getopt. It scans the `(flag, argument)` pairs, checks the `.csv` suffix
  with Python's slice semantics, and derives the output name.
- `batch.dfy` (module `Batch`) models the row loop of `main`. `Loop` is a fold
  over any per-row `Step`. `BatchGeocode` uses `process_address` as that step.
  `ProcessRows` is the same loop written as a `while` loop with counters.
- `driver.dfy` (module `Driver`) models `main` without its I/O. The input file
  is a parameter `FileSystem = string -> Option<seq<InputRow>>`, and `None`
  stands for `IOError`. `Process` covers everything after the file is read:
  the loop, the output header and the summary. `Run` chains the options, the
  read and `Process`.
- `outcomes.dfy` and `rows.dfy` hold `Option`/`Result` and the cell type
  `Value`: text, a boolean, a number, or Python's `None`.

Facts about the script that the model keeps, and that its own comments leave
implicit:

- The comment at line 32 calls `ST_NUM_KEY`, `POSTAL_KEY` and `COUNTRY_KEY`
  optional. What is optional is whether the key is set. A key that is set is
  looked up without a guard (lines 124, 126 and 127), so a row that lacks
  that column is fatal, just like a row that lacks the street. This matches
  the docstring at line 115. With the shipped settings, every row needs
  `stp_zipcode`.
- Each row gains thirteen columns: `geocodable` and twelve `g_*` columns
  (lines 95-107).
- An optional key counts as set only when it is truthy. `""` switches it off
  just as `None` does. `-s ""` is treated as "no source file" (line 172).
- An input file without data rows crashes at `processed_list[0]` (line 211).
  The division by zero at line 217 is never reached. The model returns
  `EmptyInput` for this case.

## Model

| member | source | states |
|---|---|---|
| Address.ExtractAddress | geocode_addresses.py:112-132 | Extraction succeeds exactly when the row holds the street, city and state columns and every enabled optional column. The address is then `[num ]street, city, state[ postal][, country]`. |
| Address.ExtractionReportsFirstMissingKey | geocode_addresses.py:122-130 | On failure, the error names the first missing column in the order the script reads them: number, street, city, state, postal, country. |
| Address.RequiredKeysAreRequired | geocode_addresses.py:125 | A row without the street, city or state column always fails. |
| Address.ConfiguredOptionalKeysAreRequired | geocode_addresses.py:124-127 | If the required columns are present, extraction succeeds exactly when every enabled optional column is present. Disabled optional columns are never read. |
| Address.AddressSegments | geocode_addresses.py:123-127 | If no cell used contains a comma, splitting the address at commas returns the parts in order: the numbered street, the city, the state with its postal code, and the country if one is configured. |
| Address.MassachusettsAvenueExample | geocode_addresses.py:41 | The default example address comes from street, city and state cells joined by ", ". |
| Geocode.AddedCells | geocode_addresses.py:95-107 | The added cells are exactly the 13 added columns. `geocodable` holds the flag. Each `g_*` column holds its result attribute when the row is geocodable, and `None` otherwise. |
| Geocode.Annotate | geocode_addresses.py:95-109 | The annotated row has the input columns plus the added ones. Added columns overwrite input columns of the same name. Every other input cell is unchanged. |
| Geocode.ProcessAddress | geocode_addresses.py:77-109 | Fails exactly when extraction fails, with the same error. Otherwise the row is geocodable exactly when the geocoder returns a result whose `valid_address` is true. It has the input columns plus `geocodable` and the 12 `g_*` columns. Untouched input cells keep their text. Each `g_*` column is the matching result attribute, or `None` when the row is not geocodable. |
| Geocode.AddedKeysCount | geocode_addresses.py:95-107 | The twelve `g_*` names are distinct and differ from `geocodable`, so thirteen columns are added. |
| Geocode.FailedLookupNullsColumns | geocode_addresses.py:67-74 | A geocoder failure and an invalid answer give the same output: the flag is false and every `g_*` column is `None`. Neither one stops the run. |
| Geocode.ShippedSettingsNeedPostalColumn | geocode_addresses.py:33-38 | With the shipped settings, every row without `stp_zipcode` fails. If the row has street, city and state, the error names `stp_zipcode`. |
| Options.PyTail | geocode_addresses.py:174 | For n > 0, `s[-n:]` has length `min(|s|, n)` and is a suffix of `s`. |
| Options.PyDropTail | geocode_addresses.py:177 | `s[:-n]` followed by `s[-n:]` gives back `s`. Its length is `|s| - n`, or 0 when that is negative. |
| Options.CsvTestIsSuffixTest | geocode_addresses.py:174-175 | `infile[-4:] == '.csv'` holds exactly when the name ends in ".csv". Names shorter than four characters never pass. |
| Options.LastSourceSpec | geocode_addresses.py:166-170 | The backward search returns nothing exactly when there is no `-s`. Otherwise it returns the argument of the last `-s`. |
| Options.ScanOptsFindsLastSource | geocode_addresses.py:166-170 | The forward loop fails with the usage exit if any option is `-h`. Otherwise it returns the last `-s` argument, or its starting value when there is no `-s`. |
| Options.ParseOpts | geocode_addresses.py:157-179 | An empty option list gives `NoOptions`. Any `-h` gives `HelpRequested`. A missing or empty `-s` gives `NoSourceFile`, and a name without ".csv" gives `NotCsv`. Otherwise the input name is the last `-s` argument and the output name is its stem plus "_geocoded.csv". Success happens exactly in that last case. |
| Options.OutputName | geocode_addresses.py:177 | For an input name ending in ".csv", the output name is the name without ".csv" plus "_geocoded.csv". It ends in "_geocoded.csv", and stripping that and adding ".csv" gives back the input name. So the output name never equals the input name. |
| Options.OutfileDeterminesInfile | geocode_addresses.py:177 | Two input names that give the same output name are equal. |
| Batch.CountGeocodable | geocode_addresses.py:204 | The number of rows flagged geocodable is at most the number of rows. |
| Batch.Loop | geocode_addresses.py:198-204 | When the loop succeeds, it has collected one row per input row and `address_count` equals the row count. |
| Batch.LoopFailsAtFirstFailure | geocode_addresses.py:198-204 | The loop fails exactly when some row fails. It then fails with the error of the first failing row. |
| Batch.LoopKeepsOrderAndCounts | geocode_addresses.py:201-204 | When the loop succeeds, output row i is the step's result for input row i, and `geocodeable_count` counts the output rows flagged geocodable. |
| Batch.ProcessStepFlagsHonestly | geocode_addresses.py:92-95 | The `geocodable` column of a processed row agrees with the flag that `process_address` returns. |
| Batch.BatchGeocode | geocode_addresses.py:191-204 | The loop with `process_address` succeeds exactly when every row's address can be extracted. Otherwise it fails with the first bad row's error. On success the output rows are the processed input rows in input order. `address_count` is the row count, and `geocodeable_count` is the number of geocodable rows, at most `address_count`. |
| Batch.BatchAddsColumns | geocode_addresses.py:95-109 | When every row holds its address columns, the loop completes. Each processed row then has its input columns plus the 13 added ones, whether or not it was geocodable. |
| Batch.ProcessRows | geocode_addresses.py:191-204 | The `while` loop with its list and two counters computes the same result as the fold. It succeeds exactly when every row can be processed. |
| Driver.Rate | geocode_addresses.py:217 | The success percentage is between 0 and 100, and multiplied by `address_count` it equals 100 times `geocodeable_count`. |
| Driver.Summarize | geocode_addresses.py:209-221 | An empty loop result fails with `EmptyInput`. Otherwise the report has the header of the first row, all rows, both counters and the percentage. |
| Driver.Process | geocode_addresses.py:191-217 | Processing the rows read succeeds exactly when the file has rows and every row's address can be extracted. A file without rows ends in `EmptyInput`. Otherwise a failure is `Fatal`, with the error of the first row whose address cannot be extracted. |
| Driver.RunSucceedsExactly | geocode_addresses.py:182-221 | `Run` (all of `main`) succeeds exactly when four things hold: the options are accepted, the file named by the last `-s` can be read, it has rows, and every row holds its address columns. The output name is then the input name with "_geocoded.csv" in place of ".csv", and it never equals the input name. |
| Driver.ProcessReport | geocode_addresses.py:191-221 | When the file has rows and every row holds its address columns, the report goes to the given output name. Row i of the report is input row i as `process_address` returns it, and the header is the first input row's columns plus the 13 added ones. `address_count` is the row count and `geocodeable_count` counts the rows flagged geocodable. The percentage is `Rate` of the two counters: between 0 and 100, and times `address_count` it is 100 times `geocodeable_count`. |
| Driver.ProcessRowsMatchHeader | geocode_addresses.py:211-213 | If all input rows have the same columns, every output row has exactly the header's columns. |
| Driver.FatalRunIgnoresGeocoder | geocode_addresses.py:128-130 | If some row lacks an address column, processing ends with a `Fatal` error. That error is the same whatever the geocoder answers. |

## Left out

- The network call `Geocoder.geocode` and its error printing (lines 67-72): the geocoder is a function parameter.
- `sleep(0.2)` throttling and the progress dots (lines 199-200): timing and output only.
- The call to `getopt.getopt` and `GetoptError` (lines 160-164): library tokenising. The model starts from the `(flag, argument)` pairs getopt returns, so only `-h` and `-s` can occur.
- Opening and reading the input file: a `FileSystem` parameter stands in for them. csv.DictReader quirks are not modelled: short rows get `None` cells, and long rows get an extra key holding a list. Every input cell is a string.
- Writing the output file, including `IOError` on write and DictWriter's own checks (lines 209-215): I/O. The model returns the header and rows that would be written. It treats the header as a set, so column order is not modelled.
- The usage text and exit status from `print_usage_and_exit` (lines 135-145): output only. Each exit is a `UsageError` or `RunError` value.
- Driver.Rate: it uses exact real arithmetic instead of the double-precision division, and the `%.2f` rendering is not modelled.
- The `isinstance` assertions (lines 65, 88, 120): every value the model passes already has the asserted type.
- path_utils.py: a stand-alone demo that builds two points from the clock and sorts them. It is not part of the geocoding script.
