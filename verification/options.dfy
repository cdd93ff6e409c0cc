/** Turning the command-line options into the input and output file names
    (parse_opts in geocode_addresses.py). */
module Options {
  import opened Outcomes

  /** One option as getopt returns it for the option string "hs:": the flag
      ("-h" or "-s") and its argument ("" for -h). */
  datatype Opt = Opt(flag: string, arg: string)

  /** The reasons parse_opts prints the usage text and exits with status 1. */
  datatype UsageError =
    | NoOptions          // 'No options supplied'
    | HelpRequested      // -h: usage text alone
    | NoSourceFile       // '-s source_file not specified'
    | NotCsv(infile: string)  // 'source_file is not a .csv file'

  datatype Files = Files(infile: string, outfile: string)

  const CsvSuffix := ".csv"
  const OutputSuffix := "_geocoded.csv"

  predicate EndsWith(s: string, suffix: string) {
    |suffix| <= |s| && s[|s| - |suffix|..] == suffix
  }

  /** Python's `s[-n:]` for n > 0: the last n characters, or all of s when it
      is shorter. (At n = 0 Python's `s[-0:]` is all of s; the script only
      uses n = 4.) */
  function PyTail(s: string, n: nat): (r: string)
    requires n > 0
    ensures |r| == if |s| < n then |s| else n
    ensures s[|s| - |r|..] == r
  {
    if |s| <= n then s else s[|s| - n..]
  }

  /** Python's `s[:-n]` for n > 0: all but the last n characters, or "" when
      s is no longer than n. */
  function PyDropTail(s: string, n: nat): (r: string)
    requires n > 0
    ensures r + PyTail(s, n) == s
    ensures |r| == if |s| <= n then 0 else |s| - n
  {
    if |s| <= n then "" else s[..|s| - n]
  }

  /** The script's test `infile[-4:] != '.csv'` is exactly "does not end in .csv";
      in particular names shorter than four characters are rejected. */
  lemma CsvTestIsSuffixTest(s: string)
    ensures PyTail(s, 4) == CsvSuffix <==> EndsWith(s, CsvSuffix)
  {
  }

  predicate HasHelp(opts: seq<Opt>) {
    exists i :: 0 <= i < |opts| && opts[i].flag == "-h"
  }

  /** The argument of the last -s, read from the back of the list. */
  function LastSource(opts: seq<Opt>): Option<string>
  {
    if |opts| == 0 then None
    else if opts[|opts| - 1].flag == "-s" then Some(opts[|opts| - 1].arg)
    else LastSource(opts[..|opts| - 1])
  }

  /** Index i holds the last -s of the list. */
  ghost predicate LastSourceAt(opts: seq<Opt>, i: int) {
    && 0 <= i < |opts| && opts[i].flag == "-s"
    && forall j :: i < j < |opts| ==> opts[j].flag != "-s"
  }

  /** LastSource finds the last -s, and finds nothing exactly when there is none. */
  lemma {:induction false} LastSourceSpec(opts: seq<Opt>)
    ensures LastSource(opts).None? <==> forall i :: 0 <= i < |opts| ==> opts[i].flag != "-s"
    ensures LastSource(opts).Some? ==>
      exists i :: LastSourceAt(opts, i) && opts[i].arg == LastSource(opts).value
  {
    if |opts| > 0 {
      var n := |opts| - 1;
      if opts[n].flag == "-s" {
        assert LastSourceAt(opts, n);
      } else {
        var front := opts[..n];
        LastSourceSpec(front);
        assert forall i :: 0 <= i < n ==> front[i] == opts[i];
        if LastSource(front).Some? {
          var i :| LastSourceAt(front, i) && front[i].arg == LastSource(front).value;
          assert LastSourceAt(opts, i);
        }
      }
    }
  }

  /** The loop `for opt, arg in opts`: -h ends the run at once, -s records
      its argument, so the last -s wins. */
  function ScanOpts(opts: seq<Opt>, infile: Option<string>): Result<Option<string>, UsageError>
  {
    if |opts| == 0 then Ok(infile)
    else if opts[0].flag == "-h" then Err(HelpRequested)
    else if opts[0].flag == "-s" then ScanOpts(opts[1..], Some(opts[0].arg))
    else ScanOpts(opts[1..], infile)
  }

  lemma {:induction false} LastSourceOfCons(o: Opt, rest: seq<Opt>)
    ensures LastSource([o] + rest) ==
      if LastSource(rest).Some? then LastSource(rest)
      else if o.flag == "-s" then Some(o.arg) else None
    decreases |rest|
  {
    if |rest| > 0 {
      var n := |rest| - 1;
      assert ([o] + rest)[..|rest|] == [o] + rest[..n];
      if rest[n].flag != "-s" {
        LastSourceOfCons(o, rest[..n]);
      }
    }
  }

  /** The forward scan agrees with the backward search: any -h is an error,
      otherwise the result is the last -s argument, or the starting value
      when there is no -s. */
  lemma {:induction false} ScanOptsFindsLastSource(opts: seq<Opt>, infile: Option<string>)
    ensures HasHelp(opts) ==> ScanOpts(opts, infile) == Err(HelpRequested)
    ensures !HasHelp(opts) ==>
      ScanOpts(opts, infile) == Ok(if LastSource(opts).Some? then LastSource(opts) else infile)
  {
    if |opts| > 0 {
      var rest := opts[1..];
      assert opts == [opts[0]] + rest;
      LastSourceOfCons(opts[0], rest);
      var next := if opts[0].flag == "-s" then Some(opts[0].arg) else infile;
      ScanOptsFindsLastSource(rest, next);
      if opts[0].flag != "-h" {
        assert HasHelp(opts) <==> HasHelp(rest) by {
          if HasHelp(rest) {
            var i :| 0 <= i < |rest| && rest[i].flag == "-h";
            assert opts[i + 1].flag == "-h";
          }
          if HasHelp(opts) {
            var i :| 0 <= i < |opts| && opts[i].flag == "-h";
            assert rest[i - 1].flag == "-h";
          }
        }
      }
    }
  }

  /** The output name for an input name ending in ".csv": `infile[:-4]`
      followed by "_geocoded.csv". The input name can be read back from it,
      and the two never coincide, so the input is never overwritten. */
  function OutputName(infile: string): (outfile: string)
    requires EndsWith(infile, CsvSuffix)
    ensures outfile == infile[..|infile| - |CsvSuffix|] + OutputSuffix
    ensures EndsWith(outfile, OutputSuffix)
    ensures outfile[..|outfile| - |OutputSuffix|] + CsvSuffix == infile
    ensures outfile != infile
  {
    var stem := PyDropTail(infile, 4);
    assert stem == infile[..|infile| - 4];
    var outfile := stem + OutputSuffix;
    assert outfile[..|outfile| - |OutputSuffix|] == stem;
    assert stem + CsvSuffix == infile;
    assert |outfile| != |infile|;
    outfile
  }

  /** parse_opts: the input file is the argument of the last -s; it must be
      non-empty and end in ".csv", and the output file replaces that suffix
      by "_geocoded.csv". */
  function ParseOpts(opts: seq<Opt>): (r: Result<Files, UsageError>)
    ensures |opts| == 0 ==> r == Err(NoOptions)
    ensures |opts| > 0 && HasHelp(opts) ==> r == Err(HelpRequested)
    ensures |opts| > 0 && !HasHelp(opts) && (LastSource(opts).None? || LastSource(opts) == Some("")) ==>
      r == Err(NoSourceFile)
    ensures (|opts| > 0 && !HasHelp(opts) && LastSource(opts).Some? && LastSource(opts).value != ""
      && !EndsWith(LastSource(opts).value, CsvSuffix)) ==> r == Err(NotCsv(LastSource(opts).value))
    ensures r.Ok? <==>
      |opts| > 0 && !HasHelp(opts) && LastSource(opts).Some? && EndsWith(LastSource(opts).value, CsvSuffix)
    ensures r.Ok? ==>
      && r.value.infile == LastSource(opts).value
      && EndsWith(r.value.infile, CsvSuffix)
      && r.value.outfile == r.value.infile[..|r.value.infile| - |CsvSuffix|] + OutputSuffix
  {
    if |opts| == 0 then Err(NoOptions)
    else
      ScanOptsFindsLastSource(opts, None);
      var infile :- ScanOpts(opts, None);
      if infile.None? || infile.value == "" then Err(NoSourceFile)
      else if PyTail(infile.value, 4) != CsvSuffix then (CsvTestIsSuffixTest(infile.value); Err(NotCsv(infile.value)))
      else (CsvTestIsSuffixTest(infile.value); Ok(Files(infile.value, OutputName(infile.value))))
  }

  /** Two runs that write the same output file read the same input file. */
  lemma OutfileDeterminesInfile(a: string, b: string)
    requires EndsWith(a, CsvSuffix) && EndsWith(b, CsvSuffix)
    requires OutputName(a) == OutputName(b)
    ensures a == b
  {
  }
}
