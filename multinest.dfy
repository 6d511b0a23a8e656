/** The MultiNest nested-sampling search: its settings (each an explicit
    argument or, when absent, the configured default), the tag that names its
    output folder, the copy made for a phase extension, and the readers of
    the fixed-width text files MultiNest writes. */
module MultiNest {
  import opened Wrappers
  import Text

  // --- Settings ------------------------------------------------------------

  /** The MultiNest settings, as configured or as chosen. */
  datatype Settings = Settings(
    nLivePoints: int,
    samplingEfficiency: real,
    constEfficiencyMode: bool,
    evidenceTolerance: real,
    multimodal: bool,
    importanceNestedSampling: bool,
    maxModes: int,
    modeTolerance: real,
    maxIter: int,
    nIterBeforeUpdate: int,
    nullLogEvidence: real,
    seed: int,
    verbose: bool,
    resume: bool,
    context: int,
    writeOutput: bool,
    logZero: real,
    initMpi: bool)

  /** The constructor's keyword arguments; `None` is Python's default None. */
  datatype Arguments = Arguments(
    nLivePoints: Option<int>,
    samplingEfficiency: Option<real>,
    constEfficiencyMode: Option<bool>,
    evidenceTolerance: Option<real>,
    multimodal: Option<bool>,
    importanceNestedSampling: Option<bool>,
    maxModes: Option<int>,
    modeTolerance: Option<real>,
    maxIter: Option<int>,
    nIterBeforeUpdate: Option<int>,
    nullLogEvidence: Option<real>,
    seed: Option<int>,
    verbose: Option<bool>,
    resume: Option<bool>,
    context: Option<int>,
    writeOutput: Option<bool>,
    logZero: Option<real>,
    initMpi: Option<bool>)

  /** The settings the base nested-sampling search keeps (its constructor is
      not part of this model; they are taken as it resolved them). */
  datatype NestSettings = NestSettings(
    sigma: real,
    terminateAtAcceptanceRatio: bool,
    acceptanceRatioThreshold: real,
    staggerResamplingLikelihood: bool)

  /** A MultiNest search: where it writes, and its settings. */
  datatype Search = Search(paths: string, settings: Settings, nest: NestSettings)

  /** `config(...) if arg is None else arg`. */
  function Resolve<T>(arg: Option<T>, configured: T): T
  {
    if arg.None? then configured else arg.value
  }

  /** Python's `a or b` with `a` an optional boolean. */
  function PyOr(a: Option<bool>, b: bool): bool
  {
    if a == Some(true) then true else b
  }

  /** The settings chosen by the constructor from its arguments and the
      configuration. `multimodal` is written as
      `multimodal or config(...) if multimodal is None else multimodal`. */
  function NewSettings(args: Arguments, config: Settings): Settings
  {
    Settings(
      Resolve(args.nLivePoints, config.nLivePoints),
      Resolve(args.samplingEfficiency, config.samplingEfficiency),
      Resolve(args.constEfficiencyMode, config.constEfficiencyMode),
      Resolve(args.evidenceTolerance, config.evidenceTolerance),
      if args.multimodal.None? then PyOr(args.multimodal, config.multimodal) else args.multimodal.value,
      Resolve(args.importanceNestedSampling, config.importanceNestedSampling),
      Resolve(args.maxModes, config.maxModes),
      Resolve(args.modeTolerance, config.modeTolerance),
      Resolve(args.maxIter, config.maxIter),
      Resolve(args.nIterBeforeUpdate, config.nIterBeforeUpdate),
      Resolve(args.nullLogEvidence, config.nullLogEvidence),
      Resolve(args.seed, config.seed),
      Resolve(args.verbose, config.verbose),
      Resolve(args.resume, config.resume),
      Resolve(args.context, config.context),
      Resolve(args.writeOutput, config.writeOutput),
      Resolve(args.logZero, config.logZero),
      Resolve(args.initMpi, config.initMpi))
  }

  /** `MultiNest.__init__`. */
  function NewSearch(paths: string, args: Arguments, config: Settings, nest: NestSettings): Search
  {
    Search(paths, NewSettings(args, config), nest)
  }

  /** Every argument given explicitly. */
  function Explicit(s: Settings): Arguments
  {
    Arguments(Some(s.nLivePoints), Some(s.samplingEfficiency), Some(s.constEfficiencyMode),
      Some(s.evidenceTolerance), Some(s.multimodal), Some(s.importanceNestedSampling), Some(s.maxModes),
      Some(s.modeTolerance), Some(s.maxIter), Some(s.nIterBeforeUpdate), Some(s.nullLogEvidence),
      Some(s.seed), Some(s.verbose), Some(s.resume), Some(s.context), Some(s.writeOutput),
      Some(s.logZero), Some(s.initMpi))
  }

  const NoArguments := Arguments(None, None, None, None, None, None, None, None, None,
    None, None, None, None, None, None, None, None, None)

  /** With no arguments every setting is the configured one (the `or` of
      `multimodal` included); with every argument given the configuration is
      ignored. */
  lemma SettingsFromArgumentsOrConfig(s: Settings, config: Settings)
    ensures NewSettings(NoArguments, config) == config
    ensures NewSettings(Explicit(s), config) == s
  {
  }

  /** A given `multimodal` wins even when it is False and the configuration
      says True; an absent one is the configured value. */
  lemma MultimodalResolves(args: Arguments, config: Settings)
    ensures NewSettings(args, config).multimodal == Resolve(args.multimodal, config.multimodal)
  {
  }

  // --- Tag -----------------------------------------------------------------

  /** The configured tag strings. */
  datatype TagConfig = TagConfig(
    name: string,
    nLivePoints: string,
    samplingEfficiency: string,
    constEfficiencyMode: string,
    multimodal: string,
    importanceNestedSampling: string)

  /** `f"{n}"` for an int. */
  function IntToString(n: int): string
  {
    if n < 0 then "-" + Text.NatToString(-n) else Text.NatToString(n)
  }

  /** `"_" + tag` when the flag is set, else nothing. */
  function FlagTag(flag: bool, tag: string): (r: string)
  {
    if flag then "_" + tag else ""
  }

  /** `tag`: name, then number of live points, then sampling efficiency, then
      one suffix per flag that is set. `f"{x}"` of a float is the parameter
      `formatFloat`. */
  function Tag(s: Settings, config: TagConfig, formatFloat: real -> string): string
  {
    config.name + "__" + config.nLivePoints + "_" + IntToString(s.nLivePoints) + "_"
      + config.samplingEfficiency + "_" + formatFloat(s.samplingEfficiency)
      + FlagTag(s.constEfficiencyMode, config.constEfficiencyMode)
      + FlagTag(s.multimodal, config.multimodal)
      + FlagTag(s.importanceNestedSampling, config.importanceNestedSampling)
  }

  /** The tag without any flag suffix. */
  function BaseTag(s: Settings, config: TagConfig, formatFloat: real -> string): string
  {
    config.name + "__" + config.nLivePoints + "_" + IntToString(s.nLivePoints) + "_"
      + config.samplingEfficiency + "_" + formatFloat(s.samplingEfficiency)
  }

  /** The tag starts with the base tag and its length grows by `1 + |tag|`
      for each flag set; with no flag set it is the base tag. */
  lemma TagStructure(s: Settings, config: TagConfig, formatFloat: real -> string)
    ensures var t := Tag(s, config, formatFloat); var b := BaseTag(s, config, formatFloat);
      && |b| <= |t| && t[..|b|] == b
      && |t| == |b| + |FlagTag(s.constEfficiencyMode, config.constEfficiencyMode)|
        + |FlagTag(s.multimodal, config.multimodal)|
        + |FlagTag(s.importanceNestedSampling, config.importanceNestedSampling)|
      && (!s.constEfficiencyMode && !s.multimodal && !s.importanceNestedSampling ==> t == b)
    ensures Tag(s, config, formatFloat) == BaseTag(s, config, formatFloat)
      + FlagTag(s.constEfficiencyMode, config.constEfficiencyMode)
      + FlagTag(s.multimodal, config.multimodal)
      + FlagTag(s.importanceNestedSampling, config.importanceNestedSampling)
  {
    var b := BaseTag(s, config, formatFloat);
    var rest := FlagTag(s.constEfficiencyMode, config.constEfficiencyMode)
      + FlagTag(s.multimodal, config.multimodal)
      + FlagTag(s.importanceNestedSampling, config.importanceNestedSampling);
    assert Tag(s, config, formatFloat) == b + rest;
  }

  /** Turning importance nested sampling on appends its tag at the very end. */
  lemma ImportanceSamplingTagLast(s: Settings, config: TagConfig, formatFloat: real -> string)
    requires !s.importanceNestedSampling
    ensures Tag(s.(importanceNestedSampling := true), config, formatFloat)
      == Tag(s, config, formatFloat) + "_" + config.importanceNestedSampling
  {
  }

  // --- Copy for a phase extension -------------------------------------------

  /** `copy_with_name_extension`: the base class's copy (not modelled; it
      arrives as `baseCopy`, already writing to the extended paths) with every
      search setting copied over from this search. */
  function CopyWithNameExtension(search: Search, baseCopy: Search): (r: Search)
  {
    Search(baseCopy.paths, search.settings, search.nest)
  }

  /** The copy writes where the base copy writes, keeps every setting of the
      original, and so has the original's tag. */
  lemma CopyKeepsSettings(search: Search, baseCopy: Search, config: TagConfig, formatFloat: real -> string)
    ensures CopyWithNameExtension(search, baseCopy).paths == baseCopy.paths
    ensures CopyWithNameExtension(search, baseCopy).settings == search.settings
    ensures CopyWithNameExtension(search, baseCopy).nest == search.nest
    ensures Tag(CopyWithNameExtension(search, baseCopy).settings, config, formatFloat) == Tag(search.settings, config, formatFloat)
  {
  }

  // --- Reading the text files ----------------------------------------------

  /** What `file.read(n)` leaves unread: the text after the first `n`
      characters (all of it read when fewer remain). */
  function Drop(text: string, n: nat): (r: string)
    ensures |r| == if n <= |text| then |text| - n else 0
  {
    if n <= |text| then text[n..] else ""
  }

  /** What `file.read(n)` returns. */
  function Take(text: string, n: nat): string
  {
    if n <= |text| then text[..n] else text
  }

  /** What `file.readline()` leaves unread: the text after the next newline,
      or nothing. */
  function AfterLine(text: string): (r: string)
    ensures |r| < |text| || text == r == ""
    decreases |text|
  {
    if |text| == 0 then ""
    else if text[0] == '\n' then text[1..]
    else AfterLine(text[1..])
  }

  /** `for line in file: total_samples += 1`: the number of lines, the last
      counted even without a newline. */
  function LineCount(text: string): nat
    decreases |text|
  {
    if |text| == 0 then 0 else 1 + LineCount(AfterLine(text))
  }

  /** The line-counting loop of every reader. */
  method CountLines(text: string) returns (count: nat)
    ensures count == LineCount(text)
  {
    count := 0;
    var rest := text;
    while |rest| > 0
      invariant count + LineCount(rest) == LineCount(text)
      decreases |rest|
    {
      rest := AfterLine(rest);
      count := count + 1;
    }
  }

  /** Reading `count` more fields of `width` characters after `acc`, each
      parsed by `parse` (`float(...)`, whose ValueError is `None`). Returns
      all the fields and the unread text. */
  function FieldsAcc(text: string, width: nat, count: nat, parse: string -> Option<real>, acc: seq<real>): Option<(seq<real>, string)>
    decreases count
  {
    if count == 0 then Some((acc, text))
    else
      match parse(Take(text, width))
      case None => None
      case Some(x) => FieldsAcc(Drop(text, width), width, count - 1, parse, acc + [x])
  }

  /** The shape of each record: characters skipped, then `count` fields of
      `width` characters, then the rest of the line. */
  datatype Layout = Layout(skip: nat, width: nat, count: nat)

  /** Reading `lines` more records after `acc`. */
  function RecordsAcc(text: string, lines: nat, layout: Layout, parse: string -> Option<real>, acc: seq<seq<real>>): Option<seq<seq<real>>>
    decreases lines
  {
    if lines == 0 then Some(acc)
    else
      match FieldsAcc(Drop(text, layout.skip), layout.width, layout.count, parse, [])
      case None => None
      case Some((record, rest)) => RecordsAcc(AfterLine(rest), lines - 1, layout, parse, acc + [record])
  }

  /** The records of a file: as many as it has lines. */
  function Records(text: string, layout: Layout, parse: string -> Option<real>): (r: Option<seq<seq<real>>>)
    ensures r.Some? ==> forall i :: 0 <= i < |r.value| ==> |r.value[i]| == layout.count
  {
    RecordsAccLengths(text, LineCount(text), layout, parse, []);
    RecordsAcc(text, LineCount(text), layout, parse, [])
  }

  /** The reading loop shared by the three readers of `multinest.txt`: count
      the lines, go back to the start, and for each line skip, read the
      fields and move past the newline. */
  method ReadRecords(text: string, layout: Layout, parse: string -> Option<real>) returns (r: Option<seq<seq<real>>>)
    ensures r == Records(text, layout, parse)
  {
    var total := CountLines(text);
    var records: seq<seq<real>> := [];
    var rest := text;
    for line := 0 to total
      invariant RecordsAcc(rest, total - line, layout, parse, records) == Records(text, layout, parse)
    {
      rest := Drop(rest, layout.skip);
      ghost var start := rest;
      var vector: seq<real> := [];
      for k := 0 to layout.count
        invariant FieldsAcc(rest, layout.width, layout.count - k, parse, vector) == FieldsAcc(start, layout.width, layout.count, parse, [])
      {
        var value := parse(Take(rest, layout.width));
        if value.None? {
          return None;
        }
        vector := vector + [value.value];
        rest := Drop(rest, layout.width);
      }
      rest := AfterLine(rest);
      records := records + [vector];
    }
    r := Some(records);
  }

  /** `parameters_from_file_weighted_samples`: one vector per line, of
      `prior_count` floats of 28 characters after the first 56. */
  method ParametersFromFile(text: string, priorCount: nat, parse: string -> Option<real>) returns (r: Option<seq<seq<real>>>)
    ensures r == Records(text, Layout(56, 28, priorCount), parse)
  {
    r := ReadRecords(text, Layout(56, 28, priorCount), parse);
  }

  /** The first field of every record, scaled. */
  function FirstColumn(records: seq<seq<real>>, scale: real): (r: seq<real>)
    requires forall i :: 0 <= i < |records| ==> |records[i]| > 0
    ensures |r| == |records| && forall i :: 0 <= i < |r| ==> r[i] == scale * records[i][0]
  {
    seq(|records|, i requires 0 <= i < |records| => scale * records[i][0])
  }

  /** `log_likelihoods_from_file_weighted_samples`: per line, -0.5 times the
      float in the 28 characters after the first 28. */
  method LogLikelihoodsFromFile(text: string, parse: string -> Option<real>) returns (r: Option<seq<real>>)
    ensures var records := Records(text, Layout(28, 28, 1), parse);
      r == if records.None? then None else Some(FirstColumn(records.value, -0.5))
  {
    var records := ReadRecords(text, Layout(28, 28, 1), parse);
    if records.None? {
      return None;
    }
    r := Some(FirstColumn(records.value, -0.5));
  }

  /** `weights_from_file_weighted_samples`: per line, the float in the 24
      characters after the first 4. */
  method WeightsFromFile(text: string, parse: string -> Option<real>) returns (r: Option<seq<real>>)
    ensures var records := Records(text, Layout(4, 24, 1), parse);
      r == if records.None? then None else Some(FirstColumn(records.value, 1.0))
  {
    var records := ReadRecords(text, Layout(4, 24, 1), parse);
    if records.None? {
      return None;
    }
    r := Some(FirstColumn(records.value, 1.0));
  }

  /** `total_samples_from_file_resume`: seek to 1, skip 19, and parse the
      next 8 characters as an int. */
  function TotalSamplesFromResume(text: string, parseInt: string -> Option<int>): (r: Option<int>)
    ensures |text| >= 28 ==> r == parseInt(text[20..28])
  {
    assert |text| >= 28 ==> Take(Drop(Drop(text, 1), 19), 8) == text[20..28];
    parseInt(Take(Drop(Drop(text, 1), 19), 8))
  }

  const MissingLogEvidence: real := -1.0e99

  /** `log_evidence_from_file_summary`: the float in the 28 characters after
      the first `2 + 112 * prior_count`; a file not yet written gives
      -1.0e99. */
  function LogEvidenceFromSummary(file: Option<string>, priorCount: nat, parse: string -> Option<real>): (r: Option<real>)
    ensures file.None? ==> r == Some(MissingLogEvidence)
    ensures file.Some? && 30 + 112 * priorCount <= |file.value| ==>
      r == parse(file.value[2 + 112 * priorCount .. 30 + 112 * priorCount])
  {
    match file
    case None => Some(MissingLogEvidence)
    case Some(text) =>
      var start := 2 + 112 * priorCount;
      assert start + 28 <= |text| ==> Take(Drop(text, start), 28) == text[start..start + 28];
      parse(Take(Drop(text, start), 28))
  }

  // --- Well-formed files -----------------------------------------------------

  lemma {:induction false} FieldsAccLength(text: string, width: nat, count: nat, parse: string -> Option<real>, acc: seq<real>)
    ensures var r := FieldsAcc(text, width, count, parse, acc); r.Some? ==> |r.value.0| == |acc| + count
    decreases count
  {
    if count > 0 && parse(Take(text, width)).Some? {
      FieldsAccLength(Drop(text, width), width, count - 1, parse, acc + [parse(Take(text, width)).value]);
    }
  }

  lemma {:induction false} RecordsAccLengths(text: string, lines: nat, layout: Layout, parse: string -> Option<real>, acc: seq<seq<real>>)
    requires forall i :: 0 <= i < |acc| ==> |acc[i]| == layout.count
    ensures var r := RecordsAcc(text, lines, layout, parse, acc);
      r.Some? ==> forall i :: 0 <= i < |r.value| ==> |r.value[i]| == layout.count
    decreases lines
  {
    if lines > 0 {
      var f := FieldsAcc(Drop(text, layout.skip), layout.width, layout.count, parse, []);
      FieldsAccLength(Drop(text, layout.skip), layout.width, layout.count, parse, []);
      if f.Some? {
        RecordsAccLengths(AfterLine(f.value.1), lines - 1, layout, parse, acc + [f.value.0]);
      }
    }
  }

  /** A file made of `lines`, each followed by a newline. */
  function JoinLines(lines: seq<string>): string
  {
    if |lines| == 0 then "" else lines[0] + "\n" + JoinLines(lines[1..])
  }

  /** Every line is free of newlines and long enough for its record. */
  predicate WellFormed(lines: seq<string>, layout: Layout)
  {
    forall i :: 0 <= i < |lines| ==> '\n' !in lines[i] && layout.skip + layout.width * layout.count <= |lines[i]|
  }

  /** Field `j` of a line: the `width` characters from `skip + width * j`. */
  function Column(line: string, layout: Layout, j: nat): string
    requires layout.skip + layout.width * j + layout.width <= |line|
  {
    line[layout.skip + layout.width * j .. layout.skip + layout.width * j + layout.width]
  }

  lemma MulSucc(w: nat, j: nat)
    ensures w * (j + 1) == w * j + w
  {
  }

  lemma MulMonotone(w: nat, j: nat, n: nat)
    requires j < n
    ensures w * j + w <= w * n
  {
    MulSucc(w, j);
    assert w * (j + 1) <= w * n by {
      MulLeq(w, j + 1, n);
    }
  }

  lemma MulLeq(w: nat, a: nat, b: nat)
    requires a <= b
    ensures w * a <= w * b
  {
  }

  /** The fields of a segment long enough for `count` of them. */
  function SegmentFields(s: string, width: nat, count: nat, parse: string -> Option<real>): seq<Option<real>>
    requires width * count <= |s|
  {
    seq(count, j requires 0 <= j < count => (MulMonotone(width, j, count); parse(s[width * j .. width * j + width])))
  }

  predicate AllParsed(fields: seq<Option<real>>)
  {
    forall j :: 0 <= j < |fields| ==> fields[j].Some?
  }

  function Values(fields: seq<Option<real>>): (r: seq<real>)
    requires AllParsed(fields)
    ensures |r| == |fields| && forall j :: 0 <= j < |r| ==> Some(r[j]) == fields[j]
  {
    seq(|fields|, j requires 0 <= j < |fields| => fields[j].value)
  }

  lemma TakeDropConcat(s: string, tail: string, w: nat)
    requires w <= |s|
    ensures Take(s + tail, w) == s[..w] && Drop(s + tail, w) == s[w..] + tail
  {
  }

  /** The fields of a segment are its first field then those of the segment
      after it. */
  lemma SegmentFieldsShift(s: string, width: nat, count: nat, parse: string -> Option<real>)
    requires width * count <= |s| && count > 0
    ensures width <= |s| && width * (count - 1) <= |s[width..]|
    ensures SegmentFields(s, width, count, parse)[0] == parse(s[..width])
    ensures SegmentFields(s[width..], width, count - 1, parse) == SegmentFields(s, width, count, parse)[1..]
  {
    MulMonotone(width, 0, count);
    MulSucc(width, count - 1);
    var s' := s[width..];
    var fields := SegmentFields(s, width, count, parse);
    var fields' := SegmentFields(s', width, count - 1, parse);
    forall j | 0 <= j < count - 1 ensures fields'[j] == fields[j + 1] {
      MulMonotone(width, j, count - 1);
      MulSucc(width, j);
      assert s'[width * j .. width * j + width] == s[width * (j + 1) .. width * (j + 1) + width];
    }
  }

  lemma ValuesCons(fields: seq<Option<real>>)
    requires AllParsed(fields) && |fields| > 0
    ensures AllParsed(fields[1..]) && Values(fields) == [fields[0].value] + Values(fields[1..])
  {
  }

  /** Reading fields from a segment long enough for them parses its
      consecutive `width`-character slices and leaves the rest unread. */
  lemma {:induction false} FieldsOfSegment(s: string, tail: string, width: nat, count: nat, parse: string -> Option<real>, acc: seq<real>)
    requires width * count <= |s|
    requires AllParsed(SegmentFields(s, width, count, parse))
    ensures FieldsAcc(s + tail, width, count, parse, acc) == Some((acc + Values(SegmentFields(s, width, count, parse)), s[width * count..] + tail))
    decreases count
  {
    var fields := SegmentFields(s, width, count, parse);
    if count == 0 {
      assert acc + Values(fields) == acc;
    } else {
      SegmentFieldsShift(s, width, count, parse);
      TakeDropConcat(s, tail, width);
      ValuesCons(fields);
      var x := fields[0].value;
      var s' := s[width..];
      FieldsOfSegment(s', tail, width, count - 1, parse, acc + [x]);
      assert acc + [x] + Values(fields[1..]) == acc + Values(fields);
      MulSucc(width, count - 1);
      assert s'[width * (count - 1)..] == s[width * count..];
    }
  }

  lemma {:induction false} AfterLineOf(s: string, tail: string)
    requires '\n' !in s
    ensures AfterLine(s + "\n" + tail) == tail
    decreases |s|
  {
    if |s| > 0 {
      assert (s + "\n" + tail)[1..] == s[1..] + "\n" + tail;
      AfterLineOf(s[1..], tail);
    } else {
      assert (s + "\n" + tail)[1..] == tail;
    }
  }

  /** A well-formed file has one line per element of `lines`. */
  lemma {:induction false} LineCountOfLines(lines: seq<string>)
    requires forall i :: 0 <= i < |lines| ==> '\n' !in lines[i]
    ensures LineCount(JoinLines(lines)) == |lines|
  {
    if |lines| > 0 {
      AfterLineOf(lines[0], JoinLines(lines[1..]));
      LineCountOfLines(lines[1..]);
    }
  }

  /** The record of one well-formed line. */
  function LineRecord(line: string, layout: Layout, parse: string -> Option<real>): seq<Option<real>>
    requires layout.skip + layout.width * layout.count <= |line|
  {
    SegmentFields(line[layout.skip..], layout.width, layout.count, parse)
  }

  /** Each field of a line's record is the parse of its column. */
  lemma LineRecordColumns(line: string, layout: Layout, parse: string -> Option<real>)
    requires layout.skip + layout.width * layout.count <= |line|
    ensures forall j :: 0 <= j < layout.count ==>
      layout.skip + layout.width * j + layout.width <= |line| && LineRecord(line, layout, parse)[j] == parse(Column(line, layout, j))
  {
    forall j | 0 <= j < layout.count
      ensures layout.skip + layout.width * j + layout.width <= |line| && LineRecord(line, layout, parse)[j] == parse(Column(line, layout, j))
    {
      MulMonotone(layout.width, j, layout.count);
      var s := line[layout.skip..];
      assert s[layout.width * j .. layout.width * j + layout.width] == Column(line, layout, j);
    }
  }

  /** The records of well-formed lines whose fields all parse. */
  function ExpectedRecords(lines: seq<string>, layout: Layout, parse: string -> Option<real>): (r: seq<seq<real>>)
    requires WellFormed(lines, layout)
    requires forall i :: 0 <= i < |lines| ==> AllParsed(LineRecord(lines[i], layout, parse))
    ensures |r| == |lines| && forall i :: 0 <= i < |lines| ==> r[i] == Values(LineRecord(lines[i], layout, parse))
  {
    seq(|lines|, i requires 0 <= i < |lines| => Values(LineRecord(lines[i], layout, parse)))
  }

  /** Reading one well-formed line yields its record; what is left starts
      with the rest of the line. */
  lemma LineFields(line: string, tail: string, layout: Layout, parse: string -> Option<real>)
    requires layout.skip + layout.width * layout.count <= |line|
    requires AllParsed(LineRecord(line, layout, parse))
    ensures FieldsAcc(Drop(line + "\n" + tail, layout.skip), layout.width, layout.count, parse, [])
      == Some((Values(LineRecord(line, layout, parse)), line[layout.skip + layout.width * layout.count..] + ("\n" + tail)))
  {
    var segment := line[layout.skip..];
    assert segment[layout.width * layout.count..] == line[layout.skip + layout.width * layout.count..];
    assert Drop(line + "\n" + tail, layout.skip) == segment + ("\n" + tail);
    FieldsOfSegment(segment, "\n" + tail, layout.width, layout.count, parse, []);
    assert [] + Values(LineRecord(line, layout, parse)) == Values(LineRecord(line, layout, parse));
  }

  /** Moving past the newline of a line without one before its end. */
  lemma LineRest(line: string, tail: string, k: nat)
    requires '\n' !in line && k <= |line|
    ensures AfterLine(line[k..] + ("\n" + tail)) == tail
  {
    var after := line[k..];
    assert '\n' !in after by {
      assert forall c :: c in after ==> c in line;
    }
    assert after + ("\n" + tail) == after + "\n" + tail;
    AfterLineOf(after, tail);
  }

  /** Reading a record from a file whose next fields are `record` followed
      by `rest`. */
  lemma RecordsAccUnfold(text: string, lines: nat, layout: Layout, parse: string -> Option<real>, acc: seq<seq<real>>,
                         record: seq<real>, rest: string)
    requires FieldsAcc(Drop(text, layout.skip), layout.width, layout.count, parse, []) == Some((record, rest))
    ensures RecordsAcc(text, lines + 1, layout, parse, acc) == RecordsAcc(AfterLine(rest), lines, layout, parse, acc + [record])
  {
  }

  /** Reading one well-formed line of a file adds its record and leaves
      the lines after it. */
  lemma RecordsStep(line: string, tail: string, lines: nat, layout: Layout, parse: string -> Option<real>, acc: seq<seq<real>>)
    requires '\n' !in line && layout.skip + layout.width * layout.count <= |line|
    requires AllParsed(LineRecord(line, layout, parse))
    ensures RecordsAcc(line + "\n" + tail, lines + 1, layout, parse, acc)
         == RecordsAcc(tail, lines, layout, parse, acc + [Values(LineRecord(line, layout, parse))])
  {
    var k := layout.skip + layout.width * layout.count;
    var record := Values(LineRecord(line, layout, parse));
    var rest := line[k..] + ("\n" + tail);
    assert FieldsAcc(Drop(line + "\n" + tail, layout.skip), layout.width, layout.count, parse, []) == Some((record, rest)) by {
      LineFields(line, tail, layout, parse);
    }
    assert AfterLine(rest) == tail by {
      LineRest(line, tail, k);
    }
    RecordsAccUnfold(line + "\n" + tail, lines, layout, parse, acc, record, rest);
  }

  /** A well-formed, fully parsed file splits into its first line and the
      well-formed, fully parsed lines after it. */
  lemma LinesSplit(lines: seq<string>, layout: Layout, parse: string -> Option<real>)
    requires |lines| > 0 && WellFormed(lines, layout)
    requires forall i :: 0 <= i < |lines| ==> AllParsed(LineRecord(lines[i], layout, parse))
    ensures '\n' !in lines[0] && layout.skip + layout.width * layout.count <= |lines[0]|
    ensures AllParsed(LineRecord(lines[0], layout, parse))
    ensures WellFormed(lines[1..], layout)
    ensures forall i :: 0 <= i < |lines[1..]| ==> AllParsed(LineRecord(lines[1..][i], layout, parse))
    ensures JoinLines(lines) == lines[0] + "\n" + JoinLines(lines[1..])
    ensures ExpectedRecords(lines, layout, parse)
         == [Values(LineRecord(lines[0], layout, parse))] + ExpectedRecords(lines[1..], layout, parse)
  {
    assert forall i :: 0 <= i < |lines[1..]| ==> lines[1..][i] == lines[i + 1];
  }

  lemma {:induction false} RecordsOfLines(lines: seq<string>, layout: Layout, parse: string -> Option<real>, acc: seq<seq<real>>)
    requires WellFormed(lines, layout)
    requires forall i :: 0 <= i < |lines| ==> AllParsed(LineRecord(lines[i], layout, parse))
    ensures RecordsAcc(JoinLines(lines), |lines|, layout, parse, acc) == Some(acc + ExpectedRecords(lines, layout, parse))
  {
    if |lines| == 0 {
      assert acc + ExpectedRecords(lines, layout, parse) == acc;
    } else {
      LinesSplit(lines, layout, parse);
      var record := Values(LineRecord(lines[0], layout, parse));
      RecordsStep(lines[0], JoinLines(lines[1..]), |lines| - 1, layout, parse, acc);
      RecordsOfLines(lines[1..], layout, parse, acc + [record]);
      var later := ExpectedRecords(lines[1..], layout, parse);
      assert acc + [record] + later == acc + ([record] + later);
    }
  }

  /** For a well-formed file whose every field parses, the records are one
      per line, field `j` of line `i` being the parse of the `width`
      characters from `skip + width * j` of that line. */
  lemma RecordsOfWellFormedFile(lines: seq<string>, layout: Layout, parse: string -> Option<real>)
    requires WellFormed(lines, layout)
    requires forall i :: 0 <= i < |lines| ==> AllParsed(LineRecord(lines[i], layout, parse))
    ensures var r := Records(JoinLines(lines), layout, parse);
      && r.Some? && |r.value| == |lines|
      && forall i, j :: 0 <= i < |lines| && 0 <= j < layout.count ==>
           layout.skip + layout.width * j + layout.width <= |lines[i]|
           && |r.value[i]| == layout.count
           && Some(r.value[i][j]) == parse(Column(lines[i], layout, j))
  {
    LineCountOfLines(lines);
    RecordsOfLines(lines, layout, parse, []);
    assert [] + ExpectedRecords(lines, layout, parse) == ExpectedRecords(lines, layout, parse);
    forall i | 0 <= i < |lines| {
      LineRecordColumns(lines[i], layout, parse);
    }
  }

  /** On a well-formed `multinest.txt` whose fields all parse, entry `j` of
      the parameters of line `i` is the float in columns `[56 + 28 j, 84 + 28 j)`. */
  lemma ParametersOfWellFormedFile(lines: seq<string>, priorCount: nat, parse: string -> Option<real>)
    requires WellFormed(lines, Layout(56, 28, priorCount))
    requires forall i :: 0 <= i < |lines| ==> AllParsed(LineRecord(lines[i], Layout(56, 28, priorCount), parse))
    ensures var r := Records(JoinLines(lines), Layout(56, 28, priorCount), parse);
      && r.Some? && |r.value| == |lines|
      && forall i, j :: 0 <= i < |lines| && 0 <= j < priorCount ==>
           84 + 28 * j <= |lines[i]| && |r.value[i]| == priorCount
           && Some(r.value[i][j]) == parse(lines[i][56 + 28 * j .. 84 + 28 * j])
  {
    RecordsOfWellFormedFile(lines, Layout(56, 28, priorCount), parse);
  }

  /** On a well-formed `multinest.txt` whose fields parse, the log likelihood
      of line `i` is -0.5 times the float in its columns `[28, 56)`. */
  lemma LogLikelihoodsOfWellFormedFile(lines: seq<string>, parse: string -> Option<real>)
    requires WellFormed(lines, Layout(28, 28, 1))
    requires forall i :: 0 <= i < |lines| ==> AllParsed(LineRecord(lines[i], Layout(28, 28, 1), parse))
    ensures var r := Records(JoinLines(lines), Layout(28, 28, 1), parse);
      && r.Some? && |FirstColumn(r.value, -0.5)| == |lines|
      && forall i :: 0 <= i < |lines| ==>
           56 <= |lines[i]| && parse(lines[i][28..56]).Some?
           && FirstColumn(r.value, -0.5)[i] == -0.5 * parse(lines[i][28..56]).value
  {
    RecordsOfWellFormedFile(lines, Layout(28, 28, 1), parse);
    var r := Records(JoinLines(lines), Layout(28, 28, 1), parse).value;
    forall i | 0 <= i < |lines|
      ensures 56 <= |lines[i]| && parse(lines[i][28..56]).Some? && FirstColumn(r, -0.5)[i] == -0.5 * parse(lines[i][28..56]).value
    {
      assert Column(lines[i], Layout(28, 28, 1), 0) == lines[i][28..56];
      assert Some(r[i][0]) == parse(lines[i][28..56]);
    }
  }

  /** On a well-formed `multinest.txt` whose fields parse, the weight of
      line `i` is the float in its columns `[4, 28)`. */
  lemma WeightsOfWellFormedFile(lines: seq<string>, parse: string -> Option<real>)
    requires WellFormed(lines, Layout(4, 24, 1))
    requires forall i :: 0 <= i < |lines| ==> AllParsed(LineRecord(lines[i], Layout(4, 24, 1), parse))
    ensures var r := Records(JoinLines(lines), Layout(4, 24, 1), parse);
      && r.Some? && |FirstColumn(r.value, 1.0)| == |lines|
      && forall i :: 0 <= i < |lines| ==>
           28 <= |lines[i]| && parse(lines[i][4..28]).Some?
           && FirstColumn(r.value, 1.0)[i] == parse(lines[i][4..28]).value
  {
    RecordsOfWellFormedFile(lines, Layout(4, 24, 1), parse);
    var r := Records(JoinLines(lines), Layout(4, 24, 1), parse).value;
    forall i | 0 <= i < |lines|
      ensures 28 <= |lines[i]| && parse(lines[i][4..28]).Some? && FirstColumn(r, 1.0)[i] == parse(lines[i][4..28]).value
    {
      assert Column(lines[i], Layout(4, 24, 1), 0) == lines[i][4..28];
      assert Some(r[i][0]) == parse(lines[i][4..28]);
    }
  }
}
