/** The deterministic parts of the training utilities: the learning-rate
    schedule reader, the dataset manifest reader and the optimizer choice
    made when the training step is built. Files are given as their lines. */
module TrainUtils {
  import opened Wrappers
  import opened PyText

  /** The Python exceptions these readers and builders raise. */
  datatype PyError = ValueError | IndexError | NameError

  /** An exception raised while reading line `line` (counted from 0). */
  datatype LineError = LineError(line: nat, error: PyError)

  // ================================================= learning-rate schedule

  /** The rate in force when no schedule line applies (the float 0.1). */
  const DefaultRate: string := "0.1"

  /** A parsed schedule line `epoch:rate`. The rate is kept as the token
      that `float()` reads, without the surrounding whitespace it ignores. */
  datatype ScheduleEntry = ScheduleEntry(epoch: int, rate: string)

  /** One line of the schedule: strip it, split it on ':', read field 0 with
      `int()` (ValueError) and then take field 1 (IndexError when absent);
      any further fields are never looked at. */
  function ParseScheduleLine(line: string): (r: Result<ScheduleEntry, PyError>)
    ensures r.Failure? ==> r.error == ValueError || r.error == IndexError
  {
    var par := Split(Strip(line), ':');
    match ParseInt(par[0])
    case None => Failure(ValueError)
    case Some(e) => if |par| < 2 then Failure(IndexError) else Success(ScheduleEntry(e, Strip(par[1])))
  }

  /** Each line of the schedule, parsed on its own. */
  function ParseScheduleLines(lines: seq<string>): (entries: seq<Result<ScheduleEntry, PyError>>)
    ensures |entries| == |lines|
  {
    seq(|lines|, i requires 0 <= i < |lines| => ParseScheduleLine(lines[i]))
  }

  /** Line `i` parses and its epoch is at most `epoch`. */
  predicate Qualifies(entries: seq<Result<ScheduleEntry, PyError>>, epoch: int, i: nat)
    requires i < |entries|
  {
    entries[i].Success? && entries[i].value.epoch <= epoch
  }

  /** The scan over parsed lines `i..` with `current` the rate chosen so far. */
  function ScanSchedule(entries: seq<Result<ScheduleEntry, PyError>>, epoch: int, i: nat, current: string)
    : (r: Result<string, LineError>)
    requires i <= |entries|
    ensures r.Failure? ==> i <= r.error.line < |entries| && entries[r.error.line].Failure?
    decreases |entries| - i
  {
    if i == |entries| then Success(current)
    else match entries[i]
      case Failure(err) => Failure(LineError(i, err))
      case Success(entry) =>
        ScanSchedule(entries, epoch, i + 1, if entry.epoch <= epoch then entry.rate else current)
  }

  /** The rate the schedule file gives for `epoch`, or the first exception. */
  function ScheduleRate(lines: seq<string>, epoch: int): (r: Result<string, LineError>)
    ensures r.Failure? ==> r.error.line < |lines| && ParseScheduleLine(lines[r.error.line]).Failure?
  {
    ScanSchedule(ParseScheduleLines(lines), epoch, 0, DefaultRate)
  }

  /** `get_learning_rate_from_file`: a loop over the lines that reassigns
      the learning rate whenever a line's epoch is at most `epoch`. */
  method GetLearningRateFromFile(lines: seq<string>, epoch: int) returns (r: Result<string, LineError>)
    ensures r == ScheduleRate(lines, epoch)
  {
    ghost var entries := ParseScheduleLines(lines);
    var learningRate := DefaultRate;
    var i := 0;
    while i < |lines|
      invariant 0 <= i <= |lines|
      invariant ScanSchedule(entries, epoch, i, learningRate) == ScheduleRate(lines, epoch)
    {
      var parsed := ParseScheduleLine(lines[i]);
      if parsed.Failure? {
        return Failure(LineError(i, parsed.error));
      }
      var e, lr := parsed.value.epoch, parsed.value.rate;
      if e <= epoch {
        learningRate := lr;
      }
      i := i + 1;
    }
    return Success(learningRate);
  }

  /** What the scan from line `i` computes: it fails exactly when a line
      from `i` on does not parse, naming the first such line; otherwise it
      returns the rate of the LAST qualifying line, or `current` if none. */
  lemma {:induction false} ScanScheduleSpec(entries: seq<Result<ScheduleEntry, PyError>>, epoch: int, i: nat, current: string)
    requires i <= |entries|
    ensures var r := ScanSchedule(entries, epoch, i, current);
      && (r.Success? <==> forall j :: i <= j < |entries| ==> entries[j].Success?)
      && (r.Failure? ==>
            && i <= r.error.line < |entries|
            && entries[r.error.line] == Failure(r.error.error)
            && forall j :: i <= j < r.error.line ==> entries[j].Success?)
      && (r.Success? && (forall j :: i <= j < |entries| ==> !Qualifies(entries, epoch, j)) ==> r.value == current)
      && (r.Success? ==> forall j :: i <= j < |entries| && Qualifies(entries, epoch, j)
                                 && (forall m :: j < m < |entries| ==> !Qualifies(entries, epoch, m))
                                 ==> r.value == entries[j].value.rate)
    decreases |entries| - i
  {
    if i < |entries| {
      match entries[i]
      case Failure(err) =>
      case Success(entry) =>
        var next := if entry.epoch <= epoch then entry.rate else current;
        assert Qualifies(entries, epoch, i) <==> entry.epoch <= epoch;
        assert ScanSchedule(entries, epoch, i, current) == ScanSchedule(entries, epoch, i + 1, next);
        ScanScheduleSpec(entries, epoch, i + 1, next);
    }
  }

  /** The schedule is last-match: the result is the rate of the last line,
      in file order, whose epoch is at most `epoch`; with no such line it is
      the default 0.1. Any unparsable line makes the whole read fail, and
      the failure names the first such line. */
  lemma ScheduleRateLastMatch(lines: seq<string>, epoch: int)
    ensures var entries := ParseScheduleLines(lines);
      ScheduleRate(lines, epoch).Success? <==> forall j :: 0 <= j < |lines| ==> entries[j].Success?
    ensures var r := ScheduleRate(lines, epoch); var entries := ParseScheduleLines(lines);
      r.Failure? ==>
        && r.error.line < |lines|
        && entries[r.error.line] == Failure(r.error.error)
        && forall j :: 0 <= j < r.error.line ==> entries[j].Success?
    ensures var r := ScheduleRate(lines, epoch); var entries := ParseScheduleLines(lines);
      r.Success? && (forall j :: 0 <= j < |lines| ==> !Qualifies(entries, epoch, j)) ==> r.value == DefaultRate
    ensures var r := ScheduleRate(lines, epoch); var entries := ParseScheduleLines(lines);
      r.Success? ==> forall j :: 0 <= j < |lines| && Qualifies(entries, epoch, j)
                              && (forall m :: j < m < |lines| ==> !Qualifies(entries, epoch, m))
                              ==> r.value == entries[j].value.rate
  {
    ScanScheduleSpec(ParseScheduleLines(lines), epoch, 0, DefaultRate);
  }

  /** A line of ':'-separated fields whose first field `int()` reads as
      `e` (after `strip()` has removed its leading whitespace) parses to
      epoch `e` and the stripped second field; fields after the second are
      ignored, and trailing whitespace is allowed anywhere. */
  lemma ScheduleLineFields(fields: seq<string>, e: int)
    requires |fields| >= 2
    requires forall i :: 0 <= i < |fields| ==> ':' !in fields[i]
    requires ParseInt(StripLeft(fields[0])) == Some(e)
    ensures ParseScheduleLine(JoinWith(fields, ':')) == Success(ScheduleEntry(e, Strip(fields[1])))
  {
    var rest := JoinWith(fields[1..], ':');
    assert JoinWith(fields, ':') == fields[0] + [':'] + rest;
    StrippedFirstField(fields[0], rest);
    StrippedSecondField(fields[1..]);
  }

  /** `strip()` of `first:rest` splits to the `lstrip()`ped first field,
      then the pieces of the `rstrip()`ped rest. */
  lemma StrippedFirstField(first: string, rest: string)
    requires ':' !in first
    ensures Split(Strip(first + [':'] + rest), ':') == [StripLeft(first)] + Split(StripRight(rest), ':')
  {
    var line := first + [':'] + rest;
    var x := StripLeft(first);
    assert ':' !in x by {
      StripLeftSpec(first);
      assert x == first[|first| - |x|..];
    }
    assert StripLeft(line) == (x + [':']) + rest by {
      assert line == first + ([':'] + rest);
      StripLeftAppend(first, [':'] + rest);
    }
    assert Strip(line) == x + [':'] + StripRight(rest) by {
      StripRightPrepend(x + [':'], rest);
    }
    SplitAppend(x, StripRight(rest), ':');
  }

  /** The first piece of the `rstrip()`ped join of colon-free fields strips
      to the stripped first field. */
  lemma StrippedSecondField(fields: seq<string>)
    requires |fields| >= 1
    requires forall i :: 0 <= i < |fields| ==> ':' !in fields[i]
    ensures Strip(Split(StripRight(JoinWith(fields, ':')), ':')[0]) == Strip(fields[0])
  {
    var f := fields[0];
    if |fields| == 1 {
      StripRightSpec(f);
      assert ':' !in StripRight(f) by {
        assert StripRight(f) == f[..|StripRight(f)|];
      }
      SplitNoSep(StripRight(f), ':');
      StripOfStripRight(f);
    } else {
      var more := JoinWith(fields[1..], ':');
      assert JoinWith(fields, ':') == (f + [':']) + more;
      StripRightPrepend(f + [':'], more);
      assert StripRight(JoinWith(fields, ':')) == f + [':'] + StripRight(more);
      SplitAppend(f, StripRight(more), ':');
    }
  }

  /** A line with no ':' never parses: the whole stripped line is the
      epoch field, so it raises ValueError when that is not an integer and
      IndexError (no field 1) when it is. */
  lemma ScheduleLineNeedsColon(line: string)
    requires ':' !in line
    ensures ParseScheduleLine(line) == Failure(if ParseInt(Strip(line)).Some? then IndexError else ValueError)
  {
    var t := Strip(line);
    StripSpec(line);
    assert ':' !in t by {
      var i := |line| - |StripLeft(line)|;
      assert t == line[i..i + |t|];
    }
    SplitNoSep(t, ':');
  }

  /** An epoch field that `int()` rejects once `strip()` has removed its
      leading whitespace raises ValueError, whatever follows it; this
      includes an empty or whitespace-only field. */
  lemma ScheduleLineBadEpoch(epochField: string, rest: string)
    requires ':' !in epochField
    requires ParseInt(StripLeft(epochField)).None?
    ensures ParseScheduleLine(epochField + ":" + rest) == Failure(ValueError)
  {
    StrippedFirstField(epochField, rest);
  }

  /** `strip()` and `int()` skip different characters. `strip()` removes
      the separator `\x1c` only at the ends of the whole line, and `int()`
      never skips it, so the epoch field `"5\x1c"` of `"5\x1c:0.1"` is
      rejected. */
  lemma ScheduleLineSeparatorEpoch()
    ensures ParseScheduleLine("5\U{1c}:0.1") == Failure(ValueError)
  {
    var line := "5\U{1c}:0.1";
    StripUnchanged(line);
    SplitAppend("5\U{1c}", "0.1", ':');
    assert line == "5\U{1c}" + [':'] + "0.1";
    var f := "5\U{1c}";
    assert IntStripLeft(f) == f;
    assert IntStrip(f) == f;
    ParseIntSpec(f);
  }

  /** A rate token that survives being written as `epoch:rate`: non-empty,
      without whitespace and without ':'. */
  predicate WritableRate(rate: string) {
    ':' !in rate && rate != [] && NoSpace(rate)
  }

  /** The line `str(epoch) + ":" + rate` a schedule entry is written as. */
  function ScheduleLine(entry: ScheduleEntry): string {
    IntToString(entry.epoch) + ":" + entry.rate
  }

  /** A schedule file written from entries, one line each. */
  function WriteSchedule(entries: seq<ScheduleEntry>): (lines: seq<string>)
    ensures |lines| == |entries|
  {
    seq(|entries|, i requires 0 <= i < |entries| => ScheduleLine(entries[i]))
  }

  /** Entries that all parse. */
  function Parsed(entries: seq<ScheduleEntry>): (r: seq<Result<ScheduleEntry, PyError>>)
    ensures |r| == |entries|
  {
    seq(|entries|, i requires 0 <= i < |entries| => Success(entries[i]))
  }

  /** Reading a written schedule reads back its entries. */
  lemma WriteScheduleReadsBack(entries: seq<ScheduleEntry>)
    requires forall i :: 0 <= i < |entries| ==> WritableRate(entries[i].rate)
    ensures ParseScheduleLines(WriteSchedule(entries)) == Parsed(entries)
  {
    var lines := WriteSchedule(entries);
    forall j | 0 <= j < |entries| ensures ParseScheduleLines(lines)[j] == Parsed(entries)[j] {
      assert lines[j] == ScheduleLine(entries[j]);
      ScheduleEntryLine(entries[j].epoch, entries[j].rate);
    }
  }

  /** Reading a written schedule gives the scan of its entries. */
  lemma WriteScheduleRate(entries: seq<ScheduleEntry>, epoch: int)
    requires forall i :: 0 <= i < |entries| ==> WritableRate(entries[i].rate)
    ensures ScheduleRate(WriteSchedule(entries), epoch) == ScanSchedule(Parsed(entries), epoch, 0, DefaultRate)
  {
    WriteScheduleReadsBack(entries);
  }

  /** A schedule written in increasing epoch order is a step function: the
      rate at `epoch` is that of entry `j` when `epoch` lies between entry
      `j`'s epoch and the next one's, and 0.1 before the first entry
      (`j == -1`). */
  lemma SortedScheduleSteps(entries: seq<ScheduleEntry>, epoch: int, j: int)
    requires forall i :: 0 <= i < |entries| ==> WritableRate(entries[i].rate)
    requires forall i, k :: 0 <= i <= k < |entries| ==> entries[i].epoch <= entries[k].epoch
    requires -1 <= j < |entries|
    requires j >= 0 ==> entries[j].epoch <= epoch
    requires j + 1 < |entries| ==> epoch < entries[j + 1].epoch
    ensures ScheduleRate(WriteSchedule(entries), epoch) == Success(if j >= 0 then entries[j].rate else DefaultRate)
  {
    WriteScheduleRate(entries, epoch);
    SortedScanSteps(entries, epoch, j);
  }

  /** The scan form of the step property. */
  lemma SortedScanSteps(entries: seq<ScheduleEntry>, epoch: int, j: int)
    requires forall i, k :: 0 <= i <= k < |entries| ==> entries[i].epoch <= entries[k].epoch
    requires -1 <= j < |entries|
    requires j >= 0 ==> entries[j].epoch <= epoch
    requires j + 1 < |entries| ==> epoch < entries[j + 1].epoch
    ensures ScanSchedule(Parsed(entries), epoch, 0, DefaultRate) == Success(if j >= 0 then entries[j].rate else DefaultRate)
  {
    var parsed := Parsed(entries);
    ScanScheduleSpec(parsed, epoch, 0, DefaultRate);
    forall m | j < m < |entries| ensures !Qualifies(parsed, epoch, m) {
      assert entries[j + 1].epoch <= entries[m].epoch;
    }
    if j >= 0 {
      assert Qualifies(parsed, epoch, j);
    }
  }

  /** The last line wins whenever its epoch qualifies, whatever the epochs
      before it, so the schedule is not a maximum over epochs: `20:a`
      followed by `10:b` gives `b` at epoch 25. */
  lemma LastLineWins(entries: seq<ScheduleEntry>, epoch: int)
    requires forall i :: 0 <= i < |entries| ==> WritableRate(entries[i].rate)
    requires |entries| >= 1 && entries[|entries| - 1].epoch <= epoch
    ensures ScheduleRate(WriteSchedule(entries), epoch) == Success(entries[|entries| - 1].rate)
  {
    WriteScheduleRate(entries, epoch);
    var parsed := Parsed(entries);
    ScanScheduleSpec(parsed, epoch, 0, DefaultRate);
    assert Qualifies(parsed, epoch, |entries| - 1);
  }

  /** `str(e) + ":" + rate` parses back to the entry (e, rate). */
  lemma ScheduleEntryLine(e: int, rate: string)
    requires WritableRate(rate)
    ensures ParseScheduleLine(IntToString(e) + ":" + rate) == Success(ScheduleEntry(e, rate))
  {
    var fields := [IntToString(e), rate];
    IntToStringNoSpace(e);
    IntToStringRoundTrip(e);
    assert StripLeft(IntToString(e)) == IntToString(e);
    ScheduleLineFields(fields, e);
    assert JoinWith(fields, ':') == IntToString(e) + ":" + rate;
    StripUnchanged(rate);
  }

  // ====================================================== dataset manifest

  /** The parallel path and label arrays and the number of distinct labels. */
  datatype Dataset = Dataset(paths: seq<string>, labels: seq<int>, numClasses: nat)

  /** The distinct values of `labels` (the keys of the label dictionary). */
  function LabelSet(labels: seq<int>): set<int> {
    set l | l in labels
  }

  /** One manifest line `path label ...`: words after the second are
      ignored; a missing word raises IndexError (word 0 is read first, for
      the path), an ill-formed label ValueError. */
  function ParseManifestLine(dataDir: string, line: string, offset: int): (r: Result<(string, int), PyError>)
    ensures r.Failure? ==> r.error == ValueError || r.error == IndexError
  {
    var items := Words(Strip(line));
    if |items| < 1 then Failure(IndexError)
    else
      var imgPath := PathJoin(dataDir, items[0]);
      if |items| < 2 then Failure(IndexError)
      else match ParseInt(items[1])
        case None => Failure(ValueError)
        case Some(v) => Success((imgPath, offset + v))
  }

  /** Each line of the manifest, parsed on its own. */
  function ParseManifestLines(dataDir: string, lines: seq<string>, offset: int)
    : (entries: seq<Result<(string, int), PyError>>)
    ensures |entries| == |lines|
  {
    if lines == [] then []
    else [ParseManifestLine(dataDir, lines[0], offset)] + ParseManifestLines(dataDir, lines[1..], offset)
  }

  /** Entry `j` is the parse of line `j`. */
  lemma {:induction false} ParseManifestLinesAt(dataDir: string, lines: seq<string>, offset: int, j: nat)
    requires j < |lines|
    ensures ParseManifestLines(dataDir, lines, offset)[j] == ParseManifestLine(dataDir, lines[j], offset)
  {
    if j > 0 {
      ParseManifestLinesAt(dataDir, lines[1..], offset, j - 1);
    }
  }

  /** Parsed lines `i..` of the manifest as paths and labels, in line order. */
  function ParseManifest(entries: seq<Result<(string, int), PyError>>, i: nat)
    : (r: Result<(seq<string>, seq<int>), LineError>)
    requires i <= |entries|
    ensures r.Success? ==> |r.value.0| == |r.value.1| == |entries| - i
    ensures r.Failure? ==> i <= r.error.line < |entries| && entries[r.error.line].Failure?
    decreases |entries| - i
  {
    if i == |entries| then Success(([], []))
    else match entries[i]
      case Failure(err) => Failure(LineError(i, err))
      case Success(entry) => Prepend([entry.0], [entry.1], ParseManifest(entries, i + 1))
  }

  /** Puts `paths` and `labels` in front of a successful parse. */
  function Prepend(paths: seq<string>, labels: seq<int>, r: Result<(seq<string>, seq<int>), LineError>)
    : Result<(seq<string>, seq<int>), LineError>
  {
    match r
    case Failure(e) => Failure(e)
    case Success(pl) => Success((paths + pl.0, labels + pl.1))
  }

  /** The dataset a manifest describes, or the first exception. */
  function Datasets(dataDir: string, lines: seq<string>, offset: int): (r: Result<Dataset, LineError>)
    ensures r.Success? ==> |r.value.paths| == |r.value.labels| == |lines|
    ensures r.Failure? ==> r.error.line < |lines| && ParseManifestLine(dataDir, lines[r.error.line], offset).Failure?
  {
    var entries := ParseManifestLines(dataDir, lines, offset);
    match ParseManifest(entries, 0)
    case Failure(e) =>
      ParseManifestLinesAt(dataDir, lines, offset, e.line);
      Failure(e)
    case Success(pl) => Success(Dataset(pl.0, pl.1, |LabelSet(pl.1)|))
  }

  /** `get_datasets`: a loop that appends one path and one label per line
      and records each label as a key of a dictionary. */
  method GetDatasets(dataDir: string, lines: seq<string>, offset: int) returns (r: Result<Dataset, LineError>)
    ensures r == Datasets(dataDir, lines, offset)
  {
    ghost var entries := ParseManifestLines(dataDir, lines, offset);
    var mdict: map<int, int> := map[];
    var pathsList: seq<string> := [];
    var labelList: seq<int> := [];
    var i := 0;
    PrependNothing(ParseManifest(entries, 0));
    while i < |lines|
      invariant 0 <= i <= |lines|
      invariant mdict.Keys == LabelSet(labelList)
      invariant Prepend(pathsList, labelList, ParseManifest(entries, i)) == ParseManifest(entries, 0)
    {
      var parsed := ParseManifestLine(dataDir, lines[i], offset);
      ParseManifestLinesAt(dataDir, lines, offset, i);
      if parsed.Failure? {
        return Failure(LineError(i, parsed.error));
      }
      var imgPath, classLabel := parsed.value.0, parsed.value.1;
      mdict := mdict[classLabel := 1];
      ParseManifestAdvance(entries, i, pathsList, labelList, imgPath, classLabel);
      LabelSetAppend(labelList, classLabel);
      pathsList := pathsList + [imgPath];
      labelList := labelList + [classLabel];
      i := i + 1;
    }
    assert ParseManifest(entries, i) == Success(([], []));
    assert pathsList + [] == pathsList && labelList + [] == labelList;
    return Success(Dataset(pathsList, labelList, |mdict.Keys|));
  }

  /** Moving a parsed line from the rest of the manifest to the lists
      read so far keeps their combination. */
  lemma ParseManifestAdvance(entries: seq<Result<(string, int), PyError>>, i: nat,
                             paths: seq<string>, labels: seq<int>, path: string, classLabel: int)
    requires i < |entries| && entries[i] == Success((path, classLabel))
    requires Prepend(paths, labels, ParseManifest(entries, i)) == ParseManifest(entries, 0)
    ensures Prepend(paths + [path], labels + [classLabel], ParseManifest(entries, i + 1)) == ParseManifest(entries, 0)
  {
    PrependTwice(paths, labels, [path], [classLabel], ParseManifest(entries, i + 1));
  }

  /** Prepending nothing changes nothing. */
  lemma PrependNothing(r: Result<(seq<string>, seq<int>), LineError>)
    ensures Prepend([], [], r) == r
  {
    if r.Success? {
      assert [] + r.value.0 == r.value.0 && [] + r.value.1 == r.value.1;
    }
  }

  /** Appending a label adds it to the label set. */
  lemma LabelSetAppend(labels: seq<int>, l: int)
    ensures LabelSet(labels + [l]) == LabelSet(labels) + {l}
    ensures l !in LabelSet(labels) ==> |LabelSet(labels + [l])| == |LabelSet(labels)| + 1
  {
    var a := LabelSet(labels);
    assert LabelSet(labels + [l]) == a + {l};
  }

  /** Prepending in two steps is prepending the concatenation. */
  lemma PrependTwice(p1: seq<string>, l1: seq<int>, p2: seq<string>, l2: seq<int>,
                     r: Result<(seq<string>, seq<int>), LineError>)
    ensures Prepend(p1, l1, Prepend(p2, l2, r)) == Prepend(p1 + p2, l1 + l2, r)
  {
    if r.Success? {
      assert p1 + (p2 + r.value.0) == (p1 + p2) + r.value.0;
      assert l1 + (l2 + r.value.1) == (l1 + l2) + r.value.1;
    }
  }

  /** The manifest parse from line `i` is line-by-line: it fails exactly
      when a line from `i` on fails, naming the first; otherwise it holds
      one path and one label per line, each that line's parse. */
  lemma {:induction false} ParseManifestSpec(entries: seq<Result<(string, int), PyError>>, i: nat)
    requires i <= |entries|
    ensures var r := ParseManifest(entries, i);
      && (r.Success? <==> forall j :: i <= j < |entries| ==> entries[j].Success?)
      && (r.Failure? ==>
            && i <= r.error.line < |entries|
            && entries[r.error.line] == Failure(r.error.error)
            && forall j :: i <= j < r.error.line ==> entries[j].Success?)
      && (r.Success? ==>
            && |r.value.0| == |r.value.1| == |entries| - i
            && forall j :: i <= j < |entries| ==> entries[j] == Success((r.value.0[j - i], r.value.1[j - i])))
    decreases |entries| - i
  {
    if i < |entries| {
      ParseManifestSpec(entries, i + 1);
    }
  }

  /** What a manifest line must look like: two words or more, the second
      an integer. */
  predicate WellFormedManifestLine(line: string) {
    var items := Words(Strip(line));
    |items| >= 2 && ParseInt(items[1]).Some?
  }

  /** One manifest line parses exactly when it is well formed, to the
      joined path of word 0 and `offset` plus word 1. */
  lemma ManifestLineSpec(dataDir: string, line: string, offset: int)
    ensures ParseManifestLine(dataDir, line, offset).Success? <==> WellFormedManifestLine(line)
    ensures var items := Words(Strip(line));
      WellFormedManifestLine(line) ==>
        ParseManifestLine(dataDir, line, offset) == Success((PathJoin(dataDir, items[0]), offset + ParseInt(items[1]).value))
  {
    var items := Words(Strip(line));
    if |items| < 2 {
      ManifestLineTooShort(dataDir, line, offset);
    } else if ParseInt(items[1]).None? {
      ManifestLineBadLabel(dataDir, line, offset, items);
    } else {
      ManifestLineParsed(dataDir, line, offset, items, PathJoin(dataDir, items[0]), ParseInt(items[1]).value);
    }
  }

  /** `get_datasets` succeeds exactly when every line has at least two
      words and an integer second word. */
  lemma DatasetsSucceedsIff(dataDir: string, lines: seq<string>, offset: int)
    ensures Datasets(dataDir, lines, offset).Success? <==>
              forall j :: 0 <= j < |lines| ==> WellFormedManifestLine(lines[j])
  {
    var entries := ParseManifestLines(dataDir, lines, offset);
    ParseManifestSpec(entries, 0);
    forall j | 0 <= j < |lines|
      ensures entries[j].Success? <==> WellFormedManifestLine(lines[j])
    {
      ParseManifestLinesAt(dataDir, lines, offset, j);
      ManifestLineSpec(dataDir, lines[j], offset);
    }
  }

  /** A failure names the first ill-formed line of the manifest. */
  lemma DatasetsFirstError(dataDir: string, lines: seq<string>, offset: int)
    ensures var r := Datasets(dataDir, lines, offset);
      r.Failure? ==> r.error.line < |lines| && !WellFormedManifestLine(lines[r.error.line])
                     && forall j :: 0 <= j < r.error.line ==> WellFormedManifestLine(lines[j])
  {
    var entries := ParseManifestLines(dataDir, lines, offset);
    ParseManifestSpec(entries, 0);
    var r := Datasets(dataDir, lines, offset);
    if r.Failure? {
      var n := r.error.line;
      ParseManifestLinesAt(dataDir, lines, offset, n);
      ManifestLineSpec(dataDir, lines[n], offset);
      forall j | 0 <= j < n ensures WellFormedManifestLine(lines[j]) {
        assert entries[j].Success?;
        ParseManifestLinesAt(dataDir, lines, offset, j);
        ManifestLineSpec(dataDir, lines[j], offset);
      }
    }
  }

  /** A successful `get_datasets` returns one path and one label per line,
      in line order: path i is `data_dir` joined with word 0 of line i, and
      label i is `offset` plus word 1 read as an integer; the count is the
      number of distinct labels. */
  lemma DatasetsLineByLine(dataDir: string, lines: seq<string>, offset: int)
    ensures var r := Datasets(dataDir, lines, offset);
      r.Success? ==>
        && |r.value.paths| == |r.value.labels| == |lines|
        && r.value.numClasses == |LabelSet(r.value.labels)|
        && forall j :: 0 <= j < |lines| ==>
             var items := Words(Strip(lines[j]));
             && |items| >= 2 && ParseInt(items[1]).Some?
             && r.value.paths[j] == PathJoin(dataDir, items[0])
             && r.value.labels[j] == offset + ParseInt(items[1]).value
  {
    var entries := ParseManifestLines(dataDir, lines, offset);
    ParseManifestSpec(entries, 0);
    var r := Datasets(dataDir, lines, offset);
    if r.Success? {
      var pl := ParseManifest(entries, 0).value;
      assert r.value.paths == pl.0 && r.value.labels == pl.1;
      forall j | 0 <= j < |lines|
        ensures var items := Words(Strip(lines[j]));
          && |items| >= 2 && ParseInt(items[1]).Some?
          && pl.0[j] == PathJoin(dataDir, items[0])
          && pl.1[j] == offset + ParseInt(items[1]).value
      {
        assert entries[j] == Success((pl.0[j], pl.1[j]));
        ParseManifestLinesAt(dataDir, lines, offset, j);
        ManifestLineSpec(dataDir, lines[j], offset);
      }
    }
  }

  /** A line with fewer than two words raises IndexError. */
  lemma ManifestLineTooShort(dataDir: string, line: string, offset: int)
    requires |Words(Strip(line))| < 2
    ensures ParseManifestLine(dataDir, line, offset) == Failure(IndexError)
  {
  }

  /** A line whose second word is not an integer raises ValueError. */
  lemma ManifestLineBadLabel(dataDir: string, line: string, offset: int, items: seq<string>)
    requires items == Words(Strip(line)) && |items| >= 2 && ParseInt(items[1]).None?
    ensures ParseManifestLine(dataDir, line, offset) == Failure(ValueError)
  {
  }

  /** `path label extra...`, written with single spaces, parses back to the
      joined path and `offset + label`. */
  lemma ManifestLineRoundTrip(dataDir: string, path: string, classLabel: int, extra: seq<string>, offset: int)
    requires path != [] && NoSpace(path)
    requires forall i :: 0 <= i < |extra| ==> extra[i] != [] && NoSpace(extra[i])
    ensures ParseManifestLine(dataDir, JoinSpaced([path, IntToString(classLabel)] + extra), offset)
            == Success((PathJoin(dataDir, path), offset + classLabel))
  {
    var words := [path, IntToString(classLabel)] + extra;
    IntToStringNoSpace(classLabel);
    LineWords(path, IntToString(classLabel), extra);
    var line := JoinSpaced(words);
    JoinSpacedEnds(words);
    StripUnchanged(line);
    WordsJoinSpaced(words);
    IntToStringRoundTrip(classLabel);
    ManifestLineParsed(dataDir, line, offset, words, PathJoin(dataDir, path), classLabel);
  }

  /** A line whose first two words are `path` and an integer `v` parses to
      the joined path and `offset + v`. */
  lemma ManifestLineParsed(dataDir: string, line: string, offset: int, items: seq<string>, imgPath: string, v: int)
    requires items == Words(Strip(line)) && |items| >= 2
    requires imgPath == PathJoin(dataDir, items[0]) && ParseInt(items[1]) == Some(v)
    ensures ParseManifestLine(dataDir, line, offset) == Success((imgPath, offset + v))
  {
  }

  /** The words of a manifest line are all non-empty and space-free. */
  lemma LineWords(path: string, second: string, extra: seq<string>)
    requires path != [] && NoSpace(path) && second != [] && NoSpace(second)
    requires forall i :: 0 <= i < |extra| ==> extra[i] != [] && NoSpace(extra[i])
    ensures var words := [path, second] + extra;
      forall i :: 0 <= i < |words| ==> words[i] != [] && NoSpace(words[i])
  {
    var words := [path, second] + extra;
    forall i | 0 <= i < |words| ensures words[i] != [] && NoSpace(words[i]) {
      if i >= 2 {
        assert words[i] == extra[i - 2];
      }
    }
  }

  /** `str(n)` is a non-empty word without ':'. */
  lemma IntToStringNoSpace(n: int)
    ensures IntToString(n) != [] && NoSpace(IntToString(n)) && ':' !in IntToString(n)
  {
    var s := IntToString(n);
    NatToStringDigits(if n < 0 then -n else n);
    if n < 0 {
      assert forall k :: 1 <= k < |s| ==> s[k] == NatToString(-n)[k - 1];
    }
  }

  /** A space-joined line starts and ends with a character of a word. */
  lemma {:induction false} JoinSpacedEnds(words: seq<string>)
    requires |words| >= 1
    requires forall i :: 0 <= i < |words| ==> words[i] != [] && NoSpace(words[i])
    ensures var l := JoinSpaced(words);
      |l| > 0 && !IsSpace(l[0]) && !IsSpace(l[|l| - 1])
  {
    if |words| > 1 {
      JoinSpacedEnds(words[1..]);
    }
  }

  /** There are never more distinct labels than labels. */
  lemma {:induction false} LabelSetBound(labels: seq<int>)
    ensures |LabelSet(labels)| <= |labels|
  {
    if labels != [] {
      var n := |labels| - 1;
      LabelSetBound(labels[..n]);
      assert LabelSet(labels) == LabelSet(labels[..n]) + {labels[n]} by {
        assert labels == labels[..n] + [labels[n]];
      }
    }
  }

  /** Labels that differ by the same shift `d` have as many distinct values. */
  lemma {:induction false} LabelSetShift(l1: seq<int>, l2: seq<int>, d: int)
    requires |l1| == |l2|
    requires forall j :: 0 <= j < |l1| ==> l2[j] == l1[j] + d
    ensures |LabelSet(l2)| == |LabelSet(l1)|
  {
    if l1 != [] {
      var n := |l1| - 1;
      var p1, p2 := l1[..n], l2[..n];
      LabelSetShift(p1, p2, d);
      var x := l1[n];
      assert l1 == p1 + [x] && l2 == p2 + [x + d];
      LabelSetAppend(p1, x);
      LabelSetAppend(p2, x + d);
      ShiftMembership(p1, p2, d, x);
      if x in LabelSet(p1) {
        assert LabelSet(l1) == LabelSet(p1) && LabelSet(l2) == LabelSet(p2);
      } else {
        assert |LabelSet(l1)| == |LabelSet(p1)| + 1 && |LabelSet(l2)| == |LabelSet(p2)| + 1;
      }
    }
  }

  /** `x` is a label exactly when `x + d` is one of the shifted labels. */
  lemma ShiftMembership(l1: seq<int>, l2: seq<int>, d: int, x: int)
    requires |l1| == |l2|
    requires forall j :: 0 <= j < |l1| ==> l2[j] == l1[j] + d
    ensures x in LabelSet(l1) <==> x + d in LabelSet(l2)
  {
    if x in l1 {
      var k :| 0 <= k < |l1| && l1[k] == x;
      assert l2[k] == x + d;
    }
    if x + d in l2 {
      var k :| 0 <= k < |l2| && l2[k] == x + d;
      assert l1[k] == x;
    }
  }

  /** The number of distinct labels is at most the number of lines. */
  lemma NumClassesBound(dataDir: string, lines: seq<string>, offset: int)
    ensures var r := Datasets(dataDir, lines, offset);
      r.Success? ==> r.value.numClasses <= |lines|
  {
    DatasetsLineByLine(dataDir, lines, offset);
    var r := Datasets(dataDir, lines, offset);
    if r.Success? {
      LabelSetBound(r.value.labels);
    }
  }

  /** The offset only shifts the labels: whether the manifest parses, the
      paths and the number of distinct labels do not depend on it. */
  lemma NumClassesOffsetFree(dataDir: string, lines: seq<string>, offset1: int, offset2: int)
    ensures Datasets(dataDir, lines, offset1).Success? == Datasets(dataDir, lines, offset2).Success?
    ensures var r1 := Datasets(dataDir, lines, offset1); var r2 := Datasets(dataDir, lines, offset2);
      r1.Success? && r2.Success? ==>
        && r1.value.paths == r2.value.paths
        && r1.value.numClasses == r2.value.numClasses
        && |r1.value.labels| == |r2.value.labels|
        && forall j :: 0 <= j < |r1.value.labels| ==> r2.value.labels[j] == r1.value.labels[j] + (offset2 - offset1)
  {
    DatasetsSucceedsIff(dataDir, lines, offset1);
    DatasetsSucceedsIff(dataDir, lines, offset2);
    var r1 := Datasets(dataDir, lines, offset1);
    var r2 := Datasets(dataDir, lines, offset2);
    if r1.Success? && r2.Success? {
      DatasetsLineByLine(dataDir, lines, offset1);
      DatasetsLineByLine(dataDir, lines, offset2);
      var l1, l2 := r1.value.labels, r2.value.labels;
      assert forall j :: 0 <= j < |l1| ==> l2[j] == l1[j] + (offset2 - offset1);
      LabelSetShift(l1, l2, offset2 - offset1);
      assert r1.value.paths == r2.value.paths;
    }
  }

  /** The manifest line `path label` written for one image. */
  function ManifestLine(path: string, classLabel: int): string {
    JoinSpaced([path, IntToString(classLabel)])
  }

  /** Reading a written manifest line gives back its path and label. */
  lemma ManifestLineReadsBack(dataDir: string, path: string, classLabel: int, offset: int)
    requires path != [] && NoSpace(path)
    ensures ParseManifestLine(dataDir, ManifestLine(path, classLabel), offset) == Success((PathJoin(dataDir, path), offset + classLabel))
  {
    ManifestLineRoundTrip(dataDir, path, classLabel, [], offset);
    assert [path, IntToString(classLabel)] + [] == [path, IntToString(classLabel)];
  }

  /** A manifest written from (path, label) pairs, one line each. */
  function WriteManifest(images: seq<(string, int)>): (lines: seq<string>)
    ensures |lines| == |images|
  {
    seq(|images|, i requires 0 <= i < |images| => ManifestLine(images[i].0, images[i].1))
  }

  /** Reading a written manifest succeeds and gives back, in order, each
      path joined to `data_dir` and each label shifted by `offset`. */
  lemma WriteManifestReadsBack(dataDir: string, images: seq<(string, int)>, offset: int)
    requires forall i :: 0 <= i < |images| ==> images[i].0 != [] && NoSpace(images[i].0)
    ensures var r := Datasets(dataDir, WriteManifest(images), offset);
      && r.Success?
      && |r.value.paths| == |r.value.labels| == |images|
      && forall j :: 0 <= j < |images| ==>
           r.value.paths[j] == PathJoin(dataDir, images[j].0) && r.value.labels[j] == offset + images[j].1
  {
    var lines := WriteManifest(images);
    var expected := ReadBack(dataDir, images, offset);
    forall j | 0 <= j < |lines|
      ensures ParseManifestLine(dataDir, lines[j], offset) == Success(expected[j])
    {
      WrittenLineParses(dataDir, images, offset, j);
      assert expected[j] == (PathJoin(dataDir, images[j].0), offset + images[j].1);
    }
    DatasetsOfParsedLines(dataDir, lines, offset, expected);
  }

  /** The entries a written manifest should read back as. */
  function ReadBack(dataDir: string, images: seq<(string, int)>, offset: int): (r: seq<(string, int)>)
    ensures |r| == |images|
  {
    seq(|images|, j requires 0 <= j < |images| => (PathJoin(dataDir, images[j].0), offset + images[j].1))
  }

  /** Line `j` of a written manifest parses to image `j`, read back. */
  lemma WrittenLineParses(dataDir: string, images: seq<(string, int)>, offset: int, j: nat)
    requires j < |images| && images[j].0 != [] && NoSpace(images[j].0)
    ensures ParseManifestLine(dataDir, WriteManifest(images)[j], offset) == Success((PathJoin(dataDir, images[j].0), offset + images[j].1))
  {
    WrittenLineIs(dataDir, WriteManifest(images)[j], images[j].0, images[j].1, offset);
  }

  /** A line written for `path` and `classLabel` parses back to them. */
  lemma WrittenLineIs(dataDir: string, line: string, path: string, classLabel: int, offset: int)
    requires line == ManifestLine(path, classLabel) && path != [] && NoSpace(path)
    ensures ParseManifestLine(dataDir, line, offset) == Success((PathJoin(dataDir, path), offset + classLabel))
  {
    ManifestLineReadsBack(dataDir, path, classLabel, offset);
  }

  /** A manifest whose every line parses reads as those entries, in order. */
  lemma DatasetsOfParsedLines(dataDir: string, lines: seq<string>, offset: int, expected: seq<(string, int)>)
    requires |lines| == |expected|
    requires forall j :: 0 <= j < |lines| ==> ParseManifestLine(dataDir, lines[j], offset) == Success(expected[j])
    ensures var r := Datasets(dataDir, lines, offset);
      && r.Success?
      && |r.value.paths| == |r.value.labels| == |lines|
      && forall j :: 0 <= j < |lines| ==> r.value.paths[j] == expected[j].0 && r.value.labels[j] == expected[j].1
  {
    var entries := ParseManifestLines(dataDir, lines, offset);
    forall j | 0 <= j < |lines| ensures entries[j] == Success(expected[j]) {
      ParseManifestLinesAt(dataDir, lines, offset, j);
    }
    ParseManifestSpec(entries, 0);
    var pl := ParseManifest(entries, 0).value;
    forall j | 0 <= j < |lines|
      ensures pl.0[j] == expected[j].0 && pl.1[j] == expected[j].1
    {
      assert entries[j] == Success((pl.0[j], pl.1[j]));
    }
  }

  // ======================================================= optimizer choice

  /** The optimizer algorithms the training-step builders accept. */
  datatype OptimizerKind = Adagrad | Adadelta | Adam | RMSProp | Momentum

  /** The accepted optimizer names. */
  const OptimizerNames: set<string> := {"ADAGRAD", "ADADELTA", "ADAM", "RMSPROP", "MOM"}

  /** The name that selects `kind`; reading it back gives `kind`. */
  function OptimizerName(kind: OptimizerKind): (name: string)
    ensures name in OptimizerNames
    ensures ParseOptimizer(name) == Some(kind)
  {
    match kind
    case Adagrad => "ADAGRAD"
    case Adadelta => "ADADELTA"
    case Adam => "ADAM"
    case RMSProp => "RMSPROP"
    case Momentum => "MOM"
  }

  /** The if/elif chain on the optimizer name: exactly the five names are
      accepted, each selecting the kind it names. */
  function ParseOptimizer(name: string): (r: Option<OptimizerKind>)
    ensures r.Some? <==> name in OptimizerNames
  {
    if name == "ADAGRAD" then Some(Adagrad)
    else if name == "ADADELTA" then Some(Adadelta)
    else if name == "ADAM" then Some(Adam)
    else if name == "RMSPROP" then Some(RMSProp)
    else if name == "MOM" then Some(Momentum)
    else None
  }

  /** Distinct kinds have distinct names, and every accepted name is the
      name of the kind it selects. */
  lemma OptimizerNameBijective(name: string, k1: OptimizerKind, k2: OptimizerKind)
    ensures OptimizerName(k1) == OptimizerName(k2) ==> k1 == k2
    ensures ParseOptimizer(name) == Some(k1) ==> OptimizerName(k1) == name
  {
  }

  /** An optimizer as constructed, with the hyperparameters fixed in the
      builders. */
  datatype Optimizer =
    | AdagradOptimizer(lr: real)
    | AdadeltaOptimizer(lr: real, rho: real, epsilon: real)
    | AdamOptimizer(lr: real, beta1: real, beta2: real, epsilon: real)
    | RMSPropOptimizer(lr: real, decay: real, momentum: real, epsilon: real)
    | MomentumOptimizer(lr: real, momentum: real, useNesterov: bool)
  {
    function Kind(): OptimizerKind {
      match this
      case AdagradOptimizer(_) => Adagrad
      case AdadeltaOptimizer(_, _, _) => Adadelta
      case AdamOptimizer(_, _, _, _) => Adam
      case RMSPropOptimizer(_, _, _, _) => RMSProp
      case MomentumOptimizer(_, _, _) => Momentum
    }
  }

  /** The optimizer of kind `kind` at learning rate `lr`. */
  function NewOptimizer(kind: OptimizerKind, lr: real): (o: Optimizer)
    ensures o.Kind() == kind && o.lr == lr
    ensures kind == Adadelta ==> o.rho == 0.9 && o.epsilon == 0.000001
    ensures kind == Adam ==> o.beta1 == 0.9 && o.beta2 == 0.999 && o.epsilon == 0.1
    ensures kind == RMSProp ==> o.decay == 0.9 && o.momentum == 0.9 && o.epsilon == 1.0
    ensures kind == Momentum ==> o.momentum == 0.9 && o.useNesterov
  {
    match kind
    case Adagrad => AdagradOptimizer(lr)
    case Adadelta => AdadeltaOptimizer(lr, 0.9, 0.000001)
    case Adam => AdamOptimizer(lr, 0.9, 0.999, 0.1)
    case RMSProp => RMSPropOptimizer(lr, 0.9, 0.9, 1.0)
    case Momentum => MomentumOptimizer(lr, 0.9, true)
  }

  /** Gradients of the loss with respect to `vars`, applied by `optimizer`;
      each application advances the global step by one. */
  datatype Update<V> = Update(optimizer: Optimizer, vars: seq<V>)

  /** A training step: its gradient updates, and the variables whose
      exponential moving average (with decay `averageDecay`) it maintains. */
  datatype TrainOp<V> = TrainOp(updates: seq<Update<V>>, averageDecay: real, averaged: seq<V>)

  /** `get_train_op`: an unknown optimizer name raises ValueError before
      anything is built; otherwise one update over `varList` by the named
      optimizer at rate `lr`, and the moving average of `varList`. */
  function GetTrainOp<V>(optimizer: string, lr: real, movingAverageDecay: real, varList: seq<V>): (r: Result<TrainOp<V>, PyError>)
    ensures r.Failure? <==> optimizer !in OptimizerNames
    ensures r.Failure? ==> r.error == ValueError
    ensures r.Success? ==>
      && |r.value.updates| == 1
      && OptimizerName(r.value.updates[0].optimizer.Kind()) == optimizer
      && r.value.updates[0].optimizer.lr == lr
      && r.value.updates[0].vars == varList
      && r.value.averageDecay == movingAverageDecay
      && r.value.averaged == varList
  {
    match ParseOptimizer(optimizer)
    case None => Failure(ValueError)
    case Some(kind) =>
      Success(TrainOp([Update(NewOptimizer(kind, lr), varList)], movingAverageDecay, varList))
  }

  /** `get_fusion_train_op`: an unknown optimizer name raises ValueError
      before anything is built; otherwise two optimizers of the SAME kind,
      one at `lrBase` over `varList1` and one at `lrFusion` over `varList2`,
      and the moving average of all trainable variables. With histogram
      logging on, the builder reads an undefined name and raises NameError. */
  function GetFusionTrainOp<V>(optimizer: string, lrBase: real, varList1: seq<V>, lrFusion: real, varList2: seq<V>,
                               movingAverageDecay: real, trainableVariables: seq<V>, logHistograms: bool)
    : (r: Result<TrainOp<V>, PyError>)
    ensures optimizer !in OptimizerNames ==> r == Failure(ValueError)
    ensures optimizer in OptimizerNames ==> (r.Failure? <==> logHistograms)
    ensures r.Failure? && optimizer in OptimizerNames ==> r.error == NameError
    ensures r.Success? ==>
      && |r.value.updates| == 2
      && r.value.updates[0].optimizer.Kind() == r.value.updates[1].optimizer.Kind()
      && OptimizerName(r.value.updates[0].optimizer.Kind()) == optimizer
      && r.value.updates[0].optimizer.lr == lrBase && r.value.updates[0].vars == varList1
      && r.value.updates[1].optimizer.lr == lrFusion && r.value.updates[1].vars == varList2
      && r.value.averageDecay == movingAverageDecay
      && r.value.averaged == trainableVariables
  {
    match ParseOptimizer(optimizer)
    case None => Failure(ValueError)
    case Some(kind) =>
      if logHistograms then Failure(NameError)
      else Success(FusionStep(kind, lrBase, varList1, lrFusion, varList2, movingAverageDecay, trainableVariables))
  }

  /** The two updates of the fusion step and the averaging of all trainable
      variables. */
  function FusionStep<V>(kind: OptimizerKind, lrBase: real, varList1: seq<V>, lrFusion: real, varList2: seq<V>,
                         movingAverageDecay: real, trainableVariables: seq<V>): TrainOp<V>
  {
    TrainOp([Update(NewOptimizer(kind, lrBase), varList1), Update(NewOptimizer(kind, lrFusion), varList2)],
            movingAverageDecay, trainableVariables)
  }

  /** `get_fusion_train_op` as evidently intended: the histogram loop reads
      the gradients it computed (`grads1` and `grads2`), so logging no
      longer fails; summaries are not modelled, so the step is the same
      with or without them. */
  function GetFusionTrainOpCorrected<V>(optimizer: string, lrBase: real, varList1: seq<V>, lrFusion: real, varList2: seq<V>,
                                        movingAverageDecay: real, trainableVariables: seq<V>, logHistograms: bool)
    : (r: Result<TrainOp<V>, PyError>)
    ensures r.Failure? <==> optimizer !in OptimizerNames
    ensures r.Failure? ==> r.error == ValueError
    ensures r.Success? ==>
      && |r.value.updates| == 2
      && r.value.updates[0].optimizer.Kind() == r.value.updates[1].optimizer.Kind()
      && OptimizerName(r.value.updates[0].optimizer.Kind()) == optimizer
      && r.value.updates[0].optimizer.lr == lrBase && r.value.updates[0].vars == varList1
      && r.value.updates[1].optimizer.lr == lrFusion && r.value.updates[1].vars == varList2
      && r.value.averageDecay == movingAverageDecay
      && r.value.averaged == trainableVariables
  {
    match ParseOptimizer(optimizer)
    case None => Failure(ValueError)
    case Some(kind) => Success(FusionStep(kind, lrBase, varList1, lrFusion, varList2, movingAverageDecay, trainableVariables))
  }

  /** As written, turning histogram logging on makes every accepted
      optimizer name fail with NameError, where the corrected builder
      succeeds; with logging off the two agree. */
  lemma FusionHistogramsNameError<V>(optimizer: string, lrBase: real, varList1: seq<V>, lrFusion: real, varList2: seq<V>,
                                     movingAverageDecay: real, trainableVariables: seq<V>)
    ensures optimizer in OptimizerNames ==>
      && GetFusionTrainOp(optimizer, lrBase, varList1, lrFusion, varList2, movingAverageDecay, trainableVariables, true)
         == Failure(NameError)
      && GetFusionTrainOpCorrected(optimizer, lrBase, varList1, lrFusion, varList2, movingAverageDecay, trainableVariables, true)
         .Success?
    ensures GetFusionTrainOp(optimizer, lrBase, varList1, lrFusion, varList2, movingAverageDecay, trainableVariables, false)
         == GetFusionTrainOpCorrected(optimizer, lrBase, varList1, lrFusion, varList2, movingAverageDecay, trainableVariables, false)
  {
  }

  /** The fusion step applies exactly the updates of two single training
      steps built from the same optimizer name, so it advances the global
      step twice. */
  lemma FusionIsTwoSingleUpdates<V>(optimizer: string, lrBase: real, varList1: seq<V>, lrFusion: real, varList2: seq<V>,
                                    movingAverageDecay: real, trainableVariables: seq<V>, logHistograms: bool)
    ensures var fusion := GetFusionTrainOpCorrected(optimizer, lrBase, varList1, lrFusion, varList2, movingAverageDecay,
                                                    trainableVariables, logHistograms);
      var single1 := GetTrainOp(optimizer, lrBase, movingAverageDecay, varList1);
      var single2 := GetTrainOp(optimizer, lrFusion, movingAverageDecay, varList2);
      && fusion.Success? == single1.Success? == single2.Success?
      && (fusion.Success? ==> fusion.value.updates == single1.value.updates + single2.value.updates)
  {
  }
}
