/**
 * IERS "finals" Earth-orientation data: the fixed-column record parser and the
 * lookup that interpolates between the two daily records around a UTC instant.
 */
module FinalsData {
  import opened Wrappers
  import AstroCalc

  /** Offset of the Modified Julian Date: JD = MJD + 2400000.5. */
  const MjdOffset: real := 2400000.5

  /** A record's date must lie this close to the looked-up midnight to be chosen. */
  const KeyTolerance: real := 0.001

  /** The line number below which a parse failure is reported instead of ending the parse quietly. */
  const ReportBelowLine: int := 10

  /** One day's Earth-orientation values. `julianUtc` is None where the C++ double is NaN. */
  datatype FinalsRecord = FinalsRecord(
    julianUtc: Option<real>,
    pmIsPrediction: bool,
    pmX: real, pmXErr: real,
    pmY: real, pmYErr: real,
    ut1IsPrediction: bool,
    ut1Utc: real, ut1UtcErr: real,
    epsilon: real, epsilonErr: real)

  /** The default-constructed record: no date, flags false, every number zero. */
  const DefaultRecord: FinalsRecord := FinalsRecord(None, false, 0.0, 0.0, 0.0, 0.0, false, 0.0, 0.0, 0.0, 0.0)

  /** `std::stod`, which this model does not re-implement: None where it would throw. */
  type Stod = string -> Option<real>

  /** Why one field of a line could not be read. */
  datatype FieldError =
    | OffsetPastEnd(offset: nat)        // std::string::replace given a position past the end
    | NotANumber(field: string)         // std::stod found no number (or one out of range)
    | BadPredictionFlag(flag: char)     // neither 'I' nor 'P'

  // ---------------------------------------------------------------------------
  // Field extraction

  /** The reused number buffer, and what was read into it. */
  datatype Extracted = Extracted(holder: string, value: Result<real, FieldError>)

  /**
   * `fd_extract_double`: copies `length` characters of `text` from `offset` over the front of
   * the reused buffer, cuts or pads (with NUL) the buffer to `length`, and converts it.
   * Near the end of the text fewer characters are copied and the rest of the window keeps
   * what the previous field left there. An offset past the end raises before the buffer changes.
   */
  function ExtractDouble(holder: string, text: string, offset: nat, length: nat, stod: Stod): (r: Extracted)
    ensures offset > |text| ==> r == Extracted(holder, Failure(OffsetPastEnd(offset)))
    ensures offset <= |text| ==> |r.holder| == length
    ensures offset <= |text| ==>
      r.value == (match stod(r.holder) case Some(x) => Success(x) case None => Failure(NotANumber(r.holder)))
  {
    if offset > |text| then Extracted(holder, Failure(OffsetPastEnd(offset)))
    else
      var copied := if offset + length <= |text| then text[offset..offset + length] else text[offset..];
      var kept := if length <= |holder| then holder[length..] else [];
      var replaced := copied + kept;
      var resized := if |replaced| >= length then replaced[..length] else replaced + seq(length - |replaced|, _ => '\0');
      Extracted(resized, match stod(resized) case Some(x) => Success(x) case None => Failure(NotANumber(resized)))
  }

  /**
   * The buffer after an extraction: the characters of the window that lie inside the text,
   * then what was left in the buffer behind the window's length, then NUL padding.
   */
  lemma ExtractDoubleWindow(holder: string, text: string, offset: nat, length: nat, stod: Stod)
    requires offset <= |text|
    ensures var r := ExtractDouble(holder, text, offset, length, stod);
      var k := if offset + length <= |text| then length else |text| - offset;
      var m := if length <= |holder| then length else |holder|;
      && r.holder[..k] == text[offset..offset + k]
      && (forall j :: k <= j < length ==> r.holder[j] == if m + (j - k) < |holder| then holder[m + (j - k)] else '\0')
  {
  }

  /** Over a whole window inside the text, the buffer's earlier contents do not matter. */
  lemma ExtractDoubleInsideText(holder: string, text: string, offset: nat, length: nat, stod: Stod)
    requires offset + length <= |text|
    ensures ExtractDouble(holder, text, offset, length, stod).holder == text[offset..offset + length]
  {
    var r := ExtractDouble(holder, text, offset, length, stod);
    assert r.holder[..length] == r.holder;
  }

  /** The character at `offset`, or the NUL that `operator[]` gives at the end. */
  function CharAt(text: string, offset: nat): char
  {
    if offset < |text| then text[offset] else '\0'
  }

  /** `fd_extract_prediction_flag`: 'I' is IERS (final), 'P' is a prediction, anything else an error. */
  function PredictionFlag(text: string, offset: nat): (r: Result<bool, FieldError>)
    ensures r.Success? <==> CharAt(text, offset) == 'I' || CharAt(text, offset) == 'P'
    ensures r.Success? ==> (r.value <==> CharAt(text, offset) == 'P')
    ensures r.Failure? ==> r.error == BadPredictionFlag(CharAt(text, offset))
  {
    var flag := CharAt(text, offset);
    if flag == 'I' then Success(false)
    else if flag == 'P' then Success(true)
    else Failure(BadPredictionFlag(flag))
  }

  /** A field of the fixed-column layout, by offset from the start of the line. */
  datatype ColumnSpec = NumberAt(offset: nat, width: nat) | FlagAt(offset: nat)

  /** A field's value: a number, or a prediction flag (true for 'P'). */
  datatype FieldValue = Number(x: real) | Flag(isPrediction: bool)

  /**
   * The fields every line must have, in the order they are read: MJD, polar motion flag,
   * x, x error, y, y error, UT1 flag, UT1-UTC, UT1-UTC error.
   */
  const MandatoryColumns: seq<ColumnSpec> := [
    NumberAt(7, 8), FlagAt(16), NumberAt(18, 9), NumberAt(27, 9), NumberAt(37, 9),
    NumberAt(46, 9), FlagAt(57), NumberAt(58, 10), NumberAt(68, 10)]

  predicate FitsSpec(v: FieldValue, c: ColumnSpec)
  {
    (v.Number? && c.NumberAt?) || (v.Flag? && c.FlagAt?)
  }

  /** The buffer after some fields, and their values or the error of the first that failed. */
  datatype Fields = Fields(holder: string, values: Result<seq<FieldValue>, FieldError>)

  /**
   * Reads `cols` in order from the line at `start`, threading the number buffer through,
   * and stops at the first field that fails. The offsets are not checked against the line's end.
   */
  function ReadColumns(holder: string, text: string, start: nat, cols: seq<ColumnSpec>, stod: Stod): (r: Fields)
    ensures r.values.Success? ==> |r.values.value| == |cols|
    ensures r.values.Success? ==> forall i :: 0 <= i < |cols| ==> FitsSpec(r.values.value[i], cols[i])
    decreases |cols|
  {
    if cols == [] then Fields(holder, Success([]))
    else match cols[0]
      case FlagAt(offset) =>
        (match PredictionFlag(text, start + offset)
          case Failure(e) => Fields(holder, Failure(e))
          case Success(b) =>
            var rest := ReadColumns(holder, text, start, cols[1..], stod);
            Fields(rest.holder, if rest.values.Failure? then rest.values else Success([Flag(b)] + rest.values.value)))
      case NumberAt(offset, width) =>
        var e := ExtractDouble(holder, text, start + offset, width, stod);
        (match e.value
          case Failure(err) => Fields(e.holder, Failure(err))
          case Success(x) =>
            var rest := ReadColumns(e.holder, text, start, cols[1..], stod);
            Fields(rest.holder, if rest.values.Failure? then rest.values else Success([Number(x)] + rest.values.value)))
  }

  /** The text of the columns [start + offset, start + offset + width). */
  function Column(text: string, start: nat, offset: nat, width: nat): string
    requires start + offset + width <= |text|
  {
    text[start + offset..start + offset + width]
  }

  /** The field lies inside the text and holds what it should: a number, or 'I' or 'P'. */
  predicate Readable(text: string, start: nat, c: ColumnSpec, stod: Stod)
  {
    match c
    case NumberAt(offset, width) => start + offset + width <= |text| && stod(Column(text, start, offset, width)).Some?
    case FlagAt(offset) => CharAt(text, start + offset) == 'I' || CharAt(text, start + offset) == 'P'
  }

  /** The value a readable field holds. */
  function ColumnValue(text: string, start: nat, c: ColumnSpec, stod: Stod): FieldValue
    requires Readable(text, start, c, stod)
  {
    match c
    case NumberAt(offset, width) => Number(stod(Column(text, start, offset, width)).value)
    case FlagAt(offset) => Flag(CharAt(text, start + offset) == 'P')
  }

  /**
   * When every field is readable, the fields read are exactly the columns' values, whatever
   * the buffer held before.
   */
  lemma {:induction false} ReadColumnsFromText(holder: string, text: string, start: nat, cols: seq<ColumnSpec>, stod: Stod)
    requires forall i :: 0 <= i < |cols| ==> Readable(text, start, cols[i], stod)
    ensures var r := ReadColumns(holder, text, start, cols, stod);
            && r.values.Success?
            && forall i :: 0 <= i < |cols| ==> r.values.value[i] == ColumnValue(text, start, cols[i], stod)
    decreases |cols|
  {
    if cols != [] {
      assert Readable(text, start, cols[0], stod);
      var h := holder;
      match cols[0] {
        case FlagAt(offset) =>
        case NumberAt(offset, width) =>
          ExtractDoubleInsideText(holder, text, start + offset, width, stod);
          h := ExtractDouble(holder, text, start + offset, width, stod).holder;
      }
      assert forall i :: 0 <= i < |cols[1..]| ==> Readable(text, start, cols[1..][i], stod) by {
        forall i | 0 <= i < |cols[1..]| ensures Readable(text, start, cols[1..][i], stod) {
          assert cols[1..][i] == cols[i + 1];
        }
      }
      ReadColumnsFromText(h, text, start, cols[1..], stod);
    }
  }

  /** The buffer after a line, and the line's record or the error that ended it. */
  datatype LineResult = LineResult(holder: string, record: Result<FinalsRecord, FieldError>)

  /**
   * The two epsilon fields at offsets 116 and 125, width 9. Their failure is swallowed: when
   * the first is not a number both stay 0, and when only the second is not, its error stays 0.
   */
  function ParseEpsilon(holder: string, text: string, start: nat, stod: Stod): (r: (string, real, real))
    ensures start + 134 <= |text| ==>
      var eps, epsErr := stod(Column(text, start, 116, 9)), stod(Column(text, start, 125, 9));
      && r.1 == (if eps.Some? then eps.value else 0.0)
      && r.2 == (if eps.Some? && epsErr.Some? then epsErr.value else 0.0)
  {
    var e := ExtractDouble(holder, text, start + 116, 9, stod);
    var r :=
      if e.value.Failure? then (e.holder, 0.0, 0.0)
      else
        var ee := ExtractDouble(e.holder, text, start + 125, 9, stod);
        if ee.value.Failure? then (ee.holder, e.value.value, 0.0)
        else (ee.holder, e.value.value, ee.value.value);
    if start + 134 <= |text| then
      ExtractDoubleInsideText(holder, text, start + 116, 9, stod);
      ExtractDoubleInsideText(e.holder, text, start + 125, 9, stod);
      r
    else r
  }

  function NumberOf(v: FieldValue): real
  {
    if v.Number? then v.x else 0.0
  }

  function FlagOf(v: FieldValue): bool
  {
    v.Flag? && v.isPrediction
  }

  /** The record of a line's mandatory fields (dated MJD + 2400000.5) and epsilon pair. */
  function RecordOf(v: seq<FieldValue>, eps: real, epsErr: real): FinalsRecord
    requires |v| == |MandatoryColumns|
  {
    FinalsRecord(
      Some(MjdOffset + NumberOf(v[0])),
      FlagOf(v[1]), NumberOf(v[2]), NumberOf(v[3]), NumberOf(v[4]), NumberOf(v[5]),
      FlagOf(v[6]), NumberOf(v[7]), NumberOf(v[8]),
      eps, epsErr)
  }

  /**
   * One line starting at `start`: the mandatory fields, any failure of which fails the line,
   * then the optional epsilon pair.
   */
  function ParseLine(holder: string, text: string, start: nat, stod: Stod): (r: LineResult)
    ensures r.record.Success? ==> r.record.value.julianUtc.Some?
  {
    var fields := ReadColumns(holder, text, start, MandatoryColumns, stod);
    match fields.values
    case Failure(e) => LineResult(fields.holder, Failure(e))
    case Success(v) =>
      var (h, eps, epsErr) := ParseEpsilon(fields.holder, text, start, stod);
      LineResult(h, Success(RecordOf(v, eps, epsErr)))
  }

  /**
   * A complete line whose flags and mandatory numeric columns are all readable yields the
   * record made of exactly those columns, whatever the buffer held before. An epsilon window
   * that holds no number leaves 0 in its field, and a bad first one leaves 0 in both.
   */
  lemma ParseLineFromColumns(holder: string, text: string, start: nat, stod: Stod)
    requires start + 134 <= |text|
    requires CharAt(text, start + 16) in {'I', 'P'} && CharAt(text, start + 57) in {'I', 'P'}
    requires stod(Column(text, start, 7, 8)).Some? && stod(Column(text, start, 18, 9)).Some?
    requires stod(Column(text, start, 27, 9)).Some? && stod(Column(text, start, 37, 9)).Some?
    requires stod(Column(text, start, 46, 9)).Some? && stod(Column(text, start, 58, 10)).Some?
    requires stod(Column(text, start, 68, 10)).Some?
    ensures var eps, epsErr := stod(Column(text, start, 116, 9)), stod(Column(text, start, 125, 9));
      ParseLine(holder, text, start, stod).record == Success(FinalsRecord(
      Some(MjdOffset + stod(Column(text, start, 7, 8)).value),
      CharAt(text, start + 16) == 'P',
      stod(Column(text, start, 18, 9)).value, stod(Column(text, start, 27, 9)).value,
      stod(Column(text, start, 37, 9)).value, stod(Column(text, start, 46, 9)).value,
      CharAt(text, start + 57) == 'P',
      stod(Column(text, start, 58, 10)).value, stod(Column(text, start, 68, 10)).value,
      if eps.Some? then eps.value else 0.0,
      if eps.Some? && epsErr.Some? then epsErr.value else 0.0))
  {
    MandatoryColumnsReadable(text, start, stod);
    ReadColumnsFromText(holder, text, start, MandatoryColumns, stod);
    var fields := ReadColumns(holder, text, start, MandatoryColumns, stod);
    ParseLineOfFields(holder, text, start, stod);
    var (_, eps, epsErr) := ParseEpsilon(fields.holder, text, start, stod);
    RecordOfColumns(fields.values.value, text, start, stod, eps, epsErr);
  }

  lemma MandatoryColumnsReadable(text: string, start: nat, stod: Stod)
    requires start + 78 <= |text|
    requires CharAt(text, start + 16) in {'I', 'P'} && CharAt(text, start + 57) in {'I', 'P'}
    requires stod(Column(text, start, 7, 8)).Some? && stod(Column(text, start, 18, 9)).Some?
    requires stod(Column(text, start, 27, 9)).Some? && stod(Column(text, start, 37, 9)).Some?
    requires stod(Column(text, start, 46, 9)).Some? && stod(Column(text, start, 58, 10)).Some?
    requires stod(Column(text, start, 68, 10)).Some?
    ensures forall i :: 0 <= i < |MandatoryColumns| ==> Readable(text, start, MandatoryColumns[i], stod)
  {
  }

  /** The record of the columns' values. */
  lemma RecordOfColumns(v: seq<FieldValue>, text: string, start: nat, stod: Stod, eps: real, epsErr: real)
    requires |v| == |MandatoryColumns|
    requires start + 78 <= |text|
    requires CharAt(text, start + 16) in {'I', 'P'} && CharAt(text, start + 57) in {'I', 'P'}
    requires stod(Column(text, start, 7, 8)).Some? && stod(Column(text, start, 18, 9)).Some?
    requires stod(Column(text, start, 27, 9)).Some? && stod(Column(text, start, 37, 9)).Some?
    requires stod(Column(text, start, 46, 9)).Some? && stod(Column(text, start, 58, 10)).Some?
    requires stod(Column(text, start, 68, 10)).Some?
    requires forall i :: 0 <= i < |MandatoryColumns| ==>
      Readable(text, start, MandatoryColumns[i], stod) && v[i] == ColumnValue(text, start, MandatoryColumns[i], stod)
    ensures RecordOf(v, eps, epsErr) == FinalsRecord(
      Some(MjdOffset + stod(Column(text, start, 7, 8)).value),
      CharAt(text, start + 16) == 'P',
      stod(Column(text, start, 18, 9)).value, stod(Column(text, start, 27, 9)).value,
      stod(Column(text, start, 37, 9)).value, stod(Column(text, start, 46, 9)).value,
      CharAt(text, start + 57) == 'P',
      stod(Column(text, start, 58, 10)).value, stod(Column(text, start, 68, 10)).value,
      eps, epsErr)
  {
    assert v[0] == ColumnValue(text, start, NumberAt(7, 8), stod);
    assert v[1] == ColumnValue(text, start, FlagAt(16), stod);
    assert v[2] == ColumnValue(text, start, NumberAt(18, 9), stod);
    assert v[3] == ColumnValue(text, start, NumberAt(27, 9), stod);
    assert v[4] == ColumnValue(text, start, NumberAt(37, 9), stod);
    assert v[5] == ColumnValue(text, start, NumberAt(46, 9), stod);
    assert v[6] == ColumnValue(text, start, FlagAt(57), stod);
    assert v[7] == ColumnValue(text, start, NumberAt(58, 10), stod);
    assert v[8] == ColumnValue(text, start, NumberAt(68, 10), stod);
  }

  /** A line whose mandatory fields all read is the record of those fields and the epsilon pair. */
  lemma ParseLineOfFields(holder: string, text: string, start: nat, stod: Stod)
    requires ReadColumns(holder, text, start, MandatoryColumns, stod).values.Success?
    ensures var fields := ReadColumns(holder, text, start, MandatoryColumns, stod);
            var (_, eps, epsErr) := ParseEpsilon(fields.holder, text, start, stod);
            ParseLine(holder, text, start, stod).record == Success(RecordOf(fields.values.value, eps, epsErr))
  {
  }

  /** A line whose MJD column holds no number is refused, with the column's text. */
  lemma ParseLineBadDate(holder: string, text: string, start: nat, stod: Stod)
    requires start + 15 <= |text|
    requires stod(Column(text, start, 7, 8)).None?
    ensures ParseLine(holder, text, start, stod).record == Failure(NotANumber(Column(text, start, 7, 8)))
  {
    ExtractDoubleInsideText(holder, text, start + 7, 8, stod);
  }

  /** A line whose polar-motion flag is neither 'I' nor 'P' is refused, with that character. */
  lemma ParseLineBadFlag(holder: string, text: string, start: nat, stod: Stod)
    requires start + 15 <= |text|
    requires stod(Column(text, start, 7, 8)).Some?
    requires CharAt(text, start + 16) != 'I' && CharAt(text, start + 16) != 'P'
    ensures ParseLine(holder, text, start, stod).record == Failure(BadPredictionFlag(CharAt(text, start + 16)))
  {
    ExtractDoubleInsideText(holder, text, start + 7, 8, stod);
    assert MandatoryColumns[1..][0] == FlagAt(16);
  }

  // ---------------------------------------------------------------------------
  // Whole-text parse

  /** `std::string::find` of a character from position `from`. */
  function FindChar(text: string, c: char, from: nat): (r: Option<nat>)
    requires from <= |text|
    ensures r.Some? ==> from <= r.value < |text| && text[r.value] == c
    decreases |text| - from
  {
    if from == |text| then None
    else if text[from] == c then Some(from)
    else FindChar(text, c, from + 1)
  }

  /** FindChar finds the first occurrence, and None means there is none. */
  lemma {:induction false} FindCharFirst(text: string, c: char, from: nat)
    requires from <= |text|
    ensures FindChar(text, c, from).Some? ==> forall j :: from <= j < FindChar(text, c, from).value ==> text[j] != c
    ensures FindChar(text, c, from).None? ==> forall j :: from <= j < |text| ==> text[j] != c
    decreases |text| - from
  {
    if from < |text| && text[from] != c {
      FindCharFirst(text, c, from + 1);
    }
  }

  /** The number of newline characters from `from` on: the lines the parser can see. */
  function NewlinesFrom(text: string, from: nat): nat
    requires from <= |text|
    decreases |text| - from
  {
    if from == |text| then 0
    else (if text[from] == '\n' then 1 else 0) + NewlinesFrom(text, from + 1)
  }

  lemma {:induction false} NewlinesWithoutNewline(text: string, from: nat, upto: nat)
    requires from <= upto <= |text|
    requires forall j :: from <= j < upto ==> text[j] != '\n'
    ensures NewlinesFrom(text, from) == NewlinesFrom(text, upto)
    decreases upto - from
  {
    if from < upto {
      NewlinesWithoutNewline(text, from + 1, upto);
    }
  }

  /** How a parse ended: at the last newline, quietly at a bad line, or with an error for a bad early line. */
  datatype ParseStatus =
    | Complete
    | Stopped(line: int, cause: FieldError)
    | Raised(line: int, cause: FieldError)

  datatype ParseOutcome = ParseOutcome(records: seq<FinalsRecord>, status: ParseStatus)

  /** What the parse call reports: only an exception raised before line 10 reaches the caller. */
  function Reported(s: ParseStatus): Result<(), (int, FieldError)>
  {
    if s.Raised? then Failure((s.line, s.cause)) else Success(())
  }

  /** Reads one line: from the number buffer, the text and the line's start, a LineResult. */
  type LineParser = (string, string, nat) -> LineResult

  /** The line parser of the finals format, over a given `stod`. */
  function FinalsLineParser(stod: Stod): LineParser
  {
    (holder: string, text: string, start: nat) => ParseLine(holder, text, start, stod)
  }

  /** Every line the parser accepts carries a date. */
  ghost predicate DatesRecords(p: LineParser)
  {
    forall holder, text, start :: p(holder, text, start).record.Success? ==> p(holder, text, start).record.value.julianUtc.Some?
  }

  lemma FinalsLineParserDates(stod: Stod)
    ensures DatesRecords(FinalsLineParser(stod))
  {
  }

  /**
   * The parse from offset `pos`, after `linenum` lines, with the number buffer `holder`.
   * Each newline ends a line; text after the last newline is ignored. The first line that
   * fails ends the parse: it is raised when its line number is below 10 and ends the parse
   * quietly otherwise.
   */
  function ParseFrom(p: LineParser, text: string, pos: nat, holder: string, linenum: int): (r: ParseOutcome)
    requires pos <= |text|
    ensures r.status.Raised? ==> r.status.line < ReportBelowLine
    ensures r.status.Stopped? ==> r.status.line >= ReportBelowLine
    decreases |text| - pos
  {
    match FindChar(text, '\n', pos)
    case None => ParseOutcome([], Complete)
    case Some(nl) =>
      var line := p(holder, text, pos);
      match line.record
      case Failure(e) =>
        ParseOutcome([], if linenum + 1 < ReportBelowLine then Raised(linenum + 1, e) else Stopped(linenum + 1, e))
      case Success(fd) =>
        var rest := ParseFrom(p, text, nl + 1, line.holder, linenum + 1);
        ParseOutcome([fd] + rest.records, rest.status)
  }

  /**
   * `parse_finals_data` of a whole text: from the start, no lines seen, an empty buffer.
   * Every record it keeps carries a date.
   */
  function ParseText(text: string, stod: Stod): (r: ParseOutcome)
    ensures forall i :: 0 <= i < |r.records| ==> r.records[i].julianUtc.Some?
  {
    FinalsLineParserDates(stod);
    ParsedRecordsAreDated(FinalsLineParser(stod), text, 0, "", 0);
    ParseFrom(FinalsLineParser(stod), text, 0, "", 0)
  }

  /** Pushing one record at a time regroups the concatenation of the records read so far. */
  lemma AppendAssociative<T>(a: seq<T>, b: seq<T>, c: seq<T>)
    ensures a + (b + c) == (a + b) + c
  {
  }

  /** No newline left: parsing stops with nothing more. */
  lemma ParseFromEnd(p: LineParser, text: string, pos: nat, holder: string, linenum: int)
    requires pos <= |text| && FindChar(text, '\n', pos).None?
    ensures ParseFrom(p, text, pos, holder, linenum) == ParseOutcome([], Complete)
  {
  }

  /** A failing line ends parsing with that line's number and cause. */
  lemma ParseFromFailure(p: LineParser, text: string, pos: nat, holder: string, linenum: int)
    requires pos <= |text| && FindChar(text, '\n', pos).Some? && p(holder, text, pos).record.Failure?
    ensures ParseFrom(p, text, pos, holder, linenum).records == []
    ensures ParseFrom(p, text, pos, holder, linenum).status.line == linenum + 1
    ensures ParseFrom(p, text, pos, holder, linenum).status.cause == p(holder, text, pos).record.error
    ensures ParseFrom(p, text, pos, holder, linenum).status.Raised? <==> linenum + 1 < ReportBelowLine
  {
  }

  /** A parsed line contributes its record and parsing goes on after the newline. */
  lemma ParseFromSuccess(p: LineParser, text: string, pos: nat, holder: string, linenum: int, nl: nat)
    requires pos <= |text| && FindChar(text, '\n', pos) == Some(nl) && p(holder, text, pos).record.Success?
    ensures nl + 1 <= |text|
    ensures ParseFrom(p, text, pos, holder, linenum).records
      == [p(holder, text, pos).record.value] + ParseFrom(p, text, nl + 1, p(holder, text, pos).holder, linenum + 1).records
    ensures ParseFrom(p, text, pos, holder, linenum).status
      == ParseFrom(p, text, nl + 1, p(holder, text, pos).holder, linenum + 1).status
  {
  }

  /**
   * A complete parse yields one record per newline; an interrupted one yields fewer, and its
   * failing line is the one after the last record.
   */
  lemma {:induction false} ParseCountsLines(p: LineParser, text: string, pos: nat, holder: string, linenum: int)
    requires pos <= |text|
    ensures var o := ParseFrom(p, text, pos, holder, linenum);
            if o.status.Complete? then |o.records| == NewlinesFrom(text, pos)
            else |o.records| < NewlinesFrom(text, pos) && o.status.line == linenum + |o.records| + 1
    decreases |text| - pos
  {
    FindCharFirst(text, '\n', pos);
    match FindChar(text, '\n', pos)
    case None =>
      NewlinesWithoutNewline(text, pos, |text|);
    case Some(nl) =>
      NewlinesWithoutNewline(text, pos, nl);
      assert NewlinesFrom(text, nl) == 1 + NewlinesFrom(text, nl + 1);
      var line := p(holder, text, pos);
      if line.record.Success? {
        ParseCountsLines(p, text, nl + 1, line.holder, linenum + 1);
      }
  }

  /**
   * Only a failure on one of the first nine lines is reported: a reported parse holds at
   * most eight records, a quietly stopped one at least nine; a complete one holds one
   * record per newline.
   */
  lemma ParseReportsEarlyFailures(text: string, stod: Stod)
    ensures var o := ParseText(text, stod);
            && (o.status.Complete? ==> |o.records| == NewlinesFrom(text, 0))
            && (o.status.Raised? ==> o.status.line < ReportBelowLine && |o.records| <= 8)
            && (o.status.Stopped? ==> o.status.line >= ReportBelowLine && |o.records| >= 9)
  {
    ParseCountsLines(FinalsLineParser(stod), text, 0, "", 0);
  }

  /** Every parsed record carries a date, when the line parser dates what it accepts. */
  lemma {:induction false} ParsedRecordsAreDated(p: LineParser, text: string, pos: nat, holder: string, linenum: int)
    requires pos <= |text|
    requires DatesRecords(p)
    ensures forall i :: 0 <= i < |ParseFrom(p, text, pos, holder, linenum).records| ==>
              ParseFrom(p, text, pos, holder, linenum).records[i].julianUtc.Some?
    decreases |text| - pos
  {
    match FindChar(text, '\n', pos)
    case None =>
    case Some(nl) =>
      var line := p(holder, text, pos);
      if line.record.Success? {
        var rest := ParseFrom(p, text, nl + 1, line.holder, linenum + 1);
        var all := ParseFrom(p, text, pos, holder, linenum).records;
        assert all == [line.record.value] + rest.records;
        ParsedRecordsAreDated(p, text, nl + 1, line.holder, linenum + 1);
        assert line.record.value.julianUtc.Some?;
        forall i | 0 <= i < |all| ensures all[i].julianUtc.Some? {
          if i == 0 {
            assert all[0] == line.record.value;
          } else {
            assert all[i] == rest.records[i - 1];
          }
        }
      }
  }

  // ---------------------------------------------------------------------------
  // Lookup and interpolation

  /** The Julian midnight (x.5) at or before `jd`: Julian days run noon to noon. */
  function Key0(jd: real): (k: real)
    ensures k <= jd < k + 1.0
    ensures (k - 0.5).Floor as real == k - 0.5
  {
    var n := jd.Floor;
    var base := n as real + 0.5;
    if jd < base then
      assert ((n - 1) as real).Floor == n - 1;
      base - 1.0
    else
      assert (n as real).Floor == n;
      base
  }

  /** The record's date lies within 0.001 days of `key`. */
  predicate MatchesKey(r: FinalsRecord, key: real)
  {
    r.julianUtc.Some? && AstroCalc.Abs(r.julianUtc.value - key) < KeyTolerance
  }

  /** `std::find_if`: the first index from `from` on whose record matches, or |values|. */
  function FindKeyFrom(values: seq<FinalsRecord>, key: real, from: nat): (i: nat)
    requires from <= |values|
    ensures from <= i <= |values|
    ensures i < |values| ==> MatchesKey(values[i], key)
    ensures forall j :: from <= j < i ==> !MatchesKey(values[j], key)
    decreases |values| - from
  {
    if from == |values| then from
    else if MatchesKey(values[from], key) then from
    else FindKeyFrom(values, key, from + 1)
  }

  /**
   * `mix`: linear interpolation from `start` (factor 0) to `end` (factor 1). Halfway it is
   * the average, and between equal values it is that value.
   */
  function Mix(factor: real, start: real, end: real): (r: real)
    ensures factor == 0.5 ==> r == (start + end) / 2.0
    ensures start == end ==> r == start
  {
    start + (factor * (end - start))
  }

  lemma MixEndpoints(start: real, end: real)
    ensures Mix(0.0, start, end) == start
    ensures Mix(1.0, start, end) == end
  {
  }

  lemma ScaledBounds(factor: real, d: real)
    requires 0.0 <= factor <= 1.0 && d >= 0.0
    ensures 0.0 <= factor * d <= d
  {
    assert d - factor * d == (1.0 - factor) * d;
  }

  lemma ScaledBoundsNegative(factor: real, d: real)
    requires 0.0 <= factor <= 1.0 && d <= 0.0
    ensures d <= factor * d <= 0.0
  {
    assert factor * d - d == (1.0 - factor) * (-d);
    assert -(factor * d) == factor * (-d);
  }

  /** `x` lies between `a` and `b`, in whichever order they come. */
  predicate Between(x: real, a: real, b: real)
  {
    (a <= b ==> a <= x <= b) && (b <= a ==> b <= x <= a)
  }

  /** A factor in [0, 1] gives a value between the two end values. */
  lemma MixBetween(factor: real, start: real, end: real)
    requires 0.0 <= factor <= 1.0
    ensures start <= end ==> start <= Mix(factor, start, end) <= end
    ensures end <= start ==> end <= Mix(factor, start, end) <= start
  {
    var d := end - start;
    assert Mix(factor, start, end) == start + factor * d;
    if start <= end {
      ScaledBounds(factor, d);
    } else {
      ScaledBoundsNegative(factor, d);
    }
  }

  /**
   * The interpolation factor `(jd - start) / (end - start)`. Where the C++ divides by zero or
   * by NaN the model uses 0.
   */
  function Factor(jd: real, start: FinalsRecord, end: FinalsRecord): real
  {
    if start.julianUtc.Some? && end.julianUtc.Some? && end.julianUtc.value != start.julianUtc.value then
      (jd - start.julianUtc.value) / (end.julianUtc.value - start.julianUtc.value)
    else 0.0
  }

  lemma ScaleStrict(a: real, b: real, d: real)
    requires a < b && d > 0.0
    ensures a * d < b * d
  {
    assert b * d - a * d == (b - a) * d;
  }

  lemma QuotientInUnit(n: real, d: real)
    requires d > 0.0 && 0.0 <= n <= d
    ensures 0.0 <= n / d <= 1.0
  {
    var q := n / d;
    assert q * d == n;
    if q > 1.0 {
      ScaleStrict(1.0, q, d);
    }
    if q < 0.0 {
      ScaleStrict(q, 0.0, d);
    }
  }

  lemma FactorInUnit(jd: real, start: FinalsRecord, end: FinalsRecord)
    requires start.julianUtc.Some? && end.julianUtc.Some?
    requires start.julianUtc.value <= jd <= end.julianUtc.value
    ensures 0.0 <= Factor(jd, start, end) <= 1.0
  {
    var a, b := start.julianUtc.value, end.julianUtc.value;
    if a != b {
      QuotientInUnit(jd - a, b - a);
    }
  }

  /** Halfway between two distinct dates the factor is one half. */
  lemma FactorAtMidpoint(start: FinalsRecord, end: FinalsRecord)
    requires start.julianUtc.Some? && end.julianUtc.Some?
    requires start.julianUtc.value < end.julianUtc.value
    ensures Factor((start.julianUtc.value + end.julianUtc.value) / 2.0, start, end) == 0.5
  {
    var a, b := start.julianUtc.value, end.julianUtc.value;
    var d := b - a;
    var q := Factor((a + b) / 2.0, start, end);
    assert (a + b) / 2.0 - a == d / 2.0;
    assert q == (d / 2.0) / d;
    assert q * d == d / 2.0;
    if q < 0.5 {
      ScaleStrict(q, 0.5, d);
    }
    if q > 0.5 {
      ScaleStrict(0.5, q, d);
    }
  }

  /** The facts about the factor that interpolation needs, for any pair of records. */
  lemma FactorFacts(jd: real, start: FinalsRecord, end: FinalsRecord)
    ensures start.julianUtc.Some? && end.julianUtc.Some? && start.julianUtc.value <= jd <= end.julianUtc.value ==>
              0.0 <= Factor(jd, start, end) <= 1.0
    ensures start.julianUtc.Some? && end.julianUtc.Some? && start.julianUtc.value < end.julianUtc.value
            && jd == (start.julianUtc.value + end.julianUtc.value) / 2.0 ==>
              Factor(jd, start, end) == 0.5
  {
    if start.julianUtc.Some? && end.julianUtc.Some? {
      if start.julianUtc.value <= jd <= end.julianUtc.value {
        FactorInUnit(jd, start, end);
      }
      if start.julianUtc.value < end.julianUtc.value {
        FactorAtMidpoint(start, end);
      }
    }
  }

  /** Every numeric field of `r` lies between the fields of `a` and `b`. */
  predicate FieldsBetween(r: FinalsRecord, a: FinalsRecord, b: FinalsRecord)
  {
    && Between(r.pmX, a.pmX, b.pmX) && Between(r.pmXErr, a.pmXErr, b.pmXErr)
    && Between(r.pmY, a.pmY, b.pmY) && Between(r.pmYErr, a.pmYErr, b.pmYErr)
    && Between(r.ut1Utc, a.ut1Utc, b.ut1Utc) && Between(r.ut1UtcErr, a.ut1UtcErr, b.ut1UtcErr)
    && Between(r.epsilon, a.epsilon, b.epsilon) && Between(r.epsilonErr, a.epsilonErr, b.epsilonErr)
  }

  /** Every numeric field of `r` is the average of the fields of `a` and `b`. */
  predicate FieldsAverage(r: FinalsRecord, a: FinalsRecord, b: FinalsRecord)
  {
    && r.pmX == (a.pmX + b.pmX) / 2.0 && r.pmXErr == (a.pmXErr + b.pmXErr) / 2.0
    && r.pmY == (a.pmY + b.pmY) / 2.0 && r.pmYErr == (a.pmYErr + b.pmYErr) / 2.0
    && r.ut1Utc == (a.ut1Utc + b.ut1Utc) / 2.0 && r.ut1UtcErr == (a.ut1UtcErr + b.ut1UtcErr) / 2.0
    && r.epsilon == (a.epsilon + b.epsilon) / 2.0 && r.epsilonErr == (a.epsilonErr + b.epsilonErr) / 2.0
  }

  /** "No data": the default record dated at the looked-up instant. */
  function NoData(jd: real): FinalsRecord
  {
    DefaultRecord.(julianUtc := Some(jd))
  }

  /**
   * Every number interpolated between two records, dated `jd`; flags taken from the first.
   * Between the two dates each number lies between the records' numbers, and halfway
   * between two distinct dates it is their average.
   */
  function Interpolate(start: FinalsRecord, end: FinalsRecord, jd: real): (r: FinalsRecord)
    ensures r.julianUtc == Some(jd)
    ensures r.pmIsPrediction == start.pmIsPrediction && r.ut1IsPrediction == start.ut1IsPrediction
    ensures start.julianUtc.Some? && end.julianUtc.Some? && start.julianUtc.value <= jd <= end.julianUtc.value ==>
              FieldsBetween(r, start, end)
    ensures start.julianUtc.Some? && end.julianUtc.Some? && start.julianUtc.value < end.julianUtc.value
            && jd == (start.julianUtc.value + end.julianUtc.value) / 2.0 ==>
              FieldsAverage(r, start, end)
  {
    var f := Factor(jd, start, end);
    var r := FinalsRecord(
      Some(jd),
      start.pmIsPrediction,
      Mix(f, start.pmX, end.pmX), Mix(f, start.pmXErr, end.pmXErr),
      Mix(f, start.pmY, end.pmY), Mix(f, start.pmYErr, end.pmYErr),
      start.ut1IsPrediction,
      Mix(f, start.ut1Utc, end.ut1Utc), Mix(f, start.ut1UtcErr, end.ut1UtcErr),
      Mix(f, start.epsilon, end.epsilon), Mix(f, start.epsilonErr, end.epsilonErr));
    FactorFacts(jd, start, end);
    if 0.0 <= f <= 1.0 then
      MixBetween(f, start.pmX, end.pmX);
      MixBetween(f, start.pmXErr, end.pmXErr);
      MixBetween(f, start.pmY, end.pmY);
      MixBetween(f, start.pmYErr, end.pmYErr);
      MixBetween(f, start.ut1Utc, end.ut1Utc);
      MixBetween(f, start.ut1UtcErr, end.ut1UtcErr);
      MixBetween(f, start.epsilon, end.epsilon);
      MixBetween(f, start.epsilonErr, end.epsilonErr);
      r
    else r
  }

  /**
   * `finals_data_for_time`: find the first record dated at the midnight before `jd`; without
   * one, or when it is the last record, there is no data; otherwise interpolate between it
   * and the record after it.
   */
  function RecordForTime(values: seq<FinalsRecord>, jd: real): (r: FinalsRecord)
    ensures r.julianUtc == Some(jd)
  {
    var i := FindKeyFrom(values, Key0(jd), 0);
    if i + 1 >= |values| then NoData(jd) else Interpolate(values[i], values[i + 1], jd)
  }

  /** The data fields of two records agree (the date aside). */
  predicate SameData(a: FinalsRecord, b: FinalsRecord)
  {
    a.(julianUtc := None) == b.(julianUtc := None)
  }

  /** Without a record within 0.001 days of the midnight before `jd` there is no data. */
  lemma NoRecordNearKey(values: seq<FinalsRecord>, jd: real)
    requires forall i :: 0 <= i < |values| ==> !MatchesKey(values[i], Key0(jd))
    ensures RecordForTime(values, jd) == NoData(jd)
  {
  }

  /** When only the last record matches there is no data either: nothing follows it. */
  lemma OnlyLastRecordNearKey(values: seq<FinalsRecord>, jd: real)
    requires |values| > 0 && MatchesKey(values[|values| - 1], Key0(jd))
    requires forall i :: 0 <= i < |values| - 1 ==> !MatchesKey(values[i], Key0(jd))
    ensures RecordForTime(values, jd) == NoData(jd)
  {
  }

  /** At exactly the date of the chosen record the lookup returns that record's data. */
  lemma ExactAtRecordDate(values: seq<FinalsRecord>, i: nat, jd: real)
    requires i + 1 < |values|
    requires values[i].julianUtc == Some(jd) && MatchesKey(values[i], Key0(jd))
    requires forall j :: 0 <= j < i ==> !MatchesKey(values[j], Key0(jd))
    ensures SameData(RecordForTime(values, jd), values[i])
    ensures RecordForTime(values, jd).julianUtc == Some(jd)
  {
    assert FindKeyFrom(values, Key0(jd), 0) == i;
    assert Factor(jd, values[i], values[i + 1]) == 0.0;
  }

  /**
   * Between the dates of the chosen record and the next one, every number lies between the
   * two records' numbers, and the flags are the chosen record's.
   */
  lemma InterpolatedBetween(values: seq<FinalsRecord>, i: nat, jd: real)
    requires i + 1 < |values|
    requires MatchesKey(values[i], Key0(jd))
    requires forall j :: 0 <= j < i ==> !MatchesKey(values[j], Key0(jd))
    requires values[i + 1].julianUtc.Some?
    requires values[i].julianUtc.value <= jd <= values[i + 1].julianUtc.value
    ensures FieldsBetween(RecordForTime(values, jd), values[i], values[i + 1])
    ensures RecordForTime(values, jd).pmIsPrediction == values[i].pmIsPrediction
    ensures RecordForTime(values, jd).ut1IsPrediction == values[i].ut1IsPrediction
  {
    assert FindKeyFrom(values, Key0(jd), 0) == i;
  }

  /**
   * Halfway between the dates of the chosen record and a later next one, every number is the
   * average of the two records' numbers.
   */
  lemma InterpolatedAtMidpoint(values: seq<FinalsRecord>, i: nat, jd: real)
    requires i + 1 < |values|
    requires MatchesKey(values[i], Key0(jd))
    requires forall j :: 0 <= j < i ==> !MatchesKey(values[j], Key0(jd))
    requires values[i + 1].julianUtc.Some?
    requires values[i].julianUtc.value < values[i + 1].julianUtc.value
    requires jd == (values[i].julianUtc.value + values[i + 1].julianUtc.value) / 2.0
    ensures FieldsAverage(RecordForTime(values, jd), values[i], values[i + 1])
  {
    assert FindKeyFrom(values, Key0(jd), 0) == i;
  }

  /**
   * The line loop of `parse_finals_data`: finds each newline from the previous one, reads the
   * line before it with `parseLine`, and stops at the first failing line or when no newline is
   * left. The records read before a failure are kept.
   */
  method ScanLines(parseLine: LineParser, text: string) returns (parsed: seq<FinalsRecord>, r: Result<(), (int, FieldError)>)
    ensures parsed == ParseFrom(parseLine, text, 0, "", 0).records
    ensures r == Reported(ParseFrom(parseLine, text, 0, "", 0).status)
  {
    var holder: string := "";
    var linenum := 0;
    parsed := [];
    var oldoffset: nat := 0;
    ghost var total := ParseFrom(parseLine, text, 0, "", 0);
    ghost var rest := total;
    while true
      invariant oldoffset <= |text|
      invariant rest == ParseFrom(parseLine, text, oldoffset, holder, linenum)
      invariant total.records == parsed + rest.records
      invariant total.status == rest.status
      decreases |text| - oldoffset
    {
      var offset := FindChar(text, '\n', oldoffset);
      if offset.None? {
        ParseFromEnd(parseLine, text, oldoffset, holder, linenum);
        break;
      }
      var line := parseLine(holder, text, oldoffset);
      if line.record.Failure? {
        ParseFromFailure(parseLine, text, oldoffset, holder, linenum);
        linenum := linenum + 1;
        if linenum < ReportBelowLine {
          return parsed, Failure((linenum, line.record.error));
        }
        return parsed, Success(());
      }
      ParseFromSuccess(parseLine, text, oldoffset, holder, linenum, offset.value);
      ghost var next := ParseFrom(parseLine, text, offset.value + 1, line.holder, linenum + 1);
      AppendAssociative(parsed, [line.record.value], next.records);
      parsed := parsed + [line.record.value];
      holder := line.holder;
      linenum := linenum + 1;
      oldoffset := offset.value + 1;
      rest := next;
    }
    return parsed, Success(());
  }

  // ---------------------------------------------------------------------------
  // The handler object

  /** The loaded records, replaced by each parse. */
  class FinalsDataHandler {
    var values: seq<FinalsRecord>

    constructor ()
      ensures values == []
    {
      values := [];
    }

    /**
     * `parse_finals_data`: clears the records and parses `text` line by line. A failure on
     * one of the first nine lines raises (the records read before it stay); a later one ends
     * the parse quietly.
     */
    method ParseFinalsData(text: string, stod: Stod) returns (r: Result<(), (int, FieldError)>)
      modifies this
      ensures values == ParseText(text, stod).records
      ensures r.Failure? <==> ParseText(text, stod).status.Raised?
      ensures r.Failure? ==> r.error == (ParseText(text, stod).status.line, ParseText(text, stod).status.cause)
    {
      var parsed;
      parsed, r := ScanLines(FinalsLineParser(stod), text);
      values := parsed;
    }

    /** `finals_data_for_time` over the loaded records. */
    method FinalsDataForTime(jd: real) returns (r: FinalsRecord)
      ensures r == RecordForTime(values, jd)
    {
      var key0 := Key0(jd);
      var i := 0;
      while i < |values| && !MatchesKey(values[i], key0)
        invariant 0 <= i <= |values|
        invariant FindKeyFrom(values, key0, i) == FindKeyFrom(values, key0, 0)
      {
        i := i + 1;
      }
      if i == |values| {
        return NoData(jd);
      }
      if i + 1 == |values| {
        return NoData(jd);
      }
      r := Interpolate(values[i], values[i + 1], jd);
    }
  }
}
