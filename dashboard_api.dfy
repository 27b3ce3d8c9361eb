/** The metrics API of the dashboard, `dashboard/dashboard_api.py`: it turns
    lines of the server's CSV log into metric rows, keeps a bounded history
    of them, and serves slices of that history. The conversions Python's
    `float` and `int` perform on strings are parameters. */
module DashboardApi {
  import opened Wrappers
  import opened Text
  import opened Window

  // ---------------------------------------------------------------------
  // Strings: str.strip and str.split(",")
  // ---------------------------------------------------------------------

  /** The ASCII characters Python's `str.strip()` removes. */
  predicate IsPyWhitespace(c: char)
  {
    c == ' ' || c == '\t' || c == '\n' || c == '\r' || c == '\U{000B}' || c == '\U{000C}'
    || c == '\U{001C}' || c == '\U{001D}' || c == '\U{001E}' || c == '\U{001F}'
  }

  /** `str.lstrip()`. */
  function StripLeft(s: string): (r: string)
    ensures |r| <= |s|
  {
    if s != [] && IsPyWhitespace(s[0]) then StripLeft(s[1..]) else s
  }

  /** `str.rstrip()`. */
  function StripRight(s: string): (r: string)
    ensures |r| <= |s|
  {
    if s != [] && IsPyWhitespace(s[|s| - 1]) then StripRight(s[..|s| - 1]) else s
  }

  /** Left stripping cuts a whitespace prefix and stops at the first other
      character. */
  lemma {:induction false} StripLeftCutsPrefix(s: string)
    ensures var r := StripLeft(s);
            |r| <= |s| && r == s[|s| - |r|..]
            && (forall i :: 0 <= i < |s| - |r| ==> IsPyWhitespace(s[i]))
            && (r == [] || !IsPyWhitespace(r[0]))
  {
    if s != [] && IsPyWhitespace(s[0]) {
      StripLeftCutsPrefix(s[1..]);
      assert forall i :: 1 <= i < |s| ==> s[1..][i - 1] == s[i];
    }
  }

  /** Right stripping cuts a whitespace suffix and stops at the last other
      character. */
  lemma {:induction false} StripRightCutsSuffix(s: string)
    ensures var r := StripRight(s);
            |r| <= |s| && r == s[..|r|]
            && (forall i :: |r| <= i < |s| ==> IsPyWhitespace(s[i]))
            && (r == [] || !IsPyWhitespace(r[|r| - 1]))
  {
    if s != [] && IsPyWhitespace(s[|s| - 1]) {
      StripRightCutsSuffix(s[..|s| - 1]);
    }
  }

  /** `str.strip()`. */
  function Strip(s: string): string
  {
    StripRight(StripLeft(s))
  }

  /** `str.strip()` gives a slice of `s` that neither starts nor ends with
      whitespace, with only whitespace cut away on either side. */
  lemma StripTrims(s: string)
    ensures var r := Strip(s);
            var i := |s| - |StripLeft(s)|;
            r == s[i..i + |r|]
            && (forall j :: 0 <= j < i ==> IsPyWhitespace(s[j]))
            && (forall j :: i + |r| <= j < |s| ==> IsPyWhitespace(s[j]))
            && (r == [] || (!IsPyWhitespace(r[0]) && !IsPyWhitespace(r[|r| - 1])))
  {
    var l := StripLeft(s);
    var r := StripRight(l);
    var i := |s| - |l|;
    StripLeftCutsPrefix(s);
    StripRightCutsSuffix(l);
    assert r == s[i..i + |r|];
  }

  /** `s.split(",")`: the pieces between commas. */
  function Split(s: string): (ps: seq<string>)
    ensures |ps| >= 1
    decreases |s|
  {
    match IndexOfChar(s, ',')
    case None => [s]
    case Some(i) => [s[..i]] + Split(s[i + 1..])
  }

  /** Pieces joined back with commas. */
  function JoinCommas(ps: seq<string>): string
  {
    if ps == [] then [] else if |ps| == 1 then ps[0] else ps[0] + "," + JoinCommas(ps[1..])
  }

  /** No piece contains a comma. */
  lemma {:induction false} SplitPiecesHaveNoComma(s: string)
    ensures forall i :: 0 <= i < |Split(s)| ==> ',' !in Split(s)[i]
    decreases |s|
  {
    match IndexOfChar(s, ',')
    case None =>
    case Some(i) =>
      SplitPiecesHaveNoComma(s[i + 1..]);
  }

  /** Splitting loses nothing: the pieces rejoined give the line back. */
  lemma {:induction false} SplitJoin(s: string)
    ensures JoinCommas(Split(s)) == s
    decreases |s|
  {
    match IndexOfChar(s, ',')
    case None =>
    case Some(i) =>
      var rest := Split(s[i + 1..]);
      SplitJoin(s[i + 1..]);
      assert Split(s) == [s[..i]] + rest;
      assert ([s[..i]] + rest)[1..] == rest;
      assert s == s[..i] + "," + s[i + 1..];
  }

  // ---------------------------------------------------------------------
  // parse_csv_line
  // ---------------------------------------------------------------------

  /** A parsed log line: the stripped fields after aliasing, and the four
      fields the page plots, converted to numbers. */
  datatype MetricRow = MetricRow(
    fields: map<string, string>, cpu: real, queueLen: int, responseTimeMs: real, prevLatencyAvg: real)

  /** The header names paired with the values, both stripped; a later
      column wins over an earlier one with the same stripped name. */
  function StrippedFields(header: seq<string>, values: seq<string>): map<string, string>
    requires |header| == |values|
  {
    if header == [] then map[]
    else
      var n := |header| - 1;
      var before := StrippedFields(header[..n], values[..n]);
      before[Strip(header[n]) := Strip(values[n])]
  }

  /** Every stripped header name is a key, and a name maps to the value of
      its last column. */
  lemma {:induction false} StrippedFieldsKeys(header: seq<string>, values: seq<string>, i: nat)
    requires |header| == |values| && i < |header|
    ensures Strip(header[i]) in StrippedFields(header, values)
    ensures (forall j :: i < j < |header| ==> Strip(header[j]) != Strip(header[i]))
            ==> StrippedFields(header, values)[Strip(header[i])] == Strip(values[i])
  {
    var n := |header| - 1;
    if i < n {
      StrippedFieldsKeys(header[..n], values[..n], i);
      assert header[..n][i] == header[i] && values[..n][i] == values[i];
      if forall j :: i < j < |header| ==> Strip(header[j]) != Strip(header[i]) {
        assert forall j :: i < j < n ==> header[..n][j] == header[j];
      }
    }
  }

  /** Copies `src` to `dst` when `src` is present and `dst` is not. */
  function Alias(row: map<string, string>, src: string, dst: string): (r: map<string, string>)
    ensures forall k :: k in row ==> k in r && r[k] == row[k]
    ensures forall k :: k in r <==> k in row || (k == dst && src in row)
    ensures dst !in row && src in row ==> r[dst] == row[src]
  {
    if src in row && dst !in row then row[dst := row[src]] else row
  }

  /** The alias map: `response_ms` feeds `response_time_ms`, `latency_avg`
      feeds `prev_latency_avg`, in that order. */
  function WithAliases(row: map<string, string>): (r: map<string, string>)
    ensures forall k :: k in row ==> k in r && r[k] == row[k]
  {
    Alias(Alias(row, "response_ms", "response_time_ms"), "latency_avg", "prev_latency_avg")
  }

  /** `float(row.get(key, 0))`. */
  function FloatField(row: map<string, string>, key: string, toFloat: string -> Option<real>): (r: Option<real>)
    ensures key !in row ==> r == Some(0.0)
    ensures key in row ==> r == toFloat(row[key])
  {
    if key in row then toFloat(row[key]) else Some(0.0)
  }

  /** `int(row.get(key, 0))`. */
  function IntField(row: map<string, string>, key: string, toInt: string -> Option<int>): (r: Option<int>)
    ensures key !in row ==> r == Some(0)
    ensures key in row ==> r == toInt(row[key])
  {
    if key in row then toInt(row[key]) else Some(0)
  }

  /** The row `parse_csv_line` returns, None where it returns None: an empty
      line (the CSV reader yields no record), a line with more or fewer
      fields than the header (a missing or an extra field makes `strip`
      fail), or a field that does not convert. */
  function CsvRow(header: seq<string>, line: string, toFloat: string -> Option<real>, toInt: string -> Option<int>)
    : (r: Option<MetricRow>)
    ensures line == [] ==> r.None?
    ensures line != [] && |Split(line)| != |header| ==> r.None?
    ensures r.Some? <==>
              line != [] && |Split(line)| == |header| &&
              var row := WithAliases(StrippedFields(header, Split(line)));
              FloatField(row, "cpu", toFloat).Some? && IntField(row, "queue_len", toInt).Some? &&
              FloatField(row, "response_time_ms", toFloat).Some? && FloatField(row, "prev_latency_avg", toFloat).Some?
    ensures r.Some? ==> |Split(line)| == |header| && r.value.fields == WithAliases(StrippedFields(header, Split(line)))
    ensures r.Some? ==> r.value.cpu == FloatField(r.value.fields, "cpu", toFloat).value
    ensures r.Some? ==> r.value.queueLen == IntField(r.value.fields, "queue_len", toInt).value
    ensures r.Some? ==> r.value.responseTimeMs == FloatField(r.value.fields, "response_time_ms", toFloat).value
    ensures r.Some? ==> r.value.prevLatencyAvg == FloatField(r.value.fields, "prev_latency_avg", toFloat).value
    ensures r.Some? ==> "cpu" !in r.value.fields ==> r.value.cpu == 0.0
    ensures r.Some? ==> "queue_len" !in r.value.fields ==> r.value.queueLen == 0
    ensures r.Some? ==> "response_time_ms" !in r.value.fields ==> r.value.responseTimeMs == 0.0
    ensures r.Some? ==> "prev_latency_avg" !in r.value.fields ==> r.value.prevLatencyAvg == 0.0
  {
    if line == [] then None
    else
      var values := Split(line);
      if |values| != |header| then None
      else
        var row := WithAliases(StrippedFields(header, values));
        var cpu := FloatField(row, "cpu", toFloat);
        var queueLen := IntField(row, "queue_len", toInt);
        var response := FloatField(row, "response_time_ms", toFloat);
        var latency := FloatField(row, "prev_latency_avg", toFloat);
        if cpu.None? || queueLen.None? || response.None? || latency.None? then None
        else Some(MetricRow(row, cpu.value, queueLen.value, response.value, latency.value))
  }

  /** Any of the four plotted fields that fails to convert makes the whole
      line None. */
  lemma ConversionFailureIsNone(header: seq<string>, line: string, toFloat: string -> Option<real>, toInt: string -> Option<int>)
    requires line != [] && |Split(line)| == |header|
    requires var row := WithAliases(StrippedFields(header, Split(line)));
             ("cpu" in row && toFloat(row["cpu"]).None?) ||
             ("queue_len" in row && toInt(row["queue_len"]).None?) ||
             ("response_time_ms" in row && toFloat(row["response_time_ms"]).None?) ||
             ("prev_latency_avg" in row && toFloat(row["prev_latency_avg"]).None?)
    ensures CsvRow(header, line, toFloat, toInt).None?
  {
  }

  /** `parse_csv_line`, with its successive updates of `row`. */
  method ParseCsvLine(header: seq<string>, line: string, toFloat: string -> Option<real>, toInt: string -> Option<int>)
    returns (r: Option<MetricRow>)
    ensures r == CsvRow(header, line, toFloat, toInt)
  {
    if line == [] {
      return None;
    }
    var values := Split(line);
    if |values| != |header| {
      return None;
    }
    var row := StripFields(header, values);
    if "response_ms" in row && "response_time_ms" !in row {
      row := row["response_time_ms" := row["response_ms"]];
    }
    if "latency_avg" in row && "prev_latency_avg" !in row {
      row := row["prev_latency_avg" := row["latency_avg"]];
    }
    assert row == WithAliases(StrippedFields(header, values));
    var cpu := FloatField(row, "cpu", toFloat);
    var queueLen := IntField(row, "queue_len", toInt);
    var response := FloatField(row, "response_time_ms", toFloat);
    var latency := FloatField(row, "prev_latency_avg", toFloat);
    if cpu.None? || queueLen.None? || response.None? || latency.None? {
      return None;
    }
    r := Some(MetricRow(row, cpu.value, queueLen.value, response.value, latency.value));
  }

  /** The loop of `parse_csv_line` that pairs stripped names with stripped
      values. */
  method StripFields(header: seq<string>, values: seq<string>) returns (row: map<string, string>)
    requires |header| == |values|
    ensures row == StrippedFields(header, values)
  {
    row := map[];
    for i := 0 to |header|
      invariant row == StrippedFields(header[..i], values[..i])
    {
      assert header[..i + 1][..i] == header[..i] && values[..i + 1][..i] == values[..i];
      row := row[Strip(header[i]) := Strip(values[i])];
    }
    assert header[..|header|] == header && values[..|values|] == values;
  }

  /** The header of the log: the first line stripped, split at commas, each
      name stripped. */
  function HeaderOf(firstLine: string): (header: seq<string>)
    ensures |header| == |Split(Strip(firstLine))|
    ensures forall i :: 0 <= i < |header| ==> header[i] == Strip(Split(Strip(firstLine))[i])
  {
    var names := Split(Strip(firstLine));
    seq(|names|, i requires 0 <= i < |names| => Strip(names[i]))
  }

  // ---------------------------------------------------------------------
  // The bounded history
  // ---------------------------------------------------------------------

  /** `HISTORY_LIMIT` when the environment does not set it. */
  const DefaultHistoryLimit: nat := 2000

  /** Lines of the existing log loaded at start-up. */
  const BacklogLines: nat := 500

  /** Rows sent to a client when it connects. */
  const SnapshotRows: nat := 200

  /** The row, if any, as a list. */
  function AsList(r: Option<MetricRow>): seq<MetricRow>
  {
    match r
    case Some(row) => [row]
    case None => []
  }

  /** The rows of the lines that parse, in order. */
  function ParsedRows(header: seq<string>, lines: seq<string>, toFloat: string -> Option<real>, toInt: string -> Option<int>)
    : (rows: seq<MetricRow>)
    ensures |rows| <= |lines|
  {
    if lines == [] then []
    else
      var n := |lines| - 1;
      ParsedRows(header, lines[..n], toFloat, toInt)
        + AsList(CsvRow(header, lines[n], toFloat, toInt))
  }

  lemma ParsedRowsStep(header: seq<string>, lines: seq<string>, i: nat, toFloat: string -> Option<real>, toInt: string -> Option<int>)
    requires i < |lines|
    ensures ParsedRows(header, lines[..i + 1], toFloat, toInt)
            == ParsedRows(header, lines[..i], toFloat, toInt)
               + AsList(CsvRow(header, lines[i], toFloat, toInt))
  {
    assert lines[..i + 1][..i] == lines[..i];
  }

  /** `history = deque(maxlen=HISTORY_LIMIT)`. */
  class History {
    const limit: nat
    var entries: seq<MetricRow>
    /** Every row ever appended, in order. */
    ghost var appended: seq<MetricRow>

    /** The history holds the newest `limit` rows appended, in arrival order. */
    ghost predicate Valid()
      reads this
    {
      entries == KeepLast(appended, limit)
    }

    constructor (limit: nat)
      ensures Valid() && this.limit == limit && entries == [] && appended == []
    {
      this.limit := limit;
      entries := [];
      appended := [];
    }

    /** `history.append(row)`. */
    method Append(row: MetricRow)
      requires Valid()
      modifies this
      ensures Valid() && appended == old(appended) + [row]
      ensures entries == PushBounded(old(entries), row, limit)
      ensures |entries| <= limit
    {
      PushBoundedKeepsLast(appended, row, limit);
      entries := PushBounded(entries, row, limit);
      appended := appended + [row];
    }

    /** Appends the row of a line that parsed; a line that did not is dropped. */
    method AppendParsed(row: Option<MetricRow>)
      requires Valid()
      modifies this
      ensures Valid() && appended == old(appended) + AsList(row)
    {
      if row.Some? {
        Append(row.value);
      }
    }

    /** `get_history`: the requested count clamped to 1..HISTORY_LIMIT, then
        that many of the newest rows (all of them when there are fewer). */
    function Get(requested: int): (rows: seq<MetricRow>)
      reads this
      ensures var n := if requested < 1 then 1 else if requested > limit then (if limit < 1 then 1 else limit) else requested;
              |rows| == (if |entries| <= n then |entries| else n) && rows == entries[|entries| - |rows|..]
    {
      var n := if 1 > (if requested < limit then requested else limit) then 1
               else if requested < limit then requested else limit;
      KeepLast(entries, n)
    }

    /** The snapshot a new WebSocket client receives. */
    function Snapshot(): (rows: seq<MetricRow>)
      reads this
      ensures |rows| <= SnapshotRows && |rows| <= |entries| && rows == entries[|entries| - |rows|..]
      ensures |entries| >= SnapshotRows ==> |rows| == SnapshotRows
    {
      KeepLast(entries, SnapshotRows)
    }

    /** Start-up: the last 500 lines of the log, each parsed, and appended
        when it parses. */
    method LoadBacklog(header: seq<string>, lines: seq<string>, toFloat: string -> Option<real>, toInt: string -> Option<int>)
      requires Valid()
      modifies this
      ensures Valid()
      ensures appended == old(appended) + ParsedRows(header, KeepLast(lines, BacklogLines), toFloat, toInt)
    {
      var recent := KeepLast(lines, BacklogLines);
      for i := 0 to |recent|
        invariant Valid()
        invariant appended == old(appended) + ParsedRows(header, recent[..i], toFloat, toInt)
      {
        ParsedRowsStep(header, recent, i, toFloat, toInt);
        var row := ParseCsvLine(header, recent[i], toFloat, toInt);
        AppendParsed(row);
      }
      assert recent[..|recent|] == recent;
    }

    /** One line read while tailing: stripped, skipped when blank or
        unparsable, otherwise appended and returned for broadcasting. */
    method Ingest(header: seq<string>, line: string, toFloat: string -> Option<real>, toInt: string -> Option<int>)
      returns (broadcast: Option<MetricRow>)
      requires Valid()
      modifies this
      ensures Valid()
      ensures broadcast == (if Strip(line) == [] then None else CsvRow(header, Strip(line), toFloat, toInt))
      ensures appended == old(appended) + (if broadcast.Some? then [broadcast.value] else [])
    {
      var stripped := Strip(line);
      if stripped == [] {
        return None;
      }
      broadcast := ParseCsvLine(header, stripped, toFloat, toInt);
      if broadcast.Some? {
        Append(broadcast.value);
      }
    }
  }
}
