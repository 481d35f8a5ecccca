/** The log readers of VisualizeLog.py: `get_general`, which reads a
    general file into a flat dict, and `parse_log_file`, which attaches the
    latest `Remap:` and `Transform color:` readings to each following
    `Loop N: trial=T, Duration=D us` line. The three regular expressions are
    modelled by the leftmost-match search that `re.search` performs. */
module VisualizeLog {
  import opened Wrappers
  import opened Text
  import opened Dicts
  import opened PyValues
  import opened Lines

  // ----------------------------------------------------------- get_general

  /** What `get_general` takes from one line: for an entry, the text
      before the first `:` of the stripped line, stripped again, and the
      stripped rest; nothing for another line. */
  function Field(p: Parsed): Option<(string, string)>
  {
    if p.Pair? then Some((Strip(p.key), p.value)) else None
  }

  /** The fields of a file's lines, line by line. */
  function Fields(lines: seq<string>): (fs: seq<Option<(string, string)>>)
    ensures |fs| == |lines|
    ensures forall i :: 0 <= i < |lines| ==> fs[i] == Field(Parse(lines[i]))
  {
    seq(|lines|, i requires 0 <= i < |lines| => Field(Parse(lines[i])))
  }

  /** The dict `get_general` builds: each field stored under its key, a
      later field overwriting an earlier one with the same key. */
  function GeneralOf(fs: seq<Option<(string, string)>>): Dict<string>
  {
    if fs == [] then Empty()
    else
      var d := GeneralOf(fs[..|fs| - 1]);
      match Last(fs)
      case None => d
      case Some(kv) => Put(d, kv.0, kv.1)
  }

  /** `get_general(path)` on the file's lines. */
  method GetGeneral(lines: seq<string>) returns (data: Dict<string>)
    ensures data == GeneralOf(Fields(lines))
  {
    data := Empty();
    var i := 0;
    while i < |lines|
      invariant 0 <= i <= |lines|
      invariant data == GeneralOf(Fields(lines[..i]))
    {
      var line := lines[i];
      assert Fields(lines[..i + 1])[..i] == Fields(lines[..i]);
      if ':' in line {
        var (key, rest) := Entry(line);
        data := Put(data, Strip(key), Strip(rest));
      }
      i := i + 1;
    }
    assert lines[..i] == lines;
  }

  /** A key is present exactly when some line carries it. */
  lemma {:induction false} GeneralKeys(fs: seq<Option<(string, string)>>, k: string)
    ensures k in GeneralOf(fs).entries <==> exists i :: 0 <= i < |fs| && fs[i].Some? && fs[i].value.0 == k
  {
    if fs != [] {
      GeneralKeys(fs[..|fs| - 1], k);
      CarriesSnoc(fs, k);
    }
  }

  /** Some line of `fs` carries key `k`. */
  predicate Carries(fs: seq<Option<(string, string)>>, k: string) {
    exists i :: 0 <= i < |fs| && fs[i].Some? && fs[i].value.0 == k
  }

  /** Some line of `fs` carries `k` exactly when a line before the last
      does or the last one does. */
  lemma CarriesSnoc(fs: seq<Option<(string, string)>>, k: string)
    requires fs != []
    ensures Carries(fs, k) <==> Carries(fs[..|fs| - 1], k) || (Last(fs).Some? && Last(fs).value.0 == k)
  {
    var p := fs[..|fs| - 1];
    if exists i :: 0 <= i < |fs| && fs[i].Some? && fs[i].value.0 == k {
      var i :| 0 <= i < |fs| && fs[i].Some? && fs[i].value.0 == k;
      if i < |p| { assert p[i] == fs[i]; }
    }
    if exists i :: 0 <= i < |p| && p[i].Some? && p[i].value.0 == k {
      var i :| 0 <= i < |p| && p[i].Some? && p[i].value.0 == k;
      assert fs[i] == p[i];
    }
  }

  /** Line `i` is the last line that carries key `k`, and carries `v`. */
  predicate LastAt(fs: seq<Option<(string, string)>>, i: int, k: string, v: string) {
    && 0 <= i < |fs| && fs[i] == Some((k, v))
    && forall j :: i < j < |fs| && fs[j].Some? ==> fs[j].value.0 != k
  }

  /** A line that does not carry `k` keeps the last line carrying it last. */
  lemma LastAtExtend(fs: seq<Option<(string, string)>>, i: int, k: string, v: string)
    requires fs != [] && LastAt(fs[..|fs| - 1], i, k, v)
    requires Last(fs).None? || Last(fs).value.0 != k
    ensures LastAt(fs, i, k, v)
  {
    var p := fs[..|fs| - 1];
    forall j | i < j < |fs| && fs[j].Some? ensures fs[j].value.0 != k {
      if j < |p| { assert fs[j] == p[j]; }
    }
    assert fs[i] == p[i];
  }

  /** A present key holds the value of the last line that carries it: a
      later duplicate overwrites an earlier one. */
  lemma {:induction false} GeneralLastWins(fs: seq<Option<(string, string)>>, k: string)
    requires Carries(fs, k)
    ensures k in GeneralOf(fs).entries && exists i :: LastAt(fs, i, k, GeneralOf(fs).entries[k])
  {
    GeneralKeys(fs, k);
    var p, q := fs[..|fs| - 1], Last(fs);
    var v := GeneralOf(fs).entries[k];
    if q.Some? && q.value.0 == k {
      assert v == q.value.1;
      assert LastAt(fs, |fs| - 1, k, v);
    } else {
      assert k in GeneralOf(p).entries && GeneralOf(p).entries[k] == v;
      GeneralKeys(p, k);
      GeneralLastWins(p, k);
      var i :| LastAt(p, i, k, v);
      LastAtExtend(fs, i, k, v);
    }
  }

  // ------------------------------------------------------ regular expressions

  /** `s` holds `lit` at position `i`. */
  predicate HasAt(s: string, i: nat, lit: string) {
    i + |lit| <= |s| && s[i..i + |lit|] == lit
  }

  /** `s.startswith("Loop")`. */
  predicate StartsWithLoop(s: string) {
    HasAt(s, 0, "Loop")
  }

  /** The length of the run of ASCII digits at position `i` (`\d+` takes it all). */
  function DigitRun(s: string, i: nat): (n: nat)
    requires i <= |s|
    ensures i + n <= |s|
    ensures AllDigits(s[i..i + n])
    ensures i + n < |s| ==> !IsDigit(s[i + n])
    decreases |s| - i
  {
    if i < |s| && IsDigit(s[i]) then
      var rest := DigitRun(s, i + 1);
      assert s[i..i + 1 + rest] == [s[i]] + s[i + 1..i + 1 + rest];
      1 + rest
    else 0
  }

  predicate IsNumChar(c: char) {
    IsDigit(c) || c == '.'
  }

  /** The length of the run of digits and dots at position `i` (`[\d\.]+`). */
  function NumRun(s: string, i: nat): (n: nat)
    requires i <= |s|
    ensures i + n <= |s|
    ensures forall j :: i <= j < i + n ==> IsNumChar(s[j])
    ensures i + n < |s| ==> !IsNumChar(s[i + n])
    decreases |s| - i
  {
    if i < |s| && IsNumChar(s[i]) then 1 + NumRun(s, i + 1) else 0
  }

  /** `Loop (\d+): trial=\d+, Duration=(\d+) us` matched at position `i`: the
      loop number and the duration in microseconds. A greedy `\d+` that is
      not followed by the next literal cannot match a shorter run either, as
      the next character would then be a digit. */
  function LoopMatchAt(s: string, i: nat): Option<(int, int)>
  {
    if !HasAt(s, i, "Loop ") then None
    else
      var a := i + 5;
      var n1 := DigitRun(s, a);
      var b := a + n1;
      if n1 == 0 || !HasAt(s, b, ": trial=") then None
      else
        var c := b + 8;
        var n2 := DigitRun(s, c);
        var d := c + n2;
        if n2 == 0 || !HasAt(s, d, ", Duration=") then None
        else
          var e := d + 11;
          var n3 := DigitRun(s, e);
          if n3 == 0 || !HasAt(s, e + n3, " us") then None
          else Some((DigitsValue(s[a..b]) as int, DigitsValue(s[e..e + n3]) as int))
  }

  /** `loop_pattern.search(s[i..])`: the leftmost match. */
  function LoopSearch(s: string, i: nat): Option<(int, int)>
    decreases |s| - i
  {
    if i > |s| then None
    else if LoopMatchAt(s, i).Some? then LoopMatchAt(s, i)
    else LoopSearch(s, i + 1)
  }

  /** `<prefix>([\d\.]+) ms` matched at position `i`: the captured text. */
  function ReadingMatchAt(s: string, prefix: string, i: nat): (r: Option<string>)
    ensures r.Some? ==> |r.value| > 0 && forall j :: 0 <= j < |r.value| ==> IsNumChar(r.value[j])
  {
    if !HasAt(s, i, prefix) then None
    else
      var a := i + |prefix|;
      var n := NumRun(s, a);
      if n == 0 || !HasAt(s, a + n, " ms") then None else Some(s[a..a + n])
  }

  /** `re.search(prefix + r"([\d\.]+) ms", s[i..])`: the leftmost capture. */
  function ReadingSearch(s: string, prefix: string, i: nat): (r: Option<string>)
    ensures r.Some? ==> |r.value| > 0 && forall j :: 0 <= j < |r.value| ==> IsNumChar(r.value[j])
    decreases |s| - i
  {
    if i > |s| then None
    else if ReadingMatchAt(s, prefix, i).Some? then ReadingMatchAt(s, prefix, i)
    else ReadingSearch(s, prefix, i + 1)
  }

  const RemapPrefix: string := "Remap: "
  const TransformPrefix: string := "Transform color: "

  // -------------------------------------------------------- parse_log_file

  /** One row of the four lists `parse_log_file` returns. */
  datatype LoopEntry = LoopEntry(loop: int, remap: real, transform: real, duration: real)

  /** What `parse_log_file` knows after some lines: the rows so far and the
      readings seen since the last `Loop` line. */
  datatype Scanner = Scanner(entries: seq<LoopEntry>, remap: Option<real>, transform: Option<real>)

  /** `x if x is not None else 0`. */
  function OrZero(x: Option<real>): real {
    if x.Some? then x.value else 0.0
  }

  /** A reading line updates the reading it matches; a capture that is not
      a float (such as `1..2`) raises ValueError. */
  function Update(current: Option<real>, line: string, prefix: string): Result<Option<real>>
  {
    match ReadingSearch(line, prefix, 0)
    case None => Ok(current)
    case Some(text) =>
      match ParseFloat(text)
      case None => Err(ValueError)
      case Some(x) => Ok(Some(x))
  }

  /** The effect of one line. A `Loop` line that matches the loop pattern
      adds a row with the pending readings (0 when none) and the duration in
      milliseconds; every `Loop` line, matching or not, clears the
      readings. Any other line updates them. */
  function Step(s: Scanner, line: string): Result<Scanner>
  {
    if StartsWithLoop(line) then
      var row := match LoopSearch(line, 0)
        case None => []
        case Some(m) => [LoopEntry(m.0, OrZero(s.remap), OrZero(s.transform), m.1 as real / 1000.0)];
      Ok(Scanner(s.entries + row, None, None))
    else
      match Update(s.remap, line, RemapPrefix)
      case Err(e) => Err(e)
      case Ok(remap) =>
        match Update(s.transform, line, TransformPrefix)
        case Err(e) => Err(e)
        case Ok(transform) => Ok(Scanner(s.entries, remap, transform))
  }

  /** The lines read one after the other; the first exception aborts. */
  function Run(lines: seq<string>): Result<Scanner>
  {
    if lines == [] then Ok(Scanner([], None, None))
    else
      match Run(lines[..|lines| - 1])
      case Err(e) => Err(e)
      case Ok(s) => Step(s, Last(lines))
  }

  /** The four lists `parse_log_file` returns. */
  datatype Timings = Timings(loops: seq<int>, remapTimes: seq<real>, transformTimes: seq<real>, durations: seq<real>)

  /** The lists are the columns of `entries`. */
  predicate Columns(t: Timings, entries: seq<LoopEntry>) {
    && |t.loops| == |entries| && |t.remapTimes| == |entries|
    && |t.transformTimes| == |entries| && |t.durations| == |entries|
    && forall k :: 0 <= k < |entries| ==>
      && t.loops[k] == entries[k].loop && t.remapTimes[k] == entries[k].remap
      && t.transformTimes[k] == entries[k].transform && t.durations[k] == entries[k].duration
  }

  /** Appending a row to the lists appends it to the columns. */
  lemma ColumnsSnoc(t: Timings, entries: seq<LoopEntry>, e: LoopEntry)
    requires Columns(t, entries)
    ensures Columns(Timings(t.loops + [e.loop], t.remapTimes + [e.remap],
                            t.transformTimes + [e.transform], t.durations + [e.duration]), entries + [e])
  {
  }

  lemma RunStep(lines: seq<string>, i: nat)
    requires i < |lines|
    ensures Run(lines[..i + 1]) ==
      if Run(lines[..i]).Err? then Run(lines[..i]) else Step(Run(lines[..i]).value, lines[i])
  {
    assert lines[..i + 1][..i] == lines[..i];
  }

  lemma RunAdvance(lines: seq<string>, i: nat, s: Scanner, s': Scanner)
    requires i < |lines| && Run(lines[..i]) == Ok(s) && Step(s, lines[i]) == Ok(s')
    ensures Run(lines[..i + 1]) == Ok(s')
  {
    RunStep(lines, i);
  }

  /** A line that raises after the lines before it were read ends the
      scan with that exception. */
  lemma {:induction false} RunFails(lines: seq<string>, i: nat, s: Scanner)
    requires i < |lines| && Run(lines[..i]) == Ok(s) && Step(s, lines[i]).Err?
    ensures Run(lines) == Step(s, lines[i])
  {
    var p := lines[..|lines| - 1];
    if i + 1 == |lines| {
      assert p == lines[..i];
    } else {
      assert p[..i] == lines[..i] && p[i] == lines[i];
      RunFails(p, i, s);
    }
  }

  /** The first exception ends the scan. */
  lemma {:induction false} RunErrPrefix(lines: seq<string>, n: nat)
    requires n <= |lines| && Run(lines[..n]).Err?
    ensures Run(lines) == Run(lines[..n])
  {
    if n < |lines| {
      var p := lines[..|lines| - 1];
      assert p[..n] == lines[..n];
      RunErrPrefix(p, n);
    } else {
      assert lines[..n] == lines;
    }
  }

  // --------------------------------------------- what the scan computes

  /** A line that makes `parse_log_file` raise: a line that does not start
      with `Loop` and whose `Remap:` or `Transform color:` capture is not a
      float. */
  predicate BadLine(line: string) {
    && !StartsWithLoop(line)
    && (Update(None, line, RemapPrefix).Err? || Update(None, line, TransformPrefix).Err?)
  }

  lemma StepErr(s: Scanner, line: string)
    ensures Step(s, line).Err? <==> BadLine(line)
  {
    assert Update(s.remap, line, RemapPrefix).Err? == Update(None, line, RemapPrefix).Err?;
    assert Update(s.transform, line, TransformPrefix).Err? == Update(None, line, TransformPrefix).Err?;
  }

  lemma RunErrSnoc(lines: seq<string>)
    requires lines != []
    ensures Run(lines).Err? <==> Run(lines[..|lines| - 1]).Err? || BadLine(Last(lines))
  {
    var p := lines[..|lines| - 1];
    if Run(p).Ok? {
      StepErr(Run(p).value, Last(lines));
    }
  }

  /** Some line has property `bad`. */
  predicate AnyLine(lines: seq<string>, bad: string -> bool) {
    exists i :: 0 <= i < |lines| && bad(lines[i])
  }

  lemma AnyLineSnoc(lines: seq<string>, bad: string -> bool)
    requires lines != []
    ensures AnyLine(lines, bad) <==> AnyLine(lines[..|lines| - 1], bad) || bad(Last(lines))
  {
    var p := lines[..|lines| - 1];
    if AnyLine(p, bad) {
      var i :| 0 <= i < |p| && bad(p[i]);
      assert lines[i] == p[i];
    }
    if AnyLine(lines, bad) {
      var i :| 0 <= i < |lines| && bad(lines[i]);
      if i < |p| { assert p[i] == lines[i]; }
    }
  }

  /** The scan raises exactly when some line is bad, wherever it is. */
  lemma {:induction false} RunErrIff(lines: seq<string>)
    ensures Run(lines).Err? <==> AnyLine(lines, BadLine)
  {
    if lines != [] {
      RunErrIff(lines[..|lines| - 1]);
      RunErrSnoc(lines);
      AnyLineSnoc(lines, BadLine);
    }
  }

  /** The reading with `prefix` still pending after `lines`: the value of
      the last capture since the last `Loop` line, if any. */
  function Pending(lines: seq<string>, prefix: string): Option<real>
  {
    if lines == [] then None
    else
      var line := Last(lines);
      if StartsWithLoop(line) then None
      else
        match ReadingSearch(line, prefix, 0)
        case None => Pending(lines[..|lines| - 1], prefix)
        case Some(text) => ParseFloat(text)
  }

  /** The rows of a scan that does not raise: one per `Loop` line that
      matches the loop pattern, with the readings pending before it. */
  function Expected(lines: seq<string>): seq<LoopEntry>
  {
    if lines == [] then []
    else
      var p, line := lines[..|lines| - 1], Last(lines);
      var rest := Expected(p);
      if !StartsWithLoop(line) then rest
      else
        match LoopSearch(line, 0)
        case None => rest
        case Some(m) => rest + [LoopEntry(m.0, OrZero(Pending(p, RemapPrefix)), OrZero(Pending(p, TransformPrefix)), m.1 as real / 1000.0)]
  }

  /** A scan that does not raise has produced the expected rows and holds
      the pending readings. */
  lemma {:induction false} RunValue(lines: seq<string>)
    requires Run(lines).Ok?
    ensures Run(lines).value == Scanner(Expected(lines), Pending(lines, RemapPrefix), Pending(lines, TransformPrefix))
  {
    if lines != [] {
      var p := lines[..|lines| - 1];
      assert Run(p).Ok?;
      RunValue(p);
    }
  }

  /** A `Loop` line, matching the pattern or not, discards the readings
      taken before it. */
  lemma LoopLineClears(lines: seq<string>, line: string)
    requires StartsWithLoop(line)
    ensures Pending(lines + [line], RemapPrefix) == None
    ensures Pending(lines + [line], TransformPrefix) == None
  {
  }

  /** `[\d\.]+` also captures text such as `1..2`... */
  lemma MalformedCapture()
    ensures ReadingSearch("Remap: 1..2 ms", RemapPrefix, 0) == Some("1..2")
  {
    var line := "Remap: 1..2 ms";
    assert HasAt(line, 0, RemapPrefix);
    assert NumRun(line, 11) == 0;
    assert NumRun(line, 7) == 4;
    assert HasAt(line, 11, " ms");
    assert line[7..11] == "1..2";
  }

  /** ... which `float` rejects. */
  lemma MalformedFloat()
    ensures ParseFloat("1..2") == None
  {
    var t := "1..2";
    assert Strip(t) == t;
    assert Unsigned(t) == (false, t);
    SecondPointRejected(t, 1, 2);
    assert DecimalValue(Unsigned(Strip(t)).1) == None;
  }

  /** So a log holding `Remap: 1..2 ms` makes `parse_log_file` raise
      ValueError. */
  lemma MalformedRemapRaises()
    ensures Run(["Remap: 1..2 ms"]) == Err(ValueError)
  {
    var line := "Remap: 1..2 ms";
    assert !StartsWithLoop(line) by {
      assert line[0..4][0] == 'R';
    }
    assert Update(None, line, RemapPrefix) == Err(ValueError) by {
      MalformedCapture();
      MalformedFloat();
    }
    assert Step(Scanner([], None, None), line) == Err(ValueError);
    var lines: seq<string> := [line];
    assert lines[..0] == [];
  }

  /** The readings taken from one line that does not start with `Loop`:
      the `Remap:` capture is converted first, then the `Transform color:`
      one; a capture that is not a float raises ValueError. */
  method ReadLine(line: string, remapTime: Option<real>, transformTime: Option<real>, ghost entries: seq<LoopEntry>)
    returns (r: Result<(Option<real>, Option<real>)>)
    requires !StartsWithLoop(line)
    ensures r.Err? ==> r == Err(ValueError) && Step(Scanner(entries, remapTime, transformTime), line) == Err(ValueError)
    ensures r.Ok? ==> Step(Scanner(entries, remapTime, transformTime), line) == Ok(Scanner(entries, r.value.0, r.value.1))
  {
    var remapMatch := ReadingSearch(line, RemapPrefix, 0);
    var transformMatch := ReadingSearch(line, TransformPrefix, 0);
    var remap, transform := remapTime, transformTime;
    if remapMatch.Some? {
      var x := ParseFloat(remapMatch.value);
      if x.None? {
        r := Err(ValueError);
        return;
      }
      remap := x;
    }
    if transformMatch.Some? {
      var x := ParseFloat(transformMatch.value);
      if x.None? {
        r := Err(ValueError);
        return;
      }
      transform := x;
    }
    r := Ok((remap, transform));
  }

  /** No row or one row. */
  function Rows(row: Option<LoopEntry>): seq<LoopEntry> {
    if row.Some? then [row.value] else []
  }

  /** The row a `Loop` line adds, if it matches the loop pattern. */
  method ReadLoop(line: string, remapTime: Option<real>, transformTime: Option<real>, ghost entries: seq<LoopEntry>)
    returns (row: Option<LoopEntry>)
    requires StartsWithLoop(line)
    ensures Step(Scanner(entries, remapTime, transformTime), line) ==
      Ok(Scanner(entries + Rows(row), None, None))
    ensures row.Some? ==> row.value.remap == OrZero(remapTime) && row.value.transform == OrZero(transformTime)
  {
    var loopMatch := LoopSearch(line, 0);
    if loopMatch.Some? {
      var loop := loopMatch.value.0;
      var duration := loopMatch.value.1 as real / 1000.0;
      row := Some(LoopEntry(loop, OrZero(remapTime), OrZero(transformTime), duration));
    } else {
      row := None;
    }
  }

  /** The inner loop of `parse_log_file` from line `i`: the readings are
      cleared, then the lines up to the next `Loop` line (or the end) are
      read; `failed` when one of them raises. */
  method ReadUntilLoop(lines: seq<string>, i: nat, ghost entries: seq<LoopEntry>)
    returns (j: nat, remapTime: Option<real>, transformTime: Option<real>, failed: bool)
    requires i <= |lines| && Run(lines[..i]) == Ok(Scanner(entries, None, None))
    ensures failed ==> Run(lines) == Err(ValueError)
    ensures !failed ==> i <= j <= |lines| && Run(lines[..j]) == Ok(Scanner(entries, remapTime, transformTime))
    ensures !failed && j < |lines| ==> StartsWithLoop(lines[j])
  {
    var n := |lines|;
    j := i;
    remapTime, transformTime, failed := None, None, false;
    while j < n && !StartsWithLoop(lines[j])
      invariant i <= j <= n
      invariant Run(lines[..j]) == Ok(Scanner(entries, remapTime, transformTime))
    {
      var read := ReadLine(lines[j], remapTime, transformTime, entries);
      if read.Err? {
        RunFails(lines, j, Scanner(entries, remapTime, transformTime));
        failed := true;
        return;
      }
      RunAdvance(lines, j, Scanner(entries, remapTime, transformTime), Scanner(entries, read.value.0, read.value.1));
      remapTime, transformTime := read.value.0, read.value.1;
      j := j + 1;
    }
  }

  /** One round of the outer loop of `parse_log_file`, from line `i`: the
      readings are cleared, the lines up to the next `Loop` line are read,
      that line (if any) is handled, and the position moves past it. The
      row it adds, if any, comes back in `row`. */
  method ScanRound(lines: seq<string>, i: nat, ghost entries: seq<LoopEntry>) returns (j: nat, r: Result<Option<LoopEntry>>)
    requires i <= |lines| && Run(lines[..i]) == Ok(Scanner(entries, None, None))
    ensures r.Err? ==> r == Err(ValueError) && Run(lines) == Err(ValueError)
    ensures r.Ok? ==> i < j <= |lines| + 1
    ensures r.Ok? && j <= |lines| ==>
      Run(lines[..j]) == Ok(Scanner(entries + Rows(r.value), None, None))
    ensures r.Ok? && j > |lines| ==> r.value.None? && Run(lines).Ok? && Run(lines).value.entries == entries
  {
    var remapTime, transformTime, failed;
    j, remapTime, transformTime, failed := ReadUntilLoop(lines, i, entries);
    if failed {
      r := Err(ValueError);
      return;
    }
    if j < |lines| {
      var row := ReadLoop(lines[j], remapTime, transformTime, entries);
      RunAdvance(lines, j, Scanner(entries, remapTime, transformTime),
        Scanner(entries + Rows(row), None, None));
      r := Ok(row);
    } else {
      assert lines[..j] == lines;
      r := Ok(None);
    }
    j := j + 1;
  }

  /** `parse_log_file(content)` on the content's lines: an outer loop that
      runs once per line, each round reading up to and including the next
      `Loop` line; once the lines are used up the remaining rounds do
      nothing. */
  method ParseLogFile(lines: seq<string>) returns (r: Result<Timings>)
    ensures r.Ok? <==> Run(lines).Ok?
    ensures r.Err? ==> r == Err(ValueError)
    ensures r.Ok? ==> Columns(r.value, Run(lines).value.entries)
    ensures r.Err? <==> AnyLine(lines, BadLine)
    ensures r.Ok? ==> Columns(r.value, Expected(lines))
  {
    RunErrIff(lines);
    var loops, remapTimes, transformTimes, durations := [], [], [], [];
    ghost var acc: seq<LoopEntry> := [];
    var n := |lines|;
    var i := 0;
    var k := 0;
    while k < n
      invariant 0 <= k <= n && k <= i
      invariant i <= n ==> Run(lines[..i]) == Ok(Scanner(acc, None, None))
      invariant i > n ==> Run(lines).Ok? && Run(lines).value.entries == acc
      invariant Columns(Timings(loops, remapTimes, transformTimes, durations), acc)
    {
      if i <= n {
        var j, round := ScanRound(lines, i, acc);
        if round.Err? {
          return Err(ValueError);
        }
        if round.value.Some? {
          var entry := round.value.value;
          ColumnsSnoc(Timings(loops, remapTimes, transformTimes, durations), acc, entry);
          loops := loops + [entry.loop];
          remapTimes := remapTimes + [entry.remap];
          transformTimes := transformTimes + [entry.transform];
          durations := durations + [entry.duration];
          acc := acc + [entry];
        } else {
          assert acc + [] == acc;
        }
        i := j;
      } else {
        i := i + 1;
      }
      k := k + 1;
    }
    if i <= n {
      assert lines[..i] == lines;
    }
    RunValue(lines);
    r := Ok(Timings(loops, remapTimes, transformTimes, durations));
  }
}
