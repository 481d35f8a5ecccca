/** The comparison bookkeeping of Data_class.py: the rows of the log
    overview table (`print_all`), the choice of logs and keys in
    `display_data`, the data lists `display_combined` lines up for its box
    plots, the plot titles and axis labels, and the file list of
    `display_timeline`. The answers typed at the prompts are a parameter;
    drawing and printing are not modelled. */
module DataClass {
  import opened Wrappers
  import opened Text
  import opened Dicts
  import opened PyValues
  import opened Functions
  import opened Sorting
  import Formatting

  /** What the comparison code reads from one imported log: its
      `return_keys()`, `return_identifier()` and `return_attributes()`, and
      the three accessors it calls that no file of the program defines,
      taken as given (`return_all_agg_data(key)` and
      `return_all_outliers(key)` raise KeyError for a key not in their map). */
  datatype LogView = LogView(
    keys: seq<string>,
    identifier: Result<string>,
    attributes: Dict<Value>,
    agg: map<string, AggRow>,
    outliers: map<string, seq<real>>,
    filenames: seq<string>)

  /** The five summary statistics of one series (min, q1, median, q3, max). */
  type AggRow = seq<Option<real>>

  /** `[None, None, None, None, None]`, the stand-in for a missing series. */
  const Missing: AggRow := [None, None, None, None, None]

  // ------------------------------------------------------------ print_all

  const Headers: seq<string> := ["ID", "TIME", "VERSION", "COMMENT", "LIVE_FEED", "RECORDING_FOLDER"]

  /** `s[:n]`. */
  function Cut(s: string, n: nat): (r: string)
    ensures |r| == if |s| < n then |s| else n
    ensures r == s[..|r|]
  {
    if |s| <= n then s else s[..n]
  }

  /** The table cell of one attribute: a text cut to 30 characters, another
      value as it is, `""` when the log lacks the attribute. */
  function Cell(attributes: Dict<Value>, name: string): (c: Value)
    ensures name !in attributes.entries ==> c == Str("")
    ensures name in attributes.entries && !attributes.entries[name].Str? ==> c == attributes.entries[name]
    ensures name in attributes.entries && attributes.entries[name].Str? ==>
      && c.Str? && |c.s| <= 30 && |c.s| <= |attributes.entries[name].s|
      && c.s == attributes.entries[name].s[..|c.s|]
      && (|attributes.entries[name].s| <= 30 ==> c == attributes.entries[name])
  {
    if name in attributes.entries then
      match attributes.entries[name]
      case Str(s) => Str(Cut(s, 30))
      case v => v
    else Str("")
  }

  /** The row of the log at position `i`: its 1-based ID (blank when
      excluded) and one cell per remaining header. */
  function Row(i: nat, attributes: Dict<Value>, exclude: seq<int>): (row: seq<Value>)
    ensures |row| == |Headers|
    ensures row[0] == if i + 1 in exclude then Str("") else Int(i + 1)
    ensures forall h :: 1 <= h < |Headers| ==> row[h] == Cell(attributes, Headers[h])
  {
    [if i + 1 in exclude then Str("") else Int(i + 1)]
    + seq(|Headers| - 1, h requires 0 <= h < |Headers| - 1 => Cell(attributes, Headers[h + 1]))
  }

  // --------------------------------------------------- selecting the logs

  /** The IDs accepted by the `input_int` prompts of `display_data` on the
      answers typed so far, and whether an empty answer has ended the
      selection. Rejected answers are asked again and change nothing. */
  function IdSession(answers: seq<string>, high: int): (seq<int>, bool)
  {
    if answers == [] then ([], false)
    else
      var prev := IdSession(answers[..|answers| - 1], high);
      if prev.1 then prev
      else
        match InputIntAttempt(Last(answers), high, false)
        case Retry(_) => prev
        case Accept(None) => (prev.0, true)
        case Accept(Some(id)) => (prev.0 + [id], false)
  }

  /** Every accepted ID names a log. */
  lemma {:induction false} IdSessionRange(answers: seq<string>, high: int)
    ensures forall id :: id in IdSession(answers, high).0 ==> 1 <= id <= high
  {
    if answers != [] {
      IdSessionRange(answers[..|answers| - 1], high);
    }
  }

  /** With no logs every answer is rejected or ends the selection. */
  lemma {:induction false} IdSessionNoLogs(answers: seq<string>)
    ensures IdSession(answers, 0).0 == []
  {
    if answers != [] {
      IdSessionNoLogs(answers[..|answers| - 1]);
      var attempt := InputIntAttempt(Last(answers), 0, false);
    }
  }

  /** Once the selection has ended, later answers change nothing. */
  lemma {:induction false} IdSessionDone(answers: seq<string>, high: int, n: nat)
    requires n <= |answers| && IdSession(answers[..n], high).1
    ensures IdSession(answers, high) == IdSession(answers[..n], high)
  {
    if n < |answers| {
      var p := answers[..|answers| - 1];
      assert p[..n] == answers[..n];
      IdSessionDone(p, high, n);
    } else {
      assert answers[..n] == answers;
    }
  }

  lemma IdSessionNext(answers: seq<string>, high: int, i: nat, chosen: seq<int>, attempt: Attempt<Option<int>>)
    requires i < |answers| && IdSession(answers[..i], high) == (chosen, false)
    requires attempt == InputIntAttempt(answers[i], high, false)
    ensures IdSession(answers[..i + 1], high) ==
      if attempt.Retry? then (chosen, false)
      else if attempt.value.None? then (chosen, true)
      else (chosen + [attempt.value.value], false)
    ensures attempt.Accept? && attempt.value.Some? ==> 1 <= attempt.value.value <= high
  {
    assert answers[..i + 1][..i] == answers[..i];
  }

  // --------------------------------------------------- selecting the keys

  /** The keys accepted by the `input_str` prompts of `display_data`: each
      answer is checked against the keys chosen so far, which are excluded,
      and an empty choice ends the selection. */
  function KeySession(answers: seq<string>, available: seq<string>): (seq<string>, bool)
  {
    if answers == [] then ([], false)
    else
      var prev := KeySession(answers[..|answers| - 1], available);
      if prev.1 then prev
      else
        match InputStrAttempt(Last(answers), available, prev.0, true)
        case Retry(_) => prev
        case Accept(key) => if key == "" then (prev.0, true) else (prev.0 + [key], false)
  }

  /** The chosen keys are distinct keys on offer. */
  lemma {:induction false} KeySessionChosen(answers: seq<string>, available: seq<string>)
    ensures NoDup(KeySession(answers, available).0)
    ensures forall k :: k in KeySession(answers, available).0 ==> k in available
  {
    if answers != [] {
      KeySessionChosen(answers[..|answers| - 1], available);
    }
  }

  lemma {:induction false} KeySessionDone(answers: seq<string>, available: seq<string>, n: nat)
    requires n <= |answers| && KeySession(answers[..n], available).1
    ensures KeySession(answers, available) == KeySession(answers[..n], available)
  {
    if n < |answers| {
      var p := answers[..|answers| - 1];
      assert p[..n] == answers[..n];
      KeySessionDone(p, available, n);
    } else {
      assert answers[..n] == answers;
    }
  }

  lemma KeySessionStep(answers: seq<string>, available: seq<string>, i: nat)
    requires i < |answers|
    ensures KeySession(answers[..i + 1], available) ==
      var prev := KeySession(answers[..i], available);
      if prev.1 then prev
      else
        match InputStrAttempt(answers[i], available, prev.0, true)
        case Retry(_) => prev
        case Accept(key) => if key == "" then (prev.0, true) else (prev.0 + [key], false)
  {
    assert answers[..i + 1][..i] == answers[..i];
  }

  lemma KeySessionNext(answers: seq<string>, available: seq<string>, i: nat, chosen: seq<string>, attempt: Attempt<string>)
    requires i < |answers| && KeySession(answers[..i], available) == (chosen, false)
    requires attempt == InputStrAttempt(answers[i], available, chosen, true)
    ensures KeySession(answers[..i + 1], available) ==
      if attempt.Retry? then (chosen, false)
      else if attempt.value == "" then (chosen, true)
      else (chosen + [attempt.value], false)
  {
    KeySessionStep(answers, available, i);
  }

  lemma KeySessionWhole(answers: seq<string>, available: seq<string>, n: nat)
    requires n == |answers|
    ensures KeySession(answers[..n], available) == KeySession(answers, available)
  {
    assert answers[..n] == answers;
  }

  /** The key-selection loop of `display_data` on the answers typed. */
  method SelectKeys(available: seq<string>, answers: seq<string>) returns (keys: seq<string>)
    ensures keys == KeySession(answers, available).0
    ensures NoDup(keys) && forall k :: k in keys ==> k in available
  {
    keys := [];
    var i := 0;
    while i < |answers|
      invariant 0 <= i <= |answers|
      invariant KeySession(answers[..i], available) == (keys, false)
    {
      var attempt := InputStrAttempt(answers[i], available, keys, true);
      KeySessionNext(answers, available, i, keys, attempt);
      if attempt.Accept? {
        if attempt.value == "" {
          KeySessionDone(answers, available, i + 1);
          KeySessionChosen(answers, available);
          return;
        }
        keys := keys + [attempt.value];
      }
      i := i + 1;
    }
    KeySessionWhole(answers, available, i);
    KeySessionChosen(answers, available);
  }

  // ------------------------------------------------------- key unions

  /** The sorted union `display_data` offers: the keys of every chosen log,
      each once, sorted after each log is added. */
  method AvailableKeys(comp: seq<LogView>) returns (available: seq<string>)
    ensures Sorted(available) && NoDup(available)
    ensures forall k :: k in available <==> exists c :: 0 <= c < |comp| && k in comp[c].keys
  {
    available := [];
    var i := 0;
    while i < |comp|
      invariant 0 <= i <= |comp|
      invariant Sorted(available) && NoDup(available)
      invariant forall k :: k in available <==> exists c :: 0 <= c < i && k in comp[c].keys
    {
      var keys := comp[i].keys;
      var j := 0;
      while j < |keys|
        invariant 0 <= j <= |keys|
        invariant NoDup(available)
        invariant forall k :: k in available <==> (exists c :: 0 <= c < i && k in comp[c].keys) || k in keys[..j]
      {
        if keys[j] !in available {
          available := available + [keys[j]];
        }
        assert keys[..j + 1] == keys[..j] + [keys[j]];
        j := j + 1;
      }
      assert keys[..j] == keys;
      SortedOfSorted(available);
      SortedOfNoDup(available);
      UnionStep(comp, i, available);
      available := SortedOf(available);
      i := i + 1;
    }
  }

  lemma UnionStep(comp: seq<LogView>, i: nat, available: seq<string>)
    requires i < |comp|
    requires forall k :: k in available <==> (exists c :: 0 <= c < i && k in comp[c].keys) || k in comp[i].keys
    ensures forall k :: k in SortedOf(available) <==> exists c :: 0 <= c < i + 1 && k in comp[c].keys
  {
    forall k ensures k in SortedOf(available) <==> k in available {
      assert k in SortedOf(available) <==> k in multiset(SortedOf(available));
    }
  }

  /** The file list of `display_timeline`: the file names of every chosen
      log, each once, sorted at the end. */
  method TimelineFilenames(comp: seq<LogView>) returns (filenames: seq<string>)
    ensures Sorted(filenames) && NoDup(filenames)
    ensures forall f :: f in filenames <==> exists c :: 0 <= c < |comp| && f in comp[c].filenames
  {
    var names: seq<string> := [];
    var i := 0;
    while i < |comp|
      invariant 0 <= i <= |comp|
      invariant NoDup(names)
      invariant forall f :: f in names <==> exists c :: 0 <= c < i && f in comp[c].filenames
    {
      var data := comp[i].filenames;
      var j := 0;
      while j < |data|
        invariant 0 <= j <= |data|
        invariant NoDup(names)
        invariant forall f :: f in names <==> (exists c :: 0 <= c < i && f in comp[c].filenames) || f in data[..j]
      {
        if data[j] !in names {
          names := names + [data[j]];
        }
        assert data[..j + 1] == data[..j] + [data[j]];
        j := j + 1;
      }
      assert data[..j] == data;
      i := i + 1;
    }
    SortedOfSorted(names);
    SortedOfNoDup(names);
    filenames := SortedOf(names);
    forall f ensures f in filenames <==> f in names {
      assert f in filenames <==> f in multiset(filenames);
    }
  }

  // ------------------------------------------------------ display_combined

  /** `return_identifier()` of every log in order; the first exception ends
      `display_combined`. */
  function Labels(comp: seq<LogView>): (r: Result<seq<string>>)
    ensures r.Ok? ==> |r.value| == |comp| && forall c :: 0 <= c < |comp| ==> comp[c].identifier == Ok(r.value[c])
    ensures r.Err? ==> exists c :: 0 <= c < |comp| && comp[c].identifier == Err(r.error)
  {
    if comp == [] then Ok([])
    else
      match Labels(comp[..|comp| - 1])
      case Err(e) => Err(e)
      case Ok(ls) =>
        match Last(comp).identifier
        case Err(e) => Err(e)
        case Ok(l) => Ok(ls + [l])
  }

  /** What one log adds to `data[key]` and `outliers[key]` as the source is
      written: the aggregated row is appended before the outliers are asked
      for, so a KeyError from the outliers alone appends the stand-in row
      as well. */
  function AsWrittenEntry(log: LogView, key: string): (seq<AggRow>, seq<seq<real>>)
  {
    if key !in log.agg then ([Missing], [[]])
    else if key !in log.outliers then ([log.agg[key], Missing], [[]])
    else ([log.agg[key]], [log.outliers[key]])
  }

  /** The lists `display_combined` builds for `key`, log by log. */
  function AsWrittenColumn(comp: seq<LogView>, key: string): (seq<AggRow>, seq<seq<real>>)
  {
    if comp == [] then ([], [])
    else
      var prev := AsWrittenColumn(comp[..|comp| - 1], key);
      var add := AsWrittenEntry(Last(comp), key);
      (prev.0 + add.0, prev.1 + add.1)
  }

  /** What one log evidently should contribute: its statistics and outliers
      when it has both, the stand-ins otherwise. */
  function Entry(log: LogView, key: string): (AggRow, seq<real>)
  {
    if key in log.agg && key in log.outliers then (log.agg[key], log.outliers[key]) else (Missing, [])
  }

  /** One entry per log, in the order of `comp`. */
  function Column(comp: seq<LogView>, key: string): (r: (seq<AggRow>, seq<seq<real>>))
    ensures |r.0| == |comp| && |r.1| == |comp|
    ensures forall c :: 0 <= c < |comp| ==> (r.0[c], r.1[c]) == Entry(comp[c], key)
  {
    if comp == [] then ([], [])
    else
      var prev := Column(comp[..|comp| - 1], key);
      var e := Entry(Last(comp), key);
      (prev.0 + [e.0], prev.1 + [e.1])
  }

  /** A log has statistics for `key` exactly when it has outliers for it. */
  predicate Consistent(comp: seq<LogView>, key: string) {
    forall c :: 0 <= c < |comp| ==> (key in comp[c].agg <==> key in comp[c].outliers)
  }

  /** When every log has both accessors or neither for `key`, the lists are
      lined up with the logs: one entry per log, the stand-ins for a log that
      lacks the key. */
  lemma {:induction false} AsWrittenAligned(comp: seq<LogView>, key: string)
    requires Consistent(comp, key)
    ensures AsWrittenColumn(comp, key) == Column(comp, key)
  {
    if comp != [] {
      var p := comp[..|comp| - 1];
      assert Consistent(p, key) by {
        forall c | 0 <= c < |p| ensures (key in p[c].agg <==> key in p[c].outliers) {
          assert p[c] == comp[c];
        }
      }
      AsWrittenAligned(p, key);
      assert key in Last(comp).agg <==> key in Last(comp).outliers;
    }
  }

  /** The outlier list always has one entry per log. */
  lemma {:induction false} AsWrittenOutliers(comp: seq<LogView>, key: string)
    ensures |AsWrittenColumn(comp, key).1| == |comp|
    ensures |AsWrittenColumn(comp, key).0| >= |comp|
  {
    if comp != [] {
      AsWrittenOutliers(comp[..|comp| - 1], key);
    }
  }

  /** A log with statistics but no outliers for `key` gives `data[key]` two
      entries against one in `outliers[key]`. */
  lemma AsWrittenMisaligned(row: AggRow, key: string)
    ensures
      var log := LogView([], Ok(""), Empty(), map[key := row], map[], []);
      |AsWrittenColumn([log], key).0| == 2 && |AsWrittenColumn([log], key).1| == 1
  {
    var log := LogView([], Ok(""), Empty(), map[key := row], map[], []);
    var comp := [log];
    assert comp[..0] == [];
  }

  /** The result of the data preparation in `display_combined`. */
  datatype Combined = Combined(labels: seq<string>, data: map<string, seq<AggRow>>, outliers: map<string, seq<seq<real>>>)

  /** The label loop of `display_combined`. */
  method CombinedLabels(comp: seq<LogView>) returns (r: Result<seq<string>>)
    ensures r == Labels(comp)
  {
    var labels := [];
    var c := 0;
    while c < |comp|
      invariant 0 <= c <= |comp|
      invariant Labels(comp[..c]) == Ok(labels)
    {
      assert comp[..c + 1][..c] == comp[..c];
      match comp[c].identifier {
        case Err(e) =>
          LabelsErrPrefix(comp, c + 1);
          return Err(e);
        case Ok(l) =>
          labels := labels + [l];
      }
      c := c + 1;
    }
    assert comp[..c] == comp;
    r := Ok(labels);
  }

  /** The inner loop of `display_combined` for one key: each log appends
      to `data[key]` and `outliers[key]`, with the stand-ins on KeyError. */
  method CombinedColumn(comp: seq<LogView>, key: string) returns (column: seq<AggRow>, extra: seq<seq<real>>)
    ensures (column, extra) == AsWrittenColumn(comp, key)
  {
    column, extra := [], [];
    var j := 0;
    while j < |comp|
      invariant 0 <= j <= |comp|
      invariant (column, extra) == AsWrittenColumn(comp[..j], key)
    {
      assert comp[..j + 1][..j] == comp[..j];
      ghost var before := (column, extra);
      var log := comp[j];
      if key in log.agg {
        column := column + [log.agg[key]];
        if key in log.outliers {
          extra := extra + [log.outliers[key]];
        } else {
          column := column + [Missing];
          extra := extra + [[]];
        }
      } else {
        column := column + [Missing];
        extra := extra + [[]];
      }
      assert column == before.0 + AsWrittenEntry(log, key).0;
      assert extra == before.1 + AsWrittenEntry(log, key).1;
      j := j + 1;
    }
    assert comp[..j] == comp;
  }

  /** The labels and the per-key lists `display_combined` prepares for its
      plots. The keys come from the key selection, so none is repeated. */
  method CombinedData(comp: seq<LogView>, keys: seq<string>) returns (r: Result<Combined>)
    requires NoDup(keys)
    ensures Labels(comp).Err? ==> r.Err? && r.error == Labels(comp).error
    ensures Labels(comp).Ok? ==> r.Ok? && r.value.labels == Labels(comp).value
    ensures r.Ok? ==> r.value.data == map k | k in keys :: AsWrittenColumn(comp, k).0
    ensures r.Ok? ==> r.value.outliers == map k | k in keys :: AsWrittenColumn(comp, k).1
    ensures r.Ok? ==> forall k :: k in keys && Consistent(comp, k) ==>
      && k in r.value.data && k in r.value.outliers
      && r.value.data[k] == Column(comp, k).0 && r.value.outliers[k] == Column(comp, k).1
  {
    var data: map<string, seq<AggRow>> := map k | k in keys :: [];
    var outliers: map<string, seq<seq<real>>> := map k | k in keys :: [];
    var labels := CombinedLabels(comp);
    if labels.Err? {
      return Err(labels.error);
    }
    var i := 0;
    while i < |keys|
      invariant 0 <= i <= |keys|
      invariant data.Keys == outliers.Keys == set k | k in keys
      invariant forall k :: k in keys[..i] ==> data[k] == AsWrittenColumn(comp, k).0 && outliers[k] == AsWrittenColumn(comp, k).1
    {
      var key := keys[i];
      var column, extra := CombinedColumn(comp, key);
      CombinedStep(keys, i);
      data, outliers := data[key := column], outliers[key := extra];
      i := i + 1;
    }
    assert keys[..i] == keys;
    ColumnMaps(comp, keys, data, outliers);
    forall k | k in keys && Consistent(comp, k) ensures AsWrittenColumn(comp, k) == Column(comp, k) {
      AsWrittenAligned(comp, k);
    }
    r := Ok(Combined(labels.value, data, outliers));
  }

  /** Lists built key by key are the lists of every selected key. */
  lemma ColumnMaps(comp: seq<LogView>, keys: seq<string>, data: map<string, seq<AggRow>>, outliers: map<string, seq<seq<real>>>)
    requires data.Keys == outliers.Keys == set k | k in keys
    requires forall k :: k in keys ==> data[k] == AsWrittenColumn(comp, k).0 && outliers[k] == AsWrittenColumn(comp, k).1
    ensures data == map k | k in keys :: AsWrittenColumn(comp, k).0
    ensures outliers == map k | k in keys :: AsWrittenColumn(comp, k).1
  {
  }

  lemma CombinedStep(keys: seq<string>, i: nat)
    requires NoDup(keys) && i < |keys|
    ensures forall k :: k in keys[..i + 1] <==> k in keys[..i] || k == keys[i]
    ensures forall k :: k in keys[i + 1..] ==> k in keys[i..] && k != keys[i]
    ensures keys[i] !in keys[..i]
  {
    assert keys[..i + 1] == keys[..i] + [keys[i]];
    assert keys[i..] == [keys[i]] + keys[i + 1..];
    assert keys[i] !in keys[i + 1..];
  }

  lemma {:induction false} LabelsErrPrefix(comp: seq<LogView>, n: nat)
    requires n <= |comp| && Labels(comp[..n]).Err?
    ensures Labels(comp) == Labels(comp[..n])
  {
    if n < |comp| {
      var p := comp[..|comp| - 1];
      assert p[..n] == comp[..n];
      LabelsErrPrefix(p, n);
    } else {
      assert comp[..n] == comp;
    }
  }

  // ------------------------------------------------------ titles and labels

  /** The plot title of a key: the text before its first `(`, stripped, or
      the whole key when it has none. */
  function Title(key: string): (t: string)
    ensures '(' !in key ==> t == key
    ensures '(' in key ==> t == Strip(key[..FirstIndex(key, '(')])
  {
    if '(' in key then
      SplitFirstPiece(key, '(');
      Strip(Split(key, '(')[0])
    else key
  }

  /** The unit text of a key: the piece after its last `(` without its last
      character (`key.split("(")[-1][:-1]`). */
  function UnitText(key: string): string
  {
    var piece := Last(Split(key, '('));
    if |piece| == 0 then "" else piece[..|piece| - 1]
  }

  /** The y-axis label: `Time (<unit>)` for a unit ending in `s`,
      `Frequency (Hz)` for `Hz`, the unit text itself otherwise; an empty
      unit text raises IndexError, which nothing catches. */
  function YLabel(key: string): (r: Result<string>)
    ensures r.Err? <==> UnitText(key) == ""
    ensures r.Err? ==> r.error == IndexError
  {
    var unit := UnitText(key);
    if unit == "" then Err(IndexError)
    else if Last(unit) == 's' then Ok("Time (" + unit + ")")
    else if unit == "Hz" then Ok("Frequency (Hz)")
    else Ok(unit)
  }

  /** A series key `category (u)` has the category as its title. */
  lemma TitleOfTag(category: string, u: string)
    requires '(' !in category
    ensures Title(Formatting.Tag(category, u)) == Strip(category + " ")
  {
    var key := Formatting.Tag(category, u);
    assert key == (category + " ") + ['('] + (u + ")");
    assert key[|category| + 1] == '(';
    assert key[..|category| + 1] == category + " ";
    FirstIndexAt(key, '(', |category| + 1);
    SplitFirstPiece(key, '(');
  }

  /** A series key `category (u)` with one of the units a log produces is
      labelled with the kind of its unit. */
  lemma YLabelOfTag(category: string, u: string)
    requires u in Formatting.Units
    ensures YLabel(Formatting.Tag(category, u)) ==
      Ok(if u == "Hz" then "Frequency (Hz)" else "Time (" + u + ")")
  {
    var key := Formatting.Tag(category, u);
    assert key == (category + " ") + ['('] + (u + ")");
    assert '(' !in u + ")";
    SplitLastPiece(category + " ", '(', u + ")");
    assert UnitText(key) == u;
  }

  /** A key ending in `()` has an empty unit, and labelling it raises. */
  lemma YLabelEmptyUnit(category: string)
    ensures YLabel(category + "()") == Err(IndexError)
  {
    var key := category + "()";
    assert key == category + ['('] + ")";
    SplitLastPiece(category, '(', ")");
  }

  /** The body of the `print_all` loop for the log at position `i`. */
  method BuildRow(i: nat, generalLog: Dict<Value>, exclude: seq<int>) returns (line: seq<Value>)
    ensures line == Row(i, generalLog, exclude)
  {
    line := if i + 1 in exclude then [Str("")] else [Int(i + 1)];
    var h := 1;
    while h < |Headers|
      invariant 1 <= h <= |Headers|
      invariant |line| == h
      invariant line[0] == if i + 1 in exclude then Str("") else Int(i + 1)
      invariant forall g :: 1 <= g < h ==> line[g] == Cell(generalLog, Headers[g])
    {
      var attribute := Headers[h];
      if attribute in generalLog.entries && generalLog.entries[attribute].Str? {
        line := line + [Str(Cut(generalLog.entries[attribute].s, 30))];
      } else if attribute in generalLog.entries {
        line := line + [generalLog.entries[attribute]];
      } else {
        line := line + [Str("")];
      }
      h := h + 1;
    }
    RowUnique(line, i, generalLog, exclude);
  }

  /** A row is determined by its ID cell and its attribute cells. */
  lemma RowUnique(line: seq<Value>, i: nat, attributes: Dict<Value>, exclude: seq<int>)
    requires |line| == |Headers|
    requires line[0] == if i + 1 in exclude then Str("") else Int(i + 1)
    requires forall g :: 1 <= g < |Headers| ==> line[g] == Cell(attributes, Headers[g])
    ensures line == Row(i, attributes, exclude)
  {
    var row := Row(i, attributes, exclude);
    forall g | 0 <= g < |Headers| ensures line[g] == row[g] {
    }
  }

  /** `comp` holds the logs the 1-based IDs `ids` name, in the same order. */
  predicate Picks(logs: seq<LogView>, ids: seq<int>, comp: seq<LogView>) {
    && |comp| == |ids|
    && forall c :: 0 <= c < |ids| ==> 1 <= ids[c] <= |logs| && comp[c] == logs[ids[c] - 1]
  }

  lemma PicksSnoc(logs: seq<LogView>, ids: seq<int>, comp: seq<LogView>, id: int)
    requires Picks(logs, ids, comp) && 1 <= id <= |logs|
    ensures Picks(logs, ids + [id], comp + [logs[id - 1]])
  {
  }

  /** One prompt of the selection loop: the answer `answers[i]` is read
      against the IDs `1..|all|`. */
  method SelectStep(all: seq<LogView>, answers: seq<string>, i: nat, ghost chosen: seq<int>,
                    compIds: seq<int>, comp: seq<LogView>)
    returns (stop: bool, ghost chosen': seq<int>, compIds': seq<int>, comp': seq<LogView>)
    requires 1 <= |all| && i < |answers|
    requires IdSession(answers[..i], |all|) == (chosen, false)
    requires compIds == Dedup(chosen) && Picks(all, compIds, comp)
    ensures IdSession(answers[..i + 1], |all|) == (chosen', stop)
    ensures compIds' == Dedup(chosen') && Picks(all, compIds', comp')
  {
    var attempt := InputIntAttempt(answers[i], |all|, false);
    IdSessionNext(answers, |all|, i, chosen, attempt);
    stop, chosen', compIds', comp' := false, chosen, compIds, comp;
    if attempt.Retry? {
      return;
    }
    if attempt.value.None? {
      stop := true;
      return;
    }
    var id := attempt.value.value;
    DedupSnoc(chosen, id);
    chosen' := chosen + [id];
    if id !in compIds {
      PicksSnoc(all, compIds, comp, id);
      compIds' := compIds + [id];
      comp' := comp + [all[id - 1]];
    }
  }

  /** The selection loop of `Data.SelectLogs` over the logs `all`. */
  method SelectFrom(all: seq<LogView>, answers: seq<string>) returns (compIds: seq<int>, comp: seq<LogView>)
    ensures compIds == Dedup(IdSession(answers, |all|).0)
    ensures NoDup(compIds)
    ensures Picks(all, compIds, comp)
  {
    compIds, comp := [], [];
    var n := |all|;
    if n == 0 {
      IdSessionNoLogs(answers);
      return;
    }
    ghost var chosen: seq<int> := [];
    var i := 0;
    while i < |answers|
      invariant 0 <= i <= |answers|
      invariant IdSession(answers[..i], n) == (chosen, false)
      invariant compIds == Dedup(chosen)
      invariant Picks(all, compIds, comp)
    {
      var stop;
      stop, chosen, compIds, comp := SelectStep(all, answers, i, chosen, compIds, comp);
      if stop {
        IdSessionDone(answers, n, i + 1);
        DedupSpec(chosen);
        return;
      }
      i := i + 1;
    }
    assert answers[..i] == answers;
    DedupSpec(chosen);
  }

  // --------------------------------------------------------------- Data

  /** The `Data` object: the imported logs, in import order. */
  class Data {
    var logs: seq<LogView>

    constructor(logs: seq<LogView>)
      ensures this.logs == logs
    {
      this.logs := logs;
    }

    /** The rows `print_all(exclude)` tabulates, one per log in order. */
    method PrintAll(exclude: seq<int>) returns (grid: seq<seq<Value>>)
      ensures |grid| == |logs|
      ensures forall i :: 0 <= i < |logs| ==> grid[i] == Row(i, logs[i].attributes, exclude)
    {
      var ls := logs;
      ghost var rowOf := (r: nat) => if r < |ls| then Row(r, ls[r].attributes, exclude) else [];
      grid := [];
      var i := 0;
      while i < |ls|
        invariant 0 <= i <= |ls|
        invariant |grid| == i
        invariant forall r :: 0 <= r < i ==> grid[r] == rowOf(r)
      {
        var line := BuildRow(i, ls[i].attributes, exclude);
        SnocAgrees(grid, line, rowOf);
        grid := grid + [line];
        i := i + 1;
      }
    }

    /** The log-selection loop of `display_data` on the answers typed: IDs
        out of range or not numbers are asked again, an ID already chosen
        is not added twice, and an empty answer ends the selection. With no
        logs nothing is asked. */
    method SelectLogs(answers: seq<string>) returns (compIds: seq<int>, comp: seq<LogView>)
      ensures compIds == Dedup(IdSession(answers, |logs|).0)
      ensures NoDup(compIds)
      ensures |comp| == |compIds|
      ensures forall c :: 0 <= c < |compIds| ==> 1 <= compIds[c] <= |logs| && comp[c] == logs[compIds[c] - 1]
    {
      compIds, comp := SelectFrom(logs, answers);
    }
  }
}
