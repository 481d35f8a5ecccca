/** How a log file's lines are classified and grouped (the loop body shared by
    `import_file_old` and `import_file`): a line with a `:` is a key/value
    entry split at the first `:` of the stripped line; the values of a key
    are collected in file order; the other lines are kept once each, for
    diagnostics. This module gives the reference definitions the importing
    methods are proved against. */
module Lines {
  import opened Text
  import opened Dicts

  /** One file's entries grouped by key: key -> stripped values in file order. */
  type Groups = Dict<seq<string>>

  /** What one line of a log file is: a key/value entry, or other text. */
  datatype Parsed = Pair(key: string, value: string) | Other(text: string)

  /** `line.strip().split(":", 1)` for a line with a `:`: the text before
      the first `:` of the stripped line, and the rest (which may hold more
      `:`). */
  function Entry(line: string): (kv: (string, string))
    requires ':' in line
    ensures ':' !in kv.0
    ensures kv.0 + ":" + kv.1 == Strip(line)
  {
    StripKeeps(line, ':');
    SplitFirst(Strip(line), ':')
  }

  /** How a line is classified: a line with a `:` is an entry whose value is
      the stripped rest after the key; any other line is kept as it is. */
  function Parse(line: string): (r: Parsed)
    ensures r.Pair? <==> ':' in line
    ensures r.Other? ==> r.text == line
    ensures r.Pair? ==> ':' !in r.key && r.key == Entry(line).0 && r.value == Strip(Entry(line).1)
  {
    if ':' in line then
      var (key, rest) := Entry(line);
      Pair(key, Strip(rest))
    else Other(line)
  }

  /** Every line of a file, classified. */
  function ParseAll(lines: seq<string>): (ps: seq<Parsed>)
    ensures |ps| == |lines|
    ensures forall i :: 0 <= i < |lines| ==> ps[i] == Parse(lines[i])
  {
    seq(|lines|, i requires 0 <= i < |lines| => Parse(lines[i]))
  }

  /** The key one line contributes. */
  function KeyPart(p: Parsed): seq<string>
  {
    if p.Pair? then [p.key] else []
  }

  /** The value one line contributes to key `k`. */
  function ValuePart(p: Parsed, k: string): seq<string>
  {
    if p.Pair? && p.key == k then [p.value] else []
  }

  /** The text one line contributes to the diagnostics. */
  function PlainPart(p: Parsed): seq<string>
  {
    if p.Other? then [p.text] else []
  }

  /** The keys of the entries, in file order (repeats included). */
  function KeysOf(ps: seq<Parsed>): seq<string>
  {
    if ps == [] then [] else KeysOf(ps[..|ps| - 1]) + KeyPart(Last(ps))
  }

  /** The values of the entries whose key is `k`, in file order. */
  function ValuesFor(ps: seq<Parsed>, k: string): seq<string>
  {
    if ps == [] then [] else ValuesFor(ps[..|ps| - 1], k) + ValuePart(Last(ps), k)
  }

  /** The lines that are not entries, in file order (repeats included). */
  function Plain(ps: seq<Parsed>): seq<string>
  {
    if ps == [] then [] else Plain(ps[..|ps| - 1]) + PlainPart(Last(ps))
  }

  /** The effect of one line on a grouping:
      `d.setdefault(key, []).append(value)` for an entry, nothing otherwise. */
  function AddEntry(d: Groups, p: Parsed): Groups
  {
    if p.Pair? then Put(d, p.key, GetOr(d, p.key, []) + [p.value]) else d
  }

  /** The grouping `d` extended by the entries of `ps`, one after the other. */
  function Merge(d: Groups, ps: seq<Parsed>): Groups
  {
    if ps == [] then d else AddEntry(Merge(d, ps[..|ps| - 1]), Last(ps))
  }

  /** The grouping of one file's lines. */
  function Grouped(lines: seq<string>): Groups
  {
    Merge(Empty(), ParseAll(lines))
  }

  /** The diagnostics list of one file: each line without `:`, once, in the
      order first seen. */
  function Unclassified(lines: seq<string>): seq<string>
  {
    Dedup(Plain(ParseAll(lines)))
  }

  /** True when some line is an entry. */
  predicate HasEntry(ps: seq<Parsed>) {
    exists i :: 0 <= i < |ps| && ps[i].Pair?
  }

  /** The lines `import_file_old(..., limit)` reads before it stops: all of
      them when `limit` is 0 (or None), none when it is negative (the first
      line already reaches it), else the first `limit`. */
  function Limited(lines: seq<string>, limit: int): (r: seq<string>)
    ensures |r| <= |lines| && r == lines[..|r|]
    ensures limit == 0 ==> r == lines
    ensures limit < 0 ==> r == []
    ensures limit > 0 ==> |r| == if limit < |lines| then limit else |lines|
  {
    if limit == 0 then lines
    else if limit < 0 then []
    else if limit < |lines| then lines[..limit]
    else lines
  }

  /** True when some line has a `:`, i.e. is an entry. */
  predicate AnyEntry(lines: seq<string>) {
    exists i :: 0 <= i < |lines| && ':' in lines[i]
  }

  /** The data dict after reading the classified lines `ps` of file
      `filename` into it with
      `data.setdefault(filename, {}).setdefault(key, []).append(value)` per
      entry: the file's grouping is extended by the new entries, and the
      file gets a place in `data` only once an entry is read. */
  function ImportParsed(data: Dict<Groups>, filename: string, ps: seq<Parsed>): Dict<Groups>
  {
    if HasEntry(ps) then Put(data, filename, Merge(GetOr(data, filename, Empty()), ps)) else data
  }

  /** The same, for the text lines of the file. */
  function ImportInto(data: Dict<Groups>, filename: string, lines: seq<string>): Dict<Groups>
  {
    ImportParsed(data, filename, ParseAll(lines))
  }

  /** The loop shared by `import_file_old` and `import_file`: the lines up to
      the limit, read one by one. */
  method ImportLines(data: Dict<Groups>, filename: string, lines: seq<string>, limit: int)
    returns (grouped: Dict<Groups>, other: seq<string>)
    ensures grouped == ImportInto(data, filename, Limited(lines, limit))
    ensures other == Unclassified(Limited(lines, limit))
  {
    grouped, other := data, [];
    var i := 0;
    while i < |lines|
      invariant 0 <= i <= |lines|
      invariant limit < 0 ==> i == 0
      invariant limit > 0 ==> i <= limit
      invariant grouped == ImportInto(data, filename, lines[..i])
      invariant other == Unclassified(lines[..i])
    {
      if limit != 0 && i >= limit {
        break;
      }
      grouped, other := ImportLine(data, filename, lines, i, grouped, other);
      i := i + 1;
    }
    assert Limited(lines, limit) == lines[..i] by {
      if limit == 0 || (limit > 0 && i == |lines|) {
        assert lines[..i] == lines;
      }
    }
  }

  /** One line of that loop: an entry is added to the file's grouping in
      `data`, another line is added to the diagnostics list unless it is
      already there. */
  method ImportLine(data: Dict<Groups>, filename: string, lines: seq<string>, i: nat,
                    grouped: Dict<Groups>, other: seq<string>)
    returns (grouped': Dict<Groups>, other': seq<string>)
    requires i < |lines|
    requires grouped == ImportInto(data, filename, lines[..i])
    requires other == Unclassified(lines[..i])
    ensures grouped' == ImportInto(data, filename, lines[..i + 1])
    ensures other' == Unclassified(lines[..i + 1])
  {
    var done, line := lines[..i], lines[i];
    grouped', other' := grouped, other;
    if ':' in line {
      var (key, rest) := Entry(line);
      var groups := GetOr(grouped, filename, Empty());
      grouped' := Put(grouped, filename, Put(groups, key, GetOr(groups, key, []) + [Strip(rest)]));
    } else if line !in other {
      other' := other + [line];
    }
    ParseAllSnoc(done, line);
    ImportParsedStep(data, filename, ParseAll(done), Parse(line));
    UnclassifiedStep(done, line);
    TakeSnoc(lines, i);
  }

  // ---------------------------------------------------------------- lemmas

  lemma ParseAllSnoc(p: seq<string>, line: string)
    ensures ParseAll(p + [line]) == ParseAll(p) + [Parse(line)]
  {
  }

  /** A line is kept for diagnostics exactly when it has no `:`. */
  lemma ParseOther(line: string, x: string)
    ensures Parse(line) == Other(x) <==> line == x && ':' !in line
  {
  }

  /** Values are collected in file order: the values of a concatenation are
      the values of the first part followed by those of the second. */
  lemma {:induction false} ValuesForAppend(a: seq<Parsed>, b: seq<Parsed>, k: string)
    ensures ValuesFor(a + b, k) == ValuesFor(a, k) + ValuesFor(b, k)
  {
    if b == [] {
      assert a + b == a;
    } else {
      assert (a + b)[..|a + b| - 1] == a + b[..|b| - 1];
      ValuesForAppend(a, b[..|b| - 1], k);
    }
  }

  /** A key that no line carries has no values. */
  lemma {:induction false} ValuesForAbsent(ps: seq<Parsed>, k: string)
    requires k !in KeysOf(ps)
    ensures ValuesFor(ps, k) == []
  {
    if ps != [] {
      ValuesForAbsent(ps[..|ps| - 1], k);
    }
  }

  /** A key occurs among the keys exactly when some entry carries it. */
  lemma {:induction false} KeysOfMembers(ps: seq<Parsed>, k: string)
    ensures k in KeysOf(ps) <==> exists i :: 0 <= i < |ps| && ps[i].Pair? && ps[i].key == k
  {
    if ps != [] {
      var p := ps[..|ps| - 1];
      KeysOfMembers(p, k);
      if exists i :: 0 <= i < |ps| && ps[i].Pair? && ps[i].key == k {
        var i :| 0 <= i < |ps| && ps[i].Pair? && ps[i].key == k;
        if i < |p| {
          assert p[i] == ps[i];
        }
      }
      if exists i :: 0 <= i < |p| && p[i].Pair? && p[i].key == k {
        var i :| 0 <= i < |p| && p[i].Pair? && p[i].key == k;
        assert ps[i] == p[i];
      }
    }
  }

  /** A text occurs in `Plain` exactly when it is one of the non-entry lines. */
  lemma {:induction false} PlainMembers(ps: seq<Parsed>, x: string)
    ensures x in Plain(ps) <==> Other(x) in ps
  {
    if ps != [] {
      var p := ps[..|ps| - 1];
      PlainMembers(p, x);
      assert ps == p + [Last(ps)];
    }
  }

  /** The diagnostics list holds every line without `:`, and each only once. */
  lemma UnclassifiedSpec(lines: seq<string>)
    ensures NoDup(Unclassified(lines))
    ensures forall x :: x in Unclassified(lines) <==> x in lines && ':' !in x
  {
    var ps := ParseAll(lines);
    DedupSpec(Plain(ps));
    forall x ensures x in Plain(ps) <==> x in lines && ':' !in x {
      PlainMembers(ps, x);
      if Other(x) in ps {
        var i :| 0 <= i < |ps| && ps[i] == Other(x);
        ParseOther(lines[i], x);
      }
      if x in lines && ':' !in x {
        var i :| 0 <= i < |lines| && lines[i] == x;
        assert ps[i] == Other(x);
      }
    }
  }

  /** One step of the diagnostics list: a line without `:` is appended
      unless it is already there. This is the `elif` of the importers. */
  lemma UnclassifiedStep(p: seq<string>, line: string)
    ensures Unclassified(p + [line]) ==
      if ':' in line || line in Unclassified(p) then Unclassified(p) else Unclassified(p) + [line]
  {
    var a := ParseAll(p);
    var ps := ParseAll(p + [line]);
    ParseAllSnoc(p, line);
    assert ps[..|ps| - 1] == a;
    assert Plain(ps) == Plain(a) + PlainPart(Parse(line));
    if ':' in line {
      assert Plain(ps) == Plain(a);
    } else {
      assert Plain(ps) == Plain(a) + [line];
      DedupSnoc(Plain(a), line);
    }
  }

  /** Reading one more line: an entry updates its key, another line leaves
      the grouping as it is. This is the loop step of the importers. */
  lemma GroupedStep(p: seq<string>, line: string)
    ensures Grouped(p + [line]) == AddEntry(Grouped(p), Parse(line))
  {
    ParseAllSnoc(p, line);
    var ps := ParseAll(p + [line]);
    assert ps[..|ps| - 1] == ParseAll(p);
  }

  /** Merging keeps the keys of `d` first, then the new keys in the order
      they first occur, each once. */
  lemma {:induction false} MergeKeys(d: Groups, ps: seq<Parsed>)
    ensures Merge(d, ps).keys == Dedup(d.keys + KeysOf(ps))
  {
    if ps == [] {
      assert d.keys + KeysOf(ps) == d.keys;
      DedupOfDistinct(d.keys);
    } else {
      var p, q := ps[..|ps| - 1], Last(ps);
      MergeKeys(d, p);
      assert d.keys + KeysOf(ps) == (d.keys + KeysOf(p)) + KeyPart(q);
      DedupSpec(d.keys + KeysOf(p));
      if q.Pair? {
        MergeEntries(d, p, q.key);
        DedupSnoc(d.keys + KeysOf(p), q.key);
      } else {
        assert d.keys + KeysOf(ps) == d.keys + KeysOf(p);
      }
    }
  }

  /** Merging gives every key the values it had in `d` followed by its
      values in `ps`, in file order; the keys are those of `d` and those of
      the lines. */
  lemma {:induction false} MergeEntries(d: Groups, ps: seq<Parsed>, k: string)
    ensures k in Merge(d, ps).entries <==> k in d.entries || k in KeysOf(ps)
    ensures GetOr(Merge(d, ps), k, []) == GetOr(d, k, []) + ValuesFor(ps, k)
  {
    if ps != [] {
      var p, q := ps[..|ps| - 1], Last(ps);
      MergeEntries(d, p, k);
      var m := Merge(d, p);
      assert Merge(d, ps) == AddEntry(m, q);
      assert k in KeysOf(ps) <==> k in KeysOf(p) || k in KeyPart(q);
    }
  }

  /** Without entries in `ps`, there are none in all but its last line,
      and the last line is not one. */
  lemma NoEntryInit(ps: seq<Parsed>)
    requires ps != [] && !HasEntry(ps)
    ensures !HasEntry(ps[..|ps| - 1]) && !Last(ps).Pair?
  {
    var p := ps[..|ps| - 1];
    forall i | 0 <= i < |p| ensures !p[i].Pair? {
      assert p[i] == ps[i];
    }
  }

  /** Without entries there are no keys. */
  lemma {:induction false} KeysOfOthers(ps: seq<Parsed>)
    requires !HasEntry(ps)
    ensures KeysOf(ps) == []
  {
    if ps != [] {
      NoEntryInit(ps);
      KeysOfOthers(ps[..|ps| - 1]);
    }
  }

  /** Lines without `:` do not change a grouping. */
  lemma {:induction false} MergeOthers(d: Groups, ps: seq<Parsed>)
    requires !HasEntry(ps)
    ensures Merge(d, ps) == d
  {
    if ps != [] {
      NoEntryInit(ps);
      MergeOthers(d, ps[..|ps| - 1]);
    }
  }

  /** The grouping of a file has a key exactly when some line carries that
      key; each key holds exactly the values of its lines, in file order;
      the keys are listed in the order they first occur, each once. */
  lemma GroupedSpec(lines: seq<string>, k: string)
    ensures k in Grouped(lines).entries <==>
      exists i :: 0 <= i < |lines| && ':' in lines[i] && Parse(lines[i]).key == k
    ensures GetOr(Grouped(lines), k, []) == ValuesFor(ParseAll(lines), k)
    ensures Grouped(lines).keys == Dedup(KeysOf(ParseAll(lines)))
  {
    var ps := ParseAll(lines);
    KeysOfMembers(ps, k);
    MergeEntries(Empty(), ps, k);
    MergeKeys(Empty(), ps);
    assert Empty<seq<string>>().keys + KeysOf(ps) == KeysOf(ps);
    if exists i :: 0 <= i < |lines| && ':' in lines[i] && Parse(lines[i]).key == k {
      var i :| 0 <= i < |lines| && ':' in lines[i] && Parse(lines[i]).key == k;
      assert ps[i].Pair? && ps[i].key == k;
    }
  }

  /** A file groups to nothing exactly when none of its lines has a `:`. */
  lemma GroupedEmpty(lines: seq<string>)
    ensures Grouped(lines).keys == [] <==> forall i :: 0 <= i < |lines| ==> ':' !in lines[i]
  {
    var ps := ParseAll(lines);
    if exists i :: 0 <= i < |lines| && ':' in lines[i] {
      var i :| 0 <= i < |lines| && ':' in lines[i];
      GroupedSpec(lines, Parse(lines[i]).key);
      assert Parse(lines[i]).key in Grouped(lines).entries;
    } else {
      assert !HasEntry(ps);
      MergeOthers(Empty(), ps);
    }
  }

  lemma HasEntrySnoc(ps: seq<Parsed>, q: Parsed)
    ensures HasEntry(ps + [q]) <==> HasEntry(ps) || q.Pair?
  {
    var qs := ps + [q];
    if HasEntry(ps) {
      var i :| 0 <= i < |ps| && ps[i].Pair?;
      assert qs[i] == ps[i];
    }
    if q.Pair? {
      assert qs[|ps|] == q;
    }
    if HasEntry(qs) {
      var i :| 0 <= i < |qs| && qs[i].Pair?;
      if i < |ps| { assert ps[i] == qs[i]; }
    }
  }

  /** Reading one more line into `data`: an entry is appended to its key in
      the file's grouping (creating the file and the key if needed); another
      line changes nothing. */
  lemma ImportParsedStep(data: Dict<Groups>, filename: string, ps: seq<Parsed>, q: Parsed)
    ensures ImportParsed(data, filename, ps + [q]) ==
      if q.Pair? then
        Put(ImportParsed(data, filename, ps), filename,
            AddEntry(GetOr(ImportParsed(data, filename, ps), filename, Empty()), q))
      else ImportParsed(data, filename, ps)
  {
    var g0 := GetOr(data, filename, Empty());
    var m := Merge(g0, ps);
    HasEntrySnoc(ps, q);
    assert (ps + [q])[..|ps|] == ps;
    assert Merge(g0, ps + [q]) == AddEntry(m, q);
    if q.Pair? {
      if HasEntry(ps) {
        PutPut(data, filename, m, AddEntry(m, q));
      } else {
        MergeOthers(g0, ps);
      }
    }
  }

  /** A file has an entry exactly when one of its lines has a `:`. */
  lemma AnyEntryParsed(lines: seq<string>)
    ensures AnyEntry(lines) <==> HasEntry(ParseAll(lines))
  {
    var ps := ParseAll(lines);
    if AnyEntry(lines) {
      var i :| 0 <= i < |lines| && ':' in lines[i];
      assert ps[i].Pair?;
    }
  }

  /** Importing a file into `data` leaves every other file as it was, and
      gives each key of the file its earlier values followed by the values
      of the new lines, in file order. */
  lemma ImportIntoValues(data: Dict<Groups>, filename: string, lines: seq<string>, k: string)
    ensures forall f :: f != filename ==>
      (f in ImportInto(data, filename, lines).entries <==> f in data.entries) &&
      (f in data.entries ==> ImportInto(data, filename, lines).entries[f] == data.entries[f])
    ensures GetOr(GetOr(ImportInto(data, filename, lines), filename, Empty()), k, []) ==
      GetOr(GetOr(data, filename, Empty()), k, []) + ValuesFor(ParseAll(lines), k)
  {
    var ps := ParseAll(lines);
    var g0 := GetOr(data, filename, Empty());
    if HasEntry(ps) {
      MergeEntries(g0, ps, k);
    } else {
      assert !HasEntry(ps);
      KeysOfOthers(ps);
      ValuesForAbsent(ps, k);
    }
  }

  /** What `import_file` returns: a dict whose only key is the file's name,
      holding the file's grouping, or an empty dict when no line has a `:`. */
  lemma ImportFileShape(filename: string, lines: seq<string>)
    ensures ImportInto(Empty(), filename, lines).keys == if AnyEntry(lines) then [filename] else []
    ensures AnyEntry(lines) ==>
      ImportInto(Empty(), filename, lines).entries[filename] == Grouped(lines) && Grouped(lines).keys != []
  {
    AnyEntryParsed(lines);
    GroupedEmpty(lines);
    var ps := ParseAll(lines);
    var e: Dict<Groups> := Empty();
    if HasEntry(ps) {
      assert GetOr(e, filename, Empty()) == Empty();
      assert ImportInto(e, filename, lines) == Put(e, filename, Grouped(lines));
    } else {
      assert ImportInto(e, filename, lines) == e;
    }
  }

  /** Every key of a grouping holds at least one value. */
  predicate NonEmptyLists(g: Groups) {
    forall k :: k in g.entries ==> g.entries[k] != []
  }

  /** Appending values never leaves a key without one. */
  lemma {:induction false} MergeNonEmpty(d: Groups, ps: seq<Parsed>)
    requires NonEmptyLists(d)
    ensures NonEmptyLists(Merge(d, ps))
  {
    if ps != [] {
      MergeNonEmpty(d, ps[..|ps| - 1]);
    }
  }

  /** Importing keeps every key of every file non-empty. */
  lemma ImportIntoNonEmpty(data: Dict<Groups>, filename: string, lines: seq<string>)
    requires forall f :: f in data.entries ==> NonEmptyLists(data.entries[f])
    ensures forall f :: f in ImportInto(data, filename, lines).entries ==>
      NonEmptyLists(ImportInto(data, filename, lines).entries[f])
  {
    MergeNonEmpty(GetOr(data, filename, Empty()), ParseAll(lines));
  }
}
