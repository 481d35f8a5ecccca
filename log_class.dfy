/** The `Log` class of Log_class.py: one log session, read from a folder of
    text files. `import_file_old` groups each file's entries into `data`,
    `format_general` types the fields of the general file, and
    `format_data_old` turns each file's unit-tagged entries into numeric
    series in `time_data`. Files are passed in as their lines. */
module LogClass {
  import opened Wrappers
  import opened Text
  import opened Dicts
  import opened PyValues
  import opened Lines
  import opened Formatting

  /** A file's grouping as general data: each key's list of values. */
  function AsGeneral(g: Groups): (r: Dict<Value>)
    ensures r.keys == g.keys
    ensures forall k :: k in g.entries <==> k in r.entries
    ensures forall k :: k in g.entries ==> r.entries[k] == List(g.entries[k])
  {
    RawDict(g.keys, map k | k in g.entries :: List(g.entries[k]))
  }

  /** The keys of the series of the files `fs`, file by file, each file's
      keys in their order, repeats kept. */
  function SeriesKeys(td: Dict<Dict<seq<real>>>, fs: seq<string>): seq<string>
  {
    if fs == [] then [] else SeriesKeys(td, fs[..|fs| - 1]) + GetOr(td, Last(fs), Empty()).keys
  }

  /** A key is listed exactly when one of the files has a series under it. */
  lemma {:induction false} SeriesKeysMembers(td: Dict<Dict<seq<real>>>, fs: seq<string>, key: string)
    ensures key in SeriesKeys(td, fs) <==>
      exists f :: f in fs && f in td.entries && key in td.entries[f].entries
  {
    if fs != [] {
      var p, f := fs[..|fs| - 1], Last(fs);
      SeriesKeysMembers(td, p, key);
      assert fs == p + [f];
      if exists g :: g in fs && g in td.entries && key in td.entries[g].entries {
        var g :| g in fs && g in td.entries && key in td.entries[g].entries;
        if g != f {
          assert g in p;
        }
      }
    }
  }

  /** One more file: its keys follow those of the files before it. */
  lemma SeriesKeysStep(td: Dict<Dict<seq<real>>>, fs: seq<string>, i: nat)
    requires i < |fs|
    ensures SeriesKeys(td, fs[..i + 1]) == SeriesKeys(td, fs[..i]) + GetOr(td, fs[i], Empty()).keys
  {
    assert fs[..i + 1][..i] == fs[..i];
  }

  /** Every series key of every file is unit-tagged. */
  ghost predicate AllTagged(td: Dict<Dict<seq<real>>>) {
    forall f :: f in td.entries ==> forall key :: key in td.entries[f].entries ==> IsTag(key)
  }

  /** When every stored key is tagged, so is every listed key. */
  lemma SeriesKeysTagged(td: Dict<Dict<seq<real>>>, fs: seq<string>)
    requires AllTagged(td)
    ensures forall k :: k in SeriesKeys(td, fs) ==> IsTag(k)
  {
    forall k | k in SeriesKeys(td, fs) ensures IsTag(k) {
      SeriesKeysMembers(td, fs, k);
    }
  }

  /** Storing the series `format_data_old` built keeps every key tagged. */
  lemma AllTaggedPut(td: Dict<Dict<seq<real>>>, key: string, groups: Groups, cs: seq<string>)
    requires AllTagged(td) && SeriesOf(groups, cs).Ok?
    ensures AllTagged(Put(td, key, SeriesOf(groups, cs).value))
  {
    SeriesOfTagged(groups, cs);
  }

  /** `time_data` as `format_data_old` leaves it when category `j` of
      `groups` raises: unchanged when `j` is 0, else holding under `key` the
      series of the categories before `j`. */
  predicate SeriesStoppedAt(groups: Groups, j: nat, key: string, td0: Dict<Dict<seq<real>>>, td: Dict<Dict<seq<real>>>) {
    && j < |groups.keys|
    && SeriesOf(groups, groups.keys[..j]).Ok?
    && SeriesOf(groups, groups.keys[..j + 1]).Err?
    && td == if j == 0 then td0 else Put(td0, key, SeriesOf(groups, groups.keys[..j]).value)
  }

  /** What the category loop of `format_data_old` over `groups` leaves:
      it passes exactly when the whole series converts, raises the error
      the series raises, and leaves in `time_data` the whole series under
      `key` (nothing when there are no categories), or, on an exception,
      what `SeriesStoppedAt` says. */
  ghost predicate SeriesStored(groups: Groups, key: string, td0: Dict<Dict<seq<real>>>, td: Dict<Dict<seq<real>>>, r: Outcome) {
    && (r.Pass? <==> SeriesOf(groups, groups.keys).Ok?)
    && (r.Fail? ==> SeriesOf(groups, groups.keys) == Err(r.error))
    && (r.Pass? ==> td == if groups.keys == [] then td0 else Put(td0, key, SeriesOf(groups, groups.keys).value))
    && (r.Fail? ==> exists j :: SeriesStoppedAt(groups, j, key, td0, td))
  }

  /** When category `i` raises, the series as a whole fails, `time_data` is
      left as `SeriesStoppedAt` says, and stored keys stay tagged. */
  lemma SeriesStopped(groups: Groups, i: nat, key: string, valueDict: Dict<seq<real>>,
                      td0: Dict<Dict<seq<real>>>, td: Dict<Dict<seq<real>>>)
    requires i < |groups.keys| && SeriesOf(groups, groups.keys[..i]) == Ok(valueDict)
    requires SeriesOf(groups, groups.keys[..i + 1]).Err?
    requires td == if i == 0 then td0 else Put(td0, key, valueDict)
    ensures SeriesStoppedAt(groups, i, key, td0, td)
    ensures SeriesOf(groups, groups.keys) == SeriesOf(groups, groups.keys[..i + 1])
    ensures AllTagged(td0) ==> AllTagged(td)
  {
    SeriesOfErrPrefix(groups, groups.keys, i + 1);
    if i > 0 && AllTagged(td0) {
      AllTaggedPut(td0, key, groups, groups.keys[..i]);
    }
  }

  /** When every category is done, `time_data` holds the whole series under
      `key` (or is untouched when there were no categories), and stored
      keys stay tagged. */
  lemma SeriesDone(groups: Groups, i: nat, key: string, valueDict: Dict<seq<real>>,
                   td0: Dict<Dict<seq<real>>>, td: Dict<Dict<seq<real>>>)
    requires i == |groups.keys| && SeriesOf(groups, groups.keys[..i]) == Ok(valueDict)
    requires td == if i == 0 then td0 else Put(td0, key, valueDict)
    ensures SeriesOf(groups, groups.keys) == Ok(valueDict)
    ensures td == if groups.keys == [] then td0 else Put(td0, key, valueDict)
    ensures AllTagged(td0) ==> AllTagged(td)
  {
    assert groups.keys[..i] == groups.keys;
    if i > 0 && AllTagged(td0) {
      AllTaggedPut(td0, key, groups, groups.keys);
    }
  }

  class Log {
    /** filename -> that file's grouping. */
    var data: Dict<Groups>
    /** filename -> the lines without `:`, for diagnostics. */
    var other: Dict<seq<string>>
    /** filename -> series key -> readings. */
    var timeData: Dict<Dict<seq<real>>>
    /** The fields of the general file. */
    var generalData: Dict<Value>

    /** Every key of every imported file holds at least one value. */
    predicate Imported()
      reads this
    {
      forall f :: f in data.entries ==> NonEmptyLists(data.entries[f])
    }

    /** Every series key is `category + " (u)"` for a recognised unit. */
    ghost predicate Tagged()
      reads this
    {
      AllTagged(timeData)
    }

    /** The empty dicts `init_old` starts from. */
    constructor ()
      ensures data == Empty() && other == Empty() && timeData == Empty() && generalData == Empty()
      ensures Imported() && Tagged()
    {
      data, other, timeData, generalData := Empty(), Empty(), Empty(), Empty();
    }

    /** `import_file_old(folder, filename, limit)`: the file's diagnostics
        list is reset, then the lines before the limit are read into `data`
        and `other[filename]`. A `limit` of 0 stands for None. */
    method ImportFileOld(filename: string, lines: seq<string>, limit: int)
      modifies this
      ensures data == ImportInto(old(data), filename, Limited(lines, limit))
      ensures other == Put(old(other), filename, Unclassified(Limited(lines, limit)))
      ensures timeData == old(timeData) && generalData == old(generalData)
      ensures old(Imported()) ==> Imported()
    {
      other := Put(other, filename, []);
      var grouped, diagnostics := ImportLines(data, filename, lines, limit);
      if Imported() {
        ImportIntoNonEmpty(data, filename, Limited(lines, limit));
      }
      data := grouped;
      PutPut(old(other), filename, [], diagnostics);
      other := Put(other, filename, diagnostics);
    }

    /** `import_file(folder, filename)`: like `import_file_old` without a
        limit, but the entries go into a fresh dict that is returned, and
        `data` is left alone. */
    method ImportFile(filename: string, lines: seq<string>) returns (d: Dict<Groups>)
      modifies this
      ensures d == ImportInto(Empty(), filename, lines)
      ensures other == Put(old(other), filename, Unclassified(lines))
      ensures data == old(data) && timeData == old(timeData) && generalData == old(generalData)
    {
      other := Put(other, filename, []);
      var diagnostics;
      d, diagnostics := ImportLines(Empty(), filename, lines, 0);
      PutPut(old(other), filename, [], diagnostics);
      other := Put(other, filename, diagnostics);
    }

    /** `self.general_data = self.data[name]; del self.data[name]` in
        `init_old`: the general file's grouping becomes the general data. */
    method TakeGeneral(name: string) returns (r: Outcome)
      modifies this
      ensures name !in old(data).entries ==>
        r == Fail(KeyError(name)) && data == old(data) && generalData == old(generalData)
      ensures name in old(data).entries ==>
        r == Pass && generalData == AsGeneral(old(data).entries[name]) && data == Remove(old(data), name)
      ensures other == old(other) && timeData == old(timeData)
      ensures old(Imported()) ==> Imported() && (r.Pass? ==> ImportShaped(generalData))
    {
      if name !in data.entries {
        return Fail(KeyError(name));
      }
      generalData := AsGeneral(data.entries[name]);
      data := Remove(data, name);
      r := Pass;
    }

    /** `format_general()`: rewrites the general data in place. */
    method FormatGeneral() returns (r: Outcome)
      modifies this
      ensures r.Pass? <==> FormatGeneralSpec(old(generalData)).Ok?
      ensures r.Pass? ==> generalData == FormatGeneralSpec(old(generalData)).value && Formatted(generalData)
      ensures r.Fail? ==> FormatGeneralSpec(old(generalData)) == Err(r.error)
      ensures r.Fail? ==> exists i :: LoopStoppedAt(old(generalData), i, generalData)
      ensures data == old(data) && other == old(other) && timeData == old(timeData)
    {
      r, generalData := FormatGeneralData(generalData);
    }

    /** `format_data_old(key)`: the series of file `key`, category by
        category, written to `time_data[key]` after every category (the dict
        object is shared, so a later exception leaves the series built so
        far in place). `data` itself is only read: the method works on a
        copy. */
    method FormatDataOld(key: string) returns (r: Outcome)
      modifies this`timeData
      ensures data == old(data) && other == old(other) && generalData == old(generalData)
      ensures key !in old(data).entries ==> r == Fail(KeyError(key)) && timeData == old(timeData)
      ensures key in old(data).entries ==> SeriesStored(old(data).entries[key], key, old(timeData), timeData, r)
      ensures old(Tagged()) ==> Tagged()
    {
      if key !in data.entries {
        return Fail(KeyError(key));
      }
      r := StoreSeries(key, data.entries[key]);
    }

    /** The category loop of `format_data_old` over the grouping `groups`
        of file `key`. */
    method StoreSeries(key: string, groups: Groups) returns (r: Outcome)
      modifies this`timeData
      ensures SeriesStored(groups, key, old(timeData), timeData, r)
      ensures old(Tagged()) ==> Tagged()
    {
      var cs := groups.keys;
      var td0 := timeData;
      var valueDict: Dict<seq<real>> := Empty();
      var i := 0;
      while i < |cs|
        invariant 0 <= i <= |cs|
        invariant SeriesOf(groups, cs[..i]) == Ok(valueDict)
        invariant timeData == if i == 0 then td0 else Put(td0, key, valueDict)
      {
        var step := FormatSeriesStep(groups, i, valueDict);
        if step.Err? {
          SeriesStopped(groups, i, key, valueDict, td0, timeData);
          return Fail(step.error);
        }
        if i > 0 {
          PutPut(td0, key, valueDict, step.value);
        }
        valueDict := step.value;
        timeData := Put(timeData, key, valueDict);
        i := i + 1;
      }
      SeriesDone(groups, i, key, valueDict, td0, timeData);
      r := Pass;
    }

    /** `return_keys()`: the series keys of every file, file by file. */
    method ReturnKeys() returns (allKeys: seq<string>)
      ensures allKeys == SeriesKeys(timeData, timeData.keys)
      ensures Tagged() ==> forall k :: k in allKeys ==> IsTag(k)
    {
      var fs := timeData.keys;
      allKeys := [];
      var i := 0;
      while i < |fs|
        invariant 0 <= i <= |fs|
        invariant allKeys == SeriesKeys(timeData, fs[..i])
      {
        SeriesKeysStep(timeData, fs, i);
        allKeys := allKeys + timeData.entries[fs[i]].keys;
        i := i + 1;
      }
      assert fs[..i] == fs;
      if Tagged() {
        SeriesKeysTagged(timeData, fs);
      }
    }

    /** `return_attributes()`: the general data itself, not a copy. */
    function ReturnAttributes(): (r: Dict<Value>)
      reads this
      ensures r == generalData
    {
      generalData
    }

    /** `return_folder_name()`, on a log whose general data is formatted. */
    function ReturnFolderName(): (r: string)
      reads this
      requires Formatted(generalData)
      ensures r == FolderName(generalData.entries["TIME"].t)
    {
      FolderName(generalData.entries["TIME"].t)
    }

    /** `return_identifier()`, on a log whose general data is formatted. */
    function ReturnIdentifier(): (r: Result<string>)
      reads this
      requires Formatted(generalData)
      ensures r == Identifier(generalData)
    {
      Identifier(generalData)
    }
  }
}
