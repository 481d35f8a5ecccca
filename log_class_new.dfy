/** The `Log` class of Log_class_new.py, a revision of the one in
    Log_class.py: `import_file` returns each file's grouping instead of
    storing it, and the general-data formatting, the unit conversion and the
    accessors are unchanged. The shared reference definitions and loops are
    those of the modules `Lines` and `Formatting`. */
module LogClassNew {
  import opened Wrappers
  import opened Dicts
  import opened PyValues
  import opened Lines
  import opened Formatting

  class Log {
    /** filename -> the lines without `:`, for diagnostics. */
    var other: Dict<seq<string>>
    /** The fields of the general file. */
    var generalData: Dict<Value>

    /** `self.other = {}`, and no general data yet. */
    constructor ()
      ensures other == Empty() && generalData == Empty()
    {
      other, generalData := Empty(), Empty();
    }

    /** `import_file(folder, filename)`: the file's diagnostics list is
        reset and refilled; the entries go into a fresh dict, returned. */
    method ImportFile(filename: string, lines: seq<string>) returns (d: Dict<Groups>)
      modifies this
      ensures d == ImportInto(Empty(), filename, lines)
      ensures d.keys == if AnyEntry(lines) then [filename] else []
      ensures other == Put(old(other), filename, Unclassified(lines))
      ensures generalData == old(generalData)
    {
      other := Put(other, filename, []);
      var diagnostics;
      d, diagnostics := ImportLines(Empty(), filename, lines, 0);
      PutPut(old(other), filename, [], diagnostics);
      other := Put(other, filename, diagnostics);
      ImportFileShape(filename, lines);
    }

    /** `format_general()`: rewrites the general data in place. */
    method FormatGeneral() returns (r: Outcome)
      modifies this
      ensures r.Pass? <==> FormatGeneralSpec(old(generalData)).Ok?
      ensures r.Pass? ==> generalData == FormatGeneralSpec(old(generalData)).value && Formatted(generalData)
      ensures r.Fail? ==> FormatGeneralSpec(old(generalData)) == Err(r.error)
      ensures r.Fail? ==> exists i :: LoopStoppedAt(old(generalData), i, generalData)
      ensures other == old(other)
    {
      r, generalData := FormatGeneralData(generalData);
    }

    /** `convert_units_to_float(array, factor)`. */
    method ConvertUnitsToFloat(values: seq<string>, factor: real) returns (r: Result<seq<real>>)
      ensures r == ConvertAll(values, factor)
      ensures r.Ok? ==> |r.value| <= |values|
    {
      r := Formatting.ConvertUnitsToFloat(values, factor);
      if r.Ok? {
        ConvertAllReadings(values, factor);
      }
    }

    /** `return_attributes()`: the general data itself, not a copy. */
    function ReturnAttributes(): (r: Dict<Value>)
      reads this
      ensures r == generalData
    {
      generalData
    }

    /** `return_folder_name()`, on a log whose general data is formatted. */
    function ReturnFolderName(): (r: string)
      reads this
      requires Formatted(generalData)
      ensures r == FolderName(generalData.entries["TIME"].t)
    {
      FolderName(generalData.entries["TIME"].t)
    }

    /** `return_identifier()`, on a log whose general data is formatted. */
    function ReturnIdentifier(): (r: Result<string>)
      reads this
      requires Formatted(generalData)
      ensures r == Identifier(generalData)
    {
      Identifier(generalData)
    }
  }
}
