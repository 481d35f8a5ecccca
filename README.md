# GulliView logs — a verified model of the log parsing and comparison core

GulliView logs collects the text logs of GulliView camera runs. It reads each run's folder of log files into a `Log` object and types the fields of the run's general file. It turns the unit-tagged readings (`12 ms`, `fps=30 Hz`) into numeric series, and lets the user pick runs and series keys to compare side by side.

This project models the part of that program that is deterministic text and list processing, and proves what it computes:

- **Reading log files** (`Log.import_file_old`, `Log.import_file` in both revisions of the `Log` class). A line with a `:` is split at the first `:` of the stripped line. Its stripped value is appended to the key's list in file order. Other lines are kept once each, for diagnostics. An optional line limit stops the reading.
- **Typing the general file** (`format_general`, `try_int_float_convert`). Each field becomes its first value. `"0"`/`"1"` become booleans, other text becomes an int or a float when it reads as one, and `TIME` is parsed as `YYYY-MM-DD HH:MM:SS`.
- **Unit-tagged series** (`convert_units_to_float`, `format_data_old`). A category's shape is decided from its first value. Categories tagged `ms`, `us`, `ns` or `Hz` become numeric series stored under `"<category> (<unit>)"`.
- **The accessors** `return_folder_name`, `return_identifier`, `return_keys` and `return_attributes`.
- **The prompt rules** of `input_int` and `input_str`: for one typed answer, whether it is accepted and what it yields.
- **`get_general` and `parse_log_file`** of VisualizeLog.py. The second is a cursor-driven scan that attaches the latest `Remap:` / `Transform color:` readings to each following `Loop N: trial=T, Duration=D us` line.
- **The comparison bookkeeping of the `Data` class:**
  - the overview rows of `print_all`;
  - the log and key selection of `display_data`, on a given sequence of typed answers;
  - the sorted key and file-name unions;
  - the per-key lists `display_combined` lines up for its box plots;
  - the plot titles and axis labels.

File reading is replaced by a sequence of lines. The user's answers at the prompts are a parameter. Exceptions that escape are values of a `Result`/`Outcome` type (`KeyError`, `ValueError`, `IndexError`, `TypeError`, `ZeroDivisionError`).

Python dicts are insertion-ordered and the program exposes that order (`return_keys` lists keys file by file), so dicts are modelled as an ordered key list plus a map (`Dicts.Dict`). Python's `list.sort()` on texts is modelled by an insertion sort on the lexicographic order. The sort is justified by the proof that two sorted lists with the same elements are equal (`Sorting.SortedUnique`). So any correct sort gives the same list.

Modules: `Wrappers` and `Text` (text.dfy), `Dicts`, `PyValues` (values.dfy), `Functions`, `Lines`, `Formatting`, `LogClass`, `LogClassNew`, `VisualizeLog`, `Sorting` and `DataClass`.

The shape of what is proved:

- Each imperative operation is a `method` with its loop. It is proved against a reference function: `Lines.ImportInto` and `Lines.Unclassified` for the importers, `Formatting.FormatGeneralSpec`, `Formatting.ConvertAll`, `Formatting.SeriesOf`, `VisualizeLog.Run`, `DataClass.IdSession`, `DataClass.KeySession` and `DataClass.AsWrittenColumn`.
- The lemmas then state what those reference functions mean, in the source's terms:
  - values in file order, one diagnostics entry per distinct `:`-free line;
  - series keys always unit-tagged, each producing category stored under its tag;
  - the scan raising exactly when some line holds a malformed reading;
  - sorted duplicate-free unions;
  - and so on.

Two behaviours of the code worth noting:

- `return_identifier` adds text to `VERSION`. After `format_general`, a numeric `VERSION` such as `1.2` is a float, so the addition raises TypeError (`Formatting.Identifier`).
- The `try` around the y-label computation in `display_combined` guards a line that cannot raise. The unguarded `label[-1]` is what raises IndexError on an empty unit (`DataClass.YLabel`). `DataClass.YLabelOfTag` shows that this cannot happen for the keys the logs produce.

## Model

| member | source | states |
|---|---|---|
| Text.Strip | Log_class.py:147-148 | defines `s.strip()`: Python's whitespace removed from both ends |
| Text.IsSpace | Log_class.py:147-148 | defines the characters `str.strip()` removes: Python's `isspace()` set, ASCII and Unicode |
| Text.Split | Log_class.py:175-178 | defines `s.split(c)`: the pieces between consecutive separators, empty ones included, at least one |
| Text.ReplaceChar | Log_class.py:89 | defines `s.replace(a, b)` for single characters: same length, each `a` becomes `b` |
| Text.Dedup | Log_class.py:150-151 | defines the list built by appending each element not yet in it: first-seen order, once each |
| Text.StripKeeps | Log_class.py:144-147 | stripping keeps every non-whitespace character, so a line with `:` still has one after `strip()` |
| Text.StripTrimmed | Log_class.py:147 | a text with no whitespace at either end is its own `strip()` |
| Text.SplitFirst | Log_class.py:147 | `split(":", 1)`: the key holds no separator and key, separator and rest rebuild the text, so later `:` stay in the value |
| Text.SplitPiecesFree | Data_class.py:365 | no piece of `split(c)` contains `c` |
| Text.JoinSplit | Data_class.py:365 | joining the pieces of a split with the separator gives the text back |
| Text.SplitJoin | Data_class.py:375 | splitting a join of separator-free pieces gives the pieces back |
| Text.SplitLastPiece | Data_class.py:375 | `(a + c + t).split(c)[-1]` is `t` when `t` has no `c` |
| Text.SplitFirstPiece | Data_class.py:365 | `split(c)[0]` is the text before the first `c` |
| Text.ReplaceCharRemoves | Log_class.py:89 | after `replace(":", ";")` no `:` is left and every other character is in place |
| Text.ReplaceCharInjective | Log_class.py:89 | the replacement loses nothing on texts without the new character |
| Text.DedupSpec | Log_class.py:150-151 | "append unless present" yields a duplicate-free list with exactly the input's elements |
| Text.DedupSnoc | Log_class.py:150-151 | one more element is appended exactly when it was not seen before |
| Text.DedupOfDistinct | Data_class.py:260-264 | a list without duplicates is unchanged by de-duplication |
| Dicts.Put | Log_class.py:148 | `d[k] = v` sets the value; an existing key keeps its place, a new key goes last |
| Dicts.Remove | Log_class.py:76 | `del d[k]` drops the key and keeps the order of the others |
| Dicts.PutPut | Log_class.py:249 | writing one key twice leaves only the second value |
| Dicts.Extensional | Log_class.py:148 | two dicts with the same key order and values are equal |
| PyValues.ParseInt | functions.py:122 | defines `int(text)`: stripped text, optional sign, ASCII digits with single underscores between digits; anything else is ValueError |
| PyValues.DigitPart | functions.py:122 | defines the digit part of an `int()` or `float()` numeral, `digit (["_"] digit)*` over ASCII digits |
| PyValues.PartValue | functions.py:122 | defines the number a digit part denotes, its underscores left out |
| PyValues.UnderscoreBetweenDigits | functions.py:122 | in a numeral `int()` reads, every underscore stands between two digits |
| PyValues.ParseIntGrouped | functions.py:122 | `int(a + "_" + b)` reads as `int(a + b)` for digit runs `a`, `b` |
| PyValues.ParseFloat | functions.py:150 | defines `float(text)` on decimal notation: optional sign, digit parts around at most one `.`, exact value; anything else is ValueError |
| PyValues.DecimalValue | functions.py:150 | defines the unsigned numeral `float()` reads: a digit part, or digit parts around one `.` with at least one present, and its exact value |
| PyValues.SecondPointRejected | functions.py:150 | a numeral with two `.` is not a float (ValueError) |
| PyValues.FormatInt | functions.py:151-152 | defines `str(n)` for an int, at least one character; `int()` inverts it (see `PyValues.ParseFormatInt`) |
| PyValues.FormatTime | Log_class.py:89 | defines `str(t)` for a `datetime` as `YYYY-MM-DD HH:MM:SS`, 19 characters |
| PyValues.ParseFormatInt | functions.py:151-152 | `int(str(n)) == n` |
| PyValues.ParseFloatFormatInt | functions.py:149-150 | `float(str(n)) == n` |
| PyValues.ParseTime | Log_class.py:169 | `strptime(s, "%Y-%m-%d %H:%M:%S")` yields only valid dates and times |
| PyValues.TimeShaped | Log_class.py:169 | defines the text `strptime` reads for `"%Y-%m-%d %H:%M:%S"`: 19 characters, digit fields, `-`, ` ` and `:` in place |
| PyValues.ValidDateTime | Log_class.py:169 | defines the values `datetime` accepts: years 1-9999, a month of 1-12, a day within the month (leap years included), and a valid hour, minute and second |
| PyValues.ParseFormatTime | Log_class.py:169 | parsing the text of a timestamp gives the timestamp back |
| PyValues.FormatParseTime | Log_class.py:169 | a text that parses as a timestamp is exactly that timestamp's `str()` |
| PyValues.FormatTimeInjective | Log_class.py:89 | distinct timestamps have distinct texts |
| PyValues.FormatTimeChars | Log_class.py:89 | a timestamp's text has no `;` |
| Functions.TryIntFloatConvert | functions.py:147-154 | a text with `.` becomes its float, one without becomes its int; when the conversion fails the text itself is returned |
| Functions.ConvertKeepsTextIff | functions.py:148-154 | the text comes back exactly when the conversion its `.` selects fails, so no ValueError escapes |
| Functions.ConvertIntText | functions.py:151-152 | an int's own text converts back to that int |
| Functions.InputIntAttempt | functions.py:111-132 | empty answer gives None; a returned number parses from the answer and lies in lower..high, lower being 0 only with `allow_zero`; every such number is accepted |
| Functions.InputStrAttempt | functions.py:84-108 | an empty answer gives `""` when allowed; an accepted answer is the `n`-th option for a 1-based `n` in range and is not excluded; every such answer is accepted |
| Lines.Entry | Log_class.py:147 | key and rest of `line.strip().split(":", 1)`: key without `:`, key + `:` + rest is the stripped line |
| Lines.Parse | Log_class.py:144-151 | a line is an entry exactly when it has a `:`; its value is the stripped rest; any other line is kept verbatim |
| Lines.ParseAll | Log_class.py:137-151 | one classification per line, in order |
| Lines.Limited | Log_class.py:139-141 | the lines read before the limit: all of them for no limit (0), the first `limit` otherwise |
| Lines.Grouped | Log_class.py:144-148 | defines one file's grouping: `setdefault(key, []).append(value)` over its entry lines; characterised by `Lines.GroupedSpec` |
| Lines.Unclassified | Log_class.py:150-151 | defines the diagnostics list: the lines without `:`, each once, first-seen order; characterised by `Lines.UnclassifiedSpec` |
| Lines.ImportInto | Log_class.py:137-148 | defines `data` after importing a file's lines; characterised by `Lines.ImportIntoValues` |
| Lines.ImportLines | Log_class.py:137-151 | the import loop computes exactly the grouping and the diagnostics list of the lines before the limit |
| Lines.ImportLine | Log_class.py:139-151 | one pass of the import loop body extends the grouping and the diagnostics list by exactly one line |
| Lines.ParseOther | Log_class.py:150 | a line is kept for diagnostics exactly when it has no `:` |
| Lines.ValuesForAppend | Log_class.py:148 | values are collected in file order |
| Lines.ValuesForAbsent | Log_class.py:148 | a key no line carries has no values |
| Lines.KeysOfMembers | Log_class.py:147-148 | a key is listed exactly when some entry line carries it |
| Lines.PlainMembers | Log_class.py:150-151 | a text is among the non-entry lines exactly when some line is that text without `:` |
| Lines.UnclassifiedSpec | Log_class.py:150-151 | the diagnostics list is duplicate-free and holds exactly the lines without `:` |
| Lines.UnclassifiedStep | Log_class.py:150-151 | a line without `:` is appended to the diagnostics unless already there |
| Lines.GroupedStep | Log_class.py:144-148 | one more line appends its value to its key, another line changes nothing |
| Lines.MergeKeys | Log_class.py:148 | `setdefault` keeps existing keys first, then the new keys in first-seen order, once each |
| Lines.MergeEntries | Log_class.py:148 | each key holds its earlier values followed by the new lines' values, in order |
| Lines.MergeOthers | Log_class.py:150-151 | lines without `:` leave the grouping unchanged |
| Lines.GroupedSpec | Log_class.py:144-148 | a key is present exactly when some line carries it, holds exactly its lines' values in file order, keys in first-seen order |
| Lines.GroupedEmpty | Log_class.py:144 | a file groups to nothing exactly when no line has a `:` |
| Lines.ImportParsedStep | Log_class.py:148 | `data.setdefault(filename, {}).setdefault(key, []).append(value)` for one entry, nothing for another line |
| Lines.AnyEntryParsed | Log_class.py:144 | a file has an entry exactly when one of its lines has a `:` |
| Lines.ImportIntoValues | Log_class.py:148 | importing one file leaves every other file alone and appends the file's values per key in order |
| Lines.ImportFileShape | Log_class_new.py:80-97 | `import_file` returns a dict whose only key is the file name, or an empty dict when no line has a `:` |
| Lines.MergeNonEmpty | Log_class.py:148 | appending never leaves a key without a value |
| Lines.ImportIntoNonEmpty | Log_class.py:148 | after importing, every key of every file holds at least one value |
| Formatting.TypeScalar | Log_class.py:160-166 | `"0"`/`"1"` become False/True, other text goes through the int/float conversion or stays the same text |
| Formatting.FirstOf | Log_class.py:158 | `value[0]`: the first recorded value; an empty list raises |
| Formatting.FlattenKey | Log_class.py:155-166 | defines one pass of `format_general`'s loop: a key's first value, typed, put back in place; the exception of `value[0]` ends it |
| Formatting.FlattenKeys | Log_class.py:155-166 | defines the loop over the keys in order, ending at the first exception |
| Formatting.FlattenKeysErrPrefix | Log_class.py:155-166 | the first exception ends the loop |
| Formatting.FlattenKeysStep | Log_class.py:155-166 | one key of the loop rewrites that key only |
| Formatting.ParseTimeField | Log_class.py:169 | `TIME` is replaced by its parsed timestamp; missing `TIME` is KeyError |
| Formatting.FlattenKeysImported | Log_class.py:155-166 | on imported data the loop cannot fail, keeps key order and makes each visited field its first value typed |
| Formatting.TimeTextStaysText | Log_class.py:160-169 | a timestamp text survives the scalar typing as text and reaches `strptime` unchanged |
| Formatting.FormatGeneralSpec | Log_class.py:153-169 | defines `format_general`: the flattening loop, then the `TIME` parse, or the first exception |
| Formatting.LoopStoppedAt | Log_class.py:155-166 | defines where the loop ends: the first `i` keys flattened, and either every key done or key `i` raising |
| Formatting.LoopStoppedAtUnique | Log_class.py:155-166 | the loop stops at one place only, so the dict an exception leaves behind is determined |
| Formatting.FormatGeneralImported | Log_class.py:153-169 | on imported data: KeyError exactly without `TIME`; success exactly when the first `TIME` value is a valid timestamp; then every other field is its first value typed |
| Formatting.ParseTimeFlattened | Log_class.py:169 | after the flattening loop on imported data, the `TIME` parse raises KeyError exactly without `TIME` and succeeds exactly on a valid timestamp, keeping key order and every other field its first value typed |
| Formatting.FormatGeneralData | Log_class.py:153-169 | the loop plus the `TIME` parse compute the reference result; on an exception the dict is where the loop stopped: every field flattened when `TIME` fails to parse, else the fields before the raising key |
| Formatting.ParseTimeInPlace | Log_class.py:169 | the `strptime` assignment succeeds exactly when the `TIME` field parses, then leaves formatted fields; on an exception the fields are unchanged |
| Formatting.Token | Log_class.py:174-182 | the second-to-last space piece, after the last `=` if any; fewer than two pieces is IndexError |
| Formatting.ConvertAll | Log_class.py:171-188 | defines `convert_units_to_float`: readings of the values whose token is a float, divided by `factor`, or the escaping exception |
| Formatting.ConvertAllStep | Log_class.py:173-186 | one value: IndexError escapes, a non-float token is skipped, a float is divided by `factor` and appended |
| Formatting.ConvertAllErrPrefix | Log_class.py:173-186 | the first escaping exception ends the conversion |
| Formatting.ConvertAllOk | Log_class.py:171-188 | the conversion fails exactly when some value has fewer than two tokens, or `factor` is 0 and some value is readable |
| Formatting.ConvertAllReadings | Log_class.py:171-188 | on success: the readings of the readable values, in order, each divided by `factor`, never more than the input |
| Formatting.ConvertUnitsToFloat | Log_class.py:171-188 | the loop computes exactly that result |
| Formatting.ConvertValue | Log_class.py:174-186 | one pass of the loop body turns the result for the values so far into the result for one more value |
| Formatting.TokenTagged | Log_class.py:174-178 | the token of `<num> <unit>` and of `<name>=<num> <unit>` is `<num>` |
| Formatting.ConvertSingle | Log_class.py:182-183 | one readable value converts to its one reading |
| Formatting.ConvertTagged | Log_class.py:174-183 | `<n> <unit>` and `<name>=<n> <unit>` read as `n / factor` |
| Formatting.UnitOf | Log_class.py:199-244 | the unit read off a first value is one of `ms`, `us`, `ns`, `Hz` |
| Formatting.CategorySeries | Log_class.py:196-244 | a category yields a series only with at least two values and a unit on the first, stored under `category (unit)` and holding the whole list converted |
| Formatting.FormatCategory | Log_class.py:196-244 | the branch chain computes exactly that |
| Formatting.FormatSeriesStep | Log_class.py:196-249 | one pass of the category loop turns the series so far into the series after one more category |
| Formatting.SeriesOf | Log_class.py:195-249 | defines the series dict of `format_data_old` over the categories, or the first exception |
| Formatting.Tag | Log_class.py:214-244 | defines the key `category + " (u)"` a series is stored under |
| Formatting.SeriesOfStep | Log_class.py:195-249 | one category: an exception aborts, a series is added under its tag, anything else adds nothing |
| Formatting.SeriesOfErrPrefix | Log_class.py:195-249 | the first exception ends the loop |
| Formatting.SeriesOfTagged | Log_class.py:214-244 | every stored key is `category (u)` with `u` among `ms`, `us`, `ns`, `Hz` |
| Formatting.NoSpaceNoUnit | Log_class.py:207-212 | a first value without a space never carries a unit |
| Formatting.TagInjective | Log_class.py:216-244 | distinct categories or units never share a key |
| Formatting.CategorySeriesSome | Log_class.py:204-244 | a category yields a series exactly when it has at least two values and its first one carries a unit; a single value never does |
| Formatting.SeriesOfSound | Log_class.py:195-249 | every stored key is the tag of a producing category and holds that category's readings |
| Formatting.SeriesOfComplete | Log_class.py:195-249 | whenever the run succeeds, every producing category is stored under its tag with all its readings in order |
| Formatting.SplitCount | Log_class.py:208 | a text splits into one piece exactly when it lacks the separator |
| Formatting.FolderName | Log_class.py:88-89 | `str(TIME).replace(":", ";")` has no `:` and 19 characters |
| Formatting.FolderNameText | Log_class.py:88-89 | turning `;` back into `:` gives the timestamp's text |
| Formatting.FolderNameInjective | Log_class.py:88-89 | different times give different folder names |
| Formatting.Identifier | Log_class.py:103-104 | `VERSION + "\n" + str(TIME)`: KeyError without `VERSION`, TypeError when `VERSION` is not text, else the version, a newline and the timestamp's text |
| Formatting.IdentifierInjective | Log_class.py:103-104 | equal identifiers mean equal version and time |
| LogClass.AsGeneral | Log_class.py:75 | the general file's grouping becomes the general data, each key holding its list |
| LogClass.SeriesKeysMembers | Log_class.py:96-100 | a key is listed exactly when some file has a series under it |
| LogClass.SeriesKeys | Log_class.py:96-100 | defines the concatenation `return_keys` builds: each file's series keys in order, file by file |
| LogClass.AllTaggedPut | Log_class.py:249 | storing a file's series keeps every series key tagged |
| LogClass.Log.constructor | Log_class.py:62-64 | `init_old` starts from empty `data`, `other` and `time_data` |
| LogClass.Log.ImportFileOld | Log_class.py:130-151 | `data` gets the lines before the limit, `other[filename]` is reset and refilled, nothing else changes, every key stays non-empty |
| LogClass.Log.ImportFile | Log_class.py:108-128 | the returned dict holds the file's grouping (only the file name as key, or empty), `other[filename]` is reset and refilled, `data` is untouched |
| LogClass.Log.TakeGeneral | Log_class.py:75-76 | KeyError when the general file is missing; otherwise its grouping becomes the general data and it leaves `data` |
| LogClass.Log.FormatGeneral | Log_class.py:153-169 | the general data becomes the formatted fields, or the exception and the dict as the loop left it when it stopped |
| LogClass.Log.FormatDataOld | Log_class.py:191-249 | KeyError for an unknown file; `data` is only read; only `time_data[key]` is written, as `LogClass.SeriesStored` says for the file's grouping; keys stay tagged |
| LogClass.Log.StoreSeries | Log_class.py:195-249 | the category loop leaves `time_data` and the outcome as `LogClass.SeriesStored` says; keys stay tagged |
| LogClass.SeriesStored | Log_class.py:195-249 | defines the loop's result: success exactly when the whole series converts, with the whole series stored under the key (nothing stored without categories); otherwise the series' own error, with `time_data` as `LogClass.SeriesStoppedAt` says |
| LogClass.SeriesStoppedAt | Log_class.py:195-249 | defines `time_data` after an exception at category `j`: left as it was when `j` is 0, else holding the series of the first `j` categories |
| LogClass.SeriesStopped | Log_class.py:195-249 | an exception at category `i` is the whole loop's exception, leaves `time_data` as `LogClass.SeriesStoppedAt` says for `i`, and keeps keys tagged |
| LogClass.SeriesDone | Log_class.py:195-249 | after the last category `time_data` holds the whole series (or nothing new without categories) and keys stay tagged |
| LogClass.Log.ReturnKeys | Log_class.py:96-100 | the series keys of every file, file by file, repeats kept, all tagged |
| LogClass.Log.ReturnAttributes | Log_class.py:92-93 | the general data itself |
| LogClass.Log.ReturnFolderName | Log_class.py:88-89 | the folder name of the parsed `TIME` (see `Formatting.FolderName`) |
| LogClass.Log.ReturnIdentifier | Log_class.py:103-104 | the identifier of the general data (see `Formatting.Identifier`) |
| LogClassNew.Log.constructor | Log_class_new.py:29 | `other` starts empty |
| LogClassNew.Log.ImportFile | Log_class_new.py:77-97 | returns the file's grouping under its name, or an empty dict when no line has a `:`; `other[filename]` reset and refilled |
| LogClassNew.Log.FormatGeneral | Log_class_new.py:99-115 | as in Log_class.py: formatted fields, or the exception and the dict as the loop left it when it stopped |
| LogClassNew.Log.ConvertUnitsToFloat | Log_class_new.py:117-134 | the readings of the readable values in order, never more than the values |
| LogClassNew.Log.ReturnAttributes | Log_class_new.py:61-62 | the general data itself |
| LogClassNew.Log.ReturnFolderName | Log_class_new.py:57-58 | the folder name of the parsed `TIME` |
| LogClassNew.Log.ReturnIdentifier | Log_class_new.py:72-73 | the identifier of the general data |
| VisualizeLog.Fields | VisualizeLog.py:44-47 | one field per line: stripped key and value of an entry, nothing for a line without `:` |
| VisualizeLog.Field | VisualizeLog.py:45-47 | defines one line's field: the stripped key and value of a line with `:`, nothing otherwise |
| VisualizeLog.GeneralOf | VisualizeLog.py:42-48 | defines the dict `get_general` builds: each field stored under its key, a later one overwriting the value in place |
| VisualizeLog.GetGeneral | VisualizeLog.py:41-48 | the loop stores each line's field, later ones overwriting |
| VisualizeLog.GeneralKeys | VisualizeLog.py:45-47 | a key is present exactly when some line carries it |
| VisualizeLog.GeneralLastWins | VisualizeLog.py:45-47 | a key some line carries is present and holds the value of the last line carrying it |
| VisualizeLog.DigitRun | VisualizeLog.py:56 | `\d+` takes the whole run of ASCII digits |
| VisualizeLog.NumRun | VisualizeLog.py:57-58 | `[\d\.]+` takes the whole run of digits and dots |
| VisualizeLog.ReadingMatchAt | VisualizeLog.py:57-58 | a capture is a non-empty run of digits and dots |
| VisualizeLog.ReadingSearch | VisualizeLog.py:70-71 | the leftmost capture is a non-empty run of digits and dots |
| VisualizeLog.ColumnsSnoc | VisualizeLog.py:86-89 | appending one row to the four lists keeps them the columns of the rows |
| VisualizeLog.LoopSearch | VisualizeLog.py:81-82 | defines `loop_pattern.search(line)`: the leftmost match of `Loop (\d+): trial=\d+, Duration=(\d+) us` |
| VisualizeLog.LoopMatchAt | VisualizeLog.py:56 | defines a match of `Loop (\d+): trial=\d+, Duration=(\d+) us` at one position, with its two captured numbers |
| VisualizeLog.StartsWithLoop | VisualizeLog.py:69 | defines `line.startswith("Loop")`, which ends the inner loop and picks the Loop branch at line 80 |
| VisualizeLog.Update | VisualizeLog.py:70-76 | defines one reading update: no capture keeps the reading, a capture becomes its float, a non-float capture is ValueError |
| VisualizeLog.Step | VisualizeLog.py:69-89 | defines the scan of one line: a `Loop` line adds its row when it matches and clears the readings, any other line updates them |
| VisualizeLog.Run | VisualizeLog.py:66-91 | defines the scan of the lines in order, the first exception ending it |
| VisualizeLog.Pending | VisualizeLog.py:66-78 | defines the reading pending after some lines: the last capture since the last `Loop` line |
| VisualizeLog.Expected | VisualizeLog.py:80-89 | defines the rows of a scan: one per matching `Loop` line, with the readings pending before it |
| VisualizeLog.RunStep | VisualizeLog.py:66-91 | the scan of one more line is one step, after an exception nothing |
| VisualizeLog.RunErrPrefix | VisualizeLog.py:66-91 | the first exception ends the scan |
| VisualizeLog.StepErr | VisualizeLog.py:69-76 | a line raises exactly when it is not a `Loop` line and one of its captures is not a float |
| VisualizeLog.RunErrSnoc | VisualizeLog.py:69-76 | the scan of one more line raises exactly when the shorter one did or the line is bad |
| VisualizeLog.AnyLineSnoc | VisualizeLog.py:66 | some line of a longer list is bad exactly when some earlier line or the last one is |
| VisualizeLog.RunErrIff | VisualizeLog.py:50-93 | `parse_log_file` raises exactly when some line is bad, wherever it is |
| VisualizeLog.RunValue | VisualizeLog.py:63-91 | a scan that does not raise has one row per matching `Loop` line, with the readings pending before it (0 when none) and the duration in ms |
| VisualizeLog.LoopLineClears | VisualizeLog.py:67 | any `Loop` line, matching or not, discards the pending readings |
| VisualizeLog.MalformedRemapRaises | VisualizeLog.py:57-76 | a log holding `Remap: 1..2 ms` makes `parse_log_file` raise ValueError |
| VisualizeLog.ReadLine | VisualizeLog.py:69-78 | the readings after one non-`Loop` line are the scan step's; ValueError exactly when the step raises |
| VisualizeLog.ReadLoop | VisualizeLog.py:80-89 | a `Loop` line adds its row (pending readings or 0) when it matches and clears the readings |
| VisualizeLog.ScanRound | VisualizeLog.py:66-91 | one outer round moves past the next `Loop` line or the end, adding at most one row, or raises ValueError |
| VisualizeLog.ReadUntilLoop | VisualizeLog.py:69-78 | the inner loop stops at the next `Loop` line or the end with the pending readings the scan has there, or raises ValueError as the whole scan does |
| VisualizeLog.RunFails | VisualizeLog.py:66-91 | a line that raises after the lines before it were read gives the result of the whole scan |
| VisualizeLog.ParseLogFile | VisualizeLog.py:50-93 | ValueError exactly when some line is bad; otherwise four equal-length lists that are the columns of the expected rows |
| Sorting.LessEq | Data_class.py:277 | defines Python's string order, which `list.sort()` uses: the first differing code point decides, and a proper prefix comes first |
| Sorting.LessEqRefl | Data_class.py:277 | the string order is reflexive |
| Sorting.LessEqTotal | Data_class.py:277 | any two texts are ordered |
| Sorting.LessEqAntisymmetric | Data_class.py:277 | texts ordered both ways are equal |
| Sorting.LessEqTransitive | Data_class.py:277 | the order is transitive |
| Sorting.Insert | Data_class.py:277 | inserting keeps every element and adds one |
| Sorting.InsertSorted | Data_class.py:277 | inserting into a sorted list keeps it sorted |
| Sorting.SortedOf | Data_class.py:277 | the sort is a permutation |
| Sorting.SortedOfSorted | Data_class.py:277 | the sort's result is sorted |
| Sorting.SortedOfNoDup | Data_class.py:277 | sorting keeps a list duplicate-free |
| Sorting.InsertNoDup | Data_class.py:277 | inserting a new element keeps a list duplicate-free |
| Sorting.SortedUnique | Data_class.py:277 | two sorted lists with the same elements are equal |
| Sorting.SortedOfUnique | Data_class.py:277 | any sorted permutation is the sort's result |
| DataClass.Cut | Data_class.py:232 | `s[:30]`: a prefix of length min(len, 30) |
| DataClass.Cell | Data_class.py:230-236 | text cut to its first 30 characters, other values as they are, `""` when missing |
| DataClass.Row | Data_class.py:221-236 | six cells: ID `i+1` or `""` when excluded, then one cell per header |
| DataClass.BuildRow | Data_class.py:221-238 | the inner loop builds exactly that row |
| DataClass.RowUnique | Data_class.py:221-236 | a row is determined by its ID cell and attribute cells |
| DataClass.Data.constructor | Data_class.py:98 | the logs loaded from the archive, in order |
| DataClass.Data.PrintAll | Data_class.py:214-240 | one row per log, in order |
| DataClass.IdSession | Data_class.py:253-266 | defines the IDs the `input_int` prompts accept on a sequence of answers, and whether an empty answer ended them |
| DataClass.IdSessionRange | Data_class.py:256 | every accepted ID names a log |
| DataClass.IdSessionNoLogs | Data_class.py:245-247 | with no logs no ID is accepted |
| DataClass.IdSessionDone | Data_class.py:257-258 | after the empty answer later answers change nothing |
| DataClass.IdSessionNext | Data_class.py:253-266 | one answer: rejected ones change nothing, empty ends, a number in range is added |
| DataClass.PicksSnoc | Data_class.py:264-265 | appending an ID and its log keeps `comp` the logs `comp_ID` names |
| DataClass.SelectStep | Data_class.py:255-266 | one prompt: the selection advances as one step of the session, an ID already chosen is not added again |
| DataClass.SelectFrom | Data_class.py:243-266 | `comp_ID` is the accepted IDs de-duplicated in first-chosen order, and `comp` holds their logs in that order |
| DataClass.Data.SelectLogs | Data_class.py:243-266 | the same on the object's logs: distinct IDs in range, each log once, in selection order |
| DataClass.KeySession | Data_class.py:279-286 | defines the keys the `input_str` prompts accept, each excluded once chosen, and whether an empty answer ended them |
| DataClass.KeySessionChosen | Data_class.py:279-286 | the chosen keys are distinct keys on offer |
| DataClass.KeySessionDone | Data_class.py:282-283 | after the empty answer later answers change nothing |
| DataClass.KeySessionStep | Data_class.py:280-286 | one answer against the keys chosen so far |
| DataClass.KeySessionNext | Data_class.py:280-286 | with the session still open, an answer the prompt rejects changes nothing, an empty one ends the selection, and any other accepted key is appended |
| DataClass.SelectKeys | Data_class.py:279-286 | the loop yields the session's keys: distinct and on offer |
| DataClass.UnionStep | Data_class.py:273-277 | sorting after a log keeps the union of the logs so far |
| DataClass.AvailableKeys | Data_class.py:272-277 | sorted, duplicate-free, exactly the union of the chosen logs' keys |
| DataClass.TimelineFilenames | Data_class.py:389-396 | sorted, duplicate-free, exactly the union of the chosen logs' file names |
| DataClass.Labels | Data_class.py:305-308 | one identifier per log in order, or the first exception |
| DataClass.LabelsErrPrefix | Data_class.py:306-308 | the first exception ends the labels loop |
| DataClass.CombinedLabels | Data_class.py:305-308 | the loop computes exactly the labels |
| DataClass.AsWrittenColumn | Data_class.py:311-319 | defines the two lists the inner loop builds as written, log by log |
| DataClass.AsWrittenEntry | Data_class.py:312-319 | defines what one log adds as written: the statistics are appended before the outliers are fetched, so a KeyError from the outliers alone appends the stand-in row as well |
| DataClass.Entry | Data_class.py:312-319 | defines what one log evidently should contribute: statistics and outliers, or the stand-ins |
| DataClass.Column | Data_class.py:310-319 | one entry per log in order: the log's statistics and outliers, or `[None]*5` and `[]` |
| DataClass.AsWrittenAligned | Data_class.py:310-319 | when every log has both accessors or neither, the lists built are exactly that |
| DataClass.AsWrittenOutliers | Data_class.py:311-319 | `outliers[key]` always has one entry per log, `data[key]` at least one |
| DataClass.AsWrittenMisaligned | Data_class.py:312-319 | a log with statistics but no outliers gives `data[key]` two entries against one |
| DataClass.CombinedColumn | Data_class.py:311-319 | the inner loop builds the lists as the code is written |
| DataClass.CombinedStep | Data_class.py:310 | the selected keys are visited once each |
| DataClass.CombinedData | Data_class.py:300-319 | labels or the first exception; exactly the selected keys, each holding the lists the inner loop builds as written (one outlier entry per log, see `DataClass.AsWrittenOutliers`), which are one entry per log when the accessors agree |
| DataClass.Title | Data_class.py:364-368 | a key without `(` is its own title; any other key is titled by the text before its first `(`, stripped |
| DataClass.UnitText | Data_class.py:375 | defines `key.split("(")[-1][:-1]`: the last `(` piece without its last character, empty when that piece is empty |
| DataClass.YLabel | Data_class.py:374-383 | IndexError exactly when the unit text is empty; `Time (u)` when it ends in `s`, `Frequency (Hz)` for `Hz`, else the unit |
| DataClass.TitleOfTag | Data_class.py:364-365 | the title of `category (u)` is the stripped category |
| DataClass.YLabelOfTag | Data_class.py:374-383 | a produced series key gets `Time (u)` or `Frequency (Hz)` and never raises |
| LogViews.ViewOf | Data_class.py:274-308 | defines a view read off a `Log`: the keys are `return_keys()`, the identifier `return_identifier()`, the attributes `return_attributes()` |
| LogViews.ViewKeysLabelled | Data_class.py:374-383 | on a view of a log whose series keys are unit-tagged, every key gets a y-label without raising |
| DataClass.YLabelEmptyUnit | Data_class.py:375-379 | a key ending in `()` makes the label raise IndexError |

## Left out

- Remote transfer (SSH, the network check), pickle load and save, archive folder handling, and config reading: file-system and network side effects with no logic to prove.
- Plotting, `tabulate` output, printed messages and tqdm progress bars: output only.
- The interactive menu `run_command` and the program's entry points.
- The mode choice of `display_data` is not modelled. It is a plain dispatch to a plotting routine.
- The body of `display_timeline` after the file list is not modelled. It plots.
- `return_all_agg_data`, `return_all_outliers`, `return_filenames` and `return_timeline` are not defined in any file of the program. Their results are fields of `DataClass.LogView`, taken as given. The percentile aggregation behind them is not modelled.
- DataClass.LogView: the comparison code is stated over views. `LogViews.ViewOf` says when a view's keys, identifier and attributes are those of a `LogClass.Log`, and `LogViews.ViewKeysLabelled` uses it. The other members take the views as given and do not require `ViewOf`.
- The `__debug__` branch of `Log.__init__`, `Log.format_data`, `Log_class_new.Log.__init__`, `Log_class_new.Log.format_data` and `Log_class_new.Log.return_keys` are not modelled. They are unfinished: they overwrite their data or read state that is never set.
- The loops of `init_old` over the folder and over the files are not modelled. Their bodies are `LogClass.Log.ImportFileOld`, `LogClass.Log.TakeGeneral`, `LogClass.Log.FormatGeneral` and `LogClass.Log.FormatDataOld`.
- Floating point: `float()` is modelled on plain decimal notation with exact values. There is no exponent and no `inf`/`nan`, and no IEEE rounding of the division by `factor` or by 1000.
- PyValues.ParseInt, PyValues.ParseFloat: only the ASCII digits `0`-`9` are read. Python's `int()` and `float()` also accept other Unicode decimal digits (`int("٣") == 3`); such text is modelled as a ValueError. Underscores between digits are modelled.
- `strptime` accepts only the zero-padded `YYYY-MM-DD HH:MM:SS` form here. Its lenient one-digit fields are not modelled.
- `\d` is ASCII digits. `str.splitlines` is replaced by the given sequence of lines.
- LogClass.Log.ImportFileOld: a `limit` of None is modelled as 0; both mean no limit.
- LogClass.Log.ReturnFolderName, LogClass.Log.ReturnIdentifier, LogClassNew.Log.ReturnFolderName and LogClassNew.Log.ReturnIdentifier require general data whose `TIME` is parsed. Before `format_general` they are not modelled.
- DataClass.IdSession, DataClass.KeySession: the prompts read a given sequence of answers. When the answers run out before an empty one, the selection ends there.
- DataClass.CombinedData requires the keys to be distinct. They come from the key selection, which never repeats a key (`DataClass.KeySessionChosen`).

## Findings

| source | as written | input that shows it | evidently intended | confidence | as-written member | corrected member |
|---|---|---|---|---|---|---|
| Data_class.py:312-319 | the statistics are appended to `data[key]` before the outliers are fetched, so a KeyError from `return_all_outliers` appends the `[None]*5` stand-in as a second entry for the same log | a log whose `return_all_agg_data(key)` succeeds but whose `return_all_outliers(key)` raises KeyError | one entry per log in both lists, lined up with the labels | low, not executed | DataClass.AsWrittenMisaligned | DataClass.Column |
