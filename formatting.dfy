/** The reference definitions behind the formatting steps of a `Log`:
    `format_general` (each general field becomes a typed scalar, `TIME` a
    timestamp), `convert_units_to_float` (a unit-tagged value becomes a
    number) and `format_data_old` (a file's keys become unit-tagged numeric
    series). The methods of the log classes are proved against these. */
module Formatting {
  import opened Wrappers
  import opened Text
  import opened Dicts
  import opened PyValues
  import opened Functions

  // -------------------------------------------------------- format_general

  /** The type a general field's text is given: `"0"` and `"1"` are booleans,
      other text goes through `try_int_float_convert`. */
  function TypeScalar(s: string): (r: Value)
    ensures r.Bool? <==> s == "0" || s == "1"
    ensures r.Bool? ==> (r.b <==> s == "1")
    ensures r.Str? ==> r.s == s
    ensures r.Int? ==> ParseInt(s) == Some(r.i)
    ensures r.Float? ==> ParseFloat(s) == Some(r.x)
  {
    if s == "0" then Bool(false)
    else if s == "1" then Bool(true)
    else TryIntFloatConvert(s)
  }

  /** `value[0]`: the first recorded value of a field (or the first
      character, if the field is already text). */
  function FirstOf(v: Value): (r: Result<string>)
    ensures v.List? && v.items != [] ==> r == Ok(v.items[0])
    ensures r.Err? <==> (v.List? && v.items == []) || (v.Str? && v.s == []) || !(v.List? || v.Str?)
  {
    match v
    case List(items) => if items == [] then Err(IndexError) else Ok(items[0])
    case Str(s) => if s == [] then Err(IndexError) else Ok([s[0]])
    case _ => Err(TypeError)
  }

  /** One iteration of `format_general`'s loop, on key `k`. */
  function FlattenKey(d: Dict<Value>, k: string): Result<Dict<Value>>
  {
    if k !in d.entries then Ok(d)
    else
      match FirstOf(d.entries[k])
      case Err(e) => Err(e)
      case Ok(s) => Ok(Put(d, k, TypeScalar(s)))
  }

  /** `format_general`'s loop over the keys `ks`, in order; the first error
      aborts it. */
  function FlattenKeys(d: Dict<Value>, ks: seq<string>): Result<Dict<Value>>
  {
    if ks == [] then Ok(d)
    else
      match FlattenKeys(d, ks[..|ks| - 1])
      case Err(e) => Err(e)
      case Ok(d') => FlattenKey(d', Last(ks))
  }

  /** The first exception ends `format_general`'s loop: once a prefix of
      the keys fails, the whole loop fails the same way. */
  lemma {:induction false} FlattenKeysErrPrefix(d: Dict<Value>, ks: seq<string>, n: nat)
    requires n <= |ks| && FlattenKeys(d, ks[..n]).Err?
    ensures FlattenKeys(d, ks) == FlattenKeys(d, ks[..n])
  {
    if n < |ks| {
      var p := ks[..|ks| - 1];
      assert p[..n] == ks[..n];
      FlattenKeysErrPrefix(d, p, n);
    } else {
      assert ks[..n] == ks;
    }
  }

  lemma FlattenKeysStep(d: Dict<Value>, ks: seq<string>, i: nat)
    requires i < |ks|
    ensures FlattenKeys(d, ks[..i + 1]) ==
      if FlattenKeys(d, ks[..i]).Err? then FlattenKeys(d, ks[..i])
      else FlattenKey(FlattenKeys(d, ks[..i]).value, ks[i])
  {
    assert ks[..i + 1][..i] == ks[..i];
  }

  /** `general_data["TIME"] = strptime(general_data["TIME"], "%Y-%m-%d %H:%M:%S")`. */
  function ParseTimeField(d: Dict<Value>): (r: Result<Dict<Value>>)
    ensures r.Ok? ==> "TIME" in d.entries && "TIME" in r.value.entries
    ensures r.Ok? ==> r.value == Put(d, "TIME", r.value.entries["TIME"])
    ensures r.Ok? ==> r.value.entries["TIME"].Time? && ValidDateTime(r.value.entries["TIME"].t)
    ensures r == Err(KeyError("TIME")) <==> "TIME" !in d.entries
  {
    if "TIME" !in d.entries then Err(KeyError("TIME"))
    else
      match d.entries["TIME"]
      case Str(s) =>
        (match ParseTime(s)
         case None => Err(ValueError)
         case Some(t) => Ok(Put(d, "TIME", Time(t))))
      case _ => Err(TypeError)
  }

  /** The general data after `format_general`, or the exception it raises. */
  function FormatGeneralSpec(d: Dict<Value>): Result<Dict<Value>>
  {
    match FlattenKeys(d, d.keys)
    case Err(e) => Err(e)
    case Ok(f) => ParseTimeField(f)
  }

  /** The shape the importer gives a file's data: every key holds a
      non-empty list of values. */
  predicate ImportShaped(d: Dict<Value>) {
    forall k :: k in d.entries ==> d.entries[k].List? && d.entries[k].items != []
  }

  /** The field's scalar as `format_general`'s loop leaves it. */
  function FirstScalar(d: Dict<Value>, k: string): Value
    requires ImportShaped(d) && k in d.entries
  {
    TypeScalar(d.entries[k].items[0])
  }

  /** On imported data the loop of `format_general` cannot fail: it keeps
      every key in place and replaces each field by its first value, typed.
      The keys not yet visited keep their lists. */
  lemma {:induction false} FlattenKeysImported(d: Dict<Value>, ks: seq<string>)
    requires ImportShaped(d)
    requires NoDup(ks)
    ensures FlattenKeys(d, ks).Ok?
    ensures FlattenKeys(d, ks).value.keys == d.keys
    ensures forall k :: k in d.entries <==> k in FlattenKeys(d, ks).value.entries
    ensures forall k :: k in d.entries ==>
      FlattenKeys(d, ks).value.entries[k] == if k in ks then FirstScalar(d, k) else d.entries[k]
  {
    if ks != [] {
      var p := ks[..|ks| - 1];
      assert NoDup(p);
      FlattenKeysImported(d, p);
      assert Last(ks) !in p by {
        assert ks == p + [Last(ks)];
      }
      forall k ensures k in ks <==> k in p || k == Last(ks) {
        assert ks == p + [Last(ks)];
      }
    }
  }

  /** A timestamp's text is kept as text by the scalar typing, so `TIME`
      reaches `strptime` as the string it was read as. */
  lemma TimeTextStaysText(s: string)
    requires ParseTime(s).Some?
    ensures TypeScalar(s) == Str(s)
  {
    assert TimeShaped(s);
    assert AllDigits(s[0..4]);
    assert IsDigit(s[0]) && IsDigit(s[18]) by {
      assert s[0] == s[0..4][0];
      assert s[18] == s[17..19][1];
    }
    StripTrimmed(s);
    assert Unsigned(s) == (false, s);
    assert !DigitPart(s) by {
      assert s[4] == '-' && !IsDigit(s[4]);
      if DigitPart(s) { DigitPartChars(s, 4); }
    }
    assert '.' !in s by {
      forall i | 0 <= i < 19 ensures s[i] != '.' {
        assert s[0..4] == s[..4][0..4];
        if i < 4 { assert s[i] == s[0..4][i]; }
        else if 4 < i < 7 { assert s[i] == s[5..7][i - 5]; }
        else if 7 < i < 10 { assert s[i] == s[8..10][i - 8]; }
        else if 10 < i < 13 { assert s[i] == s[11..13][i - 11]; }
        else if 13 < i < 16 { assert s[i] == s[14..16][i - 14]; }
        else if 16 < i { assert s[i] == s[17..19][i - 17]; }
      }
    }
    assert s != "0" && s != "1";
  }

  /** `format_general` on imported data: it fails with KeyError exactly
      when there is no `TIME` field; otherwise it succeeds exactly when the
      first `TIME` value is a valid `YYYY-MM-DD HH:MM:SS` timestamp, and
      then every field is its first value typed, with `TIME` parsed. */
  lemma FormatGeneralImported(d: Dict<Value>)
    requires ImportShaped(d)
    ensures FormatGeneralSpec(d) == Err(KeyError("TIME")) <==> "TIME" !in d.entries
    ensures FormatGeneralSpec(d).Ok? <==>
      "TIME" in d.entries && ParseTime(d.entries["TIME"].items[0]).Some?
    ensures FormatGeneralSpec(d).Ok? ==>
      && FormatGeneralSpec(d).value.keys == d.keys
      && FormatGeneralSpec(d).value.entries["TIME"] == Time(ParseTime(d.entries["TIME"].items[0]).value)
      && forall k :: k in d.entries && k != "TIME" ==> FormatGeneralSpec(d).value.entries[k] == FirstScalar(d, k)
  {
    FlattenKeysImported(d, d.keys);
    var f := FlattenKeys(d, d.keys).value;
    assert FormatGeneralSpec(d) == ParseTimeField(f);
    ParseTimeFlattened(d, f);
  }

  /** The parsing of `TIME` on the dict the loop of `format_general` leaves
      from imported data `d`. */
  lemma ParseTimeFlattened(d: Dict<Value>, f: Dict<Value>)
    requires ImportShaped(d)
    requires f.keys == d.keys && forall k :: k in d.entries <==> k in f.entries
    requires forall k :: k in d.entries ==> f.entries[k] == FirstScalar(d, k)
    ensures ParseTimeField(f) == Err(KeyError("TIME")) <==> "TIME" !in d.entries
    ensures ParseTimeField(f).Ok? <==>
      "TIME" in d.entries && ParseTime(d.entries["TIME"].items[0]).Some?
    ensures ParseTimeField(f).Ok? ==>
      && ParseTimeField(f).value.keys == d.keys
      && ParseTimeField(f).value.entries["TIME"] == Time(ParseTime(d.entries["TIME"].items[0]).value)
      && forall k :: k in d.entries && k != "TIME" ==> ParseTimeField(f).value.entries[k] == FirstScalar(d, k)
  {
    if "TIME" in d.entries {
      var s := d.entries["TIME"].items[0];
      assert f.entries["TIME"] == TypeScalar(s);
      if ParseTime(s).Some? {
        TimeTextStaysText(s);
        var g := Put(f, "TIME", Time(ParseTime(s).value));
        assert ParseTimeField(f) == Ok(g);
        assert g.keys == d.keys;
        assert g.entries == f.entries["TIME" := Time(ParseTime(s).value)];
      } else {
        var v := f.entries["TIME"];
        assert v.Str? ==> v.s == s;
        assert ParseTimeField(f) == if v.Str? then Err(ValueError) else Err(TypeError);
      }
    }
  }

  /** A general dict whose `TIME` has been parsed into a timestamp. */
  predicate Formatted(g: Dict<Value>) {
    "TIME" in g.entries && g.entries["TIME"].Time? && ValidDateTime(g.entries["TIME"].t)
  }

  /** Where `format_general`'s loop over `g` ended with the dict `g'`: the
      first `i` keys flattened, and either every key done or key `i`
      raising. */
  predicate LoopStoppedAt(g: Dict<Value>, i: nat, g': Dict<Value>) {
    && i <= |g.keys| && FlattenKeys(g, g.keys[..i]) == Ok(g')
    && (i == |g.keys| || FlattenKeys(g, g.keys[..i + 1]).Err?)
  }

  /** The loop stops at one place only, so the dict an exception leaves
      behind is determined by `g`. */
  lemma LoopStoppedAtUnique(g: Dict<Value>, i: nat, g1: Dict<Value>, j: nat, g2: Dict<Value>)
    requires LoopStoppedAt(g, i, g1) && LoopStoppedAt(g, j, g2)
    ensures i == j && g1 == g2
  {
    if i < j {
      StopsBefore(g, i, j);
    } else if j < i {
      StopsBefore(g, j, i);
    }
  }

  /** A key that raises ends the loop before any later key is reached. */
  lemma StopsBefore(g: Dict<Value>, i: nat, j: nat)
    requires i < j <= |g.keys| && FlattenKeys(g, g.keys[..i + 1]).Err?
    ensures FlattenKeys(g, g.keys[..j]).Err?
  {
    var ks := g.keys[..j];
    assert ks[..i + 1] == g.keys[..i + 1];
    FlattenKeysErrPrefix(g, ks, i + 1);
  }

  /** The loop of `format_general` over the general dict `g`, then the
      parsing of `TIME`. Each field is replaced in place by its first value,
      typed; when a step raises, the fields already rewritten stay
      rewritten and the rest are left as they were. */
  method FormatGeneralData(g: Dict<Value>) returns (r: Outcome, g': Dict<Value>)
    ensures r.Pass? <==> FormatGeneralSpec(g).Ok?
    ensures r.Pass? ==> g' == FormatGeneralSpec(g).value && Formatted(g')
    ensures r.Fail? ==> FormatGeneralSpec(g) == Err(r.error)
    ensures r.Fail? ==> exists i :: LoopStoppedAt(g, i, g')
  {
    var ks := g.keys;
    g' := g;
    var i := 0;
    while i < |ks|
      invariant 0 <= i <= |ks|
      invariant FlattenKeys(g, ks[..i]) == Ok(g')
      invariant g'.keys == ks
    {
      var k := ks[i];
      FlattenKeysStep(g, ks, i);
      match FirstOf(g'.entries[k]) {
        case Err(e) =>
          FlattenKeysErrPrefix(g, ks, i + 1);
          assert LoopStoppedAt(g, i, g');
          r := Fail(e);
          return;
        case Ok(first) =>
          g' := Put(g', k, TypeScalar(first));
      }
      i := i + 1;
    }
    assert ks[..i] == ks;
    assert LoopStoppedAt(g, i, g');
    r, g' := ParseTimeInPlace(g');
  }

  /** The last statement of `format_general`: `TIME` parsed in place; on
      an exception the dict is left as it was. */
  method ParseTimeInPlace(f: Dict<Value>) returns (r: Outcome, f': Dict<Value>)
    ensures r.Pass? <==> ParseTimeField(f).Ok?
    ensures r.Pass? ==> f' == ParseTimeField(f).value && Formatted(f')
    ensures r.Fail? ==> ParseTimeField(f) == Err(r.error) && f' == f
  {
    f' := f;
    if "TIME" !in f.entries {
      r := Fail(KeyError("TIME"));
      return;
    }
    match f.entries["TIME"] {
      case Str(text) =>
        match ParseTime(text) {
          case None =>
            r := Fail(ValueError);
          case Some(t) =>
            f' := Put(f, "TIME", Time(t));
            r := Pass;
        }
      case _ =>
        r := Fail(TypeError);
    }
  }

  // ------------------------------------------------ convert_units_to_float

  /** The token `convert_units_to_float` reads a value from: the
      second-to-last piece when splitting on single spaces, taken after the
      last `=` if there is one. Fewer than two pieces is an IndexError. */
  function Token(value: string): (r: Result<string>)
    ensures r.Err? ==> r.error == IndexError
  {
    var pieces := if '=' in value then Split(Last(Split(value, '=')), ' ') else Split(value, ' ');
    if |pieces| < 2 then Err(IndexError) else Ok(pieces[|pieces| - 2])
  }

  /** `convert_units_to_float(array, factor)`: the numbers of the values
      whose token reads as a float, divided by `factor`, in order; a value
      whose token does not read as a float is skipped. */
  function ConvertAll(values: seq<string>, factor: real): Result<seq<real>>
  {
    if values == [] then Ok([])
    else
      match ConvertAll(values[..|values| - 1], factor)
      case Err(e) => Err(e)
      case Ok(xs) =>
        match Token(Last(values))
        case Err(e) => Err(e)
        case Ok(t) =>
          match ParseFloat(t)
          case None => Ok(xs)
          case Some(x) => if factor == 0.0 then Err(ZeroDivisionError) else Ok(xs + [x / factor])
  }

  /** A value that has a token which reads as a float. */
  predicate Readable(value: string) {
    Token(value).Ok? && ParseFloat(Token(value).value).Some?
  }

  /** The reading of one value, divided by `factor`. */
  function Reading(value: string, factor: real): real
    requires Readable(value) && factor != 0.0
  {
    ParseFloat(Token(value).value).value / factor
  }

  /** The readings of the readable values, in order. */
  function Readings(values: seq<string>, factor: real): seq<real>
    requires factor != 0.0
  {
    if values == [] then []
    else Readings(values[..|values| - 1], factor)
         + (if Readable(Last(values)) then [Reading(Last(values), factor)] else [])
  }

  /** Every value has at least two tokens. */
  predicate AllTokenized(values: seq<string>) {
    forall i :: 0 <= i < |values| ==> Token(values[i]).Ok?
  }

  /** No value is readable. */
  predicate NoneReadable(values: seq<string>) {
    forall i :: 0 <= i < |values| ==> !Readable(values[i])
  }

  /** One step of `convert_units_to_float`'s loop, in the terms above. */
  lemma ConvertAllStep(values: seq<string>, factor: real)
    requires values != []
    ensures var p, v := values[..|values| - 1], Last(values);
      ConvertAll(values, factor) ==
        if ConvertAll(p, factor).Err? then ConvertAll(p, factor)
        else if Token(v).Err? then Err(IndexError)
        else if !Readable(v) then ConvertAll(p, factor)
        else if factor == 0.0 then Err(ZeroDivisionError)
        else Ok(ConvertAll(p, factor).value + [Reading(v, factor)])
  {
  }

  /** The same step, for value `i` of a list. */
  lemma ConvertAllAt(values: seq<string>, i: nat, factor: real)
    requires i < |values|
    ensures var p, v := values[..i], values[i];
      ConvertAll(values[..i + 1], factor) ==
        if ConvertAll(p, factor).Err? then ConvertAll(p, factor)
        else if Token(v).Err? then Err(IndexError)
        else if !Readable(v) then ConvertAll(p, factor)
        else if factor == 0.0 then Err(ZeroDivisionError)
        else Ok(ConvertAll(p, factor).value + [Reading(v, factor)])
  {
    TakeSnoc(values, i);
    ConvertAllStep(values[..i + 1], factor);
    assert values[..i + 1][..i] == values[..i];
  }

  /** The first exception ends `convert_units_to_float`: once a prefix of
      the values fails, the whole list fails the same way. */
  lemma {:induction false} ConvertAllErrPrefix(values: seq<string>, n: nat, factor: real)
    requires n <= |values| && ConvertAll(values[..n], factor).Err?
    ensures ConvertAll(values, factor) == ConvertAll(values[..n], factor)
  {
    if n < |values| {
      var p := values[..|values| - 1];
      assert p[..n] == values[..n];
      ConvertAllErrPrefix(p, n, factor);
    } else {
      assert values[..n] == values;
    }
  }

  lemma AllTokenizedSnoc(values: seq<string>)
    requires values != []
    ensures AllTokenized(values) <==> AllTokenized(values[..|values| - 1]) && Token(Last(values)).Ok?
  {
    AllSnoc(values, values[..|values| - 1], v => Token(v).Ok?);
  }

  lemma NoneReadableSnoc(values: seq<string>)
    requires values != []
    ensures NoneReadable(values) <==> NoneReadable(values[..|values| - 1]) && !Readable(Last(values))
  {
    AllSnoc(values, values[..|values| - 1], v => !Readable(v));
  }

  /** `convert_units_to_float` fails exactly when some value has fewer than
      two tokens (an IndexError, which it does not catch) or, with `factor`
      zero, some value is readable. */
  lemma {:induction false} ConvertAllOk(values: seq<string>, factor: real)
    ensures ConvertAll(values, factor).Ok? <==>
      AllTokenized(values) && (factor == 0.0 ==> NoneReadable(values))
  {
    if values != [] {
      ConvertAllOk(values[..|values| - 1], factor);
      ConvertAllStep(values, factor);
      AllTokenizedSnoc(values);
      NoneReadableSnoc(values);
    }
  }

  /** When it succeeds, `convert_units_to_float` returns the readings of the
      readable values, in their order, skipping the others; so the result is
      never longer than the input. */
  lemma {:induction false} ConvertAllReadings(values: seq<string>, factor: real)
    requires ConvertAll(values, factor).Ok?
    ensures |ConvertAll(values, factor).value| <= |values|
    ensures factor != 0.0 ==> ConvertAll(values, factor).value == Readings(values, factor)
    ensures factor == 0.0 ==> ConvertAll(values, factor).value == []
  {
    if values != [] {
      ConvertAllStep(values, factor);
      ConvertAllReadings(values[..|values| - 1], factor);
    }
  }

  /** The loop of `convert_units_to_float`: the readings of `array`, in
      order, each divided by `factor`; a value whose token is not a float is
      skipped (the ValueError is caught), while the IndexError of a value
      with fewer than two tokens and a division by zero escape. */
  method ConvertUnitsToFloat(values: seq<string>, factor: real) returns (r: Result<seq<real>>)
    ensures r == ConvertAll(values, factor)
  {
    var timeList := [];
    var i := 0;
    while i < |values|
      invariant 0 <= i <= |values|
      invariant ConvertAll(values[..i], factor) == Ok(timeList)
    {
      var step := ConvertValue(values, i, factor, timeList);
      if step.Err? {
        ConvertAllErrPrefix(values, i + 1, factor);
        return step;
      }
      timeList := step.value;
      i := i + 1;
    }
    assert values[..i] == values;
    r := Ok(timeList);
  }

  /** One value of that loop, value `i`: its reading is appended to the
      readings so far, or it is skipped, or it raises. */
  method ConvertValue(values: seq<string>, i: nat, factor: real, timeList: seq<real>) returns (r: Result<seq<real>>)
    requires i < |values| && ConvertAll(values[..i], factor) == Ok(timeList)
    ensures r == ConvertAll(values[..i + 1], factor)
  {
    var value := values[i];
    var split := if '=' in value then Split(Last(Split(value, '=')), ' ') else Split(value, ' ');
    ConvertAllAt(values, i, factor);
    if |split| < 2 {
      return Err(IndexError);
    }
    match ParseFloat(split[|split| - 2]) {
      case None =>
        r := Ok(timeList);
      case Some(time) =>
        if factor == 0.0 {
          return Err(ZeroDivisionError);
        }
        r := Ok(timeList + [time / factor]);
    }
  }

  /** The token of `<num> <unit>` is `<num>`, and so is the token of
      `<name>=<num> <unit>`, when none of the parts has a space or `=`. */
  lemma TokenTagged(prefix: string, num: string, u: string)
    requires ' ' !in u && '=' !in u && ' ' !in num && '=' !in num && '=' !in prefix
    ensures Token(num + " " + u) == Ok(num)
    ensures Token(prefix + "=" + num + " " + u) == Ok(num)
  {
    var t := num + " " + u;
    SplitTwo(num, u, ' ');
    assert '=' !in t;
    assert Token(t) == Ok(num);
    var v := prefix + "=" + num + " " + u;
    assert v == prefix + ['='] + t;
    assert '=' in v by { assert v[|prefix|] == '='; }
    SplitLastPiece(prefix, '=', t);
  }

  /** Two pieces without the separator, joined by it, split back into them. */
  lemma SplitTwo(a: string, b: string, c: char)
    requires c !in a && c !in b
    ensures Split(a + [c] + b, c) == [a, b]
  {
    var t := a + [c] + b;
    SplitJoin([a, b], c);
    assert Join([a, b], c) == t by {
      assert [a, b][1..] == [b];
    }
  }

  /** A single readable value converts to its one reading. */
  lemma ConvertSingle(v: string, factor: real)
    requires Readable(v) && factor != 0.0
    ensures ConvertAll([v], factor) == Ok([Reading(v, factor)])
  {
    assert [v][..0] == [];
    assert ConvertAll([], factor) == Ok([]);
    assert Last([v]) == v;
    ConvertAllStep([v], factor);
    assert ConvertAll([v][..0], factor).Ok?;
    assert ConvertAll([v], factor) == Ok(ConvertAll([v][..0], factor).value + [Reading(v, factor)]);
    assert ConvertAll([v][..0], factor).value + [Reading(v, factor)] == [Reading(v, factor)];
  }

  /** A value written as `<n> <unit>` or `<name>=<n> <unit>` reads as `n / factor`. */
  lemma ConvertTagged(prefix: string, n: int, u: string, factor: real)
    requires ' ' !in u && '=' !in u && '=' !in prefix
    requires factor != 0.0
    ensures ConvertAll([FormatInt(n) + " " + u], factor) == Ok([n as real / factor])
    ensures ConvertAll([prefix + "=" + FormatInt(n) + " " + u], factor) == Ok([n as real / factor])
  {
    var num := FormatInt(n);
    FormatIntPlain(n);
    TokenTagged(prefix, num, u);
    ParseFloatFormatInt(n);
    ConvertSingle(num + " " + u, factor);
    ConvertSingle(prefix + "=" + num + " " + u, factor);
  }

  /** `str(n)` has neither spaces nor `=`. */
  lemma FormatIntPlain(n: int)
    ensures ' ' !in FormatInt(n) && '=' !in FormatInt(n) && '.' !in FormatInt(n)
  {
    var m: nat := if n < 0 then -n else n;
    var d := NatDigits(m);
    assert forall i :: 0 <= i < |d| ==> IsDigit(d[i]);
    assert n < 0 ==> FormatInt(n) == "-" + d;
  }

  // ------------------------------------------------------- format_data_old

  /** The units `format_data_old` recognises, in the order it tests them. */
  const Units: seq<string> := ["ms", "us", "ns", "Hz"]

  /** The key a unit-tagged series is stored under: `category + " (u)"`. */
  function Tag(category: string, u: string): string
  {
    category + " (" + u + ")"
  }

  /** The unit `format_data_old` reads off a category's first value: the
      second of exactly two space-separated pieces, or else the second
      space-separated piece after the last `=`. */
  function UnitOf(first: string): (r: Option<string>)
    ensures r.Some? ==> r.value in Units
  {
    var bySpace := Split(first, ' ');
    var byEqual := Split(first, '=');
    var afterEqual := Split(Last(byEqual), ' ');
    if |bySpace| == 2 && bySpace[1] in Units then Some(bySpace[1])
    else if |byEqual| >= 2 && |afterEqual| >= 2 && afterEqual[1] in Units then Some(afterEqual[1])
    else None
  }

  /** What `format_data_old` makes of one category: IndexError for an empty
      list (it reads `array[0]` first); nothing for a single value or a
      first value without a space; a series under `Tag(category, u)` when
      the first value carries a unit `u`; nothing otherwise. */
  function CategorySeries(category: string, values: seq<string>): (r: Result<Option<(string, seq<real>)>>)
    ensures r.Ok? && r.value.Some? ==>
      && |values| >= 2 && UnitOf(values[0]).Some?
      && r.value.value.0 == Tag(category, UnitOf(values[0]).value)
      && ConvertAll(values, 1.0) == Ok(r.value.value.1)
  {
    if values == [] then Err(IndexError)
    else if |values| == 1 then Ok(None)
    else if |Split(values[0], ' ')| == 1 then Ok(None)
    else
      match UnitOf(values[0])
      case None => Ok(None)
      case Some(u) =>
        match ConvertAll(values, 1.0)
        case Err(e) => Err(e)
        case Ok(xs) => Ok(Some((Tag(category, u), xs)))
  }

  /** The body of `format_data_old`'s loop for one category: the branch
      is picked from the first value alone, and only a unit-tagged first
      value leads to a conversion of the whole list. */
  method FormatCategory(category: string, values: seq<string>) returns (r: Result<Option<(string, seq<real>)>>)
    ensures r == CategorySeries(category, values)
  {
    if values == [] {
      return Err(IndexError);
    }
    var firstSplitSpace := Split(values[0], ' ');
    if |values| == 1 {
      r := Ok(None);
    } else if |firstSplitSpace| == 1 {
      r := Ok(None);
    } else {
      match UnitOf(values[0]) {
        case None =>
          r := Ok(None);
        case Some(u) =>
          var converted := ConvertUnitsToFloat(values, 1.0);
          if converted.Err? {
            return Err(converted.error);
          }
          r := Ok(Some((Tag(category, u), converted.value)));
      }
    }
  }

  /** One category of `format_data_old`'s loop, category `i` of the file's
      grouping: the series dict built so far, extended by that category's
      series when it yields one, or the exception it raises. */
  method FormatSeriesStep(groups: Dict<seq<string>>, i: nat, valueDict: Dict<seq<real>>)
    returns (res: Result<Dict<seq<real>>>)
    requires i < |groups.keys| && SeriesOf(groups, groups.keys[..i]) == Ok(valueDict)
    ensures res == SeriesOf(groups, groups.keys[..i + 1])
  {
    var category := groups.keys[i];
    var values := groups.entries[category];
    SeriesOfStep(groups, groups.keys, i);
    var series := FormatCategory(category, values);
    match series {
      case Err(e) =>
        res := Err(e);
      case Ok(None) =>
        res := Ok(valueDict);
      case Ok(Some(kv)) =>
        res := Ok(Put(valueDict, kv.0, kv.1));
    }
  }

  /** The series dict `format_data_old` builds from the categories `cs` of
      one file, in order; the first error aborts it. */
  function SeriesOf(groups: Dict<seq<string>>, cs: seq<string>): Result<Dict<seq<real>>>
  {
    if cs == [] then Ok(Empty())
    else
      match SeriesOf(groups, cs[..|cs| - 1])
      case Err(e) => Err(e)
      case Ok(acc) =>
        match CategorySeries(Last(cs), GetOr(groups, Last(cs), []))
        case Err(e) => Err(e)
        case Ok(None) => Ok(acc)
        case Ok(Some(kv)) => Ok(Put(acc, kv.0, kv.1))
  }

  lemma SeriesOfStep(groups: Dict<seq<string>>, cs: seq<string>, i: nat)
    requires i < |cs|
    ensures SeriesOf(groups, cs[..i + 1]) ==
      if SeriesOf(groups, cs[..i]).Err? then SeriesOf(groups, cs[..i])
      else match CategorySeries(cs[i], GetOr(groups, cs[i], []))
        case Err(e) => Err(e)
        case Ok(None) => SeriesOf(groups, cs[..i])
        case Ok(Some(kv)) => Ok(Put(SeriesOf(groups, cs[..i]).value, kv.0, kv.1))
  {
    assert cs[..i + 1][..i] == cs[..i];
  }

  /** One more category: the series dict of `cs` is that of all but its
      last category, with the last one's series added when it yields one. */
  lemma SeriesOfLast(groups: Dict<seq<string>>, cs: seq<string>)
    requires cs != [] && SeriesOf(groups, cs).Ok?
    ensures SeriesOf(groups, cs[..|cs| - 1]).Ok?
    ensures CategorySeries(Last(cs), GetOr(groups, Last(cs), [])).Ok?
    ensures var r := CategorySeries(Last(cs), GetOr(groups, Last(cs), [])).value;
      var acc := SeriesOf(groups, cs[..|cs| - 1]).value;
      SeriesOf(groups, cs).value == if r.Some? then Put(acc, r.value.0, r.value.1) else acc
  {
  }

  /** The first exception ends `format_data_old`'s loop: once a prefix of
      the categories fails, the whole loop fails the same way. */
  lemma {:induction false} SeriesOfErrPrefix(groups: Dict<seq<string>>, cs: seq<string>, n: nat)
    requires n <= |cs| && SeriesOf(groups, cs[..n]).Err?
    ensures SeriesOf(groups, cs) == SeriesOf(groups, cs[..n])
  {
    if n < |cs| {
      var p := cs[..|cs| - 1];
      assert p[..n] == cs[..n];
      SeriesOfErrPrefix(groups, p, n);
    } else {
      assert cs[..n] == cs;
    }
  }

  /** A key of the form `category + " (u)"` with a recognised unit `u`. */
  ghost predicate IsTag(key: string) {
    exists c, u :: u in Units && key == Tag(c, u)
  }

  /** Every key `format_data_old` stores is unit-tagged. */
  lemma SeriesOfTagged(groups: Dict<seq<string>>, cs: seq<string>)
    requires SeriesOf(groups, cs).Ok?
    ensures forall key :: key in SeriesOf(groups, cs).value.entries ==> IsTag(key)
  {
    forall key | key in SeriesOf(groups, cs).value.entries ensures IsTag(key) {
      SeriesOfSound(groups, cs, key);
      var c :| c in cs && Produces(groups, c) && key == TagOf(groups, c)
        && ConvertAll(GetOr(groups, c, []), 1.0) == Ok(SeriesOf(groups, cs).value.entries[key]);
      var u := UnitOf(GetOr(groups, c, [])[0]).value;
      assert u in Units && key == Tag(c, u);
    }
  }

  /** A first value without a space never carries a unit. */
  lemma NoSpaceNoUnit(first: string)
    requires ' ' !in first
    ensures UnitOf(first).None?
  {
    SplitAbsent(first, ' ');
    LastPieceFree(first, '=', ' ');
    SplitAbsent(Last(Split(first, '=')), ' ');
  }

  /** Without the separator, a split has one piece: the whole string. */
  lemma SplitAbsent(s: string, c: char)
    requires c !in s
    ensures Split(s, c) == [s]
  {
  }

  /** A character absent from a string is absent from the last piece of
      any split of it. */
  lemma LastPieceFree(s: string, c: char, d: char)
    requires d !in s
    ensures d !in Last(Split(s, c))
  {
    var parts := Split(s, c);
    var piece := Last(parts);
    JoinSplit(s, c);
    forall i | 0 <= i < |piece| ensures piece[i] != d {
      JoinHasPieces(parts, c, |parts| - 1, i);
    }
  }

  /** Every character of a piece occurs in the join of the pieces. */
  lemma {:induction false} JoinHasPieces(parts: seq<string>, c: char, j: nat, i: nat)
    requires j < |parts| && i < |parts[j]|
    ensures parts[j][i] in Join(parts, c)
  {
    if |parts| == 1 {
    } else if j == 0 {
      assert Join(parts, c) == parts[0] + [c] + Join(parts[1..], c);
      assert Join(parts, c)[i] == parts[0][i];
    } else {
      JoinHasPieces(parts[1..], c, j - 1, i);
      var t := Join(parts[1..], c);
      var k :| 0 <= k < |t| && t[k] == parts[j][i];
      assert Join(parts, c) == parts[0] + [c] + t;
      assert Join(parts, c)[|parts[0]| + 1 + k] == t[k];
    }
  }

  /** Tags of distinct (category, unit) pairs differ: `format_data_old`
      never stores two categories under one key. */
  lemma TagInjective(c1: string, u1: string, c2: string, u2: string)
    requires u1 in Units && u2 in Units
    requires Tag(c1, u1) == Tag(c2, u2)
    ensures c1 == c2 && u1 == u2
  {
    var t := Tag(c1, u1);
    assert |u1| == 2 && |u2| == 2;
    assert |c1| == |c2|;
    assert c1 == t[..|c1|];
    assert c2 == t[..|c2|];
    assert u1 == t[|c1| + 2..|c1| + 4];
    assert u2 == t[|c2| + 2..|c2| + 4];
  }

  /** The categories that yield a series: at least two values, the first
      of which carries a unit. */
  predicate Produces(groups: Dict<seq<string>>, c: string) {
    var vs := GetOr(groups, c, []);
    |vs| >= 2 && UnitOf(vs[0]).Some?
  }

  /** The key such a category's series is stored under. */
  function TagOf(groups: Dict<seq<string>>, c: string): string
    requires Produces(groups, c)
  {
    Tag(c, UnitOf(GetOr(groups, c, [])[0]).value)
  }

  /** A category yields a series exactly when it `Produces` one; a single
      value, or a first value without a space, never does. */
  lemma CategorySeriesSome(groups: Dict<seq<string>>, c: string)
    requires CategorySeries(c, GetOr(groups, c, [])).Ok?
    ensures CategorySeries(c, GetOr(groups, c, [])).value.Some? <==> Produces(groups, c)
  {
    var vs := GetOr(groups, c, []);
    if vs != [] {
      SplitCount(vs[0], ' ');
      if ' ' !in vs[0] {
        NoSpaceNoUnit(vs[0]);
      }
    }
  }

  /** Every key `format_data_old` stores is the tag of one of the file's
      categories that produces a series, and holds that category's readings. */
  lemma {:induction false} SeriesOfSound(groups: Dict<seq<string>>, cs: seq<string>, key: string)
    requires SeriesOf(groups, cs).Ok?
    requires key in SeriesOf(groups, cs).value.entries
    ensures exists c :: (c in cs && Produces(groups, c) && key == TagOf(groups, c)
      && ConvertAll(GetOr(groups, c, []), 1.0) == Ok(SeriesOf(groups, cs).value.entries[key]))
  {
    if cs == [] {
      assert false;
    }
    var p, c0 := cs[..|cs| - 1], Last(cs);
    SeriesOfLast(groups, cs);
    var res := SeriesOf(groups, cs).value;
    var acc := SeriesOf(groups, p).value;
    var r := CategorySeries(c0, GetOr(groups, c0, []));
    CategorySeriesSome(groups, c0);
    if r.value.Some? && key == r.value.value.0 {
      assert res.entries[key] == r.value.value.1;
      assert c0 in cs && Produces(groups, c0) && key == TagOf(groups, c0);
    } else {
      assert key in acc.entries && res.entries[key] == acc.entries[key];
      SeriesOfSound(groups, p, key);
      var c :| c in p && Produces(groups, c) && key == TagOf(groups, c)
        && ConvertAll(GetOr(groups, c, []), 1.0) == Ok(acc.entries[key]);
      InInit(cs, c);
    }
  }

  /** When `format_data_old` succeeds, every category of the file that
      produces a series has it stored under its tag, holding the readings of
      all its values in order. */
  lemma SeriesOfComplete(groups: Dict<seq<string>>, cs: seq<string>, c: string)
    requires c in cs && Produces(groups, c)
    ensures SeriesOf(groups, cs).Ok? ==>
      && TagOf(groups, c) in SeriesOf(groups, cs).value.entries
      && ConvertAll(GetOr(groups, c, []), 1.0) == Ok(SeriesOf(groups, cs).value.entries[TagOf(groups, c)])
  {
    if SeriesOf(groups, cs).Ok? {
      StoredSeries(groups, cs, c);
    }
  }

  /** The induction behind `SeriesOfComplete`, over the categories of a
      successful run. */
  lemma {:induction false} StoredSeries(groups: Dict<seq<string>>, cs: seq<string>, c: string)
    requires SeriesOf(groups, cs).Ok?
    requires c in cs && Produces(groups, c)
    ensures TagOf(groups, c) in SeriesOf(groups, cs).value.entries
    ensures ConvertAll(GetOr(groups, c, []), 1.0) == Ok(SeriesOf(groups, cs).value.entries[TagOf(groups, c)])
  {
    var p, c0 := cs[..|cs| - 1], Last(cs);
    var r := CategorySeries(c0, GetOr(groups, c0, []));
    CategorySeriesSome(groups, c0);
    if c == c0 {
    } else {
      InFront(cs, c);
      StoredSeries(groups, p, c);
      if r.value.Some? {
        if TagOf(groups, c) == TagOf(groups, c0) {
          TagInjective(c, UnitOf(GetOr(groups, c, [])[0]).value, c0, UnitOf(GetOr(groups, c0, [])[0]).value);
        }
      }
    }
  }

  /** A string splits into one piece exactly when it lacks the separator. */
  lemma SplitCount(s: string, c: char)
    ensures |Split(s, c)| == 1 <==> c !in s
  {
    if c in s {
      var i := FirstIndex(s, c);
      var rest := Split(s[i + 1..], c);
      assert Split(s, c) == [s[..i]] + rest && |rest| >= 1;
    } else {
      assert Split(s, c) == [s];
    }
  }

  // ------------------------------------------------------------- accessors

  /** `str(TIME).replace(":", ";")`: the name of the folder a log is
      archived under. It has no `:` and keeps the length of the timestamp. */
  function FolderName(t: DateTime): (r: string)
    requires ValidDateTime(t)
    ensures ':' !in r && |r| == 19
  {
    ReplaceCharRemoves(FormatTime(t), ':', ';');
    ReplaceChar(FormatTime(t), ':', ';')
  }

  /** Turning the `;` of a folder name back into `:` gives the timestamp's
      text: the name loses nothing. */
  lemma FolderNameText(t: DateTime)
    requires ValidDateTime(t)
    ensures ReplaceChar(FolderName(t), ';', ':') == FormatTime(t)
  {
    var s := FormatTime(t);
    FormatTimeChars(t);
    var r := ReplaceChar(FolderName(t), ';', ':');
    forall i | 0 <= i < 19 ensures r[i] == s[i] {
      assert s[i] != ';';
    }
  }

  /** Logs taken at different times are archived under different names. */
  lemma FolderNameInjective(t: DateTime, u: DateTime)
    requires ValidDateTime(t) && ValidDateTime(u)
    requires FolderName(t) == FolderName(u)
    ensures t == u
  {
    FormatTimeChars(t);
    FormatTimeChars(u);
    ReplaceCharInjective(FormatTime(t), FormatTime(u), ':', ';');
    FormatTimeInjective(t, u);
  }

  /** `general_data["VERSION"] + "\n" + str(general_data["TIME"])`: a
      missing `VERSION` is a KeyError, and one that `format_general` made a
      number or a boolean cannot be added to text (TypeError). */
  function Identifier(g: Dict<Value>): (r: Result<string>)
    requires Formatted(g)
    ensures r == Err(KeyError("VERSION")) <==> "VERSION" !in g.entries
    ensures r.Ok? <==> "VERSION" in g.entries && g.entries["VERSION"].Str?
    ensures r.Ok? ==>
      && |r.value| == |g.entries["VERSION"].s| + 20
      && r.value[..|r.value| - 20] == g.entries["VERSION"].s
      && r.value[|r.value| - 20..] == "\n" + FormatTime(g.entries["TIME"].t)
  {
    if "VERSION" !in g.entries then Err(KeyError("VERSION"))
    else
      match g.entries["VERSION"]
      case Str(version) => Ok(version + "\n" + FormatTime(g.entries["TIME"].t))
      case _ => Err(TypeError)
  }

  /** Two logs with the same identifier have the same version and time. */
  lemma IdentifierInjective(g: Dict<Value>, h: Dict<Value>)
    requires Formatted(g) && Formatted(h)
    requires Identifier(g).Ok? && Identifier(g) == Identifier(h)
    ensures g.entries["VERSION"] == h.entries["VERSION"]
    ensures g.entries["TIME"] == h.entries["TIME"]
  {
    var r := Identifier(g).value;
    var t, u := g.entries["TIME"].t, h.entries["TIME"].t;
    assert FormatTime(t) == r[|r| - 19..] == FormatTime(u);
    FormatTimeInjective(t, u);
  }
}
