/** The helpers of functions.py that the log model uses: the best-effort
    scalar conversion `try_int_float_convert`, and the rule by which one
    answer typed at the `input_int` / `input_str` prompts is accepted or
    rejected (the prompts themselves repeat that rule until an answer is
    accepted). */
module Functions {
  import opened Wrappers
  import opened Text
  import opened PyValues

  /** `try_int_float_convert(value)`: a text with a `.` is tried as a float,
      any other text as an int; when the conversion raises ValueError the
      text itself comes back. */
  function TryIntFloatConvert(value: string): (r: Value)
    ensures r.Str? || r.Int? || r.Float?
    ensures r.Str? ==> r.s == value
    ensures r.Float? ==> '.' in value && ParseFloat(value) == Some(r.x)
    ensures r.Int? ==> '.' !in value && ParseInt(value) == Some(r.i)
  {
    if '.' in value then
      match ParseFloat(value)
      case Some(x) => Float(x)
      case None => Str(value)
    else
      match ParseInt(value)
      case Some(n) => Int(n)
      case None => Str(value)
  }

  /** The text is kept exactly when the conversion its `.` selects fails. */
  lemma ConvertKeepsTextIff(value: string)
    ensures TryIntFloatConvert(value).Str? <==>
      (if '.' in value then ParseFloat(value).None? else ParseInt(value).None?)
  {
  }

  /** An int's own text converts back to that int. */
  lemma ConvertIntText(n: int)
    ensures TryIntFloatConvert(FormatInt(n)) == Int(n)
  {
    var s := FormatInt(n);
    var m: nat := if n < 0 then -n else n;
    assert '.' !in NatDigits(m) by {
      var d := NatDigits(m);
      assert forall i :: 0 <= i < |d| ==> IsDigit(d[i]);
    }
    assert n < 0 ==> s == "-" + NatDigits(m);
    ParseFormatInt(n);
  }

  /** What one answer at a prompt leads to: the prompt returns `value`, or
      prints `message` and asks again. */
  datatype Attempt<T> = Accept(value: T) | Retry(message: string)

  /** The smallest number `input_int` accepts. */
  function LowerLimit(allowZero: bool): int {
    if allowZero then 0 else 1
  }

  /** One round of `input_int(high, prompt, allow_zero)` on the answer `answer`:
      an empty answer returns None; a number from the lower limit up to `high`
      is returned; anything else asks again. */
  function InputIntAttempt(answer: string, high: int, allowZero: bool): (r: Attempt<Option<int>>)
    ensures r == Accept(None) <==> answer == ""
    ensures r.Accept? && r.value.Some? ==>
      ParseInt(answer) == r.value && LowerLimit(allowZero) <= r.value.value <= high
    ensures (answer != "" && ParseInt(answer).Some? &&
             LowerLimit(allowZero) <= ParseInt(answer).value <= high) ==> r == Accept(ParseInt(answer))
  {
    if answer == "" then Accept(None)
    else
      match ParseInt(answer)
      case None => Retry("-----invalid number-----")
      case Some(n) =>
        if n > high || n < LowerLimit(allowZero) then Retry("-----number not in range-----")
        else Accept(Some(n))
  }

  /** One round of `input_str(allowed, exclude, noneAllowed)` on the answer
      `answer`: an empty answer returns `""` when that is allowed; otherwise
      the answer must be the 1-based number of an allowed option that is not
      excluded, and that option is returned. */
  function InputStrAttempt(answer: string, allowed: seq<string>, exclude: seq<string>, noneAllowed: bool)
    : (r: Attempt<string>)
    ensures noneAllowed && answer == "" ==> r == Accept("")
    ensures r.Accept? && !(noneAllowed && answer == "") ==>
      && ParseInt(answer).Some?
      && 1 <= ParseInt(answer).value <= |allowed|
      && r.value == allowed[ParseInt(answer).value - 1]
      && r.value !in exclude
    ensures (!(noneAllowed && answer == "") && ParseInt(answer).Some? &&
             1 <= ParseInt(answer).value <= |allowed| &&
             allowed[ParseInt(answer).value - 1] !in exclude) ==>
      r == Accept(allowed[ParseInt(answer).value - 1])
  {
    if noneAllowed && answer == "" then Accept("")
    else
      match ParseInt(answer)
      case None => Retry("\n-----not a number, try again-----\n")
      case Some(n) =>
        if n > |allowed| || n <= 0 then Retry("\n-----number not in range, try again-----\n")
        else if allowed[n - 1] in exclude then Retry("\n-----already selected, try again-----\n")
        else Accept(allowed[n - 1])
  }
}
