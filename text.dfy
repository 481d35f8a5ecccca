/** Failure-compatible wrappers: an optional value, and the Python exceptions
    that the modelled code raises without catching them. */
module Wrappers {

  datatype Option<T> = None | Some(value: T)

  /** The exceptions that escape the modelled functions. */
  datatype PyError =
    | KeyError(key: string)
    | ValueError
    | IndexError
    | TypeError
    | ZeroDivisionError

  /** A computed value, or the exception that aborted the computation. */
  datatype Result<T> = Ok(value: T) | Err(error: PyError)

  /** The outcome of a procedure that returns nothing when it succeeds. */
  datatype Outcome = Pass | Fail(error: PyError)
}

/** The Python string and list primitives the log parser is built from:
    `str.isspace`, `str.strip`, `str.split(sep)`, `str.split(sep, 1)`,
    `str.replace` of one character, and "append if not already present". */
module Text {

  /** Python's `str.isspace()` for one character. */
  predicate IsSpace(c: char) {
    || c == ' '
    || '\t' <= c <= '\r'
    || '\U{1c}' <= c <= '\U{1f}'
    || c == '\U{85}'
    || c == '\U{a0}'
    || c == '\U{1680}'
    || '\U{2000}' <= c <= '\U{200a}'
    || c == '\U{2028}'
    || c == '\U{2029}'
    || c == '\U{202f}'
    || c == '\U{205f}'
    || c == '\U{3000}'
  }

  /** `s.lstrip()`: drops the leading run of whitespace. */
  function StripLeft(s: string): (r: string)
    ensures |r| <= |s| && r == s[|s| - |r|..]
    ensures r == [] || !IsSpace(r[0])
    decreases |s|
  {
    if |s| > 0 && IsSpace(s[0]) then StripLeft(s[1..]) else s
  }

  /** `s.rstrip()`: drops the trailing run of whitespace. */
  function StripRight(s: string): (r: string)
    ensures |r| <= |s| && r == s[..|r|]
    ensures r == [] || !IsSpace(r[|r| - 1])
    decreases |s|
  {
    if |s| > 0 && IsSpace(s[|s| - 1]) then StripRight(s[..|s| - 1]) else s
  }

  /** Only whitespace is dropped on the left. */
  lemma {:induction false} StripLeftDrops(s: string)
    ensures forall i :: 0 <= i < |s| - |StripLeft(s)| ==> IsSpace(s[i])
    decreases |s|
  {
    if |s| > 0 && IsSpace(s[0]) {
      StripLeftDrops(s[1..]);
      assert forall i :: 1 <= i < |s| - |StripLeft(s)| ==> s[i] == s[1..][i - 1];
    }
  }

  /** Only whitespace is dropped on the right. */
  lemma {:induction false} StripRightDrops(s: string)
    ensures forall i :: |StripRight(s)| <= i < |s| ==> IsSpace(s[i])
    decreases |s|
  {
    if |s| > 0 && IsSpace(s[|s| - 1]) {
      StripRightDrops(s[..|s| - 1]);
    }
  }

  /** `s.strip()`. */
  function Strip(s: string): (r: string)
  {
    StripRight(StripLeft(s))
  }

  /** Stripping keeps every character that is not whitespace: in particular
      a line that contains `:` still contains it once stripped. */
  lemma StripKeeps(s: string, c: char)
    requires !IsSpace(c)
    ensures (c in Strip(s)) <==> (c in s)
  {
    StripLeftKeeps(s, c);
    StripRightKeeps(StripLeft(s), c);
  }

  lemma StripLeftKeeps(s: string, c: char)
    requires !IsSpace(c)
    ensures (c in StripLeft(s)) <==> (c in s)
  {
    var d := |s| - |StripLeft(s)|;
    StripLeftDrops(s);
    forall i | 0 <= i < d ensures s[i] != c {
    }
    InSuffix(s, d, c);
  }

  /** Dropping a prefix that lacks `c` keeps `c` in or out. */
  lemma InSuffix(s: string, d: nat, c: char)
    requires d <= |s| && forall i :: 0 <= i < d ==> s[i] != c
    ensures (c in s[d..]) <==> (c in s)
  {
    if c in s {
      var i :| 0 <= i < |s| && s[i] == c;
      assert s[d..][i - d] == s[i];
    }
    if c in s[d..] {
      var j :| 0 <= j < |s| - d && s[d..][j] == c;
      assert s[j + d] == c;
    }
  }

  lemma StripRightKeeps(s: string, c: char)
    requires !IsSpace(c)
    ensures (c in StripRight(s)) <==> (c in s)
  {
    var r := StripRight(s);
    StripRightDrops(s);
    forall i | |r| <= i < |s| ensures s[i] != c {
    }
    if c in s {
      var i :| 0 <= i < |s| && s[i] == c;
      assert r[i] == s[i];
    }
    if c in r {
      var j :| 0 <= j < |r| && r[j] == c;
      assert s[j] == r[j];
    }
  }

  /** A string that neither starts nor ends with whitespace is its own strip. */
  lemma StripTrimmed(s: string)
    requires s == [] || (!IsSpace(s[0]) && !IsSpace(s[|s| - 1]))
    ensures Strip(s) == s
  {
  }

  /** Index of the first occurrence of `c` in `s`. */
  function FirstIndex(s: string, c: char): (i: nat)
    requires c in s
    ensures i < |s| && s[i] == c
  {
    if s[0] == c then 0 else 1 + FirstIndex(s[1..], c)
  }

  /** No occurrence of `c` precedes its first index. */
  lemma {:induction false} FirstIndexFirst(s: string, c: char)
    requires c in s
    ensures c !in s[..FirstIndex(s, c)]
  {
    if s[0] != c {
      FirstIndexFirst(s[1..], c);
      assert s[..FirstIndex(s, c)] == [s[0]] + s[1..][..FirstIndex(s[1..], c)];
    }
  }

  /** `s.split(c, 1)` for a string that contains `c`: the text before the
      first `c` and the text after it. */
  function SplitFirst(s: string, c: char): (r: (string, string))
    requires c in s
    ensures c !in r.0
    ensures r.0 + [c] + r.1 == s
  {
    var i := FirstIndex(s, c);
    FirstIndexFirst(s, c);
    assert s == s[..i] + [c] + s[i + 1..];
    (s[..i], s[i + 1..])
  }

  /** `s.split(c)` with an explicit one-character separator: the pieces
      between consecutive occurrences of `c` (empty pieces included). */
  function Split(s: string, c: char): (parts: seq<string>)
    ensures |parts| >= 1
    decreases |s|
  {
    if c in s then
      var i := FirstIndex(s, c);
      [s[..i]] + Split(s[i + 1..], c)
    else
      [s]
  }

  /** `c.join(parts)`. */
  function Join(parts: seq<string>, c: char): string
  {
    if |parts| == 0 then ""
    else if |parts| == 1 then parts[0]
    else parts[0] + [c] + Join(parts[1..], c)
  }

  function Last<T>(s: seq<T>): T
    requires |s| > 0
  {
    s[|s| - 1]
  }

  /** No piece of a split contains the separator. */
  lemma {:induction false} SplitPiecesFree(s: string, c: char)
    ensures forall p :: p in Split(s, c) ==> c !in p
    decreases |s|
  {
    if c in s {
      var i := FirstIndex(s, c);
      FirstIndexFirst(s, c);
      SplitPiecesFree(s[i + 1..], c);
      assert Split(s, c) == [s[..i]] + Split(s[i + 1..], c);
    }
  }

  /** Joining the pieces of a split with the separator gives back the string. */
  lemma {:induction false} JoinSplit(s: string, c: char)
    ensures Join(Split(s, c), c) == s
    decreases |s|
  {
    if c in s {
      var i := FirstIndex(s, c);
      var rest := Split(s[i + 1..], c);
      JoinSplit(s[i + 1..], c);
      assert Split(s, c) == [s[..i]] + rest;
      assert ([s[..i]] + rest)[1..] == rest;
      assert s == s[..i] + [c] + s[i + 1..];
    }
  }

  /** The first occurrence of `c` is at `j` when `s[j] == c` and no `c` precedes it. */
  lemma {:induction false} FirstIndexAt(s: string, c: char, j: nat)
    requires j < |s| && s[j] == c && c !in s[..j]
    ensures FirstIndex(s, c) == j
  {
    if s[0] != c {
      assert s[1..][..j - 1] == s[1..j];
      assert s[..j] == [s[0]] + s[1..j];
      FirstIndexAt(s[1..], c, j - 1);
    }
  }

  /** Splitting a join of separator-free pieces gives back the pieces. */
  lemma {:induction false} SplitJoin(parts: seq<string>, c: char)
    requires |parts| >= 1
    requires forall p :: p in parts ==> c !in p
    ensures Split(Join(parts, c), c) == parts
  {
    if |parts| == 1 {
      assert Join(parts, c) == parts[0];
    } else {
      var s := Join(parts, c);
      var tail := Join(parts[1..], c);
      var i := |parts[0]|;
      assert s == parts[0] + [c] + tail;
      assert s[..i] == parts[0] && s[i] == c && s[i + 1..] == tail;
      assert parts[0] in parts;
      FirstIndexAt(s, c, i);
      assert Split(s, c) == [parts[0]] + Split(tail, c);
      assert forall p :: p in parts[1..] ==> p in parts;
      SplitJoin(parts[1..], c);
      assert parts == [parts[0]] + parts[1..];
    }
  }

  /** The piece after the last separator of `a + [c] + t` is `t` when `t`
      has no separator: `(a + c + t).split(c)[-1] == t`. */
  lemma {:induction false} SplitLastPiece(a: string, c: char, t: string)
    requires c !in t
    ensures Last(Split(a + [c] + t, c)) == t
    decreases |a|
  {
    var s := a + [c] + t;
    var j := if c in a then FirstIndex(a, c) else |a|;
    if c in a {
      FirstIndexFirst(a, c);
    }
    assert s[..j] == a[..j];
    assert s[j] == c;
    FirstIndexAt(s, c, j);
    var rest := Split(s[j + 1..], c);
    assert Split(s, c) == [s[..j]] + rest;
    assert Last(Split(s, c)) == Last(rest);
    if c in a {
      assert s[j + 1..] == a[j + 1..] + [c] + t;
      SplitLastPiece(a[j + 1..], c, t);
    } else {
      assert s[j + 1..] == t;
    }
  }

  /** The first piece of a split is the text before the first separator. */
  lemma SplitFirstPiece(s: string, c: char)
    requires c in s
    ensures Split(s, c)[0] == SplitFirst(s, c).0
  {
  }

  /** `s.replace(a, b)` for one-character `a` and `b`. */
  function ReplaceChar(s: string, a: char, b: char): (r: string)
    ensures |r| == |s|
  {
    seq(|s|, i requires 0 <= i < |s| => if s[i] == a then b else s[i])
  }

  /** After replacing every `a` by a different `b`, no `a` is left, and every
      other character is where it was. */
  lemma ReplaceCharRemoves(s: string, a: char, b: char)
    requires a != b
    ensures a !in ReplaceChar(s, a, b)
    ensures forall i :: 0 <= i < |s| && s[i] != a ==> ReplaceChar(s, a, b)[i] == s[i]
  {
    var r := ReplaceChar(s, a, b);
    assert forall i :: 0 <= i < |r| ==> r[i] != a;
  }

  /** Replacing `a` by `b` loses no information on strings that contain no `b`. */
  lemma ReplaceCharInjective(s: string, t: string, a: char, b: char)
    requires b !in s && b !in t
    requires ReplaceChar(s, a, b) == ReplaceChar(t, a, b)
    ensures s == t
  {
    var rs, rt := ReplaceChar(s, a, b), ReplaceChar(t, a, b);
    assert |s| == |t|;
    forall i | 0 <= i < |s| ensures s[i] == t[i] {
      assert rs[i] == rt[i];
      assert s[i] in s && t[i] in t;
    }
  }

  /** The first `i + 1` entries are the first `i` followed by entry `i`. */
  lemma TakeSnoc<T>(s: seq<T>, i: nat)
    requires i < |s|
    ensures s[..i + 1] == s[..i] + [s[i]]
  {
  }

  /** Appending an element after a concatenation appends it to its last part. */
  lemma AppendSnoc<T>(x: seq<T>, q: seq<T>, d: T)
    ensures x + (q + [d]) == (x + q) + [d]
  {
  }

  /** A list that agrees with `f` position by position keeps doing so
      when the next value of `f` is appended. */
  lemma SnocAgrees<T>(s: seq<T>, x: T, f: nat -> T)
    requires forall r :: 0 <= r < |s| ==> s[r] == f(r)
    requires x == f(|s|)
    ensures forall r :: 0 <= r < |s| + 1 ==> (s + [x])[r] == f(r)
  {
  }

  /** A property holds of every element of `s` exactly when it holds of
      every element of its front `p` and of its last element. */
  lemma AllSnoc<T>(s: seq<T>, p: seq<T>, P: T -> bool)
    requires s != [] && p == s[..|s| - 1]
    ensures (forall i :: 0 <= i < |s| ==> P(s[i])) <==> (forall i :: 0 <= i < |p| ==> P(p[i])) && P(s[|s| - 1])
  {
    assert forall i :: 0 <= i < |p| ==> p[i] == s[i];
  }

  /** An element of all but the last entry of `s` is an element of `s`. */
  lemma InInit<T>(s: seq<T>, x: T)
    requires s != [] && x in s[..|s| - 1]
    ensures x in s
  {
    var i :| 0 <= i < |s| - 1 && s[..|s| - 1][i] == x;
    assert s[i] == x;
  }

  /** An element of `s` other than its last one is in the front of `s`. */
  lemma InFront<T>(s: seq<T>, x: T)
    requires s != [] && x in s && x != s[|s| - 1]
    ensures x in s[..|s| - 1]
  {
    var i :| 0 <= i < |s| && s[i] == x;
    assert s[..|s| - 1][i] == x;
  }

  /** `s` has no element twice. */
  predicate NoDup<T(==)>(s: seq<T>) {
    forall i, j :: 0 <= i < j < |s| ==> s[i] != s[j]
  }

  /** The elements of `s` in first-seen order, each once: the list built by
      appending each element of `s` that is not in the list yet. */
  function Dedup<T(==)>(s: seq<T>): seq<T>
  {
    if s == [] then []
    else
      var d := Dedup(s[..|s| - 1]);
      if Last(s) in d then d else d + [Last(s)]
  }

  /** The de-duplicated list has no duplicates and the same elements. */
  lemma {:induction false} DedupSpec<T>(s: seq<T>)
    ensures NoDup(Dedup(s))
    ensures forall x :: x in Dedup(s) <==> x in s
  {
    if s != [] {
      var p := s[..|s| - 1];
      DedupSpec(p);
      assert s == p + [Last(s)];
    }
  }

  /** Appending one element extends the de-duplicated list by it, unless the
      element was seen before. */
  lemma DedupSnoc<T>(s: seq<T>, x: T)
    ensures Dedup(s + [x]) == if x in Dedup(s) then Dedup(s) else Dedup(s) + [x]
  {
    assert (s + [x])[..|s|] == s;
  }

  /** On a list without duplicates, de-duplication changes nothing. */
  lemma {:induction false} DedupOfDistinct<T>(s: seq<T>)
    requires NoDup(s)
    ensures Dedup(s) == s
  {
    if s != [] {
      var p := s[..|s| - 1];
      assert NoDup(p);
      DedupOfDistinct(p);
      DedupSpec(p);
      assert Last(s) !in p;
      assert s == p + [Last(s)];
    }
  }
}
