/** The string operations of Python's `str` and JavaScript's `String` that the
    call-hierarchy engine (main.py) and its front end (static/script.js) rely
    on, written out on `seq<char>`. */
module Text {
  import opened Wrappers

  /** Python's `str.isspace` for one code point. */
  predicate PyIsSpace(c: char) {
    var n := c as int;
    (0x09 <= n <= 0x0D) || (0x1C <= n <= 0x20) || n == 0x85 || n == 0xA0 || n == 0x1680
    || (0x2000 <= n <= 0x200A) || n == 0x2028 || n == 0x2029 || n == 0x202F || n == 0x205F
    || n == 0x3000
  }

  /** JavaScript's white space and line terminators (`\s`, `String.prototype.trim`). */
  predicate JsIsSpace(c: char) {
    var n := c as int;
    (0x09 <= n <= 0x0D) || n == 0x20 || n == 0xA0 || n == 0x1680
    || (0x2000 <= n <= 0x200A) || n == 0x2028 || n == 0x2029 || n == 0x202F || n == 0x205F
    || n == 0x3000 || n == 0xFEFF
  }

  /** `s` without its leading run of `space` characters. */
  function TrimStart(s: string, space: char -> bool): (r: string)
    ensures |r| <= |s| && r == s[|s| - |r|..]
    ensures r == [] || !space(r[0])
    ensures forall i :: 0 <= i < |s| - |r| ==> space(s[i])
  {
    if s != [] && space(s[0]) then TrimStart(s[1..], space) else s
  }

  /** `s` without its trailing run of `space` characters. */
  function TrimEnd(s: string, space: char -> bool): (r: string)
    ensures |r| <= |s| && r == s[..|r|]
    ensures r == [] || !space(r[|r| - 1])
    ensures forall i :: |r| <= i < |s| ==> space(s[i])
  {
    if s != [] && space(s[|s| - 1]) then TrimEnd(s[..|s| - 1], space) else s
  }

  function Trim(s: string, space: char -> bool): string {
    TrimEnd(TrimStart(s, space), space)
  }

  /** Python's `str.strip()`. */
  function Strip(s: string): string {
    Trim(s, PyIsSpace)
  }

  /** JavaScript's `String.prototype.trim()`. */
  function JsTrim(s: string): string {
    Trim(s, JsIsSpace)
  }

  /** Trimming twice is trimming once: the first character left is not a space
      and neither is the last. */
  lemma TrimIdempotent(s: string, space: char -> bool)
    ensures Trim(Trim(s, space), space) == Trim(s, space)
  {
    var t := TrimStart(s, space);
    var u := TrimEnd(t, space);
    if u != [] {
      assert u[0] == t[0];
    }
    assert TrimStart(u, space) == u;
  }

  lemma StripIdempotent(s: string)
    ensures Strip(Strip(s)) == Strip(s)
  {
    TrimIdempotent(s, PyIsSpace);
  }

  predicate StartsWith(s: string, prefix: string) {
    |prefix| <= |s| && s[..|prefix|] == prefix
  }

  /** The index of the first `c` in `s`, if any. */
  function IndexOf(s: string, c: char): (r: Option<nat>)
    ensures r.None? <==> c !in s
    ensures r.Some? ==> r.value < |s| && s[r.value] == c && c !in s[..r.value]
  {
    if s == [] then None
    else if s[0] == c then Some(0)
    else match IndexOf(s[1..], c)
      case None => None
      case Some(i) =>
        assert s[..i + 1] == [s[0]] + s[1..][..i];
        Some(i + 1)
  }

  /** The parts glued back together with `sep` between them (Python's `sep.join`). */
  function Join(parts: seq<string>, sep: char): string
    requires |parts| >= 1
  {
    if |parts| == 1 then parts[0] else parts[0] + [sep] + Join(parts[1..], sep)
  }

  /** Python's `s.split(sep, maxsplit)` for a one-character separator: split at
      the first `maxsplit` occurrences of `sep`, or at all of them when
      `maxsplit` is negative (Python's default of -1). */
  function Split(s: string, sep: char, maxsplit: int): (parts: seq<string>)
    ensures |parts| >= 1
    ensures maxsplit >= 0 ==> |parts| <= maxsplit + 1
    ensures forall k :: 0 <= k < |parts| - 1 ==> sep !in parts[k]
    ensures maxsplit < 0 || |parts| <= maxsplit ==> sep !in parts[|parts| - 1]
    decreases |s|
  {
    if maxsplit == 0 then [s]
    else match IndexOf(s, sep)
      case None => [s]
      case Some(i) => [s[..i]] + Split(s[i + 1..], sep, if maxsplit < 0 then maxsplit else maxsplit - 1)
  }

  /** Splitting at the first separator: the part before it, then the split of
      the rest with one split fewer. */
  lemma SplitAt(s: string, sep: char, maxsplit: int, i: nat)
    requires maxsplit != 0 && IndexOf(s, sep) == Some(i)
    ensures Split(s, sep, maxsplit)
            == [s[..i]] + Split(s[i + 1..], sep, if maxsplit < 0 then maxsplit else maxsplit - 1)
  {
  }

  /** Splitting loses nothing: joining the parts with the separator gives the
      string back. */
  lemma {:induction false} SplitJoin(s: string, sep: char, maxsplit: int)
    ensures Join(Split(s, sep, maxsplit), sep) == s
    decreases |s|
  {
    var idx := IndexOf(s, sep);
    if maxsplit != 0 && idx.Some? {
      var i := idx.value;
      var rest := if maxsplit < 0 then maxsplit else maxsplit - 1;
      var tail := Split(s[i + 1..], sep, rest);
      assert Split(s, sep, maxsplit) == [s[..i]] + tail;
      SplitJoin(s[i + 1..], sep, rest);
      JoinCons(s[..i], tail, sep);
      Around(s, i);
    }
  }

  lemma Around(s: string, i: nat)
    requires i < |s|
    ensures s[..i] + [s[i]] + s[i + 1..] == s
  {
  }

  lemma JoinCons(a: string, tail: seq<string>, sep: char)
    requires |tail| >= 1
    ensures Join([a] + tail, sep) == a + [sep] + Join(tail, sep)
  {
    assert ([a] + tail)[1..] == tail;
  }

  /** Only a string made of spaces strips to nothing. */
  lemma TrimEmpty(s: string, space: char -> bool)
    requires Trim(s, space) == []
    ensures forall i :: 0 <= i < |s| ==> space(s[i])
  {
  }

  /** Splitting at a first separator that follows a separator-free prefix
      yields that prefix, then the split of the rest with one split fewer. */
  lemma SplitAfter(a: string, sep: char, b: string, maxsplit: int)
    requires sep !in a && maxsplit != 0
    ensures Split(a + [sep] + b, sep, maxsplit)
            == [a] + Split(b, sep, if maxsplit < 0 then maxsplit else maxsplit - 1)
  {
    var s := a + [sep] + b;
    assert s[|a|] == sep;
    assert s[..|a|] == a;
    assert s[|a| + 1..] == b;
    assert IndexOf(s, sep) == Some(|a|);
  }

  /** Python's `s.replace(c, "")` for one character. */
  function Remove(s: string, c: char): (r: string)
    ensures c !in r
    ensures |r| <= |s|
    ensures forall d :: d in r <==> d in s && d != c
    ensures |s| == 1 ==> r == if s[0] == c then [] else s
  {
    if s == [] then []
    else (if s[0] == c then [] else [s[0]]) + Remove(s[1..], c)
  }

  /** Removal works character by character: the parts of a string, each
      with `c` removed, in order, make up the string with `c` removed. */
  lemma {:induction false} RemoveAppend(a: string, b: string, c: char)
    ensures Remove(a + b, c) == Remove(a, c) + Remove(b, c)
    decreases |a|
  {
    if a == [] {
      assert a + b == b;
    } else {
      assert (a + b)[0] == a[0] && (a + b)[1..] == a[1..] + b;
      RemoveAppend(a[1..], b, c);
    }
  }

  predicate IsDigit(c: char) {
    '0' <= c <= '9'
  }

  predicate AllDigits(s: string) {
    forall i :: 0 <= i < |s| ==> IsDigit(s[i])
  }

  /** The decimal value of a string of ASCII digits (leading zeros allowed). */
  function DigitsValue(s: string): nat
    requires AllDigits(s)
  {
    if s == [] then 0 else 10 * DigitsValue(s[..|s| - 1]) + (s[|s| - 1] as int - '0' as int)
  }

  /** The decimal rendering of `n`, as Python's `str(n)` and JavaScript's
      template strings produce it. */
  function NatToString(n: nat): (s: string)
    ensures |s| >= 1 && AllDigits(s)
  {
    var d := ['0' + (n % 10) as char];
    if n < 10 then d else NatToString(n / 10) + d
  }

  lemma {:induction false} NatToStringValue(n: nat)
    ensures DigitsValue(NatToString(n)) == n
  {
    var s := NatToString(n);
    if n >= 10 {
      NatToStringValue(n / 10);
      assert s[..|s| - 1] == NatToString(n / 10);
    }
  }

  /** Two numbers with the same decimal rendering are equal. */
  lemma NatToStringInjective(a: nat, b: nat)
    requires NatToString(a) == NatToString(b)
    ensures a == b
  {
    NatToStringValue(a);
    NatToStringValue(b);
  }

  /** The body of a Python integer literal accepted by `int()`: ASCII digits,
      optionally grouped by single underscores between digits. */
  predicate IsDigitGroups(s: string) {
    && |s| >= 1
    && IsDigit(s[0]) && IsDigit(s[|s| - 1])
    && (forall i :: 0 <= i < |s| ==> IsDigit(s[i]) || s[i] == '_')
    && (forall i :: 0 <= i < |s| - 1 ==> IsDigit(s[i]) || IsDigit(s[i + 1]))
  }

  /** The white space `int()` skips around a number: the ASCII characters
      " \t\n\v\f\r" and the non-ASCII white space of `str.isspace`. Unlike
      `str.strip`, it does not skip the separators U+001C to U+001F. */
  predicate PyIntSpace(c: char) {
    PyIsSpace(c) && !(0x1C <= c as int <= 0x1F)
  }

  /** Python's `int(s)` on a `str`: surrounding white space, an optional sign
      and a decimal body; `None` where Python raises `ValueError`. */
  function PyInt(s: string): (r: Option<int>)
  {
    var t := Trim(s, PyIntSpace);
    var negative := |t| >= 1 && t[0] == '-';
    var body := if |t| >= 1 && (t[0] == '-' || t[0] == '+') then t[1..] else t;
    if IsDigitGroups(body) then
      var digits := Remove(body, '_');
      assert AllDigits(digits) by {
        forall i | 0 <= i < |digits| ensures IsDigit(digits[i]) {
          assert digits[i] in body;
        }
      }
      var v: int := DigitsValue(digits);
      Some(if negative then -v else v)
    else None
  }

  /** A non-empty run of ASCII digits is read by `int()` as its decimal value;
      the empty string is refused. */
  lemma PyIntOfDigits(s: string)
    requires AllDigits(s)
    ensures PyInt(s) == (if s == [] then None else Some(DigitsValue(s)))
  {
    if s != [] {
      TrimDigits(s);
      assert s[0] != '-' && s[0] != '+';
      assert IsDigitGroups(s);
      RemoveAbsent(s, '_');
    }
  }

  lemma TrimDigits(s: string)
    requires s != [] && AllDigits(s)
    ensures Trim(s, PyIntSpace) == s
  {
    assert !PyIntSpace(s[0]);
    assert TrimStart(s, PyIntSpace) == s;
    assert !PyIntSpace(s[|s| - 1]);
  }

  /** `int()` refuses a number after an information separator: `int("\x1c1")`
      raises. */
  lemma PyIntRefusesSeparator(d: string)
    requires AllDigits(d)
    ensures PyInt("\U{1C}" + d) == None
  {
    var s := "\U{1C}" + d;
    assert !PyIntSpace(s[0]);
    assert !PyIntSpace(s[|s| - 1]) by {
      if d != [] {
        assert s[|s| - 1] == d[|d| - 1];
      }
    }
    assert TrimStart(s, PyIntSpace) == s;
    assert Trim(s, PyIntSpace) == s;
    assert !IsDigitGroups(s);
  }

  /** `str.strip()`, by contrast, removes the separator. */
  lemma StripRemovesSeparator(d: string)
    requires AllDigits(d)
    ensures Strip("\U{1C}" + d) == d
  {
    TrimStartSpace('\U{1C}', d, PyIsSpace);
    StripDigits(d);
  }

  lemma TrimStartSpace(c: char, s: string, space: char -> bool)
    requires space(c)
    ensures TrimStart([c] + s, space) == TrimStart(s, space)
  {
    assert ([c] + s)[1..] == s;
  }

  lemma StripDigits(s: string)
    requires AllDigits(s)
    ensures Strip(s) == s
  {
    if s != [] {
      assert !PyIsSpace(s[0]);
      assert TrimStart(s, PyIsSpace) == s;
      assert !PyIsSpace(s[|s| - 1]);
    }
  }

  lemma {:induction false} RemoveAbsent(s: string, c: char)
    requires c !in s
    ensures Remove(s, c) == s
  {
    if s != [] {
      RemoveAbsent(s[1..], c);
    }
  }

  /** JavaScript's `String.prototype.length`: the number of UTF-16 code units,
      two for each code point above U+FFFF. */
  function JsLength(s: string): (n: nat)
    ensures |s| <= n <= 2 * |s|
  {
    if s == [] then 0 else JsLength(s[..|s| - 1]) + (if s[|s| - 1] as int > 0xFFFF then 2 else 1)
  }
}
