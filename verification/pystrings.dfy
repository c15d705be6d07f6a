/**
 The handful of Python `str` operations the server relies on, written out
 with Python's semantics: `startswith`, `endswith`, `removeprefix`, the
 substring test `in`, `replace`, `split("/")` and its last element, and
 `int()` on a decimal string or a decoded value.
 */
module PyStrings {
  import opened Values

  predicate StartsWith(s: string, prefix: string) {
    |prefix| <= |s| && s[..|prefix|] == prefix
  }

  predicate EndsWith(s: string, suffix: string) {
    |suffix| <= |s| && s[|s| - |suffix|..] == suffix
  }

  /** `s.removeprefix(prefix)`: drops the prefix once, if it is there. */
  function RemovePrefix(s: string, prefix: string): (r: string)
    ensures StartsWith(s, prefix) ==> prefix + r == s
    ensures !StartsWith(s, prefix) ==> r == s
  {
    if StartsWith(s, prefix) then s[|prefix|..] else s
  }

  /** `needle in hay` for two strings. */
  predicate Occurs(needle: string, hay: string)
    decreases |hay|
  {
    StartsWith(hay, needle) || (|hay| > 0 && Occurs(needle, hay[1..]))
  }

  /** `s.replace("", sep)`: `sep` before every character and once at the end. */
  function Interleave(s: string, sep: string): string
    decreases |s|
  {
    if s == [] then sep else sep + [s[0]] + Interleave(s[1..], sep)
  }

  /** `s.replace(pattern, replacement)`: every non-overlapping occurrence of `pattern`,
      scanning left to right, is replaced by `replacement`. */
  function Replace(s: string, pattern: string, replacement: string): string
    decreases |s|
  {
    if pattern == [] then Interleave(s, replacement)
    else if StartsWith(s, pattern) then replacement + Replace(s[|pattern|..], pattern, replacement)
    else if s == [] then []
    else [s[0]] + Replace(s[1..], pattern, replacement)
  }

  /** A string in which `pattern` does not occur is left as it is. */
  lemma {:induction false} ReplaceAbsent(s: string, pattern: string, replacement: string)
    requires pattern != [] && !Occurs(pattern, s)
    ensures Replace(s, pattern, replacement) == s
    decreases |s|
  {
    if s != [] {
      ReplaceAbsent(s[1..], pattern, replacement);
      assert [s[0]] + s[1..] == s;
    }
  }

  lemma {:induction false} InterleaveEmpty(s: string)
    ensures Interleave(s, []) == s
    decreases |s|
  {
    if s != [] {
      InterleaveEmpty(s[1..]);
      assert [s[0]] + s[1..] == s;
    }
  }

  /** Replacing a string by itself changes nothing. */
  lemma {:induction false} ReplaceIdentity(s: string, k: string)
    ensures Replace(s, k, k) == s
    decreases |s|
  {
    if k == [] {
      InterleaveEmpty(s);
    } else if StartsWith(s, k) {
      ReplaceIdentity(s[|k|..], k);
      assert k + s[|k|..] == s;
    } else if s != [] {
      ReplaceIdentity(s[1..], k);
      assert [s[0]] + s[1..] == s;
    }
  }

  /** `s.split("/")[-1]`: everything after the last slash, or all of `s`. */
  function LastSegment(s: string): (r: string)
    ensures EndsWith(s, r)
    ensures '/' !in r
    ensures |r| < |s| ==> s[|s| - |r| - 1] == '/'
    decreases |s|
  {
    if s == [] then []
    else if s[|s| - 1] == '/' then []
    else LastSegment(s[..|s| - 1]) + [s[|s| - 1]]
  }

  /** `s.split("/")`: the pieces between the slashes, in order. The last
      piece is `LastSegment(s)`. */
  function SplitOnSlash(s: string): (r: seq<string>)
    ensures |r| > 0 && r[|r| - 1] == LastSegment(s)
    decreases |s|
  {
    if s == [] then [[]]
    else
      var front := SplitOnSlash(s[..|s| - 1]);
      if s[|s| - 1] == '/' then front + [[]]
      else front[..|front| - 1] + [front[|front| - 1] + [s[|s| - 1]]]
  }

  /** `"/".join(parts)`. */
  function JoinOnSlash(parts: seq<string>): string
    requires |parts| > 0
    decreases |parts|
  {
    if |parts| == 1 then parts[0] else JoinOnSlash(parts[..|parts| - 1]) + "/" + parts[|parts| - 1]
  }

  /** Extending the last piece extends the joined string. */
  lemma JoinExtendLast(parts: seq<string>, c: char)
    requires |parts| > 0
    ensures JoinOnSlash(parts[..|parts| - 1] + [parts[|parts| - 1] + [c]]) == JoinOnSlash(parts) + [c]
  {
    var extended := parts[..|parts| - 1] + [parts[|parts| - 1] + [c]];
    if |parts| > 1 {
      assert extended[..|extended| - 1] == parts[..|parts| - 1];
    }
  }

  /** A new empty last piece adds a slash. */
  lemma JoinAppendEmpty(parts: seq<string>)
    requires |parts| > 0
    ensures JoinOnSlash(parts + [[]]) == JoinOnSlash(parts) + "/"
  {
    assert (parts + [[]])[..|parts|] == parts;
  }

  /** Splitting on slashes loses nothing: the pieces join back into the string. */
  lemma {:induction false} SplitJoin(s: string)
    ensures JoinOnSlash(SplitOnSlash(s)) == s
    decreases |s|
  {
    if s != [] {
      var init, c := s[..|s| - 1], s[|s| - 1];
      var front := SplitOnSlash(init);
      SplitJoin(init);
      if c == '/' {
        JoinAppendEmpty(front);
      } else {
        JoinExtendLast(front, c);
      }
      assert init + [c] == s;
    }
  }

  /** No piece holds a slash. */
  lemma {:induction false} SplitPiecesHaveNoSlash(s: string)
    ensures forall i :: 0 <= i < |SplitOnSlash(s)| ==> '/' !in SplitOnSlash(s)[i]
    decreases |s|
  {
    if s != [] {
      var init, c := s[..|s| - 1], s[|s| - 1];
      var front := SplitOnSlash(init);
      SplitPiecesHaveNoSlash(init);
      var r := SplitOnSlash(s);
      if c == '/' {
        assert r == front + [[]];
      } else {
        assert r == front[..|front| - 1] + [front[|front| - 1] + [c]];
        assert forall i :: 0 <= i < |r| - 1 ==> r[i] == front[i];
      }
    }
  }

  predicate IsDigit(c: char) {
    '0' <= c <= '9'
  }

  predicate AllDigits(s: string) {
    forall i :: 0 <= i < |s| ==> IsDigit(s[i])
  }

  /** The value of a string of decimal digits, most significant first. */
  function DigitsValue(s: string): nat
    requires AllDigits(s)
    decreases |s|
  {
    if s == [] then 0 else DigitsValue(s[..|s| - 1]) * 10 + (s[|s| - 1] as int - '0' as int)
  }

  /** A signed decimal literal: an optional `+` or `-`, then at least one digit. */
  predicate IsDecimal(s: string) {
    if |s| > 0 && (s[0] == '-' || s[0] == '+') then |s| > 1 && AllDigits(s[1..])
    else |s| > 0 && AllDigits(s)
  }

  /** `int(value)` for a decoded JSON value: integers and booleans convert,
      strings as `ParseInt` reads them; for `None`, lists and dicts Python
      raises `TypeError`, here `None`. */
  function PyInt(v: Json): Option<int> {
    match v
    case JNum(n) => Some(n)
    case JBool(b) => Some(if b then 1 else 0)
    case JStr(s) => ParseInt(s)
    case _ => None
  }

  /** `int(s)` for a signed decimal string; `None` where Python raises `ValueError`. */
  function ParseInt(s: string): (r: Option<int>)
    ensures r.Some? <==> IsDecimal(s)
  {
    if |s| > 0 && (s[0] == '-' || s[0] == '+') then
      if |s| > 1 && AllDigits(s[1..]) then
        var magnitude: int := DigitsValue(s[1..]);
        Some(if s[0] == '-' then -magnitude else magnitude)
      else None
    else if |s| > 0 && AllDigits(s) then Some(DigitsValue(s))
    else None
  }

  function DigitChar(d: nat): (c: char)
    requires d < 10
    ensures IsDigit(c) && c as int - '0' as int == d
  {
    ('0' as int + d) as char
  }

  /** `str(n)` for a natural number. */
  function NatToString(n: nat): (r: string)
    ensures |r| > 0 && AllDigits(r)
    decreases n
  {
    if n < 10 then [DigitChar(n)] else NatToString(n / 10) + [DigitChar(n % 10)]
  }

  /** `str(n)` for an integer. */
  function IntToString(n: int): string {
    if n < 0 then "-" + NatToString(-n) else NatToString(n)
  }

  lemma {:induction false} DigitsValueOfNatToString(n: nat)
    ensures DigitsValue(NatToString(n)) == n
    decreases n
  {
    if n >= 10 {
      DigitsValueOfNatToString(n / 10);
      var s := NatToString(n);
      assert s[..|s| - 1] == NatToString(n / 10);
    }
  }

  /** `int(str(n)) == n`: the parser reads back what `str` prints. */
  lemma ParseIntToString(n: int)
    ensures ParseInt(IntToString(n)) == Some(n)
  {
    var s := IntToString(n);
    if n < 0 {
      DigitsValueOfNatToString(-n);
      assert s[0] == '-' && s[1..] == NatToString(-n);
    } else {
      DigitsValueOfNatToString(n);
      assert IsDigit(s[0]);
    }
  }
}
