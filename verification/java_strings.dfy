/**
 * The few `java.lang.String` operations the tiles core relies on, with their Java semantics:
 * `split` with a one-character separator (trailing empty fields dropped), `trim`,
 * `replaceAll` of one character by another, and `Boolean.parseBoolean`.
 */
module JavaStrings {
  import opened Wrappers

  /** The position of the first `c` in `s`. */
  function FirstIndex(s: string, c: char): (i: nat)
    requires c in s
    ensures i < |s| && s[i] == c
    ensures c !in s[..i]
  {
    if s[0] == c then 0 else 1 + FirstIndex(s[1..], c)
  }

  /** The pieces of `s` between occurrences of `sep`, empty pieces included. */
  function Fields(s: string, sep: char): (r: seq<string>)
    ensures |r| >= 1
    ensures forall k :: 0 <= k < |r| ==> sep !in r[k]
    decreases |s|
  {
    if sep !in s then [s]
    else
      var i := FirstIndex(s, sep);
      [s[..i]] + Fields(s[i + 1..], sep)
  }

  /** `parts` glued together with `sep` between neighbours. */
  function Join(parts: seq<string>, sep: char): string
    requires |parts| >= 1
  {
    if |parts| == 1 then parts[0] else parts[0] + [sep] + Join(parts[1..], sep)
  }

  /** `parts` without its trailing run of empty strings. */
  function DropTrailingEmpty(parts: seq<string>): (r: seq<string>)
    ensures |r| <= |parts| && r == parts[..|r|]
    ensures |r| > 0 ==> r[|r| - 1] != ""
    ensures forall k :: |r| <= k < |parts| ==> parts[k] == ""
  {
    if |parts| > 0 && parts[|parts| - 1] == "" then DropTrailingEmpty(parts[..|parts| - 1]) else parts
  }

  /**
   * `s.split(sep)` in Java: a string without the separator splits into itself (so `""` gives
   * `[""]`); otherwise the pieces between separators, trailing empty pieces removed.
   */
  function Split(s: string, sep: char): (r: seq<string>)
    ensures forall k :: 0 <= k < |r| ==> sep !in r[k]
    ensures sep !in s ==> r == [s]
  {
    if sep !in s then [s] else DropTrailingEmpty(Fields(s, sep))
  }

  lemma {:induction false} FieldsOfJoin(parts: seq<string>, sep: char)
    requires |parts| >= 1
    requires forall k :: 0 <= k < |parts| ==> sep !in parts[k]
    ensures Fields(Join(parts, sep), sep) == parts
    decreases |parts|
  {
    if |parts| > 1 {
      var s := Join(parts, sep);
      FieldsOfJoinStep(parts[0], Join(parts[1..], sep), sep);
      FieldsOfJoin(parts[1..], sep);
      assert parts == [parts[0]] + parts[1..];
    }
  }

  /** The first separator of `p + [sep] + rest` is the one after `p`, when `p` holds none. */
  lemma FieldsOfJoinStep(p: string, rest: string, sep: char)
    requires sep !in p
    ensures Fields(p + [sep] + rest, sep) == [p] + Fields(rest, sep)
  {
    var s := p + [sep] + rest;
    assert s[|p|] == sep;
    assert forall k :: 0 <= k < |p| ==> s[k] == p[k];
    var i := FirstIndex(s, sep);
    assert i == |p|;
    assert s[..i] == p;
    assert s[i + 1..] == rest;
  }

  /** Splitting what was joined gives the pieces back, provided the last piece is not dropped as empty. */
  lemma {:induction false} SplitOfJoin(parts: seq<string>, sep: char)
    requires |parts| >= 1
    requires forall k :: 0 <= k < |parts| ==> sep !in parts[k]
    requires |parts| == 1 || parts[|parts| - 1] != ""
    ensures Split(Join(parts, sep), sep) == parts
  {
    if |parts| == 1 {
    } else {
      var s := Join(parts, sep);
      assert s == parts[0] + [sep] + Join(parts[1..], sep);
      assert s[|parts[0]|] == sep;
      FieldsOfJoin(parts, sep);
    }
  }

  /** Java's notion of white space for `trim`: any character at or below U+0020. */
  predicate IsTrimmable(c: char) {
    c <= ' '
  }

  function TrimStart(s: string): (r: string)
    ensures |r| <= |s| && r == s[|s| - |r|..]
    ensures forall k :: 0 <= k < |s| - |r| ==> IsTrimmable(s[k])
    ensures |r| > 0 ==> !IsTrimmable(r[0])
    ensures |s| > 0 && !IsTrimmable(s[0]) ==> r == s
  {
    if |s| > 0 && IsTrimmable(s[0]) then
      var r := TrimStart(s[1..]);
      assert IsTrimmable(s[0]);
      assert s[1..][|s| - 1 - |r|..] == s[|s| - |r|..];
      assert forall k :: 0 <= k < |s| - |r| ==> IsTrimmable(s[k]) by {
        forall k | 0 < k < |s| - |r|
          ensures IsTrimmable(s[k])
        {
          assert s[k] == s[1..][k - 1];
        }
      }
      r
    else s
  }

  function TrimEnd(s: string): (r: string)
    ensures |r| <= |s| && r == s[..|r|]
    ensures forall k :: |r| <= k < |s| ==> IsTrimmable(s[k])
    ensures |r| > 0 ==> !IsTrimmable(r[|r| - 1])
    ensures |s| > 0 && !IsTrimmable(s[|s| - 1]) ==> r == s
  {
    if |s| > 0 && IsTrimmable(s[|s| - 1]) then TrimEnd(s[..|s| - 1]) else s
  }

  /** `s.trim()`: the largest infix of `s` that neither starts nor ends with white space. */
  function Trim(s: string): (r: string)
    ensures exists i, j :: 0 <= i <= j <= |s| && r == s[i..j]
    ensures |r| > 0 ==> !IsTrimmable(r[0]) && !IsTrimmable(r[|r| - 1])
    ensures |s| > 0 && !IsTrimmable(s[0]) && !IsTrimmable(s[|s| - 1]) ==> r == s
    ensures forall k :: 0 <= k < |s| && !IsTrimmable(s[k]) ==> |r| > 0
  {
    var t := TrimStart(s);
    var r := TrimEnd(t);
    assert r == s[|s| - |t|..|s| - |t| + |r|];
    r
  }

  /** `s` consists of white space only, so that `s.trim()` is empty (see `BlankIffTrimEmpty`). */
  predicate Blank(s: string) {
    |s| == 0 || (IsTrimmable(s[0]) && Blank(s[1..]))
  }

  /** `Blank` is exactly Java's `s.trim().length() < 1`. */
  lemma {:induction false} BlankIffTrimEmpty(s: string)
    ensures Blank(s) <==> Trim(s) == ""
  {
    if |s| > 0 {
      BlankIffTrimEmpty(s[1..]);
      if IsTrimmable(s[0]) {
        assert TrimStart(s) == TrimStart(s[1..]);
        assert Trim(s) == Trim(s[1..]);
      } else {
        assert !Blank(s);
      }
    }
  }

  /** `s.replaceAll(from, to)` for a one-character, non-special pattern. */
  function ReplaceChar(s: string, from: char, to: char): (r: string)
    ensures |r| == |s|
    ensures forall k :: 0 <= k < |s| ==> r[k] == (if s[k] == from then to else s[k])
  {
    seq(|s|, k requires 0 <= k < |s| => if s[k] == from then to else s[k])
  }

  function ToLowerAscii(c: char): char {
    if 'A' <= c <= 'Z' then (c as int + 32) as char else c
  }

  /** `s` with every ASCII capital lowered. */
  function LowerAscii(s: string): (r: string)
    ensures |r| == |s|
    ensures forall k :: 0 <= k < |s| ==> r[k] == ToLowerAscii(s[k])
  {
    seq(|s|, k requires 0 <= k < |s| => ToLowerAscii(s[k]))
  }

  /**
   * `Boolean.parseBoolean(s)`: true exactly for a non-null `s` equal to "true" ignoring case
   * (no other character folds onto a letter of "true").
   */
  function ParseBoolean(s: Option<string>): (r: bool)
    ensures r <==> s.Some? && LowerAscii(s.value) == "true"
  {
    var b := s.Some? && |s.value| == 4 && ToLowerAscii(s.value[0]) == 't' && ToLowerAscii(s.value[1]) == 'r'
             && ToLowerAscii(s.value[2]) == 'u' && ToLowerAscii(s.value[3]) == 'e';
    assert s.Some? && LowerAscii(s.value) == "true" ==> b by {
      if s.Some? && LowerAscii(s.value) == "true" {
        assert LowerAscii(s.value)[0] == 't' && LowerAscii(s.value)[3] == 'e';
      }
    }
    b
  }

  /** Every spelling of "true" in any mix of cases parses as true. */
  lemma ParseBooleanAnyCase(s: string)
    requires |s| == 4 && s[0] in "tT" && s[1] in "rR" && s[2] in "uU" && s[3] in "eE"
    ensures ParseBoolean(Some(s))
  {
    assert LowerAscii(s) == "true";
  }

  /** No string holding a colon, such as a `group:artifact` name, parses as true. */
  lemma ParseBooleanRejectsColon(s: string)
    requires ':' in s
    ensures !ParseBoolean(Some(s))
  {
  }
}
