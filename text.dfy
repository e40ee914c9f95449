/**
 * The pieces of Rust's `str` API that the core relies on: `trim`, `split`
 * on a character, `join`, `contains` and `eq_ignore_ascii_case`.
 * Strings are sequences of Unicode scalar values (`char`).
 */
module Text {

  /** Rust's `char::is_whitespace`: the Unicode White_Space property. */
  predicate IsWhitespace(c: char) {
    ('\t' <= c <= '\r') || c == ' ' || c == '\U{85}' || c == '\U{A0}' || c == '\U{1680}'
    || ('\U{2000}' <= c <= '\U{200A}') || c == '\U{2028}' || c == '\U{2029}'
    || c == '\U{202F}' || c == '\U{205F}' || c == '\U{3000}'
  }

  /** `str::trim_start`: drops the leading whitespace and nothing else. */
  function TrimStart(s: string): (r: string)
    ensures |r| <= |s| && r == s[|s| - |r|..]
    ensures forall i :: 0 <= i < |s| - |r| ==> IsWhitespace(s[i])
    ensures r != [] ==> !IsWhitespace(r[0])
  {
    if |s| > 0 && IsWhitespace(s[0]) then TrimStart(s[1..]) else s
  }

  /** `str::trim_end`: drops the trailing whitespace and nothing else. */
  function TrimEnd(s: string): (r: string)
    ensures |r| <= |s| && r == s[..|r|]
    ensures forall i :: |r| <= i < |s| ==> IsWhitespace(s[i])
    ensures r != [] ==> !IsWhitespace(r[|r| - 1])
  {
    if |s| > 0 && IsWhitespace(s[|s| - 1]) then TrimEnd(s[..|s| - 1]) else s
  }

  /** `str::trim`: the longest infix of `s` that neither starts nor ends with whitespace. */
  function Trim(s: string): (r: string)
    ensures r != [] ==> !IsWhitespace(r[0]) && !IsWhitespace(r[|r| - 1])
    ensures |r| <= |s|
  {
    TrimEnd(TrimStart(s))
  }

  /** Trimming a trimmed string changes nothing. */
  lemma TrimIdempotent(s: string)
    ensures Trim(Trim(s)) == Trim(s)
  {
    var r := Trim(s);
    assert TrimStart(r) == r;
    assert TrimEnd(r) == r;
  }

  /** One space on each side of a string that is already trimmed is all that trimming removes. */
  lemma TrimSpacePadding(inner: string)
    requires inner != [] && !IsWhitespace(inner[0]) && !IsWhitespace(inner[|inner| - 1])
    ensures Trim([' '] + inner + [' ']) == inner
  {
    var s := [' '] + inner + [' '];
    var t := inner + [' '];
    assert s[1..] == t && t[0] == inner[0];
    assert TrimStart(s) == t;
    assert t[..|t| - 1] == inner;
    assert TrimEnd(t) == TrimEnd(inner);
  }

  /** A string without any whitespace is its own trim. */
  lemma {:induction false} TrimWithoutWhitespace(s: string)
    requires forall i :: 0 <= i < |s| ==> !IsWhitespace(s[i])
    ensures Trim(s) == s
  {
    assert TrimStart(s) == s;
    if s != [] {
      assert TrimEnd(s) == s;
    }
  }

  /** `u8::to_ascii_lowercase` lifted to `char`: only 'A'..'Z' change. */
  function AsciiLower(c: char): (l: char)
    ensures ('A' <= c <= 'Z') ==> 'a' <= l <= 'z' && l as int == c as int + 32
    ensures !('A' <= c <= 'Z') ==> l == c
  {
    if 'A' <= c <= 'Z' then (c as int + 32) as char else c
  }

  /**
   * `str::eq_ignore_ascii_case`. Rust compares UTF-8 bytes; since ASCII
   * lowering never touches a non-ASCII byte, comparing scalar values is the same.
   */
  predicate EqIgnoreAsciiCase(a: string, b: string)
    ensures a == b ==> EqIgnoreAsciiCase(a, b)
  {
    |a| == |b| && forall i :: 0 <= i < |a| ==> AsciiLower(a[i]) == AsciiLower(b[i])
  }

  /** `str::contains` for a string pattern. */
  predicate Contains(s: string, pattern: string)
    ensures Contains(s, pattern) ==> |pattern| <= |s|
    ensures |pattern| <= |s| && s[..|pattern|] == pattern ==> Contains(s, pattern)
    decreases |s|
  {
    if |s| < |pattern| then false
    else s[..|pattern|] == pattern || Contains(s[1..], pattern)
  }

  /** `pattern` occurs in `s` starting at offset `k`. */
  predicate OccursAt(s: string, pattern: string, k: int) {
    0 <= k && k + |pattern| <= |s| && s[k..k + |pattern|] == pattern
  }

  /** `Contains` holds exactly when the pattern occurs at some offset. */
  lemma {:induction false} ContainsAt(s: string, pattern: string)
    ensures Contains(s, pattern) <==> exists k :: OccursAt(s, pattern, k)
    decreases |s|
  {
    if |s| >= |pattern| {
      if s[..|pattern|] == pattern {
        assert OccursAt(s, pattern, 0);
      } else {
        ContainsAt(s[1..], pattern);
        if Contains(s[1..], pattern) {
          var k :| OccursAt(s[1..], pattern, k);
          assert OccursAt(s, pattern, k + 1);
        }
        if exists k :: OccursAt(s, pattern, k) {
          var k :| OccursAt(s, pattern, k);
          assert k > 0;
          assert OccursAt(s[1..], pattern, k - 1);
        }
      }
    }
  }

  /** `[String]::join(sep)`: the parts with `sep` between neighbours. */
  function Join(parts: seq<string>, sep: string): (r: string)
    ensures forall i :: 0 <= i < |parts| ==> |parts[i]| <= |r|
    ensures parts != [] ==> r[..|parts[0]|] == parts[0]
  {
    if parts == [] then ""
    else if |parts| == 1 then parts[0]
    else parts[0] + sep + Join(parts[1..], sep)
  }

  /** Every part occurs in the join, at some offset. */
  lemma {:induction false} JoinHasPart(parts: seq<string>, sep: string, i: nat)
    requires i < |parts|
    ensures exists k :: OccursAt(Join(parts, sep), parts[i], k)
  {
    var j := Join(parts, sep);
    if |parts| == 1 {
      assert OccursAt(j, parts[i], 0);
    } else {
      var rest := Join(parts[1..], sep);
      assert j == parts[0] + sep + rest;
      if i == 0 {
        assert j[..|parts[0]|] == parts[0];
        assert OccursAt(j, parts[i], 0);
      } else {
        JoinHasPart(parts[1..], sep, i - 1);
        var k :| OccursAt(rest, parts[1..][i - 1], k);
        var off := |parts[0]| + |sep|;
        assert j[off..] == rest;
        assert j[off + k..off + k + |parts[i]|] == rest[k..k + |parts[i]|];
        assert OccursAt(j, parts[i], off + k);
      }
    }
  }

  /** A string contains whatever occurs in a suffix of it. */
  lemma OccursAfterPrefix(prefix: string, s: string, pattern: string, k: int)
    requires OccursAt(s, pattern, k)
    ensures OccursAt(prefix + s, pattern, |prefix| + k)
  {
    assert (prefix + s)[|prefix| + k..|prefix| + k + |pattern|] == s[k..k + |pattern|];
  }

  /** Joining four pieces puts the separator between each neighbouring pair. */
  lemma JoinFour(a: string, b: string, c: string, d: string, sep: string)
    ensures Join([a, b, c, d], sep) == a + sep + b + sep + c + sep + d
  {
    assert [a, b, c, d][1..] == [b, c, d];
    assert [b, c, d][1..] == [c, d];
    assert [c, d][1..] == [d];
    assert Join([c, d], sep) == c + sep + d;
    assert Join([b, c, d], sep) == b + sep + (c + sep + d);
    assert b + sep + (c + sep + d) == b + sep + c + sep + d;
    assert a + sep + (b + sep + c + sep + d) == a + sep + b + sep + c + sep + d;
  }

  /** `str::split(c)`: the maximal pieces between occurrences of `c`, empty pieces included. */
  function Split(s: string, c: char): (parts: seq<string>)
    ensures |parts| >= 1
    ensures forall i :: 0 <= i < |parts| ==> c !in parts[i]
  {
    if s == [] then [""]
    else
      var rest := Split(s[1..], c);
      if s[0] == c then [""] + rest else [[s[0]] + rest[0]] + rest[1..]
  }

  /** Joining the pieces of a split with the separator gives back the string. */
  lemma {:induction false} JoinSplit(s: string, c: char)
    ensures Join(Split(s, c), [c]) == s
  {
    if s != [] {
      var rest := Split(s[1..], c);
      JoinSplit(s[1..], c);
      if s[0] == c {
        assert Split(s, c) == [""] + rest;
      } else {
        var parts := Split(s, c);
        assert parts[1..] == rest[1..];
        if |rest| == 1 {
          assert Join(parts, [c]) == [s[0]] + rest[0];
        } else {
          assert Join(parts, [c]) == [s[0]] + rest[0] + [c] + Join(rest[1..], [c]);
        }
      }
    }
  }

  /** A string free of `c` splits into itself alone. */
  lemma {:induction false} SplitWithoutSeparator(a: string, c: char)
    requires c !in a
    ensures Split(a, c) == [a]
  {
    if a != [] {
      SplitWithoutSeparator(a[1..], c);
      assert [a[0]] + a[1..] == a;
    }
  }

  /** Splitting `a + c + b` with `c` not in `a` yields `a` followed by the pieces of `b`. */
  lemma {:induction false} SplitAfterPiece(a: string, b: string, c: char)
    requires c !in a
    ensures Split(a + [c] + b, c) == [a] + Split(b, c)
  {
    var s := a + [c] + b;
    if a == [] {
      assert s[1..] == b;
    } else {
      assert s[1..] == a[1..] + [c] + b;
      SplitAfterPiece(a[1..], b, c);
      assert [a[0]] + a[1..] == a;
    }
  }

  /** Splitting the join of pieces that do not contain the separator gives the pieces back. */
  lemma {:induction false} SplitJoin(parts: seq<string>, c: char)
    requires |parts| >= 1
    requires forall i :: 0 <= i < |parts| ==> c !in parts[i]
    ensures Split(Join(parts, [c]), c) == parts
  {
    if |parts| == 1 {
      SplitWithoutSeparator(parts[0], c);
    } else {
      SplitJoin(parts[1..], c);
      assert Join(parts, [c]) == parts[0] + [c] + Join(parts[1..], [c]);
      SplitAfterPiece(parts[0], Join(parts[1..], [c]), c);
      assert [parts[0]] + parts[1..] == parts;
    }
  }
}
