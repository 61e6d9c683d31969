/** The JavaScript string operations the tokenizer is built from: `split` on one
    character, `join`, `split(/[\r\n]+/)`, `trim` and `toLowerCase`. */
module JsStrings {

  /** `p` is the part of `s` before the first `c` (all of `s` when there is none). */
  ghost predicate FieldBefore(p: string, s: string, c: char) {
    p <= s && c !in p && (|p| < |s| ==> s[|p|] == c)
  }

  /** Number of occurrences of `c` in `s`. */
  function Count(s: string, c: char): nat {
    if s == [] then 0 else (if s[0] == c then 1 else 0) + Count(s[1..], c)
  }

  /** `s.split(sep)` for a one-character separator: never empty, and no part holds `sep`. */
  function Split(s: string, sep: char): (parts: seq<string>)
    ensures |parts| == Count(s, sep) + 1
    ensures forall i :: 0 <= i < |parts| ==> sep !in parts[i]
    ensures FieldBefore(parts[0], s, sep)
    decreases |s|
  {
    if s == [] then [""]
    else
      var rest := Split(s[1..], sep);
      if s[0] == sep then [""] + rest
      else [[s[0]] + rest[0]] + rest[1..]
  }

  /** Occurrences in a concatenation add up. */
  lemma {:induction false} CountAppend(a: string, b: string, c: char)
    ensures Count(a + b, c) == Count(a, c) + Count(b, c)
    decreases |a|
  {
    if a != [] {
      assert (a + b)[0] == a[0] && (a + b)[1..] == a[1..] + b;
      CountAppend(a[1..], b, c);
    } else {
      assert a + b == b;
    }
  }

  /** `parts.join(sep)`; an empty array joins to the empty string. The first part opens
      the join and a separator follows it when there are more; when no part holds the
      separator, the join holds exactly one separator between each two parts. */
  function Join(parts: seq<string>, sep: char): (r: string)
    ensures parts == [] ==> r == ""
    ensures |parts| == 1 ==> r == parts[0]
    ensures |parts| > 1 ==> parts[0] <= r && |parts[0]| < |r| && r[|parts[0]|] == sep
    ensures parts != [] && (forall i :: 0 <= i < |parts| ==> sep !in parts[i]) ==>
              Count(r, sep) == |parts| - 1
    decreases |parts|
  {
    if parts == [] then ""
    else if |parts| == 1 then
      CountZero(parts[0], sep);
      parts[0]
    else
      var rest := Join(parts[1..], sep);
      CountAppend(parts[0] + [sep], rest, sep);
      CountAppend(parts[0], [sep], sep);
      CountZero(parts[0], sep);
      parts[0] + [sep] + rest
  }

  /** Joining what was split restores the string. */
  lemma {:induction false} JoinSplit(s: string, sep: char)
    ensures Join(Split(s, sep), sep) == s
    decreases |s|
  {
    if s != [] {
      var rest := Split(s[1..], sep);
      JoinSplit(s[1..], sep);
      if s[0] == sep {
        assert Split(s, sep) == [""] + rest;
        assert s == [] + [sep] + s[1..];
      } else {
        assert Split(s, sep) == [[s[0]] + rest[0]] + rest[1..];
        if |rest| == 1 {
          assert s == [s[0]] + s[1..];
        } else {
          assert rest == [rest[0]] + rest[1..];
          assert Join(rest, sep) == rest[0] + [sep] + Join(rest[1..], sep);
          assert s == [s[0]] + s[1..];
        }
      }
    }
  }

  /** Splitting `p + t` where `p` holds no separator glues `p` to the first part of `t`. */
  lemma {:induction false} SplitPrefix(p: string, t: string, sep: char)
    requires sep !in p
    ensures Split(p + t, sep) == [p + Split(t, sep)[0]] + Split(t, sep)[1..]
    decreases |p|
  {
    if p != [] {
      SplitPrefix(p[1..], t, sep);
      var u := p + t;
      assert u[0] == p[0] != sep && u[1..] == p[1..] + t;
      var rest := Split(u[1..], sep);
      assert Split(u, sep) == [[p[0]] + rest[0]] + rest[1..];
      assert [p[0]] + (p[1..] + Split(t, sep)[0]) == p + Split(t, sep)[0];
    } else {
      assert p + t == t;
      assert p + Split(t, sep)[0] == Split(t, sep)[0];
      assert Split(t, sep) == [Split(t, sep)[0]] + Split(t, sep)[1..];
    }
  }

  /** A leading separator opens an empty first part. */
  lemma SplitLeadingSep(t: string, sep: char)
    ensures Split([sep] + t, sep) == [""] + Split(t, sep)
  {
    assert ([sep] + t)[1..] == t;
  }

  /** Splitting what was joined restores the parts, when no part holds the separator. */
  lemma {:induction false} SplitJoin(parts: seq<string>, sep: char)
    requires |parts| >= 1
    requires forall i :: 0 <= i < |parts| ==> sep !in parts[i]
    ensures Split(Join(parts, sep), sep) == parts
    decreases |parts|
  {
    if |parts| == 1 {
      SplitPrefix(parts[0], "", sep);
      assert parts[0] + "" == parts[0];
      assert parts == [parts[0]];
    } else {
      var tail := Join(parts[1..], sep);
      var s := [sep] + tail;
      calc {
        Split(Join(parts, sep), sep);
        { assert Join(parts, sep) == parts[0] + s; }
        Split(parts[0] + s, sep);
        { SplitPrefix(parts[0], s, sep); }
        [parts[0] + Split(s, sep)[0]] + Split(s, sep)[1..];
        { SplitLeadingSep(tail, sep); SplitJoin(parts[1..], sep); assert parts[0] + "" == parts[0]; }
        [parts[0]] + parts[1..];
        parts;
      }
    }
  }

  /** A character in no part, other than the separator, is not in the join. */
  lemma {:induction false} JoinAvoids(parts: seq<string>, sep: char, c: char)
    requires c != sep
    requires forall i :: 0 <= i < |parts| ==> c !in parts[i]
    ensures c !in Join(parts, sep)
    decreases |parts|
  {
    if |parts| > 1 {
      JoinAvoids(parts[1..], sep, c);
    }
  }

  lemma {:induction false} CountZero(s: string, c: char)
    ensures Count(s, c) == 0 <==> c !in s
    decreases |s|
  {
    if s != [] {
      CountZero(s[1..], c);
      assert s == [s[0]] + s[1..];
    }
  }

  /** Joining at least two parts starts with the first two and the separator between them;
      with more than two, another separator follows. */
  lemma JoinFirstTwo(parts: seq<string>, sep: char)
    requires |parts| >= 2
    ensures |parts| == 2 ==> Join(parts, sep) == parts[0] + [sep] + parts[1]
    ensures |parts| > 2 ==> Join(parts, sep) == parts[0] + [sep] + parts[1] + [sep] + Join(parts[2..], sep)
  {
    assert parts[1..][1..] == parts[2..];
  }

  predicate IsLineBreak(c: char) {
    c == '\r' || c == '\n'
  }

  ghost predicate NoLineBreak(s: string) {
    forall i :: 0 <= i < |s| ==> !IsLineBreak(s[i])
  }

  /** `s.split(/[\r\n]+/)`: every maximal run of line breaks is one separator, so only
      the first and the last line can be empty. */
  function SplitLines(s: string): (lines: seq<string>)
    ensures |lines| >= 1
    ensures forall i :: 0 <= i < |lines| ==> NoLineBreak(lines[i])
    ensures forall i :: 0 < i < |lines| - 1 ==> lines[i] != ""
    ensures s != [] && !IsLineBreak(s[0]) ==> lines[0] != []
    decreases |s|
  {
    if s == [] then [""]
    else
      var rest := SplitLines(s[1..]);
      if IsLineBreak(s[0]) then
        if |s| > 1 && IsLineBreak(s[1]) then rest else [""] + rest
      else [[s[0]] + rest[0]] + rest[1..]
  }

  /** Lines as the analyzer writes them: none holds a line break, and only the first or
      the last may be empty. */
  ghost predicate WellFormedLines(lines: seq<string>) {
    && |lines| >= 1
    && (forall i :: 0 <= i < |lines| ==> NoLineBreak(lines[i]))
    && (forall i :: 0 < i < |lines| - 1 ==> lines[i] != "")
  }

  /** Splitting `p + t` where `p` holds no line break glues `p` to the first line of `t`. */
  lemma {:induction false} SplitLinesPrefix(p: string, t: string)
    requires NoLineBreak(p)
    ensures SplitLines(p + t) == [p + SplitLines(t)[0]] + SplitLines(t)[1..]
    decreases |p|
  {
    if p != [] {
      SplitLinesPrefix(p[1..], t);
      assert (p + t)[0] == p[0] && (p + t)[1..] == p[1..] + t;
      assert !IsLineBreak(p[0]);
      var rest := SplitLines(p[1..] + t);
      assert SplitLines(p + t) == [[p[0]] + rest[0]] + rest[1..];
      assert rest[1..] == SplitLines(t)[1..];
      assert [p[0]] + rest[0] == [p[0]] + (p[1..] + SplitLines(t)[0]) == p + SplitLines(t)[0];
    } else {
      assert p + t == t;
      assert p + SplitLines(t)[0] == SplitLines(t)[0];
      assert SplitLines(t) == [SplitLines(t)[0]] + SplitLines(t)[1..];
    }
  }

  /** Line splitting undoes joining well-formed lines with "\n". */
  lemma {:induction false} SplitLinesJoin(lines: seq<string>)
    requires WellFormedLines(lines)
    ensures SplitLines(Join(lines, '\n')) == lines
    decreases |lines|
  {
    if |lines| == 1 {
      SplitLinesPrefix(lines[0], "");
      assert SplitLines("") == [""];
      assert lines[0] + "" == lines[0];
      assert SplitLines(lines[0]) == [lines[0]];
      assert lines == [lines[0]];
      assert Join(lines, '\n') == lines[0];
    } else {
      var tail := Join(lines[1..], '\n');
      assert Join(lines, '\n') == lines[0] + ['\n'] + tail;
      assert WellFormedLines(lines[1..]) by {
        forall i | 0 < i < |lines[1..]| - 1 ensures lines[1..][i] != "" {
          assert lines[1..][i] == lines[i + 1];
        }
      }
      SplitLinesJoin(lines[1..]);
      assert tail == [] || !IsLineBreak(tail[0]) by {
        if |lines| > 2 {
          assert tail == lines[1] + ['\n'] + Join(lines[2..], '\n');
          assert lines[1] != "";
        }
      }
      var s := ['\n'] + tail;
      assert s[1..] == tail;
      assert SplitLines(s) == [""] + lines[1..];
      assert SplitLines(s)[0] == "" && SplitLines(s)[1..] == lines[1..];
      assert lines[0] + "" == lines[0];
      SplitLinesPrefix(lines[0], s);
      assert lines[0] + ['\n'] + tail == lines[0] + s;
      assert lines == [lines[0]] + lines[1..];
    }
  }

  /** A run of line breaks: non-empty, and nothing but "\r" and "\n". */
  ghost predicate IsBreakRun(b: string) {
    b != [] && forall i :: 0 <= i < |b| ==> IsLineBreak(b[i])
  }

  /** A run of breaks in front of text that does not start with a break opens exactly one
      empty line, however long the run. */
  lemma {:induction false} SplitLinesBreakRun(b: string, t: string)
    requires IsBreakRun(b)
    requires t == [] || !IsLineBreak(t[0])
    ensures SplitLines(b + t) == [""] + SplitLines(t)
    decreases |b|
  {
    var s := b + t;
    assert s[0] == b[0] && s[1..] == b[1..] + t;
    if |b| == 1 {
      assert s[1..] == t;
    } else {
      assert s[1] == b[1];
      SplitLinesBreakRun(b[1..], t);
    }
  }

  /** The lines with the runs `seps` between them: `lines[0] + seps[0] + lines[1] + ...`. */
  function Interleave(lines: seq<string>, seps: seq<string>): string
    requires |lines| >= 1 && |seps| == |lines| - 1
    decreases |lines|
  {
    if |lines| == 1 then lines[0] else lines[0] + seps[0] + Interleave(lines[1..], seps[1..])
  }

  /** Line splitting undoes joining well-formed lines with any runs of line breaks: each
      run, whatever its length and its mix of "\r" and "\n", is one separator. */
  lemma {:induction false} SplitLinesInterleave(lines: seq<string>, seps: seq<string>)
    requires WellFormedLines(lines) && |seps| == |lines| - 1
    requires forall i :: 0 <= i < |seps| ==> IsBreakRun(seps[i])
    ensures SplitLines(Interleave(lines, seps)) == lines
    decreases |lines|
  {
    if |lines| == 1 {
      SplitLinesPrefix(lines[0], "");
      assert lines[0] + "" == lines[0];
      assert lines == [lines[0]];
    } else {
      var tail := Interleave(lines[1..], seps[1..]);
      assert WellFormedLines(lines[1..]) by {
        forall i | 0 < i < |lines[1..]| - 1 ensures lines[1..][i] != "" {
          assert lines[1..][i] == lines[i + 1];
        }
      }
      SplitLinesInterleave(lines[1..], seps[1..]);
      assert tail == [] || !IsLineBreak(tail[0]) by {
        if |lines| > 2 {
          assert lines[1..][1..] == lines[2..];
          assert tail == lines[1] + seps[1] + Interleave(lines[2..], seps[2..]);
          assert lines[1] != "";
          assert tail[0] == lines[1][0];
        } else {
          assert tail == lines[1];
        }
      }
      var s := seps[0] + tail;
      SplitLinesBreakRun(seps[0], tail);
      SplitLinesPrefix(lines[0], s);
      assert Interleave(lines, seps) == lines[0] + s;
      assert lines[0] + "" == lines[0];
      assert lines == [lines[0]] + lines[1..];
    }
  }

  /** The characters `String.prototype.trim` removes: ECMAScript WhiteSpace and LineTerminator. */
  predicate IsJsWhitespace(c: char) {
    || c == '\t' || c == '\n' || c == '\U{000B}' || c == '\U{000C}' || c == '\r' || c == ' '
    || c == '\U{00A0}' || c == '\U{1680}' || ('\U{2000}' <= c <= '\U{200A}')
    || c == '\U{2028}' || c == '\U{2029}' || c == '\U{202F}' || c == '\U{205F}'
    || c == '\U{3000}' || c == '\U{FEFF}'
  }

  ghost predicate AllWhitespace(s: string) {
    forall i :: 0 <= i < |s| ==> IsJsWhitespace(s[i])
  }

  /** Drops leading whitespace: the result is the suffix of `s` after it. */
  function TrimStart(s: string): (r: string)
    ensures |r| <= |s| && r == s[|s| - |r|..]
    ensures AllWhitespace(s[..|s| - |r|])
    ensures r == [] || !IsJsWhitespace(r[0])
    decreases |s|
  {
    if s != [] && IsJsWhitespace(s[0]) then
      var r := TrimStart(s[1..]);
      assert s[..|s| - |r|] == [s[0]] + s[1..][..|s| - 1 - |r|];
      r
    else s
  }

  /** Drops trailing whitespace: the result is the prefix of `s` before it. */
  function TrimEnd(s: string): (r: string)
    ensures |r| <= |s| && r == s[..|r|]
    ensures AllWhitespace(s[|r|..])
    ensures r == [] || !IsJsWhitespace(r[|r| - 1])
    decreases |s|
  {
    if s != [] && IsJsWhitespace(s[|s| - 1]) then
      var t := s[..|s| - 1];
      var r := TrimEnd(t);
      assert s[|r|..] == t[|r|..] + [s[|s| - 1]];
      r
    else s
  }

  /** `s.trim()`: the result neither starts nor ends with whitespace, and is empty exactly
      when `s` is all whitespace (what it is a slice of, and what lies around it, the
      contracts of TrimStart and TrimEnd say). */
  function Trim(s: string): (r: string)
    ensures r == [] || (!IsJsWhitespace(r[0]) && !IsJsWhitespace(r[|r| - 1]))
    ensures r == [] <==> AllWhitespace(s)
  {
    var a := TrimStart(s);
    var r := TrimEnd(a);
    if r != [] then
      assert r[0] == a[0] == s[|s| - |a|];
      r
    else
      assert a[|r|..] == a;
      assert s[..|s| - |a|] == s;
      r
  }

  /** Trimming twice is trimming once. */
  lemma TrimIdempotent(s: string)
    ensures Trim(Trim(s)) == Trim(s)
  {
    TrimUntouched(Trim(s));
  }

  /** `toLowerCase` on one character: the ASCII capitals and U+212A KELVIN SIGN, the only
      other character whose lower case is an ASCII letter. */
  function ToLowerChar(c: char): (r: char)
    ensures 'A' <= c <= 'Z' ==> r as int == c as int + 32
    ensures c == '\U{212A}' ==> r == 'k'
    ensures !('A' <= c <= 'Z') && c != '\U{212A}' ==> r == c
  {
    if 'A' <= c <= 'Z' then (c as int + 32) as char
    else if c == '\U{212A}' then 'k'
    else c
  }

  /** `s.toLowerCase()` as far as this model needs it (see ToLowerChar). */
  function ToLower(s: string): (r: string)
    ensures |r| == |s|
    ensures forall i :: 0 <= i < |s| ==> r[i] == ToLowerChar(s[i])
  {
    if s == [] then [] else [ToLowerChar(s[0])] + ToLower(s[1..])
  }

  /** `trim` leaves a string alone when it neither starts nor ends with whitespace. */
  lemma TrimUntouched(s: string)
    requires s == [] || (!IsJsWhitespace(s[0]) && !IsJsWhitespace(s[|s| - 1]))
    ensures Trim(s) == s
  {
  }

  /** `trim` drops any whitespace around a string that neither starts nor ends with it. */
  lemma {:induction false} TrimPadded(p: string, w: string, q: string)
    requires AllWhitespace(p) && AllWhitespace(q)
    requires w != [] && !IsJsWhitespace(w[0]) && !IsJsWhitespace(w[|w| - 1])
    ensures Trim(p + w + q) == w
  {
    TrimStartPadded(p, w + q);
    assert p + w + q == p + (w + q);
    TrimEndPadded(w, q);
  }

  lemma {:induction false} TrimStartPadded(p: string, t: string)
    requires AllWhitespace(p) && t != [] && !IsJsWhitespace(t[0])
    ensures TrimStart(p + t) == t
    decreases |p|
  {
    if p != [] {
      assert (p + t)[0] == p[0] && (p + t)[1..] == p[1..] + t;
      TrimStartPadded(p[1..], t);
    } else {
      assert p + t == t;
    }
  }

  lemma {:induction false} TrimEndPadded(w: string, q: string)
    requires AllWhitespace(q) && w != [] && !IsJsWhitespace(w[|w| - 1])
    ensures TrimEnd(w + q) == w
    decreases |q|
  {
    if q != [] {
      var s := w + q;
      assert s[|s| - 1] == q[|q| - 1];
      assert s[..|s| - 1] == w + q[..|q| - 1];
      TrimEndPadded(w, q[..|q| - 1]);
    } else {
      assert w + q == w;
    }
  }

  /** `toLowerCase` leaves a string without capitals alone. */
  lemma {:induction false} LowerUntouched(s: string)
    requires forall i :: 0 <= i < |s| ==> ToLowerChar(s[i]) == s[i]
    ensures ToLower(s) == s
    decreases |s|
  {
    if s != [] {
      LowerUntouched(s[1..]);
      assert s == [s[0]] + s[1..];
    }
  }

  /** `toLowerCase` of a two-character string, character by character. */
  lemma LowerPair(a: char, b: char)
    ensures ToLower([a, b]) == [ToLowerChar(a), ToLowerChar(b)]
  {
  }
}
