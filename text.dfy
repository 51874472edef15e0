/**
 * The string operations of the Python standard library that the contact
 * parser and the watermark store rely on: `str.strip()`, `str.split(",")`,
 * `",".join(...)`, and the way a file opened in text mode is cut into lines
 * (`readlines` / `readline` with universal newlines).
 */
module Text {

  /** The characters `str.isspace()` accepts, hence the ones `str.strip()` removes. */
  predicate IsSpace(c: char) {
    || c == ' '
    || '\t' <= c <= '\r'                 // \t \n \v \f \r
    || '\U{1C}' <= c <= '\U{1F}'         // file, group, record and unit separators
    || c == '\U{85}' || c == '\U{A0}' || c == '\U{1680}'
    || '\U{2000}' <= c <= '\U{200A}'
    || c == '\U{2028}' || c == '\U{2029}' || c == '\U{202F}' || c == '\U{205F}'
    || c == '\U{3000}'
  }

  /** Number of leading whitespace characters. */
  function LeadingSpaces(s: string): (n: nat)
    ensures n <= |s|
    ensures forall k :: 0 <= k < n ==> IsSpace(s[k])
    ensures n < |s| ==> !IsSpace(s[n])
  {
    if s != [] && IsSpace(s[0]) then 1 + LeadingSpaces(s[1..]) else 0
  }

  /** Number of trailing whitespace characters. */
  function TrailingSpaces(s: string): (n: nat)
    ensures n <= |s|
    ensures forall k :: |s| - n <= k < |s| ==> IsSpace(s[k])
    ensures n < |s| ==> !IsSpace(s[|s| - 1 - n])
  {
    if s != [] && IsSpace(s[|s| - 1]) then 1 + TrailingSpaces(s[..|s| - 1]) else 0
  }

  /** `s.strip()`: the slice of `s` left after removing whitespace at both ends. */
  function Strip(s: string): (r: string)
    ensures r == [] || (!IsSpace(r[0]) && !IsSpace(r[|r| - 1]))
    ensures exists i, j :: 0 <= i <= j <= |s| && r == s[i..j]
                           && (forall k :: 0 <= k < i ==> IsSpace(s[k]))
                           && (forall k :: j <= k < |s| ==> IsSpace(s[k]))
  {
    var i := LeadingSpaces(s);
    var t := s[i..];
    var j := i + |t| - TrailingSpaces(t);
    assert t[..|t| - TrailingSpaces(t)] == s[i..j];
    s[i..j]
  }

  /** Stripping a string whose ends are not whitespace, padded with whitespace, gives it back. */
  lemma StripPadded(pre: string, core: string, post: string)
    requires forall k :: 0 <= k < |pre| ==> IsSpace(pre[k])
    requires forall k :: 0 <= k < |post| ==> IsSpace(post[k])
    requires core != [] && !IsSpace(core[0]) && !IsSpace(core[|core| - 1])
    ensures Strip(pre + core + post) == core
  {
    var s := pre + core + post;
    assert s[|pre|] == core[0];
    var i := LeadingSpaces(s);
    var t := s[i..];
    assert t == core + post;
    assert t[|core| - 1] == core[|core| - 1];
    var n := TrailingSpaces(t);
    assert t[..|t| - n] == core;
  }

  /** Number of occurrences of `c` in `s`. */
  function Count(s: string, c: char): nat {
    if s == [] then 0 else (if s[0] == c then 1 else 0) + Count(s[1..], c)
  }

  /** `s.split(",")`: the pieces between commas, always at least one. */
  function Split(s: string): (parts: seq<string>)
    ensures |parts| >= 1
  {
    if s == [] then [""]
    else
      var rest := Split(s[1..]);
      if s[0] == ',' then [""] + rest else [[s[0]] + rest[0]] + rest[1..]
  }

  /** `",".join(parts)`. */
  function Join(parts: seq<string>): string {
    if parts == [] then ""
    else if |parts| == 1 then parts[0]
    else parts[0] + "," + Join(parts[1..])
  }

  /** `split` yields one more piece than there are commas. */
  lemma {:induction false} SplitCount(s: string)
    ensures |Split(s)| == Count(s, ',') + 1
  {
    if s != [] {
      SplitCount(s[1..]);
    }
  }

  /** No piece of `split` contains the separator. */
  lemma {:induction false} SplitPiecesHaveNoComma(s: string)
    ensures forall k :: 0 <= k < |Split(s)| ==> ',' !in Split(s)[k]
  {
    if s != [] {
      SplitPiecesHaveNoComma(s[1..]);
    }
  }

  /** Joining the pieces of `split` gives back the string. */
  lemma {:induction false} JoinSplit(s: string)
    ensures Join(Split(s)) == s
  {
    if s != [] {
      var rest := Split(s[1..]);
      JoinSplit(s[1..]);
      if s[0] == ',' {
        assert Split(s) == [""] + rest;
      } else {
        var parts := Split(s);
        assert parts == [[s[0]] + rest[0]] + rest[1..];
        if |rest| == 1 {
          assert Join(parts) == [s[0]] + rest[0];
        } else {
          assert parts[1..] == rest[1..];
          assert Join(rest) == rest[0] + "," + Join(rest[1..]);
        }
      }
    }
  }

  /** A comma-free head followed by a comma splits off as one piece. */
  lemma {:induction false} SplitAfterHead(a: string, b: string)
    requires ',' !in a
    ensures Split(a + "," + b) == [a] + Split(b)
  {
    var s := a + "," + b;
    if a == [] {
      assert s[1..] == b;
    } else {
      assert s[1..] == a[1..] + "," + b;
      SplitAfterHead(a[1..], b);
      assert [a[0]] + a[1..] == a;
    }
  }

  /** A comma-free string is a single piece. */
  lemma {:induction false} SplitNoComma(a: string)
    requires ',' !in a
    ensures Split(a) == [a]
  {
    if a != [] {
      SplitNoComma(a[1..]);
      assert [a[0]] + a[1..] == a;
    }
  }

  /** Splitting a join of comma-free pieces gives back the pieces. */
  lemma {:induction false} SplitJoin(parts: seq<string>)
    requires |parts| >= 1
    requires forall k :: 0 <= k < |parts| ==> ',' !in parts[k]
    ensures Split(Join(parts)) == parts
  {
    if |parts| == 1 {
      SplitNoComma(parts[0]);
    } else {
      SplitJoin(parts[1..]);
      SplitAfterHead(parts[0], Join(parts[1..]));
    }
  }

  /**
   * Universal-newline translation done by Python when a file is read in
   * text mode: "\r\n" and a lone "\r" both become "\n".
   */
  function UniversalNewlines(s: string): (r: string)
    ensures '\r' !in r
    ensures |r| <= |s|
  {
    if s == [] then []
    else if s[0] == '\r' then
      (if |s| > 1 && s[1] == '\n' then "\n" + UniversalNewlines(s[2..])
       else "\n" + UniversalNewlines(s[1..]))
    else [s[0]] + UniversalNewlines(s[1..])
  }

  /** Text that holds no carriage return is read back unchanged. */
  lemma {:induction false} UniversalNewlinesKeepsPlainText(s: string)
    requires '\r' !in s
    ensures UniversalNewlines(s) == s
  {
    if s != [] {
      UniversalNewlinesKeepsPlainText(s[1..]);
      assert [s[0]] + s[1..] == s;
    }
  }

  /** Length of the first line of `s`, including its "\n" if it has one. */
  function LineLength(s: string): (n: nat)
    requires s != []
    ensures 0 < n <= |s|
    ensures '\n' !in s[..n - 1]
    ensures n < |s| ==> s[n - 1] == '\n'
  {
    if s[0] == '\n' || |s| == 1 then 1
    else
      var m := 1 + LineLength(s[1..]);
      assert s[..m - 1] == [s[0]] + s[1..][..m - 2];
      m
  }

  /** The lines of translated text, as `readlines` returns them. */
  function SplitLines(s: string): (lines: seq<string>)
    decreases |s|
  {
    if s == [] then [] else
      var n := LineLength(s);
      [s[..n]] + SplitLines(s[n..])
  }

  /** `f.readlines()` on a file opened in text mode. */
  function ReadLines(text: string): seq<string> {
    SplitLines(UniversalNewlines(text))
  }

  /** `f.readline()` on a file opened in text mode: the first line, or "" at end of file. */
  function FirstLine(text: string): string {
    var s := UniversalNewlines(text);
    if s == [] then "" else s[..LineLength(s)]
  }

  function Concat(lines: seq<string>): string {
    if lines == [] then "" else lines[0] + Concat(lines[1..])
  }

  /**
   * The lines `readlines` returns are never empty, cover the text exactly,
   * and hold a "\n" only as their last character.
   */
  lemma SplitLinesShape(s: string)
    ensures Concat(SplitLines(s)) == s
    ensures forall k :: 0 <= k < |SplitLines(s)| ==> SplitLines(s)[k] != ""
    ensures forall k :: 0 <= k < |SplitLines(s)| ==>
              '\n' !in SplitLines(s)[k][..|SplitLines(s)[k]| - 1]
    ensures forall k :: 0 <= k < |SplitLines(s)| - 1 ==>
              SplitLines(s)[k][|SplitLines(s)[k]| - 1] == '\n'
  {
    SplitLinesCover(s);
    SplitLinesBreakAtEnd(s);
  }

  lemma {:induction false} SplitLinesCover(s: string)
    ensures Concat(SplitLines(s)) == s
  {
    if s != [] {
      var n := LineLength(s);
      SplitLinesCover(s[n..]);
      assert s[..n] + s[n..] == s;
      assert SplitLines(s)[1..] == SplitLines(s[n..]);
    }
  }

  lemma {:induction false} SplitLinesBreakAtEnd(s: string)
    ensures forall k :: 0 <= k < |SplitLines(s)| ==>
              SplitLines(s)[k] != "" && '\n' !in SplitLines(s)[k][..|SplitLines(s)[k]| - 1]
    ensures forall k :: 0 <= k < |SplitLines(s)| - 1 ==>
              SplitLines(s)[k][|SplitLines(s)[k]| - 1] == '\n'
  {
    if s != [] {
      var n := LineLength(s);
      SplitLinesBreakAtEnd(s[n..]);
      var lines := SplitLines(s);
      assert lines == [s[..n]] + SplitLines(s[n..]);
      forall k | 0 <= k < |lines|
        ensures lines[k] != "" && '\n' !in lines[k][..|lines[k]| - 1]
        ensures k < |lines| - 1 ==> lines[k][|lines[k]| - 1] == '\n'
      {
        if k == 0 {
          assert lines[0][..|lines[0]| - 1] == s[..n - 1];
          if |lines| > 1 {
            assert s[n..] != [];
          }
        } else {
          assert lines[k] == SplitLines(s[n..])[k - 1];
        }
      }
    }
  }

  /** Because of that, the `line == ""` guard of the contact parser never fires. */
  lemma ReadLinesNeverEmpty(text: string)
    ensures forall k :: 0 <= k < |ReadLines(text)| ==> ReadLines(text)[k] != ""
  {
    SplitLinesShape(UniversalNewlines(text));
  }

  /** One line of text without line breaks is read back whole by `readline`. */
  lemma FirstLineOfOneLine(s: string)
    requires '\r' !in s && '\n' !in s
    ensures FirstLine(s) == s
  {
    UniversalNewlinesKeepsPlainText(s);
  }
}
