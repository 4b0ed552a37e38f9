/**
 * The JavaScript string operations the application relies on, for a
 * one-character separator: `split`, `join`, `pop()` of a split, the
 * `split('.').slice(0, -1).join('.')` idiom, `trim` and `startsWith`.
 */
module JsStrings {

  /** `s.startsWith(p)` */
  predicate StartsWith(s: string, p: string) {
    |p| <= |s| && s[..|p|] == p
  }

  /** A prefix that begins with the first character is that character followed by a prefix of the rest. */
  lemma StartsWithTail(s: string, p: string)
    requires |s| >= 1
    ensures StartsWith(s, [s[0]] + p) <==> StartsWith(s[1..], p)
  {
    if StartsWith(s[1..], p) {
      assert s[..|p| + 1] == [s[0]] + s[1..][..|p|];
    }
    if StartsWith(s, [s[0]] + p) {
      assert s[1..][..|p|] == s[..|p| + 1][1..];
    }
  }

  /** `s.split(c)`: the pieces between occurrences of `c`; never empty, `"".split(c)` is `[""]`. */
  function Split(s: string, c: char): (r: seq<string>)
    ensures |r| >= 1
    ensures forall i :: 0 <= i < |r| ==> c !in r[i]
  {
    if |s| == 0 then [""]
    else
      var rest := Split(s[1..], c);
      if s[0] == c then [""] + rest
      else [[s[0]] + rest[0]] + rest[1..]
  }

  /** `xs.join(sep)` */
  function Join(xs: seq<string>, sep: string): (r: string)
    ensures |xs| == 0 ==> r == ""
    ensures |xs| >= 1 ==> StartsWith(r, xs[0])
  {
    if |xs| == 0 then ""
    else if |xs| == 1 then xs[0]
    else
      var rest := Join(xs[1..], sep);
      assert (xs[0] + sep + rest)[..|xs[0]|] == xs[0];
      xs[0] + sep + rest
  }

  /** The summed length of the pieces. */
  function TotalLength(xs: seq<string>): nat {
    if |xs| == 0 then 0 else |xs[0]| + TotalLength(xs[1..])
  }

  /** `xs.join(sep)` is as long as all pieces plus one separator between each pair. */
  lemma {:induction false} JoinLength(xs: seq<string>, sep: string)
    requires |xs| >= 1
    ensures |Join(xs, sep)| == TotalLength(xs) + (|xs| - 1) * |sep|
  {
    if |xs| > 1 {
      JoinLength(xs[1..], sep);
    }
  }

  /** `s.split(c).pop()`: what follows the last `c`, or all of `s` when there is none. */
  function LastSegment(s: string, c: char): (r: string)
    ensures c !in r
    ensures |r| <= |s| && s[|s| - |r|..] == r
    ensures c !in s ==> r == s
    ensures c in s ==> |r| < |s| && s[|s| - |r| - 1] == c
  {
    var pieces := Split(s, c);
    SplitPieces(s, c);
    JoinSplit(s, c);
    if |pieces| > 1 then
      assert pieces == pieces[..|pieces| - 1] + [pieces[|pieces| - 1]];
      JoinSnoc(pieces[..|pieces| - 1], [c], pieces[|pieces| - 1]);
      var pre := Join(pieces[..|pieces| - 1], [c]);
      assert s == pre + [c] + pieces[|pieces| - 1];
      assert s[|pre|] == c;
      pieces[|pieces| - 1]
    else
      pieces[|pieces| - 1]
  }

  /** `s.split(c).slice(0, -1).join(c)`: what precedes the last `c`, or `""` when there is none. */
  function Stem(s: string, c: char): (r: string)
    ensures c !in s ==> r == ""
    ensures c in s ==> r + [c] + LastSegment(s, c) == s
  {
    var pieces := Split(s, c);
    SplitPieces(s, c);
    JoinSplit(s, c);
    if |pieces| > 1 then
      assert pieces == pieces[..|pieces| - 1] + [pieces[|pieces| - 1]];
      JoinSnoc(pieces[..|pieces| - 1], [c], pieces[|pieces| - 1]);
      Join(pieces[..|pieces| - 1], [c])
    else
      Join(pieces[..|pieces| - 1], [c])
  }

  /** `${name}.${from.split('.').pop()}`: `name` followed by the extension of `from`. */
  function KeepExtension(name: string, from: string): (r: string)
    ensures Stem(r, '.') == name
    ensures LastSegment(r, '.') == LastSegment(from, '.')
  {
    AppendSegment(name, '.', LastSegment(from, '.'));
    name + "." + LastSegment(from, '.')
  }

  /** The characters `String.prototype.trim` removes: ECMAScript WhiteSpace and LineTerminator. */
  predicate IsJsWhitespace(ch: char) {
    ch in {'\t', '\n', '\U{000B}', '\U{000C}', '\r', ' ', '\U{00A0}', '\U{1680}',
           '\U{2000}', '\U{2001}', '\U{2002}', '\U{2003}', '\U{2004}', '\U{2005}',
           '\U{2006}', '\U{2007}', '\U{2008}', '\U{2009}', '\U{200A}', '\U{2028}',
           '\U{2029}', '\U{202F}', '\U{205F}', '\U{3000}', '\U{FEFF}'}
  }

  /** The number of whitespace characters `s` starts with. */
  function LeadingSpace(s: string): (k: nat)
    ensures k <= |s|
    ensures forall i :: 0 <= i < k ==> IsJsWhitespace(s[i])
    ensures k < |s| ==> !IsJsWhitespace(s[k])
  {
    if |s| > 0 && IsJsWhitespace(s[0]) then 1 + LeadingSpace(s[1..]) else 0
  }

  /** The number of whitespace characters `s` ends with. */
  function TrailingSpace(s: string): (k: nat)
    ensures k <= |s|
    ensures forall i :: |s| - k <= i < |s| ==> IsJsWhitespace(s[i])
    ensures k < |s| ==> !IsJsWhitespace(s[|s| - 1 - k])
  {
    if |s| > 0 && IsJsWhitespace(s[|s| - 1]) then 1 + TrailingSpace(s[..|s| - 1]) else 0
  }

  /** `s.trim()`: `s` without its leading and trailing whitespace, and nothing else removed. */
  function Trim(s: string): (r: string)
    ensures |r| > 0 ==> !IsJsWhitespace(r[0]) && !IsJsWhitespace(r[|r| - 1])
    ensures exists i :: TrimmedAt(s, r, i)
  {
    var i := LeadingSpace(s);
    var t := s[i..];
    var r := t[..|t| - TrailingSpace(t)];
    assert r == s[i..i + |r|];
    assert forall k :: i + |r| <= k < |s| ==> s[k] == t[k - i];
    assert TrimmedAt(s, r, i);
    r
  }

  /** `r` is `s` with only whitespace cut off before position `i` and after `r`. */
  predicate TrimmedAt(s: string, r: string, i: int) {
    && 0 <= i <= |s| - |r| && r == s[i..i + |r|]
    && (forall k :: 0 <= k < i ==> IsJsWhitespace(s[k]))
    && (forall k :: i + |r| <= k < |s| ==> IsJsWhitespace(s[k]))
  }

  // ---------------------------------------------------------------------------
  // split / join

  lemma {:induction false} SplitWithoutSeparator(s: string, c: char)
    requires c !in s
    ensures Split(s, c) == [s]
  {
    if |s| > 0 {
      SplitWithoutSeparator(s[1..], c);
      assert Split(s[1..], c) == [s[1..]];
      assert [s[0]] + s[1..] == s;
    }
  }

  /** Splitting at one occurrence of the separator splits the two sides independently. */
  lemma {:induction false} SplitAround(a: string, c: char, b: string)
    ensures Split(a + [c] + b, c) == Split(a, c) + Split(b, c)
  {
    var s := a + [c] + b;
    if |a| == 0 {
      assert s[1..] == b;
    } else {
      assert s[1..] == a[1..] + [c] + b;
      SplitAround(a[1..], c, b);
    }
  }

  lemma JoinCons(h: string, t: seq<string>, sep: string)
    ensures Join([h] + t, sep) == if |t| == 0 then h else h + sep + Join(t, sep)
  {
    assert ([h] + t)[1..] == t;
  }

  /** Joining the pieces of a split gives back the string. */
  lemma {:induction false} JoinSplit(s: string, c: char)
    ensures Join(Split(s, c), [c]) == s
  {
    if |s| > 0 {
      var rest := Split(s[1..], c);
      JoinSplit(s[1..], c);
      if s[0] == c {
        JoinCons("", rest, [c]);
      } else {
        JoinCons([s[0]] + rest[0], rest[1..], [c]);
        JoinCons(rest[0], rest[1..], [c]);
        assert rest == [rest[0]] + rest[1..];
      }
      assert s == [s[0]] + s[1..];
    }
  }

  /** Splitting a join of separator-free pieces gives back the pieces. */
  lemma {:induction false} SplitJoin(xs: seq<string>, c: char)
    requires |xs| >= 1
    requires forall i :: 0 <= i < |xs| ==> c !in xs[i]
    ensures Split(Join(xs, [c]), c) == xs
  {
    SplitWithoutSeparator(xs[0], c);
    if |xs| > 1 {
      SplitJoin(xs[1..], c);
      SplitAround(xs[0], c, Join(xs[1..], [c]));
      assert xs == [xs[0]] + xs[1..];
    }
  }

  /** The split has more than one piece exactly when the separator occurs. */
  lemma {:induction false} SplitPieces(s: string, c: char)
    ensures |Split(s, c)| > 1 <==> c in s
  {
    if |s| > 0 {
      SplitPieces(s[1..], c);
      assert s == [s[0]] + s[1..];
    }
  }

  lemma {:induction false} JoinSnoc(xs: seq<string>, sep: string, y: string)
    requires |xs| >= 1
    ensures Join(xs + [y], sep) == Join(xs, sep) + sep + y
  {
    if |xs| > 1 {
      JoinSnoc(xs[1..], sep, y);
      assert (xs + [y])[1..] == xs[1..] + [y];
    }
  }

  /** Appending a separator and a separator-free tail makes that tail the last segment and the rest the stem. */
  lemma AppendSegment(stem: string, c: char, tail: string)
    requires c !in tail
    ensures LastSegment(stem + [c] + tail, c) == tail
    ensures Stem(stem + [c] + tail, c) == stem
  {
    SplitAround(stem, c, tail);
    SplitWithoutSeparator(tail, c);
    var pieces := Split(stem + [c] + tail, c);
    assert pieces[..|pieces| - 1] == Split(stem, c);
    JoinSplit(stem, c);
  }

  // ---------------------------------------------------------------------------
  // trim

  /** A leading space is always removed by `trim`. */
  lemma TrimAfterSpace(s: string)
    ensures Trim(" " + s) == Trim(s)
  {
    assert (" " + s)[1..] == s;
    assert LeadingSpace(" " + s) == 1 + LeadingSpace(s);
    assert (" " + s)[LeadingSpace(" " + s)..] == s[LeadingSpace(s)..];
  }
}
