/** The three JavaScript string operations the terminal uses to read a command:
    `String.prototype.trim`, `String.prototype.toLowerCase` and
    `String.prototype.split(" ")`. */
module Text {

  /** The characters `trim` removes: ECMAScript's WhiteSpace and LineTerminator
      code points (tab, line feed, vertical tab, form feed, carriage return, space
      and no-break space below U+00A1; the rest in IsWideSpace). */
  predicate IsSpace(c: char) {
    if c < '\U{A1}' then c == ' ' || '\t' <= c <= '\r' || c == '\U{A0}'
    else IsWideSpace(c)
  }

  /** Ogham space mark, the en/em spaces U+2000 to U+200A, the line and paragraph
      separators, narrow no-break space, medium mathematical space, ideographic
      space and the byte-order mark. */
  predicate IsWideSpace(c: char) {
    c == '\U{1680}' || ('\U{2000}' <= c <= '\U{200A}')
    || c == '\U{2028}' || c == '\U{2029}' || c == '\U{202F}' || c == '\U{205F}'
    || c == '\U{3000}' || c == '\U{FEFF}'
  }

  /** Every character of `s` is one that `trim` removes (the empty string included). */
  predicate Blank(s: string) {
    forall k :: 0 <= k < |s| ==> IsSpace(s[k])
  }

  /** Neither end of `s` is a character that `trim` removes. */
  predicate Trimmed(s: string) {
    s == [] || (!IsSpace(s[0]) && !IsSpace(s[|s| - 1]))
  }

  /** The first position at or after `i` that holds a character `trim` keeps
      (or `|s|`); everything skipped is white space. */
  function SkipSpaces(s: string, i: nat): (j: nat)
    requires i <= |s|
    ensures i <= j <= |s|
    ensures forall k :: i <= k < j ==> IsSpace(s[k])
    ensures j == |s| || !IsSpace(s[j])
    decreases |s| - i
  {
    if i < |s| && IsSpace(s[i]) then SkipSpaces(s, i + 1) else i
  }

  /** The end of the last character `trim` keeps, scanning back from `j` but
      not past `lo`; everything skipped is white space. */
  function SkipSpacesBack(s: string, lo: nat, j: nat): (e: nat)
    requires lo <= j <= |s|
    ensures lo <= e <= j
    ensures forall k :: e <= k < j ==> IsSpace(s[k])
    ensures e == lo || !IsSpace(s[e - 1])
    decreases j
  {
    if lo < j && IsSpace(s[j - 1]) then SkipSpacesBack(s, lo, j - 1) else j
  }

  /** `s.trim()`: no white space at either end, and empty exactly when `s`
      is blank (TrimIsSlice says which slice of `s` it is). */
  function Trim(s: string): (r: string)
    ensures Trimmed(r)
    ensures r == [] <==> Blank(s)
  {
    var i := SkipSpaces(s, 0);
    var e := SkipSpacesBack(s, i, |s|);
    assert i < e ==> !IsSpace(s[i]);
    s[i..e]
  }

  /** How many leading characters `trim` drops. */
  function Lead(s: string): (n: nat)
    ensures n <= |s|
  {
    SkipSpaces(s, 0)
  }

  /** `trim` returns the slice of `s` that starts after `Lead(s)` characters,
      and everything around that slice is white space. */
  lemma {:induction false} TrimIsSlice(s: string)
    ensures var r := Trim(s); var i := Lead(s);
      i <= |s| - |r| && r == s[i..i + |r|] && Blank(s[..i]) && Blank(s[i + |r|..])
  {
    var i := SkipSpaces(s, 0);
    var e := SkipSpacesBack(s, i, |s|);
    assert forall k :: 0 <= k < i ==> s[..i][k] == s[k];
    assert forall k :: 0 <= k < |s| - e ==> s[e..][k] == s[e + k];
  }

  lemma {:induction false} SkipSpacesTo(s: string, i: nat, j: nat)
    requires i <= j <= |s|
    requires forall k :: i <= k < j ==> IsSpace(s[k])
    requires j == |s| || !IsSpace(s[j])
    ensures SkipSpaces(s, i) == j
    decreases j - i
  {
    if i < j { SkipSpacesTo(s, i + 1, j); }
  }

  lemma {:induction false} SkipSpacesBackTo(s: string, lo: nat, e: nat, j: nat)
    requires lo <= e <= j <= |s|
    requires forall k :: e <= k < j ==> IsSpace(s[k])
    requires e == lo || !IsSpace(s[e - 1])
    ensures SkipSpacesBack(s, lo, j) == e
    decreases j - e
  {
    if e < j { SkipSpacesBackTo(s, lo, e, j - 1); }
  }

  /** `trim` is determined by its characterisation: whenever `s` is a trimmed
      middle `m` between two blank strings, `trim` returns exactly `m`. */
  lemma {:induction false} TrimOfPadded(p: string, m: string, q: string)
    requires Blank(p) && Trimmed(m) && Blank(q)
    ensures Trim(p + m + q) == m
  {
    var s := p + m + q;
    if m == [] {
      assert Blank(s) by {
        forall k | 0 <= k < |s| ensures IsSpace(s[k]) {
          if k < |p| { assert s[k] == p[k]; } else { assert s[k] == q[k - |p|]; }
        }
      }
    } else {
      assert forall k :: 0 <= k < |p| ==> s[k] == p[k];
      assert forall k :: 0 <= k < |q| ==> s[|p| + |m| + k] == q[k];
      assert s[|p|] == m[0] && s[|p| + |m| - 1] == m[|m| - 1];
      SkipSpacesTo(s, 0, |p|);
      SkipSpacesBackTo(s, |p|, |p| + |m|, |s|);
      assert s[|p|..|p| + |m|] == m;
    }
  }

  /** JavaScript's `toLowerCase` on one character, for the ASCII letters. */
  function LowerChar(c: char): char {
    if 'A' <= c <= 'Z' then (c as int + 32) as char else c
  }

  /** `s.toLowerCase()`, character by character: no capital letter is left,
      and every other character stays where it was. */
  function ToLower(s: string): (r: string)
    ensures |r| == |s|
    ensures forall k :: 0 <= k < |r| ==> !('A' <= r[k] <= 'Z')
    ensures forall k :: 0 <= k < |s| && !('A' <= s[k] <= 'Z') ==> r[k] == s[k]
  {
    seq(|s|, k requires 0 <= k < |s| => LowerChar(s[k]))
  }

  /** JavaScript's `length`: the number of UTF-16 code units, two for every
      character outside the Basic Multilingual Plane. */
  function Utf16Length(s: string): (n: nat)
    ensures |s| <= n <= 2 * |s|
    ensures (forall k :: 0 <= k < |s| ==> s[k] < '\U{10000}') ==> n == |s|
  {
    if s == [] then 0
    else (if s[0] < '\U{10000}' then 1 else 2) + Utf16Length(s[1..])
  }

  /** `s.split(" ")`: the pieces between single spaces, in order; never empty,
      and `""` splits into `[""]`. */
  function Split(s: string): (r: seq<string>)
    ensures |r| >= 1
    ensures forall k :: 0 <= k < |r| ==> ' ' !in r[k]
  {
    if |s| == 0 then [""]
    else if s[0] == ' ' then [""] + Split(s[1..])
    else
      var t := Split(s[1..]);
      [[s[0]] + t[0]] + t[1..]
  }

  /** `ts.join(" ")`. */
  function Join(ts: seq<string>): string
    requires |ts| >= 1
  {
    if |ts| == 1 then ts[0] else ts[0] + " " + Join(ts[1..])
  }

  // ----- trim -----

  /** Trimming a trimmed string changes nothing. */
  lemma {:induction false} TrimOfTrimmed(s: string)
    requires Trimmed(s)
    ensures Trim(s) == s
  {
    assert [] + s + [] == s;
    TrimOfPadded([], s, []);
  }

  lemma {:induction false} TrimIdempotent(s: string)
    ensures Trim(Trim(s)) == Trim(s)
  {
    TrimOfTrimmed(Trim(s));
  }

  lemma {:induction false} BlankConcat(a: string, b: string)
    requires Blank(a) && Blank(b)
    ensures Blank(a + b)
  {
    forall k | 0 <= k < |a + b| ensures IsSpace((a + b)[k]) {
      if k < |a| { assert (a + b)[k] == a[k]; } else { assert (a + b)[k] == b[k - |a|]; }
    }
  }

  /** White space around a command does not change what `trim` returns. */
  lemma {:induction false} TrimIgnoresPadding(p: string, s: string, q: string)
    requires Blank(p) && Blank(q)
    ensures Trim(p + s + q) == Trim(s)
  {
    var m, i := Trim(s), Lead(s);
    TrimIsSlice(s);
    var p', q' := s[..i], s[i + |m|..];
    assert p + s + q == (p + p') + m + (q' + q) by {
      assert s == p' + m + q';
    }
    assert Blank(p + p') && Blank(q' + q) by {
      BlankConcat(p, p');
      BlankConcat(q', q);
    }
    TrimOfPadded(p + p', m, q' + q);
  }

  // ----- toLowerCase -----

  lemma {:induction false} LowerKeepsSpaces(c: char)
    ensures IsSpace(LowerChar(c)) == IsSpace(c)
  {
  }

  /** Lower-casing never creates or removes white space, so the trimmed shape survives it. */
  lemma {:induction false} LowerKeepsTrimmed(s: string)
    requires Trimmed(s)
    ensures Trimmed(ToLower(s))
  {
    if s != [] {
      LowerKeepsSpaces(s[0]);
      LowerKeepsSpaces(s[|s| - 1]);
    }
  }

  lemma {:induction false} LowerKeepsBlank(s: string)
    requires Blank(s)
    ensures Blank(ToLower(s))
  {
    forall k | 0 <= k < |s| ensures IsSpace(ToLower(s)[k]) { LowerKeepsSpaces(s[k]); }
  }

  lemma {:induction false} LowerIdempotent(s: string)
    ensures ToLower(ToLower(s)) == ToLower(s)
  {
  }

  lemma {:induction false} LowerConcat(a: string, b: string)
    ensures ToLower(a + b) == ToLower(a) + ToLower(b)
  {
  }

  /** `toLowerCase` and `trim` commute, so the order the two variants apply them in does not matter. */
  lemma {:induction false} TrimLowerCommute(s: string)
    ensures Trim(ToLower(s)) == ToLower(Trim(s))
  {
    var r := Trim(s);
    var i := Lead(s);
    TrimIsSlice(s);
    var p, q := s[..i], s[i + |r|..];
    assert s == p + r + q;
    LowerConcat(p + r, q);
    LowerConcat(p, r);
    assert ToLower(s) == ToLower(p) + ToLower(r) + ToLower(q);
    LowerKeepsBlank(p);
    LowerKeepsBlank(q);
    LowerKeepsTrimmed(r);
    TrimOfPadded(ToLower(p), ToLower(r), ToLower(q));
  }

  // ----- split -----

  lemma {:induction false} SplitWord(a: string)
    requires ' ' !in a
    ensures Split(a) == [a]
  {
    if a != [] {
      assert ' ' !in a[1..] by { assert forall k :: 0 <= k < |a| - 1 ==> a[1..][k] == a[k + 1]; }
      SplitWord(a[1..]);
      assert [a[0]] + a[1..] == a;
    }
  }

  /** Splitting `a + " " + b`, where `a` has no space, yields `a` and then the pieces of `b`. */
  lemma {:induction false} SplitAfterWord(a: string, b: string)
    requires ' ' !in a
    ensures Split(a + " " + b) == [a] + Split(b)
  {
    if a == [] {
      assert a + " " + b == [' '] + b;
      assert ([' '] + b)[1..] == b;
    } else {
      var s := a + " " + b;
      assert s[0] == a[0];
      assert s[1..] == a[1..] + " " + b;
      assert ' ' !in a[1..] by { assert forall k :: 0 <= k < |a| - 1 ==> a[1..][k] == a[k + 1]; }
      SplitAfterWord(a[1..], b);
      assert [a[0]] + a[1..] == a;
    }
  }

  /** Two spaces in a row leave an empty piece between the words they separate. */
  lemma {:induction false} SplitAfterDoubleSpace(a: string, b: string)
    requires ' ' !in a
    ensures Split(a + "  " + b) == [a, ""] + Split(b)
  {
    var sb := " " + b;
    assert sb[0] == ' ' && sb[1..] == b;
    assert Split(sb) == [""] + Split(b);
    SplitAfterWord(a, sb);
    assert a + " " + sb == a + "  " + b;
  }

  /** Joining the pieces with single spaces gives back the string that was split. */
  lemma {:induction false} JoinSplit(s: string)
    ensures Join(Split(s)) == s
    decreases |s|
  {
    if |s| == 0 {
    } else if s[0] == ' ' {
      JoinSplit(s[1..]);
      assert Split(s) == [""] + Split(s[1..]);
    } else {
      var t := Split(s[1..]);
      JoinSplit(s[1..]);
      var r := [[s[0]] + t[0]] + t[1..];
      assert Split(s) == r;
      if |t| == 1 {
        assert Join(r) == [s[0]] + t[0];
      } else {
        assert r[1..] == t[1..];
        assert Join(t) == t[0] + " " + Join(t[1..]);
        assert Join(r) == ([s[0]] + t[0]) + " " + Join(t[1..]);
      }
      assert [s[0]] + s[1..] == s;
    }
  }

  /** Splitting pieces that hold no space, once joined, gives back the pieces. */
  lemma {:induction false} SplitJoin(ts: seq<string>)
    requires |ts| >= 1
    requires forall k :: 0 <= k < |ts| ==> ' ' !in ts[k]
    ensures Split(Join(ts)) == ts
  {
    if |ts| == 1 {
      SplitWord(ts[0]);
    } else {
      SplitJoin(ts[1..]);
      SplitAfterWord(ts[0], Join(ts[1..]));
      assert [ts[0]] + ts[1..] == ts;
    }
  }
}
