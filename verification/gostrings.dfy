/** The subset of Go's `strings` package the handlers rely on, over `seq<char>`.
    Go strings are UTF-8 byte sequences; here a string is a sequence of Unicode
    scalar values and `Utf8Len` recovers Go's `len` where the source compares it. */
module GoStrings {

  /** `unicode.IsSpace`: the Latin-1 spaces plus the Unicode White_Space code points. */
  predicate IsSpace(ch: char) {
    || ch == ' ' || ch == '\t' || ch == '\n' || ch == '\U{000B}' || ch == '\U{000C}' || ch == '\r'
    || ch == '\U{0085}' || ch == '\U{00A0}' || ch == '\U{1680}'
    || ('\U{2000}' <= ch <= '\U{200A}')
    || ch == '\U{2028}' || ch == '\U{2029}' || ch == '\U{202F}' || ch == '\U{205F}' || ch == '\U{3000}'
  }

  /** Removes leading white space. */
  function TrimLeftSpace(s: string): (r: string)
    ensures |r| <= |s| && r == s[|s| - |r|..]
    ensures forall k :: 0 <= k < |s| - |r| ==> IsSpace(s[k])
    ensures |r| > 0 ==> !IsSpace(r[0])
  {
    if |s| > 0 && IsSpace(s[0]) then TrimLeftSpace(s[1..]) else s
  }

  /** Removes trailing white space. */
  function TrimRightSpace(s: string): (r: string)
    ensures |r| <= |s| && r == s[..|r|]
    ensures forall k :: |r| <= k < |s| ==> IsSpace(s[k])
    ensures |r| > 0 ==> !IsSpace(r[|r| - 1])
  {
    if |s| > 0 && IsSpace(s[|s| - 1]) then TrimRightSpace(s[..|s| - 1]) else s
  }

  /** Number of leading white-space characters of `s`. */
  function LeadingSpaces(s: string): nat
  {
    |s| - |TrimLeftSpace(s)|
  }

  /** `strings.TrimSpace`: the infix of `s` left after dropping white space at both
      ends; what is dropped is white space and what is kept neither starts nor
      ends with it. */
  function TrimSpace(s: string): (r: string)
    ensures LeadingSpaces(s) + |r| <= |s|
    ensures r == s[LeadingSpaces(s)..LeadingSpaces(s) + |r|]
    ensures forall k :: 0 <= k < LeadingSpaces(s) ==> IsSpace(s[k])
    ensures forall k :: LeadingSpaces(s) + |r| <= k < |s| ==> IsSpace(s[k])
    ensures |r| > 0 ==> !IsSpace(r[0]) && !IsSpace(r[|r| - 1])
  {
    TrimRightSpace(TrimLeftSpace(s))
  }

  /** `strings.TrimLeft(s, cutset)` for a one-character cut set. */
  function TrimLeftChar(s: string, ch: char): (r: string)
    ensures |r| <= |s| && r == s[|s| - |r|..]
    ensures forall k :: 0 <= k < |s| - |r| ==> s[k] == ch
    ensures |r| > 0 ==> r[0] != ch
  {
    if |s| > 0 && s[0] == ch then TrimLeftChar(s[1..], ch) else s
  }

  /** `strings.HasPrefix`. */
  predicate HasPrefix(s: string, prefix: string) {
    prefix <= s
  }

  /** `sep` starts at no index of `t` below `n`. */
  predicate NoMatchBefore(t: string, sep: string, n: int) {
    forall k :: 0 <= k < n && k <= |t| ==> !(sep <= t[k..])
  }

  /** The pieces are cut at leftmost occurrences of `sep`: no occurrence starts
      inside a piece that the separator follows, and the last piece holds none. */
  predicate LeftmostCuts(parts: seq<string>, sep: string) {
    && (forall i :: 0 <= i < |parts| - 1 ==> NoMatchBefore(parts[i] + sep, sep, |parts[i]|))
    && (|parts| > 0 ==> NoMatchBefore(parts[|parts| - 1], sep, |parts[|parts| - 1]| + 1))
  }

  /** Go's `strings.Split` for a non-empty separator, scanning left to right and
      cutting at every leftmost non-overlapping occurrence of `sep`; `cur` is the
      piece collected so far. */
  function SplitFrom(s: string, sep: string, cur: string): (parts: seq<string>)
    requires |sep| > 0
    ensures |parts| > 0
    decreases |s|
  {
    if |s| == 0 then [cur]
    else if sep <= s then [cur] + SplitFrom(s[|sep|..], sep, "")
    else SplitFrom(s[1..], sep, cur + [s[0]])
  }

  /** `strings.Split(s, sep)` for a non-empty separator: the pieces, joined
      back with the separator, are the input. */
  function Split(s: string, sep: string): (parts: seq<string>)
    requires |sep| > 0
    ensures |parts| > 0
    ensures Join(parts, sep) == s
  {
    JoinSplitFrom(s, sep, "");
    SplitFrom(s, sep, "")
  }

  /** The total length of some strings. */
  function SumLengths(parts: seq<string>): nat
  {
    if |parts| == 0 then 0 else |parts[0]| + SumLengths(parts[1..])
  }

  /** `strings.Join`: the parts with one separator between each two. */
  function Join(parts: seq<string>, sep: string): (r: string)
    ensures |parts| > 0 ==> |r| == SumLengths(parts) + (|parts| - 1) * |sep|
    ensures |parts| > 0 ==> parts[0] <= r
  {
    if |parts| == 0 then ""
    else if |parts| == 1 then parts[0]
    else parts[0] + sep + Join(parts[1..], sep)
  }

  /** `strings.ReplaceAll` for a non-empty pattern. Replacing a pattern by itself
      changes nothing, and a one-character pattern is replaced character by
      character. */
  function ReplaceAll(s: string, pattern: string, replacement: string): (r: string)
    requires |pattern| > 0
    ensures pattern == replacement ==> r == s
    ensures |pattern| == 1 ==> r == MapChar(s, pattern[0], replacement)
  {
    if |pattern| == 1 then
      JoinSplitFromChar(s, pattern[0], "", replacement);
      assert [pattern[0]] == pattern;
      Join(Split(s, pattern), replacement)
    else
      Join(Split(s, pattern), replacement)
  }

  /** Replaces every occurrence of one character by a string, one character at a time. */
  function MapChar(s: string, c: char, r: string): (t: string)
    ensures c !in r ==> c !in t
  {
    if |s| == 0 then "" else (if s[0] == c then r else [s[0]]) + MapChar(s[1..], c, r)
  }

  /** ASCII lower-casing of one character. */
  function LowerChar(ch: char): char {
    if 'A' <= ch <= 'Z' then (ch as int + 32) as char else ch
  }

  /** `strings.ToLower`, on the ASCII letters. */
  function ToLower(s: string): (r: string)
    ensures |r| == |s|
    ensures forall k :: 0 <= k < |r| ==> !('A' <= r[k] <= 'Z')
    ensures forall k :: 0 <= k < |r| ==> (IsSpace(r[k]) <==> IsSpace(s[k]))
    ensures forall k :: 0 <= k < |s| ==>
      if 'A' <= s[k] <= 'Z' then r[k] as int == s[k] as int + 32 && 'a' <= r[k] <= 'z' else r[k] == s[k]
  {
    seq(|s|, k requires 0 <= k < |s| => LowerChar(s[k]))
  }

  /** Number of bytes of the UTF-8 encoding of one code point. */
  function RuneLen(ch: char): nat {
    if ch as int < 0x80 then 1
    else if ch as int < 0x800 then 2
    else if ch as int < 0x10000 then 3
    else 4
  }

  /** Go's `len` of a string: the length of its UTF-8 encoding. */
  function Utf8Len(s: string): (n: nat)
    ensures n >= |s|
    ensures (forall k :: 0 <= k < |s| ==> s[k] as int < 0x80) ==> n == |s|
  {
    if |s| == 0 then 0 else RuneLen(s[0]) + Utf8Len(s[1..])
  }

  /** The UTF-8 encoding of one code point (section 3 of RFC 3629): one byte
      up to U+007F, then a lead byte 110xxxxx, 1110xxxx or 11110xxx followed by
      one, two or three continuation bytes 10xxxxxx, six bits each, most
      significant bits first. */
  function Utf8Encode(ch: char): (bytes: seq<int>)
    ensures forall k :: 0 <= k < |bytes| ==> 0 <= bytes[k] < 256
    ensures forall k :: 1 <= k < |bytes| ==> 0x80 <= bytes[k] < 0xC0
  {
    var cp := ch as int;
    if cp < 0x80 then [cp]
    else if cp < 0x800 then [0xC0 + cp / 64, 0x80 + cp % 64]
    else if cp < 0x10000 then [0xE0 + cp / 4096, 0x80 + cp / 64 % 64, 0x80 + cp % 64]
    else [0xF0 + cp / 262144, 0x80 + cp / 4096 % 64, 0x80 + cp / 64 % 64, 0x80 + cp % 64]
  }

  /** The code point a well-formed UTF-8 sequence of one to four bytes stands for. */
  function Utf8Decode(bytes: seq<int>): int
    requires 1 <= |bytes| <= 4
  {
    if |bytes| == 1 then bytes[0]
    else if |bytes| == 2 then (bytes[0] - 0xC0) * 64 + (bytes[1] - 0x80)
    else if |bytes| == 3 then ((bytes[0] - 0xE0) * 64 + (bytes[1] - 0x80)) * 64 + (bytes[2] - 0x80)
    else (((bytes[0] - 0xF0) * 64 + (bytes[1] - 0x80)) * 64 + (bytes[2] - 0x80)) * 64 + (bytes[3] - 0x80)
  }

  /** The encoding of a whole string. */
  function Utf8Bytes(s: string): seq<int> {
    if |s| == 0 then [] else Utf8Encode(s[0]) + Utf8Bytes(s[1..])
  }

  // ---------------------------------------------------------------------------
  // Lemmas

  /** A code point takes as many bytes as `RuneLen` says, its lead byte tells
      how many, and the bytes decode back to it. */
  lemma Utf8EncodeRune(ch: char)
    ensures |Utf8Encode(ch)| == RuneLen(ch)
    ensures Utf8Decode(Utf8Encode(ch)) == ch as int
    ensures var b := Utf8Encode(ch)[0];
      && (RuneLen(ch) == 1 <==> b < 0x80)
      && (RuneLen(ch) == 2 <==> 0xC0 <= b < 0xE0)
      && (RuneLen(ch) == 3 <==> 0xE0 <= b < 0xF0)
      && (RuneLen(ch) == 4 <==> 0xF0 <= b < 0xF8)
  {
    var cp := ch as int;
    if cp < 0x80 {
    } else if cp < 0x800 {
      SixBits(cp);
    } else if cp < 0x10000 {
      SixBits(cp);
      SixBits(cp / 64);
      assert cp / 64 / 64 == cp / 4096;
    } else {
      SixBits(cp);
      SixBits(cp / 64);
      SixBits(cp / 4096);
      assert cp / 64 / 64 == cp / 4096;
      assert cp / 4096 / 64 == cp / 262144;
    }
  }

  /** Splitting off the low six bits. */
  lemma SixBits(x: int)
    requires x >= 0
    ensures x == x / 64 * 64 + x % 64 && 0 <= x % 64 < 64
  {
  }

  /** The byte length of a concatenation is the sum of the byte lengths. */
  lemma {:induction false} Utf8LenAppend(a: string, b: string)
    ensures Utf8Len(a + b) == Utf8Len(a) + Utf8Len(b)
    decreases |a|
  {
    if |a| == 0 {
      assert a + b == b;
    } else {
      Utf8LenAppend(a[1..], b);
      assert (a + b)[0] == a[0];
      assert (a + b)[1..] == a[1..] + b;
    }
  }

  /** `Utf8Len` is the length of the string's UTF-8 encoding. */
  lemma {:induction false} Utf8LenIsEncodedLength(s: string)
    ensures Utf8Len(s) == |Utf8Bytes(s)|
    decreases |s|
  {
    if |s| > 0 {
      Utf8EncodeRune(s[0]);
      Utf8LenIsEncodedLength(s[1..]);
    }
  }

  /** A part in front of a non-empty join is followed by one separator. */
  lemma JoinCons(x: string, rest: seq<string>, sep: string)
    requires |rest| > 0
    ensures Join([x] + rest, sep) == x + sep + Join(rest, sep)
  {
    assert ([x] + rest)[1..] == rest;
  }

  /** Joining the pieces of a split with the same separator rebuilds the input. */
  lemma {:induction false} JoinSplitFrom(s: string, sep: string, cur: string)
    requires |sep| > 0
    ensures Join(SplitFrom(s, sep, cur), sep) == cur + s
    decreases |s|
  {
    if |s| == 0 {
      assert cur + s == cur;
    } else if sep <= s {
      JoinSplitFrom(s[|sep|..], sep, "");
      JoinSplitFromCut(s, sep, cur);
    } else {
      JoinSplitFrom(s[1..], sep, cur + [s[0]]);
      assert cur + [s[0]] + s[1..] == cur + s;
    }
  }

  /** A cut at the front of `s` closes the current piece: if the rest splits
      and joins back, so does `s`. */
  lemma JoinSplitFromCut(s: string, sep: string, cur: string)
    requires |sep| > 0 && |s| > 0 && sep <= s
    requires Join(SplitFrom(s[|sep|..], sep, ""), sep) == "" + s[|sep|..]
    ensures Join(SplitFrom(s, sep, cur), sep) == cur + s
  {
    var t := s[|sep|..];
    var rest := SplitFrom(t, sep, "");
    assert SplitFrom(s, sep, cur) == [cur] + rest;
    JoinConsRebuilds(cur, sep, rest, t, s);
  }

  /** A part in front of pieces that join back to `t` rebuilds `sep + t` behind it. */
  lemma JoinConsRebuilds(cur: string, sep: string, rest: seq<string>, t: string, s: string)
    requires |rest| > 0 && Join(rest, sep) == "" + t && s == sep + t
    ensures Join([cur] + rest, sep) == cur + s
  {
    JoinCons(cur, rest, sep);
  }

  /** Text that cannot start a separator is collected into the current piece. */
  lemma {:induction false} SplitFromSkip(a: string, rest: string, sep: string, cur: string)
    requires |sep| > 0 && sep[0] !in a
    ensures SplitFrom(a + rest, sep, cur) == SplitFrom(rest, sep, cur + a)
    decreases |a|
  {
    if |a| == 0 {
      assert a + rest == rest;
      assert cur + a == cur;
    } else {
      assert (a + rest)[0] == a[0];
      assert !(sep <= a + rest);
      assert (a + rest)[1..] == a[1..] + rest;
      SplitFromSkip(a[1..], rest, sep, cur + [a[0]]);
      assert cur + [a[0]] + a[1..] == cur + a;
    }
  }

  /** A string made of two separator-free parts around one separator splits
      into exactly those two parts. */
  lemma SplitAround(a: string, sep: string, b: string)
    requires |sep| > 0 && sep[0] !in a && sep[0] !in b
    ensures Split(a + sep + b, sep) == [a, b]
  {
    SplitFromSkip(a, sep + b, sep, "");
    assert a + sep + b == a + (sep + b);
    assert "" + a == a;
    assert sep <= sep + b && (sep + b)[|sep|..] == b;
    assert SplitFrom(sep + b, sep, a) == [a] + SplitFrom(b, sep, "");
    SplitFromSkip(b, "", sep, "");
    assert b + "" == b;
    assert "" + b == b;
  }

  /** Splitting the join of separator-free parts gives the parts back. */
  lemma {:induction false} SplitJoin(parts: seq<string>, sep: string)
    requires |sep| > 0 && |parts| > 0
    requires forall i :: 0 <= i < |parts| ==> sep[0] !in parts[i]
    ensures Split(Join(parts, sep), sep) == parts
    decreases |parts|
  {
    if |parts| == 1 {
      SplitFromSkip(parts[0], "", sep, "");
      assert parts[0] + "" == parts[0];
      assert "" + parts[0] == parts[0];
    } else {
      var tail := Join(parts[1..], sep);
      assert Join(parts, sep) == parts[0] + (sep + tail);
      SplitFromSkip(parts[0], sep + tail, sep, "");
      assert "" + parts[0] == parts[0];
      assert sep <= sep + tail && (sep + tail)[|sep|..] == tail;
      SplitJoin(parts[1..], sep);
      assert parts == [parts[0]] + parts[1..];
    }
  }

  /** A scan whose current piece holds no occurrence of `sep` cuts at leftmost
      occurrences only. */
  lemma {:induction false} SplitFromLeftmost(s: string, sep: string, cur: string)
    requires |sep| > 0 && NoMatchBefore(cur + s, sep, |cur|)
    ensures LeftmostCuts(SplitFrom(s, sep, cur), sep)
    decreases |s|
  {
    if |s| == 0 {
      assert cur + s == cur;
    } else if sep <= s {
      var rest := SplitFrom(s[|sep|..], sep, "");
      SplitFromLeftmost(s[|sep|..], sep, "");
      var parts := [cur] + rest;
      forall k | 0 <= k < |cur| ensures !(sep <= (cur + sep)[k..]) {
        assert (cur + sep)[k..] == cur[k..] + sep;
        assert (cur + s)[k..] == cur[k..] + s;
        assert !(sep <= (cur + s)[k..]);
      }
      assert forall i :: 1 <= i < |parts| ==> parts[i] == rest[i - 1];
    } else {
      assert cur + [s[0]] + s[1..] == cur + s;
      assert (cur + s)[|cur|..] == s;
      SplitFromLeftmost(s[1..], sep, cur + [s[0]]);
    }
  }

  /** A piece in which no occurrence of `sep` starts, followed by `sep`, is cut
      off whole. */
  lemma {:induction false} SplitFromPiece(p: string, x: string, sep: string, cur: string)
    requires |sep| > 0 && NoMatchBefore(cur + p + sep, sep, |cur| + |p|)
    ensures SplitFrom(p + sep + x, sep, cur) == [cur + p] + SplitFrom(x, sep, "")
    decreases |p|
  {
    if |p| == 0 {
      assert p + sep + x == sep + x;
      assert cur + p == cur;
      assert (sep + x)[|sep|..] == x;
    } else {
      var s := p + sep + x;
      assert (cur + p + sep)[|cur|..] == p + sep;
      assert !(sep <= s) by {
        assert s[..|sep|] == (p + sep)[..|sep|];
      }
      assert s[1..] == p[1..] + sep + x;
      assert cur + [p[0]] + p[1..] + sep == cur + p + sep;
      assert cur + [p[0]] + p[1..] == cur + p;
      SplitFromPiece(p[1..], x, sep, cur + [p[0]]);
    }
  }

  /** A last piece holding no occurrence of `sep` stays whole. */
  lemma {:induction false} SplitFromLast(p: string, sep: string, cur: string)
    requires |sep| > 0 && NoMatchBefore(cur + p, sep, |cur| + |p| + 1)
    ensures SplitFrom(p, sep, cur) == [cur + p]
    decreases |p|
  {
    if |p| == 0 {
      assert cur + p == cur;
    } else {
      assert (cur + p)[|cur|..] == p;
      assert cur + [p[0]] + p[1..] == cur + p;
      SplitFromLast(p[1..], sep, cur + [p[0]]);
    }
  }

  /** `Split` cuts at leftmost occurrences: no occurrence of the separator
      starts inside a piece the separator follows, and the last piece holds none. */
  lemma SplitLeftmost(s: string, sep: string)
    requires |sep| > 0
    ensures LeftmostCuts(Split(s, sep), sep)
  {
    SplitFromLeftmost(s, sep, "");
  }

  /** A piece in which no occurrence of `sep` starts, followed by `sep`, is
      split off whole. */
  lemma SplitPiece(p: string, x: string, sep: string)
    requires |sep| > 0 && NoMatchBefore(p + sep, sep, |p|)
    ensures Split(p + sep + x, sep) == [p] + Split(x, sep)
  {
    assert "" + p == p;
    SplitFromPiece(p, x, sep, "");
  }

  /** A string holding no occurrence of `sep` splits into itself. */
  lemma SplitLast(p: string, sep: string)
    requires |sep| > 0 && NoMatchBefore(p, sep, |p| + 1)
    ensures Split(p, sep) == [p]
  {
    assert "" + p == p;
    SplitFromLast(p, sep, "");
  }

  /** Leftmost cuts stay leftmost without their first piece. */
  lemma LeftmostCutsTail(parts: seq<string>, sep: string)
    requires |parts| > 0 && LeftmostCuts(parts, sep)
    ensures LeftmostCuts(parts[1..], sep)
  {
    forall i | 0 <= i < |parts[1..]| - 1 ensures NoMatchBefore(parts[1..][i] + sep, sep, |parts[1..][i]|) {
      assert parts[1..][i] == parts[i + 1];
    }
  }

  /** Splitting the join of leftmost-cut pieces gives the pieces back. */
  lemma {:induction false} SplitJoinLeftmost(parts: seq<string>, sep: string)
    requires |sep| > 0 && |parts| > 0 && LeftmostCuts(parts, sep)
    ensures Split(Join(parts, sep), sep) == parts
    decreases |parts|
  {
    if |parts| == 1 {
      SplitLast(parts[0], sep);
    } else {
      assert parts == [parts[0]] + parts[1..];
      JoinCons(parts[0], parts[1..], sep);
      SplitPiece(parts[0], Join(parts[1..], sep), sep);
      LeftmostCutsTail(parts, sep);
      SplitJoinLeftmost(parts[1..], sep);
    }
  }

  /** `strings.ReplaceAll` for a pattern of any length: the input, cut at the
      leftmost occurrences of the pattern, joined back with the replacement. */
  lemma ReplaceAllPieces(s: string, pattern: string, replacement: string, parts: seq<string>)
    requires |pattern| > 0 && |parts| > 0 && Join(parts, pattern) == s && LeftmostCuts(parts, pattern)
    ensures ReplaceAll(s, pattern, replacement) == Join(parts, replacement)
  {
    SplitJoinLeftmost(parts, pattern);
  }

  /** Replacing the one leftmost occurrence of `sep` that opens `s`, when no
      other occurs, puts `replacement` in its place. */
  lemma ReplaceLeading(sep: string, tail: string, replacement: string)
    requires |sep| > 0 && NoMatchBefore(tail, sep, |tail| + 1)
    ensures ReplaceAll(sep + tail, sep, replacement) == replacement + tail
  {
    var parts := ["", tail];
    assert parts[1..] == [tail];
    assert Join(parts, sep) == sep + tail;
    assert Join(parts, replacement) == replacement + tail;
    assert LeftmostCuts(parts, sep);
    ReplaceAllPieces(sep + tail, sep, replacement, parts);
  }

  /** The pieces `Split` returns are exactly the non-empty sequences that join
      back to the input and are cut at leftmost occurrences. */
  lemma SplitCharacterised(s: string, sep: string, parts: seq<string>)
    requires |sep| > 0
    ensures Split(s, sep) == parts <==> |parts| > 0 && Join(parts, sep) == s && LeftmostCuts(parts, sep)
  {
    SplitLeftmost(s, sep);
    if |parts| > 0 && Join(parts, sep) == s && LeftmostCuts(parts, sep) {
      SplitJoinLeftmost(parts, sep);
    }
  }

  /** Splitting on a single character and joining with `r` replaces that character by `r`. */
  lemma {:induction false} JoinSplitFromChar(s: string, c: char, cur: string, r: string)
    ensures Join(SplitFrom(s, [c], cur), r) == cur + MapChar(s, c, r)
    decreases |s|
  {
    if |s| == 0 {
      assert MapChar(s, c, r) == "";
      assert cur + "" == cur;
    } else if s[0] == c {
      JoinSplitFromChar(s[1..], c, "", r);
      JoinSplitFromCharCut(s, c, cur, r);
    } else {
      JoinSplitFromChar(s[1..], c, cur + [s[0]], r);
      JoinSplitFromCharKeep(s, c, cur, r);
    }
  }

  /** A character other than `c` joins the current piece and is kept. */
  lemma JoinSplitFromCharKeep(s: string, c: char, cur: string, r: string)
    requires |s| > 0 && s[0] != c
    requires Join(SplitFrom(s[1..], [c], cur + [s[0]]), r) == cur + [s[0]] + MapChar(s[1..], c, r)
    ensures Join(SplitFrom(s, [c], cur), r) == cur + MapChar(s, c, r)
  {
    assert !([c] <= s);
    assert cur + [s[0]] + MapChar(s[1..], c, r) == cur + MapChar(s, c, r);
  }

  /** A cut at a leading `c` puts `r` in its place: if the rest splits and
      joins back with `r` substituted, so does `s`. */
  lemma JoinSplitFromCharCut(s: string, c: char, cur: string, r: string)
    requires |s| > 0 && s[0] == c
    requires Join(SplitFrom(s[1..], [c], ""), r) == "" + MapChar(s[1..], c, r)
    ensures Join(SplitFrom(s, [c], cur), r) == cur + MapChar(s, c, r)
  {
    assert [c] <= s;
    JoinConsRebuilds(cur, r, SplitFrom(s[1..], [c], ""), MapChar(s[1..], c, r), MapChar(s, c, r));
  }

  /** Replacing a character the string does not contain changes nothing. */
  lemma ReplaceAbsentChar(s: string, c: char, r: string)
    requires c !in s
    ensures ReplaceAll(s, [c], r) == s
  {
    MapCharAbsent(s, c, r);
  }

  /** Substitution distributes over concatenation. */
  lemma {:induction false} MapCharAppend(a: string, b: string, c: char, r: string)
    ensures MapChar(a + b, c, r) == MapChar(a, c, r) + MapChar(b, c, r)
    decreases |a|
  {
    if |a| == 0 {
      assert a + b == b;
    } else {
      assert (a + b)[1..] == a[1..] + b;
      MapCharAppend(a[1..], b, c, r);
    }
  }

  /** Lower-casing commutes with trimming white space (lower-casing keeps spaces). */
  lemma {:induction false} TrimLeftSpaceLower(s: string)
    ensures TrimLeftSpace(ToLower(s)) == ToLower(TrimLeftSpace(s))
    decreases |s|
  {
    if |s| > 0 && IsSpace(s[0]) {
      assert ToLower(s)[1..] == ToLower(s[1..]);
      TrimLeftSpaceLower(s[1..]);
    }
  }

  lemma {:induction false} TrimRightSpaceLower(s: string)
    ensures TrimRightSpace(ToLower(s)) == ToLower(TrimRightSpace(s))
    decreases |s|
  {
    if |s| > 0 && IsSpace(s[|s| - 1]) {
      assert ToLower(s)[..|s| - 1] == ToLower(s[..|s| - 1]);
      TrimRightSpaceLower(s[..|s| - 1]);
    }
  }

  lemma TrimSpaceLower(s: string)
    ensures TrimSpace(ToLower(s)) == ToLower(TrimSpace(s))
  {
    TrimLeftSpaceLower(s);
    TrimRightSpaceLower(TrimLeftSpace(s));
  }

  /** Replacing a character that does not occur changes nothing. */
  lemma {:induction false} MapCharAbsent(s: string, c: char, r: string)
    requires c !in s
    ensures MapChar(s, c, r) == s
    decreases |s|
  {
    if |s| > 0 {
      MapCharAbsent(s[1..], c, r);
      assert s == [s[0]] + s[1..];
    }
  }

  /** Trimming twice trims nothing more. */
  lemma TrimSpaceIdempotent(s: string)
    ensures TrimSpace(TrimSpace(s)) == TrimSpace(s)
  {
    var t := TrimSpace(s);
    if |t| > 0 {
      assert TrimLeftSpace(t) == t;
      assert TrimRightSpace(t) == t;
    }
  }

  /** Lower-casing is idempotent. */
  lemma ToLowerIdempotent(s: string)
    ensures ToLower(ToLower(s)) == ToLower(s)
  {
  }
}
