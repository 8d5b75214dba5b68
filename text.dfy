/** String operations the generator uses, each written out with the
    JavaScript semantics the generator relies on (String.prototype.split,
    Array.prototype.join, indexOf, replace with a string pattern, trim). */
module Text {

  /** `s` begins with `p`. */
  predicate StartsWith(s: string, p: string) {
    |p| <= |s| && s[..|p|] == p
  }

  /** `s.indexOf(p) >= 0`: `p` occurs somewhere in `s` (the empty pattern
      occurs in every string). */
  predicate Contains(s: string, p: string)
    decreases |s|
  {
    StartsWith(s, p) || (|s| > 0 && Contains(s[1..], p))
  }

  lemma {:induction false} ContainsAt(s: string, p: string, i: nat)
    requires i + |p| <= |s| && s[i..i + |p|] == p
    ensures Contains(s, p)
    decreases i
  {
    if i == 0 {
      assert s[..|p|] == p;
    } else {
      assert s[1..][i - 1..i - 1 + |p|] == s[i..i + |p|];
      ContainsAt(s[1..], p, i - 1);
    }
  }

  /** A string always contains what it ends with. */
  lemma ContainsSuffix(x: string, p: string)
    ensures Contains(x + p, p)
  {
    assert (x + p)[|x|..|x| + |p|] == p;
    ContainsAt(x + p, p, |x|);
  }

  /** `s.split(c)` for a one-character separator: always at least one
      piece, the pieces hold no separator, and joining them back gives `s`. */
  function Split(s: string, c: char): (r: seq<string>)
    ensures |r| >= 1
    ensures forall k :: 0 <= k < |r| ==> c !in r[k]
    decreases |s|
  {
    if s == [] then [[]]
    else if s[0] == c then [[]] + Split(s[1..], c)
    else
      var rest := Split(s[1..], c);
      [[s[0]] + rest[0]] + rest[1..]
  }

  /** `parts.join(sep)`. */
  function Join(parts: seq<string>, sep: string): string
    decreases |parts|
  {
    if |parts| == 0 then []
    else if |parts| == 1 then parts[0]
    else parts[0] + sep + Join(parts[1..], sep)
  }

  lemma {:induction false} SplitJoin(s: string, c: char)
    ensures Join(Split(s, c), [c]) == s
    decreases |s|
  {
    if s == [] {
    } else if s[0] == c {
      SplitJoin(s[1..], c);
      assert s == [c] + s[1..];
    } else {
      SplitJoin(s[1..], c);
      var rest := Split(s[1..], c);
      if |rest| == 1 {
      } else {
        assert ([s[0]] + rest[0]) + [c] + Join(rest[1..], [c])
          == [s[0]] + (rest[0] + [c] + Join(rest[1..], [c]));
        assert s == [s[0]] + s[1..];
      }
    }
  }

  lemma {:induction false} SplitNoSeparator(p: string, c: char)
    requires c !in p
    ensures Split(p, c) == [p]
    decreases |p|
  {
    if p != [] {
      SplitNoSeparator(p[1..], c);
      assert [p[0]] + p[1..] == p;
    }
  }

  lemma {:induction false} SplitAfterPiece(p: string, c: char, t: string)
    requires c !in p
    ensures Split(p + [c] + t, c) == [p] + Split(t, c)
    decreases |p|
  {
    if p == [] {
      assert p + [c] + t == [c] + t;
      assert ([c] + t)[1..] == t;
    } else {
      assert (p + [c] + t)[1..] == p[1..] + [c] + t;
      SplitAfterPiece(p[1..], c, t);
      assert [p[0]] + p[1..] == p;
    }
  }

  /** Splitting a join on a separator none of the pieces hold gives the
      pieces back. */
  lemma {:induction false} JoinSplit(parts: seq<string>, c: char)
    requires |parts| >= 1
    requires forall k :: 0 <= k < |parts| ==> c !in parts[k]
    ensures Split(Join(parts, [c]), c) == parts
    decreases |parts|
  {
    if |parts| == 1 {
      SplitNoSeparator(parts[0], c);
    } else {
      JoinSplit(parts[1..], c);
      SplitAfterPiece(parts[0], c, Join(parts[1..], [c]));
      assert [parts[0]] + parts[1..] == parts;
    }
  }

  /** Every character of a join comes from a piece or from the separator. */
  lemma {:induction false} JoinChars(parts: seq<string>, sep: string, ch: char)
    requires ch in Join(parts, sep)
    ensures ch in sep || exists k :: 0 <= k < |parts| && ch in parts[k]
    decreases |parts|
  {
    if |parts| > 1 {
      if ch !in parts[0] && ch !in sep {
        JoinChars(parts[1..], sep, ch);
        var k :| 0 <= k < |parts[1..]| && ch in parts[1..][k];
        assert parts[k + 1] == parts[1..][k];
      }
    }
  }

  /** A join starts with its first piece when that piece is not empty. */
  lemma JoinStart(parts: seq<string>, sep: string)
    requires |parts| >= 1 && |parts[0]| > 0
    ensures |Join(parts, sep)| > 0 && Join(parts, sep)[0] == parts[0][0]
  {
  }

  /** A join ends with its last piece when that piece is not empty. */
  lemma {:induction false} JoinEnd(parts: seq<string>, sep: string)
    requires |parts| >= 1 && |parts[|parts| - 1]| > 0
    ensures |Join(parts, sep)| > 0
    ensures Join(parts, sep)[|Join(parts, sep)| - 1] == parts[|parts| - 1][|parts[|parts| - 1]| - 1]
    decreases |parts|
  {
    if |parts| > 1 {
      JoinEnd(parts[1..], sep);
    }
  }

  /** `s.split(c).join(with)`: every `c` replaced by `with`. */
  function ReplaceAll(s: string, c: char, with: string): string {
    Join(Split(s, c), with)
  }

  /** No `c` is left when the replacement holds none. */
  lemma ReplaceAllRemoves(s: string, c: char, with: string)
    requires c !in with
    ensures c !in ReplaceAll(s, c, with)
  {
    if c in ReplaceAll(s, c, with) {
      JoinChars(Split(s, c), with, c);
    }
  }

  /** A text without `c` is left as it is. */
  lemma ReplaceAllAbsent(s: string, c: char, with: string)
    requires c !in s
    ensures ReplaceAll(s, c, with) == s
  {
    SplitNoSeparator(s, c);
  }

  /** `s.split(pat).join("")`: every occurrence of `pat` found scanning from
      the left, without overlap, is removed. */
  function StripAll(s: string, pat: string): (r: string)
    ensures |r| <= |s|
    decreases |s|
  {
    if |pat| > 0 && StartsWith(s, pat) then StripAll(s[|pat|..], pat)
    else if s == [] then []
    else [s[0]] + StripAll(s[1..], pat)
  }

  /** A string without the pattern is left as it is. */
  lemma {:induction false} StripAllAbsent(s: string, pat: string)
    requires !Contains(s, pat)
    ensures StripAll(s, pat) == s
    decreases |s|
  {
    if s != [] {
      StripAllAbsent(s[1..], pat);
      assert [s[0]] + s[1..] == s;
    }
  }

  /** Every `.ts` is removed, not only a trailing one: a directory whose
      name holds `.ts` loses it too. */
  lemma StripAllInsideDirectory()
    ensures StripAll("a.ts/b.ts", ".ts") == "a/b"
  {
    assert StartsWith(".ts", ".ts");
    assert StripAll(".ts", ".ts") == "";
    assert "b.ts"[..3][0] != ".ts"[0];
    assert "b.ts"[1..] == ".ts";
    assert StripAll("b.ts", ".ts") == "b";
    assert !StartsWith("/b.ts", ".ts");
    assert "/b.ts"[1..] == "b.ts";
    assert StripAll("/b.ts", ".ts") == "/b";
    assert StartsWith(".ts/b.ts", ".ts");
    assert ".ts/b.ts"[3..] == "/b.ts";
    assert StripAll(".ts/b.ts", ".ts") == "/b";
    assert !StartsWith("a.ts/b.ts", ".ts");
    assert "a.ts/b.ts"[1..] == ".ts/b.ts";
  }

  /** `s.replace(c, "")` with a one-character string pattern: only the
      first occurrence is removed. */
  function ReplaceFirst(s: string, c: char): (r: string)
    ensures c in s ==> |r| == |s| - 1
    ensures c !in s ==> r == s
    decreases |s|
  {
    if s == [] then []
    else if s[0] == c then s[1..]
    else [s[0]] + ReplaceFirst(s[1..], c)
  }

  /** Removing the first `c` skips a prefix that holds none. */
  lemma {:induction false} ReplaceFirstSkips(a: string, b: string, c: char)
    requires c !in a
    ensures ReplaceFirst(a + b, c) == a + ReplaceFirst(b, c)
    decreases |a|
  {
    if a != [] {
      assert (a + b)[1..] == a[1..] + b;
      ReplaceFirstSkips(a[1..], b, c);
    } else {
      assert a + b == b;
    }
  }

  predicate IsWhitespace(ch: char) {
    ch == ' ' || ch == '\t' || ch == '\n' || ch == '\r' || ch == '\U{000B}' || ch == '\U{000C}'
  }

  function TrimStart(s: string): (r: string)
    ensures |r| == 0 || !IsWhitespace(r[0])
    decreases |s|
  {
    if s != [] && IsWhitespace(s[0]) then TrimStart(s[1..]) else s
  }

  function TrimEnd(s: string): (r: string)
    ensures |r| == 0 || !IsWhitespace(r[|r| - 1])
    decreases |s|
  {
    if s != [] && IsWhitespace(s[|s| - 1]) then TrimEnd(s[..|s| - 1]) else s
  }

  /** `s.trim()` (ASCII whitespace only). */
  function Trim(s: string): (r: string)
    ensures |r| == 0 || (!IsWhitespace(r[0]) && !IsWhitespace(r[|r| - 1]))
  {
    var t := TrimStart(s);
    assert |t| > 0 ==> |TrimEnd(t)| > 0 && TrimEnd(t)[0] == t[0] by {
      if |t| > 0 { TrimEndKeepsStart(t); }
    }
    TrimEnd(t)
  }

  /** The leading whitespace removed: what is left is a suffix of `s`, and
      everything before it is whitespace. */
  lemma {:induction false} TrimStartSuffix(s: string)
    ensures |TrimStart(s)| <= |s| && TrimStart(s) == s[|s| - |TrimStart(s)|..]
    ensures forall k :: 0 <= k < |s| - |TrimStart(s)| ==> IsWhitespace(s[k])
    decreases |s|
  {
    if s != [] && IsWhitespace(s[0]) {
      TrimStartSuffix(s[1..]);
      var r := TrimStart(s[1..]);
      assert s[1..][|s| - 1 - |r|..] == s[|s| - |r|..];
      assert forall k :: 0 < k < |s| - |r| ==> s[k] == s[1..][k - 1];
    }
  }

  /** The trailing whitespace removed: what is left is a prefix of `s`, and
      everything after it is whitespace. */
  lemma {:induction false} TrimEndPrefix(s: string)
    ensures |TrimEnd(s)| <= |s| && TrimEnd(s) == s[..|TrimEnd(s)|]
    ensures forall k :: |TrimEnd(s)| <= k < |s| ==> IsWhitespace(s[k])
    decreases |s|
  {
    if s != [] && IsWhitespace(s[|s| - 1]) {
      TrimEndPrefix(s[..|s| - 1]);
      var r := TrimEnd(s[..|s| - 1]);
      assert s[..|s| - 1][..|r|] == s[..|r|];
      assert forall k :: |r| <= k < |s| - 1 ==> s[k] == s[..|s| - 1][k];
    }
  }

  /** A text trims to "" exactly when it is all whitespace. */
  lemma TrimEmpty(s: string)
    ensures Trim(s) == "" <==> forall k :: 0 <= k < |s| ==> IsWhitespace(s[k])
  {
    TrimStartSuffix(s);
    var t := TrimStart(s);
    if |t| > 0 {
      TrimEndKeepsStart(t);
      assert t[0] == s[|s| - |t|];
    }
  }

  /** What `trim` keeps is one contiguous piece of the text, with only
      whitespace cut off on either side. */
  lemma TrimInfix(s: string)
    ensures exists i, j ::
      && 0 <= i <= j <= |s| && Trim(s) == s[i..j]
      && (forall k :: 0 <= k < i ==> IsWhitespace(s[k]))
      && (forall k :: j <= k < |s| ==> IsWhitespace(s[k]))
  {
    TrimStartSuffix(s);
    var t := TrimStart(s);
    TrimEndPrefix(t);
    var i := |s| - |t|;
    var r := TrimEnd(t);
    var j := i + |r|;
    assert r == s[i..j];
    assert forall k :: j <= k < |s| ==> s[k] == t[k - i];
  }

  lemma {:induction false} TrimEndKeepsStart(s: string)
    requires |s| > 0 && !IsWhitespace(s[0])
    ensures |TrimEnd(s)| > 0 && TrimEnd(s)[0] == s[0]
    decreases |s|
  {
    if IsWhitespace(s[|s| - 1]) {
      TrimEndKeepsStart(s[..|s| - 1]);
    }
  }

  /** A string padded by whitespace on both sides trims to itself. */
  lemma TrimPadded(x: string, pre: string, post: string)
    requires forall k :: 0 <= k < |pre| ==> IsWhitespace(pre[k])
    requires forall k :: 0 <= k < |post| ==> IsWhitespace(post[k])
    requires |x| > 0 && !IsWhitespace(x[0]) && !IsWhitespace(x[|x| - 1])
    ensures Trim(pre + x + post) == x
  {
    TrimStartPadded(pre, x + post);
    assert pre + x + post == pre + (x + post);
    TrimEndPadded(x, post);
  }

  lemma {:induction false} TrimStartPadded(pre: string, t: string)
    requires forall k :: 0 <= k < |pre| ==> IsWhitespace(pre[k])
    requires |t| > 0 && !IsWhitespace(t[0])
    ensures TrimStart(pre + t) == t
    decreases |pre|
  {
    if pre != [] {
      assert (pre + t)[1..] == pre[1..] + t;
      TrimStartPadded(pre[1..], t);
    } else {
      assert pre + t == t;
    }
  }

  lemma {:induction false} TrimEndPadded(x: string, post: string)
    requires forall k :: 0 <= k < |post| ==> IsWhitespace(post[k])
    requires |x| > 0 && !IsWhitespace(x[|x| - 1])
    ensures TrimEnd(x + post) == x
    decreases |post|
  {
    if post == [] {
      assert x + post == x;
    } else {
      var s := x + post;
      assert s[..|s| - 1] == x + post[..|post| - 1];
      TrimEndPadded(x, post[..|post| - 1]);
    }
  }

  /** Lower-cases an ASCII capital letter; every other character is kept. */
  function LowerChar(ch: char): char {
    if 'A' <= ch <= 'Z' then (ch as int - 'A' as int + 'a' as int) as char else ch
  }

  /** The generator's `downFirstLetter`: the first character lower-cased,
      the rest unchanged. */
  function DownFirstLetter(s: string): (r: string)
    ensures |r| == |s|
    ensures |s| > 0 ==> r[0] == LowerChar(s[0]) && r[1..] == s[1..]
  {
    if s == [] then [] else [LowerChar(s[0])] + s[1..]
  }

  /** Lowering the first letter adds no character other than a lower-case
      letter. */
  lemma DownFirstLetterKeepsOut(s: string, c: char)
    requires c !in s && !('a' <= c <= 'z')
    ensures c !in DownFirstLetter(s)
  {
    if s != [] {
      assert DownFirstLetter(s) == [LowerChar(s[0])] + s[1..];
      assert s == [s[0]] + s[1..];
    }
  }

  /** `s.split(".")[0]`: the identifier before the first dot. */
  function RootIdentifier(s: string): string {
    Split(s, '.')[0]
  }

  lemma {:induction false} RootIdentifierIsPrefix(s: string)
    ensures StartsWith(s, RootIdentifier(s))
    ensures '.' !in RootIdentifier(s)
    ensures '.' !in s ==> RootIdentifier(s) == s
    decreases |s|
  {
    if s != [] && s[0] != '.' {
      RootIdentifierIsPrefix(s[1..]);
      assert [s[0]] + s[1..] == s;
    }
  }

  /** Adds the generator's leading `./` to a relative path that does not
      already contain `./` anywhere. */
  function EnsureDotSlash(p: string): (r: string)
    ensures Contains(r, "./")
    ensures Contains(p, "./") ==> r == p
    ensures !Contains(p, "./") ==> r == "./" + p
  {
    if Contains(p, "./") then p
    else
      assert StartsWith("./" + p, "./");
      "./" + p
  }

  predicate IsDigit(ch: char) {
    '0' <= ch <= '9'
  }

  predicate AllDigits(s: string) {
    forall k :: 0 <= k < |s| ==> IsDigit(s[k])
  }

  /** Digits with at most one decimal point and at least one digit. */
  predicate IsUnsignedDecimal(s: string) {
    (AllDigits(s) && |s| > 0)
    || (exists k :: 0 <= k < |s| && s[k] == '.' && AllDigits(s[..k]) && AllDigits(s[k + 1..]) && |s| > 1)
  }

  /** A simplified reading of JavaScript's `!isNaN(+s)`: after trimming, the
      text is empty (which converts to 0) or an optionally signed decimal. */
  predicate IsNumeric(s: string) {
    var t := Trim(s);
    t == []
    || IsUnsignedDecimal(t)
    || (|t| > 1 && (t[0] == '+' || t[0] == '-') && IsUnsignedDecimal(t[1..]))
  }
}
