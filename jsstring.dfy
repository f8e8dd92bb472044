/**
 * The JavaScript string operations the extension relies on, with their
 * ECMAScript semantics written out: `startsWith`, `endsWith`, `indexOf`,
 * `substring`, `slice`, `trim`, `split`, `join`, `toLowerCase`,
 * `Number.prototype.toString` and `padStart`.
 */
module JsString {

  /** `s.startsWith(prefix)`. */
  predicate StartsWith(s: string, prefix: string) {
    |prefix| <= |s| && s[..|prefix|] == prefix
  }

  /** `s.endsWith(suffix)`. */
  predicate EndsWith(s: string, suffix: string) {
    |suffix| <= |s| && s[|s| - |suffix|..] == suffix
  }

  /** `s.indexOf(c)`: the first position of `c`, or -1. */
  function IndexOf(s: string, c: char): (i: int)
    ensures -1 <= i < |s|
    ensures i == -1 <==> c !in s
    ensures 0 <= i ==> s[i] == c && c !in s[..i]
  {
    if s == [] then -1
    else if s[0] == c then 0
    else
      var k := IndexOf(s[1..], c);
      assert s[1..][..(if k < 0 then 0 else k)] == s[1..(if k < 0 then 1 else k + 1)];
      if k == -1 then -1 else k + 1
  }

  /** The first separator after a separator-free piece is at the piece's end. */
  lemma IndexOfAfter(a: string, c: char, b: string)
    requires c !in a
    ensures IndexOf(a + [c] + b, c) == |a|
  {
    var s := a + [c] + b;
    assert s[|a|] == c;
    assert s[..|a|] == a;
  }

  /** `s.lastIndexOf(c)`: the last position of `c`, or -1. */
  function LastIndexOf(s: string, c: char): (i: int)
    ensures -1 <= i < |s|
    ensures i == -1 <==> c !in s
    ensures 0 <= i ==> s[i] == c && c !in s[i + 1..]
  {
    if |s| == 0 then -1
    else if s[|s| - 1] == c then |s| - 1
    else
      var init := s[..|s| - 1];
      var k := LastIndexOf(init, c);
      LastIndexOfStep(s, c, k);
      k
  }

  /** Adding a character other than `c` does not add an occurrence of `c`. */
  lemma NotInSnoc(a: string, x: char, c: char)
    requires c !in a && x != c
    ensures c !in a + [x]
  {
  }

  /** A last position in all but the final character stays the last when that character differs. */
  lemma LastIndexOfStep(s: string, c: char, k: int)
    requires |s| > 0 && s[|s| - 1] != c
    requires -1 <= k < |s| - 1
    requires k == -1 <==> c !in s[..|s| - 1]
    requires 0 <= k ==> s[k] == c && c !in s[k + 1..|s| - 1]
    ensures k == -1 <==> c !in s
    ensures 0 <= k ==> c !in s[k + 1..]
  {
    var x := s[|s| - 1];
    assert s == s[..|s| - 1] + [x];
    if k == -1 {
      NotInSnoc(s[..|s| - 1], x, c);
    } else {
      assert s[k + 1..] == s[k + 1..|s| - 1] + [x];
      NotInSnoc(s[k + 1..|s| - 1], x, c);
    }
  }

  /** The last separator before a separator-free tail is at the tail's start. */
  lemma LastIndexOfBefore(a: string, c: char, b: string)
    requires c !in b
    ensures LastIndexOf(a + [c] + b, c) == |a|
  {
    var s := a + [c] + b;
    assert s[|a|] == c;
    assert s[|a| + 1..] == b;
  }

  /** The clamping that `substring` applies to each argument. */
  function Clamp(k: int, n: nat): (r: nat)
    ensures r <= n
    ensures 0 <= k <= n ==> r == k
  {
    if k < 0 then 0 else if k > n then n else k
  }

  /** `s.substring(start, end)`: both ends clamped to the string, swapped if reversed. */
  function Substring(s: string, start: int, end: int): (r: string)
    ensures 0 <= start <= end <= |s| ==> r == s[start..end]
    ensures end < 0 && 0 <= start <= |s| ==> r == s[..start]
  {
    var a := Clamp(start, |s|);
    var b := Clamp(end, |s|);
    if a <= b then s[a..b] else s[b..a]
  }

  /** The index that `slice` makes of a possibly negative argument. */
  function SliceIndex(k: int, n: nat): (r: nat)
    ensures r <= n
    ensures 0 <= k <= n ==> r == k
    ensures k < 0 && 0 <= n + k ==> r == n + k
  {
    if k < 0 then (if n + k < 0 then 0 else n + k) else if k > n then n else k
  }

  /** `s.slice(start)`. */
  function Slice(s: string, start: int): (r: string)
    ensures 0 <= start <= |s| ==> r == s[start..]
  {
    s[SliceIndex(start, |s|)..]
  }

  /** `s.slice(start, end)`: empty when the end falls before the start. */
  function SliceRange(s: string, start: int, end: int): (r: string)
    ensures 0 <= start <= |s| && end < 0 && start <= |s| + end ==> r == s[start..|s| + end]
    ensures 0 <= start && end < 0 && |s| + end <= start ==> r == ""
  {
    var a := SliceIndex(start, |s|);
    var b := SliceIndex(end, |s|);
    if a <= b then s[a..b] else ""
  }

  /** The characters `trim` removes: ECMAScript WhiteSpace and LineTerminator. */
  predicate IsWhitespace(c: char) {
    c == '\t' || c == '\n' || c == '\U{000B}' || c == '\U{000C}' || c == '\r' || c == ' '
    || c == '\U{00A0}' || c == '\U{1680}' || ('\U{2000}' <= c <= '\U{200A}')
    || c == '\U{2028}' || c == '\U{2029}' || c == '\U{202F}' || c == '\U{205F}'
    || c == '\U{3000}' || c == '\U{FEFF}'
  }

  function TrimStart(s: string): (r: string)
    ensures |r| <= |s| && r == s[|s| - |r|..]
    ensures r == [] || !IsWhitespace(r[0])
    ensures forall i :: 0 <= i < |s| - |r| ==> IsWhitespace(s[i])
  {
    if |s| > 0 && IsWhitespace(s[0]) then
      var r := TrimStart(s[1..]);
      TrimStartStep(s, s[1..], r);
      r
    else s
  }

  /** Trimming after a leading white-space character trims that character too. */
  lemma TrimStartStep(s: string, t: string, r: string)
    requires |s| > 0 && IsWhitespace(s[0]) && t == s[1..]
    requires |r| <= |t| && r == t[|t| - |r|..]
    requires forall i :: 0 <= i < |t| - |r| ==> IsWhitespace(t[i])
    ensures r == s[|s| - |r|..]
    ensures forall i :: 0 <= i < |s| - |r| ==> IsWhitespace(s[i])
  {
    forall i | 0 <= i < |s| - |r|
      ensures IsWhitespace(s[i])
    {
      if i > 0 {
        assert s[i] == t[i - 1];
      }
    }
  }

  function TrimEnd(s: string): (r: string)
    ensures |r| <= |s| && r == s[..|r|]
    ensures r == [] || !IsWhitespace(r[|r| - 1])
    ensures forall i :: |r| <= i < |s| ==> IsWhitespace(s[i])
  {
    if |s| > 0 && IsWhitespace(s[|s| - 1]) then
      var r := TrimEnd(s[..|s| - 1]);
      TrimEndStep(s, s[..|s| - 1], r);
      r
    else s
  }

  /** Trimming before a trailing white-space character trims that character too. */
  lemma TrimEndStep(s: string, t: string, r: string)
    requires |s| > 0 && IsWhitespace(s[|s| - 1]) && t == s[..|s| - 1]
    requires |r| <= |t| && r == t[..|r|]
    requires forall i :: |r| <= i < |t| ==> IsWhitespace(t[i])
    ensures r == s[..|r|]
    ensures forall i :: |r| <= i < |s| ==> IsWhitespace(s[i])
  {
    forall i | |r| <= i < |s|
      ensures IsWhitespace(s[i])
    {
      if i < |t| {
        assert s[i] == t[i];
      }
    }
  }

  /** `s.trim()`. */
  function Trim(s: string): (r: string)
    ensures r == [] || (!IsWhitespace(r[0]) && !IsWhitespace(r[|r| - 1]))
    ensures (forall i :: 0 <= i < |s| ==> !IsWhitespace(s[i])) ==> r == s
  {
    TrimEnd(TrimStart(s))
  }

  /** Concatenation regroups freely. */
  lemma AppendAssoc<T>(a: seq<T>, b: seq<T>, c: seq<T>)
    ensures (a + b) + c == a + (b + c)
  {
  }

  /**
   * `s.split(c)` for a one-character separator: the pieces between
   * occurrences of `c`; there is always at least one piece.
   */
  function Split(s: string, c: char): (r: seq<string>)
    ensures |r| >= 1
  {
    if s == [] then [""]
    else
      var rest := Split(s[1..], c);
      if s[0] == c then [""] + rest else [[s[0]] + rest[0]] + rest[1..]
  }

  /** `parts.join(sep)`. */
  function Join(parts: seq<string>, sep: string): string
  {
    if |parts| == 0 then ""
    else if |parts| == 1 then parts[0]
    else parts[0] + sep + Join(parts[1..], sep)
  }

  /** No piece of a split contains the separator. */
  lemma {:induction false} SplitPiecesFree(s: string, c: char)
    ensures forall k :: 0 <= k < |Split(s, c)| ==> c !in Split(s, c)[k]
  {
    if s != [] {
      SplitPiecesFree(s[1..], c);
    }
  }

  /** A split has more than one piece exactly when the separator occurs. */
  lemma {:induction false} SplitMany(s: string, c: char)
    ensures |Split(s, c)| > 1 <==> c in s
  {
    if s != [] {
      SplitMany(s[1..], c);
      assert c in s <==> s[0] == c || c in s[1..];
    }
  }

  /** The first piece of a split is everything before the first separator. */
  lemma {:induction false} SplitHead(s: string, c: char)
    ensures Split(s, c)[0] == if c in s then s[..IndexOf(s, c)] else s
  {
    if s != [] && s[0] != c {
      SplitHead(s[1..], c);
      assert c in s <==> c in s[1..];
      if c in s {
        assert s[..IndexOf(s, c)] == [s[0]] + s[1..][..IndexOf(s[1..], c)];
      }
    }
  }

  /** Splitting a separator-free piece, a separator and a tail. */
  lemma {:induction false} SplitCons(a: string, c: char, b: string)
    requires c !in a
    ensures Split(a + [c] + b, c) == [a] + Split(b, c)
  {
    if a == [] {
      assert a + [c] + b == [c] + b;
      assert ([c] + b)[1..] == b;
    } else {
      SplitCons(a[1..], c, b);
      assert (a + [c] + b)[1..] == a[1..] + [c] + b;
      assert [a[0]] + a[1..] == a;
    }
  }

  /** The split of `[x] + s` in terms of the split `pieces` of `s`. */
  function SplitFirst(x: char, pieces: seq<string>, c: char): seq<string>
    requires |pieces| >= 1
  {
    if x == c then [""] + pieces else [[x] + pieces[0]] + pieces[1..]
  }

  /** A leading separator starts an empty piece. */
  lemma SplitSeparatorFirst(c: char, s: string)
    ensures Split([c] + s, c) == [""] + Split(s, c)
  {
    assert ([c] + s)[1..] == s;
  }

  /** Splitting at a separator splits the two sides independently. */
  lemma {:induction false} SplitAppend(a: string, c: char, b: string)
    ensures Split(a + [c] + b, c) == Split(a, c) + Split(b, c)
  {
    if a == [] {
      calc {
        Split(a + [c] + b, c);
        { assert a + [c] + b == [c] + b; }
        Split([c] + b, c);
        { SplitSeparatorFirst(c, b); }
        [""] + Split(b, c);
      }
    } else {
      var x, t := a[0], a[1..] + [c] + b;
      var left := Split(a[1..], c);
      calc {
        Split(a + [c] + b, c);
        { assert a + [c] + b == [x] + t; }
        Split([x] + t, c);
        { SplitAppend(a[1..], c, b); }
        SplitFirst(x, left + Split(b, c), c);
        SplitFirst(x, left, c) + Split(b, c);
        { assert a == [x] + a[1..]; }
        Split(a, c) + Split(b, c);
      }
    }
  }

  /** Joining the pieces of a split with the separator gives the string back. */
  lemma {:induction false} JoinSplit(s: string, c: char)
    ensures Join(Split(s, c), [c]) == s
  {
    if s != [] {
      JoinSplit(s[1..], c);
      var rest := Split(s[1..], c);
      if s[0] == c {
        assert Join([""] + rest, [c]) == "" + [c] + Join(rest, [c]);
      } else if |rest| == 1 {
        assert [s[0]] + s[1..] == s;
      } else {
        var r := [[s[0]] + rest[0]] + rest[1..];
        assert r[1..] == rest[1..];
        assert Join(r, [c]) == [s[0]] + rest[0] + [c] + Join(rest[1..], [c]);
        assert Join(rest, [c]) == rest[0] + [c] + Join(rest[1..], [c]);
        assert [s[0]] + s[1..] == s;
      }
    }
  }

  /** `toLowerCase` restricted to the ASCII letters. */
  function ToLowerChar(c: char): (r: char)
    ensures 'A' <= c <= 'Z' ==> 'a' <= r <= 'z'
    ensures !('A' <= c <= 'Z') ==> r == c
  {
    if 'A' <= c <= 'Z' then (c as int + 32) as char else c
  }

  function ToLower(s: string): (r: string)
    ensures |r| == |s|
    ensures forall i :: 0 <= i < |s| ==> r[i] == ToLowerChar(s[i])
  {
    if s == [] then [] else [ToLowerChar(s[0])] + ToLower(s[1..])
  }

  function DigitChar(d: nat): (c: char)
    requires d < 10
    ensures '0' <= c <= '9'
  {
    ('0' as int + d) as char
  }

  /** `n.toString()` for a natural number. */
  function DecimalString(n: nat): (r: string)
    ensures 1 <= |r|
    ensures n < 10 <==> |r| == 1
    ensures forall i :: 0 <= i < |r| ==> '0' <= r[i] <= '9'
  {
    if n < 10 then [DigitChar(n)] else DecimalString(n / 10) + [DigitChar(n % 10)]
  }

  /** `s.padStart(width, pad)`: `pad` repeated in front until `s` is `width` long. */
  function PadStart(s: string, width: nat, pad: char): (r: string)
    ensures |r| == if |s| < width then width else |s|
    ensures EndsWith(r, s)
    ensures forall i :: 0 <= i < |r| - |s| ==> r[i] == pad
    decreases width - |s|
  {
    if |s| < width then
      var r := PadStart([pad] + s, width, pad);
      PadStartStep(r, s, pad);
      r
    else s
  }

  /** Ending with `[pad] + s` means ending with `s` after one more pad character. */
  lemma PadStartStep(r: string, s: string, pad: char)
    requires EndsWith(r, [pad] + s)
    requires forall i :: 0 <= i < |r| - |s| - 1 ==> r[i] == pad
    ensures EndsWith(r, s)
    ensures forall i :: 0 <= i < |r| - |s| ==> r[i] == pad
  {
    var n := |r| - |s| - 1;
    assert r[n..] == [pad] + s;
    assert r[n] == pad;
    assert r[n + 1..] == s;
  }
}
