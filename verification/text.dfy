/**
 * String operations the source takes from Python's `str`: membership,
 * `replace`, `join`, `split`, `splitlines`, `strip`, ASCII case mapping and
 * `str(int)`. Each is defined once here and shared by the other modules.
 */
module Text {

  /** `p` is a prefix of `s` (Python's `s.startswith(p)`). */
  predicate IsPrefix(p: string, s: string) {
    |p| <= |s| && s[..|p|] == p
  }

  /** `p` is a suffix of `s` (Python's `s.endswith(p)`). */
  predicate IsSuffix(p: string, s: string) {
    |p| <= |s| && s[|s| - |p|..] == p
  }

  /** `t` occurs in `s` starting at index `i`. */
  predicate OccursAt(s: string, t: string, i: int) {
    0 <= i && i + |t| <= |s| && s[i..i + |t|] == t
  }

  /** Python's `t in s` for two strings. */
  predicate Contains(s: string, t: string)
    decreases |s|
  {
    IsPrefix(t, s) || (|s| > 0 && Contains(s[1..], t))
  }

  /** `Contains` agrees with the positional definition of an occurrence. */
  lemma {:induction false} ContainsIffOccurs(s: string, t: string)
    ensures Contains(s, t) <==> exists i :: OccursAt(s, t, i)
    decreases |s|
  {
    if Contains(s, t) {
      if IsPrefix(t, s) {
        assert OccursAt(s, t, 0);
      } else {
        ContainsIffOccurs(s[1..], t);
        var i :| OccursAt(s[1..], t, i);
        assert s[1..][i..i + |t|] == s[i + 1..i + 1 + |t|];
        assert OccursAt(s, t, i + 1);
      }
    }
    if exists i :: OccursAt(s, t, i) {
      var i :| OccursAt(s, t, i);
      if i == 0 {
        assert IsPrefix(t, s);
      } else {
        assert s[1..][i - 1..i - 1 + |t|] == s[i..i + |t|];
        assert OccursAt(s[1..], t, i - 1);
        ContainsIffOccurs(s[1..], t);
      }
    }
  }

  /** Whatever occurs in `b` occurs in `a + b + c`. */
  lemma ContainsInfix(a: string, b: string, c: string, t: string)
    requires Contains(b, t)
    ensures Contains(a + b + c, t)
  {
    ContainsIffOccurs(b, t);
    var i :| OccursAt(b, t, i);
    assert (a + b + c)[|a| + i..|a| + i + |t|] == b[i..i + |t|];
    assert OccursAt(a + b + c, t, |a| + i);
    ContainsIffOccurs(a + b + c, t);
  }

  /** A string contains itself wherever it is placed. */
  lemma ContainsWhole(a: string, t: string, c: string)
    ensures Contains(a + t + c, t)
  {
    assert IsPrefix(t, t);
    ContainsInfix(a, t, c, t);
  }

  /** An occurrence inside an occurrence is an occurrence. */
  lemma ContainsTrans(s: string, m: string, t: string)
    requires Contains(s, m) && Contains(m, t)
    ensures Contains(s, t)
  {
    ContainsIffOccurs(s, m);
    ContainsIffOccurs(m, t);
    var i :| OccursAt(s, m, i);
    var j :| OccursAt(m, t, j);
    assert m == s[i..i + |m|];
    forall k | 0 <= k < |t|
      ensures s[i + j + k] == t[k]
    {
      assert t[k] == m[j + k] == s[i + j + k];
    }
    assert s[i + j..i + j + |t|] == t;
    assert OccursAt(s, t, i + j);
    ContainsIffOccurs(s, t);
  }

  /** The two ends of a concatenation. */
  lemma ConcatEnds(a: string, b: string)
    ensures IsPrefix(a, a + b) && IsSuffix(b, a + b)
  {
    assert (a + b)[..|a|] == a;
    assert (a + b)[|a|..] == b;
  }

  /** `a + b` starts `a + (b + c) + d`. */
  lemma PrefixOfParts(a: string, b: string, c: string, d: string)
    ensures IsPrefix(a + b, a + (b + c) + d)
  {
    assert (a + (b + c) + d)[..|a + b|] == a + b;
  }

  /** `a` starts `a + b + c`. */
  lemma PrefixOfThree(a: string, b: string, c: string)
    ensures IsPrefix(a, a + b + c)
  {
    assert (a + b + c)[..|a|] == a;
  }

  lemma PrefixTrans(a: string, b: string, c: string)
    requires IsPrefix(a, b) && IsPrefix(b, c)
    ensures IsPrefix(a, c)
  {
    assert c[..|a|] == b[..|a|];
  }

  /** The parts written one after another (Python's `"".join(parts)`). */
  function Concat(parts: seq<string>): string
    decreases |parts|
  {
    if |parts| == 0 then "" else parts[0] + Concat(parts[1..])
  }

  /** Every part occurs in the concatenation. */
  lemma {:induction false} ConcatContainsEach(parts: seq<string>, i: int)
    requires 0 <= i < |parts|
    ensures Contains(Concat(parts), parts[i])
    decreases |parts|
  {
    var rest := Concat(parts[1..]);
    if i == 0 {
      ContainsWhole("", parts[0], rest);
      assert "" + parts[0] + rest == Concat(parts);
    } else {
      ConcatContainsEach(parts[1..], i - 1);
      ContainsInfix(parts[0], rest, "", parts[i]);
      assert parts[0] + rest + "" == Concat(parts);
    }
  }

  /**
   * Python's `s.replace(t, r)`: every non-overlapping occurrence of `t`,
   * scanning left to right, is replaced by `r`. The source only replaces
   * non-empty tokens.
   */
  function ReplaceAll(s: string, t: string, r: string): string
    requires |t| > 0
    decreases |s|
  {
    if |s| == 0 then ""
    else if IsPrefix(t, s) then r + ReplaceAll(s[|t|..], t, r)
    else [s[0]] + ReplaceAll(s[1..], t, r)
  }

  /**
   * The scan replaces the first occurrence: when `t` does not start anywhere
   * inside `a`, `a` is kept, the `t` after it becomes `r`, and the scan
   * carries on after that occurrence.
   */
  lemma {:induction false} ReplaceAllFirst(a: string, t: string, b: string, r: string)
    requires |t| > 0
    requires forall i :: 0 <= i < |a| ==> !IsPrefix(t, (a + t + b)[i..])
    ensures ReplaceAll(a + t + b, t, r) == a + r + ReplaceAll(b, t, r)
    decreases |a|
  {
    var s := a + t + b;
    if |a| == 0 {
      assert s == t + b && s[..|t|] == t && s[|t|..] == b;
    } else {
      assert !IsPrefix(t, s) by {
        assert s[0..] == s;
      }
      assert s[0] == a[0] && s[1..] == a[1..] + t + b;
      assert ReplaceAll(s, t, r) == [a[0]] + ReplaceAll(a[1..] + t + b, t, r);
      NoEarlyTokenTail(a, t, b);
      ReplaceAllFirst(a[1..], t, b, r);
      assert [a[0]] + (a[1..] + r + ReplaceAll(b, t, r)) == a + r + ReplaceAll(b, t, r);
    }
  }

  /** No occurrence of `t` starts inside `a` after dropping its first character either. */
  lemma NoEarlyTokenTail(a: string, t: string, b: string)
    requires |a| > 0
    requires forall i :: 0 <= i < |a| ==> !IsPrefix(t, (a + t + b)[i..])
    ensures forall i :: 0 <= i < |a[1..]| ==> !IsPrefix(t, (a[1..] + t + b)[i..])
  {
    forall i | 0 <= i < |a[1..]|
      ensures !IsPrefix(t, (a[1..] + t + b)[i..])
    {
      assert (a[1..] + t + b)[i..] == (a + t + b)[i + 1..];
    }
  }

  /** Replacing a token that does not occur leaves the string unchanged. */
  lemma {:induction false} ReplaceAllAbsent(s: string, t: string, r: string)
    requires |t| > 0
    requires !Contains(s, t)
    ensures ReplaceAll(s, t, r) == s
    decreases |s|
  {
    if |s| > 0 {
      ReplaceAllAbsent(s[1..], t, r);
      assert [s[0]] + s[1..] == s;
    }
  }

  /** Replacing a token by itself leaves the string unchanged. */
  lemma {:induction false} ReplaceAllSelf(s: string, t: string)
    requires |t| > 0
    ensures ReplaceAll(s, t, t) == s
    decreases |s|
  {
    if |s| > 0 {
      if IsPrefix(t, s) {
        ReplaceAllSelf(s[|t|..], t);
        assert s[..|t|] + s[|t|..] == s;
      } else {
        ReplaceAllSelf(s[1..], t);
        assert [s[0]] + s[1..] == s;
      }
    }
  }

  /** When the token occurs, the replacement text occurs in the result. */
  lemma {:induction false} ReplaceAllIntroduces(s: string, t: string, r: string)
    requires |t| > 0
    requires Contains(s, t)
    ensures Contains(ReplaceAll(s, t, r), r)
    decreases |s|
  {
    if IsPrefix(t, s) {
      ContainsWhole("", r, ReplaceAll(s[|t|..], t, r));
      assert "" + r + ReplaceAll(s[|t|..], t, r) == ReplaceAll(s, t, r);
    } else {
      ReplaceAllIntroduces(s[1..], t, r);
      ContainsInfix([s[0]], ReplaceAll(s[1..], t, r), "", r);
      assert [s[0]] + ReplaceAll(s[1..], t, r) + "" == ReplaceAll(s, t, r);
    }
  }

  /** Deleting a single character (`replace(c, "")`) removes every copy of it. */
  lemma {:induction false} ReplaceAllDeletesChar(s: string, c: char)
    ensures c !in ReplaceAll(s, [c], "")
    decreases |s|
  {
    if |s| > 0 {
      ReplaceAllDeletesChar(s[1..], c);
      if !IsPrefix([c], s) {
        assert s[0] != c;
      }
    }
  }

  /** Python's `sep.join(parts)`. */
  function Join(sep: string, parts: seq<string>): string
    decreases |parts|
  {
    if |parts| == 0 then ""
    else if |parts| == 1 then parts[0]
    else parts[0] + sep + Join(sep, parts[1..])
  }

  /** Every part occurs in the joined string. */
  lemma {:induction false} JoinContainsEach(sep: string, parts: seq<string>, i: int)
    requires 0 <= i < |parts|
    ensures Contains(Join(sep, parts), parts[i])
    decreases |parts|
  {
    if |parts| == 1 {
      ContainsWhole("", parts[0], "");
      assert "" + parts[0] + "" == Join(sep, parts);
    } else if i == 0 {
      ContainsWhole("", parts[0], sep + Join(sep, parts[1..]));
      assert "" + parts[0] + (sep + Join(sep, parts[1..])) == Join(sep, parts);
    } else {
      JoinContainsEach(sep, parts[1..], i - 1);
      ContainsInfix(parts[0] + sep, Join(sep, parts[1..]), "", parts[i]);
      assert parts[0] + sep + Join(sep, parts[1..]) + "" == Join(sep, parts);
    }
  }

  /** The first index of `c` in `s`. */
  function IndexOf(s: string, c: char): (i: nat)
    requires c in s
    ensures i < |s| && s[i] == c && c !in s[..i]
  {
    if s[0] == c then 0 else 1 + IndexOf(s[1..], c)
  }

  /** Python's `s.split(c)` for a one-character separator. */
  function Split(s: string, c: char): (parts: seq<string>)
    ensures |parts| >= 1
    ensures forall i :: 0 <= i < |parts| ==> c !in parts[i]
    decreases |s|
  {
    if c !in s then [s]
    else
      var i := IndexOf(s, c);
      [s[..i]] + Split(s[i + 1..], c)
  }

  /** Joining the pieces of a split with the separator gives back the input. */
  lemma {:induction false} JoinSplit(s: string, c: char)
    ensures Join([c], Split(s, c)) == s
    decreases |s|
  {
    if c in s {
      var i := IndexOf(s, c);
      var parts := Split(s[i + 1..], c);
      assert Split(s, c) == [s[..i]] + parts;
      JoinSplit(s[i + 1..], c);
      JoinCons([c], s[..i], parts);
      assert s == s[..i] + [c] + s[i + 1..];
    }
  }

  /** Joining a piece in front of at least one more. */
  lemma JoinCons(sep: string, p: string, ps: seq<string>)
    requires |ps| >= 1
    ensures Join(sep, [p] + ps) == p + sep + Join(sep, ps)
  {
    assert ([p] + ps)[0] == p && ([p] + ps)[1..] == ps;
  }

  /** Splitting at the first separator: the piece before it, then the split of the rest. */
  lemma SplitFirst(a: string, c: char, b: string)
    requires c !in a
    ensures Split(a + [c] + b, c) == [a] + Split(b, c)
  {
    var s := a + [c] + b;
    var i := IndexOf(s, c);
    assert s[|a|] == c && s[..|a|] == a;
    assert s[..i] == a;
    assert s[i + 1..] == b;
  }

  /** Splitting pieces joined with a separator none of them holds gives the pieces back. */
  lemma {:induction false} SplitJoin(c: char, parts: seq<string>)
    requires |parts| >= 1
    requires forall i :: 0 <= i < |parts| ==> c !in parts[i]
    ensures Split(Join([c], parts), c) == parts
    decreases |parts|
  {
    if |parts| > 1 {
      var rest := Join([c], parts[1..]);
      assert Join([c], parts) == parts[0] + [c] + rest;
      SplitJoin(c, parts[1..]);
      SplitFirst(parts[0], c, rest);
      assert [parts[0]] + parts[1..] == parts;
    }
  }

  /** Python's `str.isspace` for one character. */
  predicate IsSpace(c: char) {
    || c == ' '
    || ('\t' <= c <= '\r')
    || ('\U{1C}' <= c <= '\U{1F}')
    || c == '\U{85}' || c == '\U{A0}' || c == '\U{1680}'
    || ('\U{2000}' <= c <= '\U{200A}')
    || c == '\U{2028}' || c == '\U{2029}' || c == '\U{202F}'
    || c == '\U{205F}' || c == '\U{3000}'
  }

  /** The line boundaries Python's `str.splitlines` splits on. */
  predicate IsLineBreak(c: char) {
    || c == '\n' || c == '\r' || c == '\U{0B}' || c == '\U{0C}'
    || ('\U{1C}' <= c <= '\U{1E}')
    || c == '\U{85}' || c == '\U{2028}' || c == '\U{2029}'
  }

  predicate AllSpace(s: string) {
    forall i :: 0 <= i < |s| ==> IsSpace(s[i])
  }

  /** Python's `s.lstrip()`. */
  function LStrip(s: string): (r: string)
    ensures IsSuffix(r, s)
    ensures |r| > 0 ==> !IsSpace(r[0])
    decreases |s|
  {
    if |s| > 0 && IsSpace(s[0]) then LStrip(s[1..]) else s
  }

  /** Python's `s.rstrip()`. */
  function RStrip(s: string): (r: string)
    ensures IsPrefix(r, s)
    ensures |r| > 0 ==> !IsSpace(r[|r| - 1])
    ensures AllSpace(s[|r|..])
    decreases |s|
  {
    if |s| > 0 && IsSpace(s[|s| - 1]) then
      var r := RStrip(s[..|s| - 1]);
      assert s[|r|..] == s[..|s| - 1][|r|..] + [s[|s| - 1]];
      r
    else s
  }

  /** Python's `s.strip()`. */
  function Strip(s: string): string {
    LStrip(RStrip(s))
  }

  /** Python's `s.rstrip(c)` for one character. */
  function RStripChar(s: string, c: char): (r: string)
    ensures IsPrefix(r, s)
    ensures |r| > 0 ==> r[|r| - 1] != c
    ensures forall i :: |r| <= i < |s| ==> s[i] == c
    decreases |s|
  {
    if |s| > 0 && s[|s| - 1] == c then RStripChar(s[..|s| - 1], c) else s
  }

  predicate IsDigit(c: char) {
    '0' <= c <= '9'
  }

  predicate IsAsciiLetter(c: char) {
    ('a' <= c <= 'z') || ('A' <= c <= 'Z')
  }

  /** `str.isalnum` restricted to ASCII letters and digits. */
  predicate IsAlnum(c: char) {
    IsAsciiLetter(c) || IsDigit(c)
  }

  function UpperChar(c: char): char {
    if 'a' <= c <= 'z' then (c as int - 32) as char else c
  }

  function LowerChar(c: char): char {
    if 'A' <= c <= 'Z' then (c as int + 32) as char else c
  }

  /** `str.upper` on ASCII letters; other characters are kept. */
  function Upper(s: string): (r: string)
    ensures |r| == |s|
    ensures forall i :: 0 <= i < |s| ==> r[i] == UpperChar(s[i])
  {
    seq(|s|, i requires 0 <= i < |s| => UpperChar(s[i]))
  }

  /** `str.lower` on ASCII letters; other characters are kept. */
  function Lower(s: string): (r: string)
    ensures |r| == |s|
    ensures forall i :: 0 <= i < |s| ==> r[i] == LowerChar(s[i])
  {
    seq(|s|, i requires 0 <= i < |s| => LowerChar(s[i]))
  }

  function DigitChar(d: nat): char
    requires d < 10
  {
    ('0' as int + d) as char
  }

  /** Python's `str(n)` for a natural number. */
  function NatToString(n: nat): (r: string)
    ensures |r| > 0
    ensures forall i :: 0 <= i < |r| ==> IsDigit(r[i])
    decreases n
  {
    if n < 10 then [DigitChar(n)] else NatToString(n / 10) + [DigitChar(n % 10)]
  }

  /** Python's `str(i)` for an integer. */
  function IntToString(i: int): (r: string)
    ensures |r| > 0
  {
    if i < 0 then "-" + NatToString(-i) else NatToString(i)
  }

  /** The index of the first line boundary in `s`, or `|s|` when there is none. */
  function FirstBreak(s: string): (i: nat)
    ensures i <= |s|
    ensures i < |s| ==> IsLineBreak(s[i])
    ensures forall j :: 0 <= j < i ==> !IsLineBreak(s[j])
    decreases |s|
  {
    if |s| == 0 then 0
    else if IsLineBreak(s[0]) then 0
    else 1 + FirstBreak(s[1..])
  }

  predicate NoLineBreak(s: string) {
    forall i :: 0 <= i < |s| ==> !IsLineBreak(s[i])
  }

  /**
   * Python's `s.splitlines()`: the lines without their terminators; `"\r\n"`
   * ends one line; a final terminator does not start an empty line.
   */
  function SplitLines(s: string): (lines: seq<string>)
    ensures forall k :: 0 <= k < |lines| ==> NoLineBreak(lines[k])
    decreases |s|
  {
    if |s| == 0 then []
    else
      var i := FirstBreak(s);
      if i == |s| then [s]
      else
        var skip := if s[i] == '\r' && i + 1 < |s| && s[i + 1] == '\n' then 2 else 1;
        [s[..i]] + SplitLines(s[i + skip..])
  }
}
