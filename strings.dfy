/**
 * The Python string operations the harness relies on, over `string` (a sequence of
 * characters). Case mapping is ASCII-only; whitespace is the set Python's `str.isspace`,
 * `str.strip` and `re`'s `\s` share.
 */
module Strings {

  /** Python's whitespace characters (categories Zs, and bidirectional types WS, B, S). */
  predicate IsSpace(c: char) {
    c == ' ' || ('\t' <= c <= '\r') || ('\U{1c}' <= c <= '\U{1f}') || c == '\U{85}' ||
    c == '\U{a0}' || c == '\U{1680}' || ('\U{2000}' <= c <= '\U{200a}') || c == '\U{2028}' ||
    c == '\U{2029}' || c == '\U{202f}' || c == '\U{205f}' || c == '\U{3000}'
  }

  /** The characters at which `str.splitlines` ends a line. */
  predicate IsLineBreak(c: char) {
    c == '\n' || c == '\r' || c == '\U{0b}' || c == '\U{0c}' || ('\U{1c}' <= c <= '\U{1e}') ||
    c == '\U{85}' || c == '\U{2028}' || c == '\U{2029}'
  }

  predicate IsUpper(c: char) { 'A' <= c <= 'Z' }
  predicate IsLowerLetter(c: char) { 'a' <= c <= 'z' }

  function LowerChar(c: char): (r: char)
    ensures !IsUpper(r)
    ensures !IsUpper(c) ==> r == c
  {
    if IsUpper(c) then (c as int + 32) as char else c
  }

  function UpperChar(c: char): (r: char)
    ensures !IsLowerLetter(r)
  {
    if IsLowerLetter(c) then (c as int - 32) as char else c
  }

  /** `str.lower`, for ASCII letters. */
  function Lower(s: string): (r: string)
    ensures |r| == |s|
  {
    if s == [] then [] else [LowerChar(s[0])] + Lower(s[1..])
  }

  /** `str.capitalize`, for ASCII letters: first character upper, the rest lower. */
  function Capitalize(s: string): (r: string)
    ensures |r| == |s|
    ensures |s| > 0 ==> r[0] == UpperChar(s[0]) && r[1..] == Lower(s[1..])
  {
    if s == [] then [] else [UpperChar(s[0])] + Lower(s[1..])
  }

  predicate IsPrefix(p: string, s: string) {
    |p| <= |s| && s[..|p|] == p
  }

  /** Python's `sub in s`. */
  predicate Contains(s: string, sub: string)
    decreases |s|
  {
    IsPrefix(sub, s) || (|s| > 0 && Contains(s[1..], sub))
  }

  /** Python's `s.replace(pat, rep)`: every non-overlapping occurrence, scanning left to right. */
  function ReplaceAll(s: string, pat: string, rep: string): (r: string)
    requires |pat| > 0
    decreases |s|
  {
    if |s| == 0 then []
    else if IsPrefix(pat, s) then rep + ReplaceAll(s[|pat|..], pat, rep)
    else [s[0]] + ReplaceAll(s[1..], pat, rep)
  }

  /** `str.lstrip()`: drops the leading whitespace. */
  function LStrip(s: string): (r: string)
    ensures |r| <= |s|
    decreases |s|
  {
    if |s| > 0 && IsSpace(s[0]) then LStrip(s[1..]) else s
  }

  /** `str.rstrip()`: drops the trailing whitespace. */
  function RStrip(s: string): string
    decreases |s|
  {
    if |s| > 0 && IsSpace(s[|s| - 1]) then RStrip(s[..|s| - 1]) else s
  }

  /** `str.strip()`. */
  function Strip(s: string): string
  {
    RStrip(LStrip(s))
  }

  /** `re.sub(r"\s+", " ", s)`: every maximal run of whitespace becomes one space. */
  function Collapse(s: string): string
    decreases |s|
  {
    if |s| == 0 then []
    else if IsSpace(s[0]) then [' '] + Collapse(LStrip(s[1..]))
    else [s[0]] + Collapse(s[1..])
  }

  /** Lower-casing maps every character on its own and leaves no ASCII capital. */
  lemma {:induction false} LowerFacts(s: string)
    ensures forall i :: 0 <= i < |s| ==> Lower(s)[i] == LowerChar(s[i])
    ensures forall c :: c in Lower(s) ==> !IsUpper(c)
    decreases |s|
  {
    if s != [] {
      LowerFacts(s[1..]);
    }
  }

  /** `lstrip` keeps a suffix, drops only whitespace, and keeps no leading whitespace. */
  lemma {:induction false} LStripFacts(s: string)
    ensures var r := LStrip(s);
      && |r| <= |s| && r == s[|s| - |r|..]
      && (forall i :: 0 <= i < |s| - |r| ==> IsSpace(s[i]))
      && (|r| > 0 ==> !IsSpace(r[0]))
    decreases |s|
  {
    if |s| > 0 && IsSpace(s[0]) {
      LStripFacts(s[1..]);
    }
  }

  /** `rstrip` keeps a prefix, drops only whitespace, and keeps no trailing whitespace. */
  lemma {:induction false} RStripFacts(s: string)
    ensures var r := RStrip(s);
      && |r| <= |s| && r == s[..|r|]
      && (forall i :: |r| <= i < |s| ==> IsSpace(s[i]))
      && (|r| > 0 ==> !IsSpace(r[|r| - 1]))
    decreases |s|
  {
    if |s| > 0 && IsSpace(s[|s| - 1]) {
      RStripFacts(s[..|s| - 1]);
    }
  }

  /** `strip` leaves no whitespace at either end. */
  lemma StripFacts(s: string)
    ensures var r := Strip(s);
      |r| > 0 ==> !IsSpace(r[0]) && !IsSpace(r[|r| - 1])
  {
    var l := LStrip(s);
    LStripFacts(s);
    RStripFacts(l);
    var r := RStrip(l);
    assert |r| > 0 ==> r[0] == l[0];
  }

  /** Collapsing never lengthens, and keeps the first character, a space for whitespace. */
  lemma {:induction false} CollapseFacts(s: string)
    ensures |Collapse(s)| <= |s|
    ensures |s| > 0 ==> |Collapse(s)| > 0 && Collapse(s)[0] == (if IsSpace(s[0]) then ' ' else s[0])
    decreases |s|
  {
    if |s| > 0 {
      if IsSpace(s[0]) {
        LStripFacts(s[1..]);
        CollapseFacts(LStrip(s[1..]));
      } else {
        CollapseFacts(s[1..]);
      }
    }
  }

  /** Python's `sep.join(xs)`. */
  function Join(xs: seq<string>, sep: string): (r: string)
    ensures forall c :: c in r ==> c in sep || exists x :: x in xs && c in x
  {
    if |xs| == 0 then ""
    else if |xs| == 1 then xs[0]
    else xs[0] + sep + Join(xs[1..], sep)
  }

  /** Python's `s.split(sep)` for a non-empty separator. */
  function Split(s: string, sep: string): (r: seq<string>)
    requires |sep| > 0
    ensures |r| > 0
    ensures forall x :: x in r ==> forall c :: c in x ==> c in s
    decreases |s|
  {
    if IsPrefix(sep, s) then [""] + Split(s[|sep|..], sep)
    else if |s| == 0 then [""]
    else
      var rest := Split(s[1..], sep);
      assert rest[0] in rest && forall x :: x in rest[1..] ==> x in rest;
      [[s[0]] + rest[0]] + rest[1..]
  }

  /** Splits `s` at every character satisfying `isSep`; the pieces contain none. */
  function SplitWhere(s: string, isSep: char -> bool): (r: seq<string>)
    ensures |r| > 0
    ensures forall x :: x in r ==> forall c :: c in x ==> c in s && !isSep(c)
    decreases |s|
  {
    if |s| == 0 then [""]
    else
      var rest := SplitWhere(s[1..], isSep);
      assert rest[0] in rest && forall x :: x in rest[1..] ==> x in rest;
      if isSep(s[0]) then [""] + rest else [[s[0]] + rest[0]] + rest[1..]
  }

  /** Decimal digits of a natural number. */
  function NatToString(n: nat): (r: string)
    ensures |r| > 0
    ensures forall c :: c in r ==> '0' <= c <= '9'
  {
    var d := ['0' + (n % 10) as char];
    if n < 10 then d else NatToString(n / 10) + d
  }

  /** Python's `str(i)` for an integer. */
  function IntToString(i: int): (r: string)
    ensures |r| > 0
  {
    if i < 0 then "-" + NatToString(-i) else NatToString(i)
  }

  /** No occurrence of the two-character string [a, b]. */
  predicate NoPair(s: string, a: char, b: char)
    decreases |s|
  {
    |s| < 2 || (!(s[0] == a && s[1] == b) && NoPair(s[1..], a, b))
  }

  /** No run of two or more whitespace characters. */
  predicate NoDoubleSpace(s: string) {
    forall i :: 0 <= i < |s| - 1 ==> !(IsSpace(s[i]) && IsSpace(s[i + 1]))
  }

  lemma {:induction false} ContainsPair(s: string, a: char, b: char)
    ensures Contains(s, [a, b]) <==> !NoPair(s, a, b)
    decreases |s|
  {
    if |s| > 0 {
      ContainsPair(s[1..], a, b);
      if |s| >= 2 {
        assert IsPrefix([a, b], s) <==> s[0] == a && s[1] == b by {
          assert s[..2] == [s[0], s[1]];
        }
      }
    }
  }

  /** `NoPair` stated by position, which is cheap to check on a literal. */
  predicate PairAbsent(s: string, a: char, b: char) {
    forall i :: 0 <= i < |s| - 1 ==> s[i] != a || s[i + 1] != b
  }

  lemma {:induction false} PairFree(s: string, a: char, b: char)
    requires PairAbsent(s, a, b)
    ensures NoPair(s, a, b)
    decreases |s|
  {
    if |s| >= 2 {
      forall i | 0 <= i < |s[1..]| - 1
        ensures s[1..][i] != a || s[1..][i + 1] != b
      {
        assert s[1..][i] == s[i + 1] && s[1..][i + 1] == s[i + 2];
      }
      PairFree(s[1..], a, b);
    }
  }

  lemma {:induction false} NoPairConcat(x: string, y: string, a: char, b: char)
    requires NoPair(x, a, b) && NoPair(y, a, b)
    requires |x| > 0 && |y| > 0 ==> !(x[|x| - 1] == a && y[0] == b)
    ensures NoPair(x + y, a, b)
    decreases |x|
  {
    if |x| > 0 {
      assert (x + y)[1..] == x[1..] + y;
      NoPairConcat(x[1..], y, a, b);
    } else {
      assert x + y == y;
    }
  }

  lemma {:induction false} NoPairSuffix(s: string, k: nat, a: char, b: char)
    requires k <= |s| && NoPair(s, a, b)
    ensures NoPair(s[k..], a, b)
  {
    if k > 0 {
      NoPairSuffix(s[1..], k - 1, a, b);
      assert s[1..][k - 1..] == s[k..];
    }
  }

  lemma {:induction false} NoPairPrefix(s: string, k: nat, a: char, b: char)
    requires k <= |s| && NoPair(s, a, b)
    ensures NoPair(s[..k], a, b)
    decreases |s|
  {
    if k >= 2 {
      NoPairPrefix(s[1..], k - 1, a, b);
      assert s[..k][1..] == s[1..][..k - 1];
    }
  }

  lemma StripKeepsNoPair(s: string, a: char, b: char)
    requires NoPair(s, a, b)
    ensures NoPair(Strip(s), a, b)
  {
    var l := LStrip(s);
    LStripFacts(s);
    RStripFacts(l);
    NoPairSuffix(s, |s| - |l|, a, b);
    NoPairPrefix(l, |RStrip(l)|, a, b);
  }

  lemma StripKeepsNoDoubleSpace(s: string)
    requires NoDoubleSpace(s)
    ensures NoDoubleSpace(Strip(s))
  {
    var l := LStrip(s);
    LStripFacts(s);
    RStripFacts(l);
    var k := |s| - |l|;
    forall i | 0 <= i < |l| - 1
      ensures !(IsSpace(l[i]) && IsSpace(l[i + 1]))
    {
      assert l[i] == s[k + i] && l[i + 1] == s[k + i + 1];
    }
    var r := RStrip(l);
    forall i | 0 <= i < |r| - 1
      ensures !(IsSpace(r[i]) && IsSpace(r[i + 1]))
    {
      assert r[i] == l[i] && r[i + 1] == l[i + 1];
    }
  }

  /** After `re.sub(r"\s+", " ", s)` no two whitespace characters are adjacent. */
  lemma {:induction false} CollapseNoDoubleSpace(s: string)
    ensures NoDoubleSpace(Collapse(s))
    decreases |s|
  {
    if |s| > 0 {
      if IsSpace(s[0]) {
        var l := LStrip(s[1..]);
        LStripFacts(s[1..]);
        CollapseFacts(l);
        CollapseNoDoubleSpace(l);
        var t := Collapse(l);
        var r := [' '] + t;
        assert Collapse(s) == r;
        forall i | 0 <= i < |r| - 1
          ensures !(IsSpace(r[i]) && IsSpace(r[i + 1]))
        {
          if i > 0 {
            assert r[i] == t[i - 1] && r[i + 1] == t[i];
          } else {
            assert r[1] == t[0] == l[0];
          }
        }
      } else {
        CollapseNoDoubleSpace(s[1..]);
        var t := Collapse(s[1..]);
        var r := [s[0]] + t;
        assert Collapse(s) == r;
        forall i | 0 <= i < |r| - 1
          ensures !(IsSpace(r[i]) && IsSpace(r[i + 1]))
        {
          if i > 0 {
            assert r[i] == t[i - 1] && r[i + 1] == t[i];
          }
        }
      }
    }
  }

  /** Collapsing whitespace cannot join two non-space characters. */
  lemma {:induction false} CollapseKeepsNoPair(s: string, a: char, b: char)
    requires !IsSpace(a) && !IsSpace(b) && NoPair(s, a, b)
    ensures NoPair(Collapse(s), a, b)
    decreases |s|
  {
    if |s| > 0 {
      if IsSpace(s[0]) {
        var t := s[1..];
        var l := LStrip(t);
        LStripFacts(t);
        NoPairSuffix(s, 1, a, b);
        NoPairSuffix(t, |t| - |l|, a, b);
        CollapseKeepsNoPair(l, a, b);
        assert Collapse(s) == [' '] + Collapse(l);
        NoPairConcat([' '], Collapse(l), a, b);
      } else {
        NoPairSuffix(s, 1, a, b);
        CollapseKeepsNoPair(s[1..], a, b);
        CollapseFacts(s[1..]);
        if |s| > 1 {
          assert s[0] == a ==> s[1] != b;
        }
        assert Collapse(s) == [s[0]] + Collapse(s[1..]);
        NoPairConcat([s[0]], Collapse(s[1..]), a, b);
      }
    }
  }

  lemma ReplaceFirst(s: string, pat: string, rep: string)
    requires |pat| > 0 && |rep| > 0 && |s| > 0
    ensures |ReplaceAll(s, pat, rep)| > 0
    ensures ReplaceAll(s, pat, rep)[0] == if IsPrefix(pat, s) then rep[0] else s[0]
  {
  }

  /** Rewriting [a, b] by a text that cannot recreate it leaves no [a, b] behind. */
  lemma {:induction false} ReplaceRemovesPair(s: string, a: char, b: char, rep: string)
    requires |rep| > 0 && rep[0] != b && rep[|rep| - 1] != a && PairAbsent(rep, a, b)
    ensures NoPair(ReplaceAll(s, [a, b], rep), a, b)
    decreases |s|
  {
    var pat := [a, b];
    PairFree(rep, a, b);
    if |s| > 0 {
      if IsPrefix(pat, s) {
        ReplaceRemovesPair(s[2..], a, b, rep);
        NoPairConcat(rep, ReplaceAll(s[2..], pat, rep), a, b);
      } else {
        ReplaceRemovesPair(s[1..], a, b, rep);
        if |s[1..]| > 0 {
          ReplaceFirst(s[1..], pat, rep);
          if s[0] == a && !IsPrefix(pat, s[1..]) {
            assert s[1] != b by { assert s[..2] != pat; }
          }
        }
        NoPairConcat([s[0]], ReplaceAll(s[1..], pat, rep), a, b);
      }
    }
  }

  /** A space-padded rewrite never creates an [a, b] of non-space characters. */
  lemma {:induction false} ReplaceKeepsNoPair(s: string, pat: string, rep: string, a: char, b: char)
    requires |pat| > 0 && |rep| > 0 && rep[0] == ' ' && rep[|rep| - 1] == ' '
    requires a != ' ' && b != ' ' && PairAbsent(rep, a, b) && NoPair(s, a, b)
    ensures NoPair(ReplaceAll(s, pat, rep), a, b)
    decreases |s|
  {
    PairFree(rep, a, b);
    if |s| > 0 {
      if IsPrefix(pat, s) {
        NoPairSuffix(s, |pat|, a, b);
        ReplaceKeepsNoPair(s[|pat|..], pat, rep, a, b);
        NoPairConcat(rep, ReplaceAll(s[|pat|..], pat, rep), a, b);
      } else {
        NoPairSuffix(s, 1, a, b);
        ReplaceKeepsNoPair(s[1..], pat, rep, a, b);
        if |s[1..]| > 0 {
          ReplaceFirst(s[1..], pat, rep);
          assert s[0] == a ==> s[1] != b;
        }
        NoPairConcat([s[0]], ReplaceAll(s[1..], pat, rep), a, b);
      }
    }
  }

  /** Every character of a rewritten text comes from the text or from the replacement. */
  lemma {:induction false} ReplaceChars(s: string, pat: string, rep: string)
    requires |pat| > 0
    ensures forall c :: c in ReplaceAll(s, pat, rep) ==> c in s || c in rep
    decreases |s|
  {
    if |s| > 0 {
      if IsPrefix(pat, s) {
        ReplaceChars(s[|pat|..], pat, rep);
        assert forall c :: c in s[|pat|..] ==> c in s;
      } else {
        ReplaceChars(s[1..], pat, rep);
        assert forall c :: c in s[1..] ==> c in s;
      }
    }
  }

  /** Rewriting a one-character pattern removes that character unless the replacement has it. */
  lemma {:induction false} ReplaceDropsChar(s: string, p: char, rep: string)
    ensures forall c :: c in ReplaceAll(s, [p], rep) ==> (c in s && c != p) || c in rep
    decreases |s|
  {
    if |s| > 0 {
      ReplaceDropsChar(s[1..], p, rep);
      assert forall c :: c in s[1..] ==> c in s;
    }
  }

  lemma {:induction false} CollapseChars(s: string)
    ensures forall c :: c in Collapse(s) ==> c == ' ' || (c in s && !IsSpace(c))
    decreases |s|
  {
    if |s| > 0 {
      if IsSpace(s[0]) {
        var l := LStrip(s[1..]);
        LStripFacts(s[1..]);
        CollapseChars(l);
        assert forall c :: c in l ==> c in s by {
          assert l == s[1..][|s[1..]| - |l|..];
        }
      } else {
        CollapseChars(s[1..]);
        assert forall c :: c in s[1..] ==> c in s;
      }
    }
  }

  lemma StripChars(s: string)
    ensures forall c :: c in Strip(s) ==> c in s
  {
    var l := LStrip(s);
    LStripFacts(s);
    assert forall c :: c in l ==> c in s by { assert l == s[|s| - |l|..]; }
    var r := RStrip(l);
    RStripFacts(l);
    assert forall c :: c in r ==> c in l by { assert r == l[..|r|]; }
  }

  /** A text without the pattern's first character is left as it is. */
  lemma {:induction false} ReplaceAbsent(s: string, pat: string, rep: string)
    requires |pat| > 0 && pat[0] !in s
    ensures ReplaceAll(s, pat, rep) == s
    decreases |s|
  {
    if |s| > 0 {
      assert s[1..] + [] == s[1..];
      assert pat[0] !in s[1..] by { assert forall c :: c in s[1..] ==> c in s; }
      ReplaceAbsent(s[1..], pat, rep);
      assert s == [s[0]] + s[1..];
    }
  }

  /** A text in which the pattern's first two characters never meet is left as it is. */
  lemma {:induction false} ReplaceAbsentPair(s: string, pat: string, rep: string)
    requires |pat| >= 2 && NoPair(s, pat[0], pat[1])
    ensures ReplaceAll(s, pat, rep) == s
    decreases |s|
  {
    if |s| > 0 {
      assert !IsPrefix(pat, s) by {
        if |s| >= 2 && |pat| <= |s| { assert s[..|pat|][0] == s[0] && s[..|pat|][1] == s[1]; }
      }
      NoPairSuffix(s, 1, pat[0], pat[1]);
      ReplaceAbsentPair(s[1..], pat, rep);
      assert s == [s[0]] + s[1..];
    }
  }

  /** Lower-casing a text without ASCII capitals changes nothing. */
  lemma LowerNoUpper(s: string)
    requires forall i :: 0 <= i < |s| ==> !IsUpper(s[i])
    ensures Lower(s) == s
  {
    LowerFacts(s);
  }

  /** Every whitespace character of `s` is a plain space. */
  predicate OnlySpaces(s: string) {
    forall i :: 0 <= i < |s| && IsSpace(s[i]) ==> s[i] == ' '
  }

  /** Two texts whose whitespace is plain spaces, with no double space, joined without making one. */
  lemma SingleSpacedConcat(x: string, y: string)
    requires OnlySpaces(x) && OnlySpaces(y) && PairAbsent(x, ' ', ' ') && PairAbsent(y, ' ', ' ')
    requires |x| > 0 && |y| > 0 ==> x[|x| - 1] != ' ' || y[0] != ' '
    ensures OnlySpaces(x + y) && PairAbsent(x + y, ' ', ' ')
  {
    var s := x + y;
    forall i | 0 <= i < |s| && IsSpace(s[i]) ensures s[i] == ' ' {
      if i < |x| { assert s[i] == x[i]; } else { assert s[i] == y[i - |x|]; }
    }
    forall i | 0 <= i < |s| - 1 ensures s[i] != ' ' || s[i + 1] != ' ' {
      if i + 1 < |x| {
        assert s[i] == x[i] && s[i + 1] == x[i + 1];
      } else if i >= |x| {
        assert s[i] == y[i - |x|] && s[i + 1] == y[i + 1 - |x|];
      }
    }
  }

  /** Joining two texts without [a, b] creates none unless the seam does. */
  lemma PairAbsentConcat(x: string, y: string, a: char, b: char)
    requires PairAbsent(x, a, b) && PairAbsent(y, a, b)
    requires |x| > 0 && |y| > 0 ==> x[|x| - 1] != a || y[0] != b
    ensures PairAbsent(x + y, a, b)
  {
    var s := x + y;
    forall i | 0 <= i < |s| - 1 ensures s[i] != a || s[i + 1] != b {
      if i + 1 < |x| {
        assert s[i] == x[i] && s[i + 1] == x[i + 1];
      } else if i >= |x| {
        assert s[i] == y[i - |x|] && s[i + 1] == y[i + 1 - |x|];
      }
    }
  }

  /** A text whose whitespace is lone spaces is its own collapse. */
  lemma {:induction false} CollapseSingleSpaced(s: string)
    requires OnlySpaces(s) && PairAbsent(s, ' ', ' ')
    ensures Collapse(s) == s
    decreases |s|
  {
    if |s| > 0 {
      var t := s[1..];
      assert PairAbsent(t, ' ', ' ') by {
        forall i | 0 <= i < |t| - 1 ensures t[i] != ' ' || t[i + 1] != ' ' {
          assert t[i] == s[i + 1] && t[i + 1] == s[i + 2];
        }
      }
      assert OnlySpaces(t) by {
        forall i | 0 <= i < |t| && IsSpace(t[i]) ensures t[i] == ' ' { assert t[i] == s[i + 1]; }
      }
      if IsSpace(s[0]) {
        assert |t| > 0 ==> !IsSpace(t[0]) by { if |t| > 0 { assert t[0] == s[1]; } }
        assert LStrip(t) == t;
      }
      CollapseSingleSpaced(t);
      assert s == [s[0]] + t;
    }
  }

  // ---------------------------------------------------------------- lines and pieces

  /** The first line break at or after `i`, or `|s|`. */
  function LineEnd(s: string, i: nat): (n: nat)
    requires i <= |s|
    ensures i <= n <= |s|
    decreases |s| - i
  {
    if i == |s| || IsLineBreak(s[i]) then i else LineEnd(s, i + 1)
  }

  lemma {:induction false} LineEndFacts(s: string, i: nat)
    requires i <= |s|
    ensures forall j :: i <= j < LineEnd(s, i) ==> !IsLineBreak(s[j])
    ensures LineEnd(s, i) < |s| ==> IsLineBreak(s[LineEnd(s, i)])
    decreases |s| - i
  {
    if i < |s| && !IsLineBreak(s[i]) {
      LineEndFacts(s, i + 1);
    }
  }

  /** `str.splitlines()`: the lines without their ends, where `\r\n` ends one line. */
  function SplitLines(s: string): (r: seq<string>)
    decreases |s|
  {
    if s == [] then []
    else
      var n := LineEnd(s, 0);
      if n == |s| then [s]
      else
        var next := if s[n] == '\r' && n + 1 < |s| && s[n + 1] == '\n' then n + 2 else n + 1;
        [s[..n]] + SplitLines(s[next..])
  }

  /** No line holds a line break, and every character of a line comes from the text. */
  lemma {:induction false} SplitLinesFacts(s: string)
    ensures forall x :: x in SplitLines(s) ==> forall c :: c in x ==> c in s && !IsLineBreak(c)
    decreases |s|
  {
    if s != [] {
      var n := LineEnd(s, 0);
      LineEndFacts(s, 0);
      if n < |s| {
        var next := if s[n] == '\r' && n + 1 < |s| && s[n + 1] == '\n' then n + 2 else n + 1;
        SplitLinesFacts(s[next..]);
        assert forall c :: c in s[next..] ==> c in s;
        assert forall c :: c in s[..n] ==> c in s && !IsLineBreak(c);
      }
    }
  }

  /** The first piece of a split is a prefix of the text. */
  lemma {:induction false} SplitFirstPrefix(s: string, sep: string)
    requires |sep| > 0
    ensures IsPrefix(Split(s, sep)[0], s)
    decreases |s|
  {
    if !IsPrefix(sep, s) && |s| > 0 {
      SplitFirstPrefix(s[1..], sep);
    }
  }

  /** Splitting at a two-character separator leaves no piece that holds it. */
  lemma {:induction false} SplitNoPair(s: string, a: char, b: char)
    ensures forall x :: x in Split(s, [a, b]) ==> NoPair(x, a, b)
    decreases |s|
  {
    if IsPrefix([a, b], s) {
      SplitNoPair(s[2..], a, b);
    } else if |s| > 0 {
      var rest := Split(s[1..], [a, b]);
      SplitNoPair(s[1..], a, b);
      SplitFirstPrefix(s[1..], [a, b]);
      assert rest[0] in rest;
      var x := [s[0]] + rest[0];
      assert |x| >= 2 ==> x[1] == s[1];
      assert |x| >= 2 ==> x[1..] == rest[0];
      assert NoPair(x, a, b);
      assert forall y :: y in rest[1..] ==> y in rest;
    }
  }

  /** A text without the one-character separator is a single piece. */
  lemma {:induction false} SplitAbsent(s: string, c: char)
    requires c !in s
    ensures Split(s, [c]) == [s]
    decreases |s|
  {
    if |s| > 0 {
      SplitAbsent(s[1..], c);
      assert [s[0]] + s[1..] == s;
    }
  }

  /** Splitting `x + sep + y` where `x` lacks the separator cuts `x` off whole. */
  lemma {:induction false} SplitAfter(x: string, c: char, y: string)
    requires c !in x
    ensures Split(x + [c] + y, [c]) == [x] + Split(y, [c])
    decreases |x|
  {
    var s := x + [c] + y;
    if |x| == 0 {
      assert s == [c] + y;
      assert s[1..] == y;
    } else {
      assert s[1..] == x[1..] + [c] + y;
      SplitAfter(x[1..], c, y);
      assert s[0] == x[0] && x[0] in x;
      assert !IsPrefix([c], s);
      assert [x[0]] + x[1..] == x;
    }
  }

  /** Joining at a one-character separator, then splitting at it, gives the pieces back. */
  lemma {:induction false} SplitJoin(xs: seq<string>, c: char)
    requires |xs| > 0
    requires forall i :: 0 <= i < |xs| ==> c !in xs[i]
    ensures Split(Join(xs, [c]), [c]) == xs
    decreases |xs|
  {
    if |xs| == 1 {
      SplitAbsent(xs[0], c);
    } else {
      SplitJoin(xs[1..], c);
      SplitAfter(xs[0], c, Join(xs[1..], [c]));
      assert [xs[0]] + xs[1..] == xs;
    }
  }

  /** `strip` leaves a non-empty result unchanged: stripping twice is stripping once. */
  lemma StripIdempotent(s: string)
    ensures Strip(Strip(s)) == Strip(s)
  {
    var r := Strip(s);
    StripFacts(s);
    if |r| > 0 {
      assert LStrip(r) == r;
      assert RStrip(r) == r;
    }
  }

  /** `os.path.basename`: the text after the last `/`. */
  function Basename(p: string): (r: string)
    ensures '/' !in r
    ensures |r| <= |p| && p[|p| - |r|..] == r
    ensures |r| < |p| ==> p[|p| - |r| - 1] == '/'
  {
    if p == [] then []
    else if p[|p| - 1] == '/' then []
    else Basename(p[..|p| - 1]) + [p[|p| - 1]]
  }

  /** One digit exactly for the numbers below ten. */
  lemma NatToStringSingle(n: nat)
    ensures |NatToString(n)| == 1 <==> n < 10
  {
    if n >= 10 {
      assert |NatToString(n)| == |NatToString(n / 10)| + 1;
    }
  }

  /** Distinct numbers have distinct decimal forms. */
  lemma {:induction false} NatToStringInjective(i: nat, j: nat)
    requires NatToString(i) == NatToString(j)
    ensures i == j
    decreases i
  {
    var a := NatToString(i);
    assert a[|a| - 1] == '0' + (i % 10) as char;
    assert a[|a| - 1] == '0' + (j % 10) as char;
    NatToStringSingle(i);
    NatToStringSingle(j);
    if i >= 10 {
      assert NatToString(i / 10) == a[..|a| - 1] == NatToString(j / 10);
      NatToStringInjective(i / 10, j / 10);
    }
  }
  // ---------------------------------------------------------------- whole words

  /** No whitespace character in `w`. */
  predicate SpaceFree(w: string) {
    forall i :: 0 <= i < |w| ==> !IsSpace(w[i])
  }

  /** Every character of `s` is whitespace. */
  predicate AllSpace(s: string) {
    forall i :: 0 <= i < |s| ==> IsSpace(s[i])
  }

  /**
   * Every occurrence of `w` in `s` stands as a whole word: it is followed by whitespace or
   * the end, and preceded by whitespace or, at the front, by what `left` says of the
   * character before `s` (whitespace, or none).
   */
  predicate WholeFrom(s: string, w: string, left: bool)
    decreases |s|
  {
    |s| == 0 ||
    ((IsPrefix(w, s) ==> left && (|s| == |w| || IsSpace(s[|w|]))) && WholeFrom(s[1..], w, IsSpace(s[0])))
  }

  /** `lstrip` of a concatenation strips into the second text only when the first is all whitespace. */
  lemma {:induction false} LStripConcat(x: string, y: string)
    ensures LStrip(x + y) == if AllSpace(x) then LStrip(y) else LStrip(x) + y
    decreases |x|
  {
    if |x| > 0 {
      assert (x + y)[0] == x[0] && (x + y)[1..] == x[1..] + y;
      LStripConcat(x[1..], y);
      assert AllSpace(x) <==> IsSpace(x[0]) && AllSpace(x[1..]) by {
        if IsSpace(x[0]) && AllSpace(x[1..]) {
          forall i | 0 <= i < |x| ensures IsSpace(x[i]) { if i > 0 { assert x[i] == x[1..][i - 1]; } }
        }
      }
    } else {
      assert x + y == y;
    }
  }

  /** One step of the collapse. */
  lemma CollapseCons(c: char, t: string)
    ensures Collapse([c] + t) == if IsSpace(c) then [' '] + Collapse(LStrip(t)) else [c] + Collapse(t)
  {
    assert ([c] + t)[0] == c && ([c] + t)[1..] == t;
  }

  /** A text that is not all whitespace lstrips to a non-empty suffix with the same last character. */
  lemma LStripKeepsLast(a: string)
    requires !AllSpace(a)
    ensures |LStrip(a)| > 0 && LStrip(a)[|LStrip(a)| - 1] == a[|a| - 1] && |LStrip(a)| <= |a|
  {
    LStripFacts(a);
  }

  /** A whitespace character next to another, or at the front, disappears in the collapse. */
  lemma {:induction false} CollapseDropSpace(a: string, b: string)
    requires (|a| > 0 && IsSpace(a[|a| - 1])) || (|b| > 0 && IsSpace(b[0]))
    ensures Collapse(a + [' '] + b) == Collapse(a + b)
    decreases |a|, 2
  {
    if |a| == 0 {
      assert a + [' '] + b == [' '] + b && a + b == b;
      CollapseCons(' ', b);
      CollapseCons(b[0], b[1..]);
      assert b == [b[0]] + b[1..];
      assert LStrip(b) == LStrip(b[1..]);
    } else if !IsSpace(a[0]) {
      assert a + [' '] + b == [a[0]] + (a[1..] + [' '] + b);
      assert a + b == [a[0]] + (a[1..] + b);
      CollapseCons(a[0], a[1..] + [' '] + b);
      CollapseCons(a[0], a[1..] + b);
      if |a| > 1 {
        assert a[1..][|a[1..]| - 1] == a[|a| - 1];
      }
      CollapseDropSpace(a[1..], b);
    } else {
      CollapseDropSpaceAfterSpace(a, b);
    }
  }

  /** The case of `CollapseDropSpace` where the first text starts with whitespace. */
  lemma {:induction false} CollapseDropSpaceAfterSpace(a: string, b: string)
    requires |a| > 0 && IsSpace(a[0])
    requires (|a| > 0 && IsSpace(a[|a| - 1])) || (|b| > 0 && IsSpace(b[0]))
    ensures Collapse(a + [' '] + b) == Collapse(a + b)
    decreases |a|, 1
  {
    var a1 := a[1..];
    assert a + [' '] + b == [a[0]] + (a1 + ([' '] + b));
    assert a + b == [a[0]] + (a1 + b);
    CollapseCons(a[0], a1 + ([' '] + b));
    CollapseCons(a[0], a1 + b);
    LStripDropSpace(a, b);
  }

  /** After leading whitespace, the dropped space is lost in the `lstrip` or in the rest. */
  lemma {:induction false} LStripDropSpace(a: string, b: string)
    requires |a| > 0 && IsSpace(a[0])
    requires (|a| > 0 && IsSpace(a[|a| - 1])) || (|b| > 0 && IsSpace(b[0]))
    ensures Collapse(LStrip(a[1..] + ([' '] + b))) == Collapse(LStrip(a[1..] + b))
    decreases |a|, 0
  {
    var a1 := a[1..];
    LStripConcat(a1, [' '] + b);
    LStripConcat(a1, b);
    if AllSpace(a1) {
      assert LStrip([' '] + b) == LStrip(b) by { assert ([' '] + b)[1..] == b; }
    } else {
      var a2 := LStrip(a1);
      LStripKeepsLast(a1);
      assert a1[|a1| - 1] == a[|a| - 1];
      CollapseDropSpace(a2, b);
      assert a2 + ([' '] + b) == a2 + [' '] + b;
    }
  }

  /** A text of whitespace only strips to nothing. */
  lemma AllSpaceStrips(x: string)
    requires AllSpace(x)
    ensures LStrip(x) == []
  {
    LStripConcat(x, []);
    assert x + [] == x;
  }

  /** Collapsing a text with one more whitespace character at its end. */
  lemma {:induction false} CollapseSnocSpace(a: string)
    ensures Collapse(a + [' ']) == if |a| > 0 && IsSpace(a[|a| - 1]) then Collapse(a) else Collapse(a) + [' ']
    decreases |a|
  {
    if |a| == 0 {
      assert a + [' '] == [' '];
      assert LStrip([' '][1..]) == [];
    } else {
      var x := a + [' '];
      assert x[0] == a[0] && x[1..] == a[1..] + [' '];
      if !IsSpace(a[0]) {
        CollapseSnocSpace(a[1..]);
        if |a| > 1 {
          assert a[1..][|a[1..]| - 1] == a[|a| - 1];
        }
      } else {
        var a1 := a[1..];
        LStripConcat(a1, [' ']);
        if AllSpace(a1) {
          assert LStrip([' ']) == [];
          AllSpaceStrips(a1);
          assert IsSpace(a[|a| - 1]) by {
            if |a| > 1 { assert a[|a| - 1] == a1[|a1| - 1]; }
          }
        } else {
          var a2 := LStrip(a1);
          LStripKeepsLast(a1);
          assert a1[|a1| - 1] == a[|a| - 1];
          CollapseSnocSpace(a2);
        }
      }
    }
  }

  /** `strip` ignores one more whitespace character at either end. */
  lemma SqueezeDropEnds(x: string)
    ensures Strip(Collapse([' '] + x)) == Strip(Collapse(x))
    ensures Strip(Collapse(x + [' '])) == Strip(Collapse(x))
  {
    assert ([' '] + x)[0] == ' ' && ([' '] + x)[1..] == x;
    if |x| > 0 && IsSpace(x[0]) {
      assert LStrip(x) == LStrip(x[1..]);
    } else {
      assert LStrip(x) == x;
      var c := Collapse(x);
      assert Collapse([' '] + x) == [' '] + c;
      assert LStrip([' '] + c) == LStrip(c) by { assert ([' '] + c)[1..] == c; }
    }
    CollapseSnocSpace(x);
    var c := Collapse(x);
    if !(|x| > 0 && IsSpace(x[|x| - 1])) {
      LStripConcat(c, [' ']);
      if AllSpace(c) {
        AllSpaceStrips(c);
        assert LStrip([' ']) == [];
      } else {
        var l := LStrip(c);
        assert RStrip(l + [' ']) == RStrip(l) by { assert (l + [' '])[..|l|] == l; }
      }
    }
  }

  /** Whole-word occurrences stay whole when nothing is known about the character before. */
  lemma WholeWeaken(s: string, w: string, left: bool)
    requires WholeFrom(s, w, left)
    ensures WholeFrom(s, w, true)
  {
  }

  /** The characters of a prefix are those of the text. */
  lemma PrefixChar(p: string, s: string, i: int)
    ensures IsPrefix(p, s) && 0 <= i < |p| ==> p[i] == s[i]
  {
  }

  /** A text that starts with whitespace does not depend on the character before it. */
  lemma WholeSpaceFront(s: string, w: string, left: bool)
    requires |w| > 0 && SpaceFree(w) && |s| > 0 && IsSpace(s[0]) && WholeFrom(s, w, true)
    ensures WholeFrom(s, w, left)
  {
    PrefixChar(w, s, 0);
  }

  /** Every suffix keeps its occurrences whole. */
  lemma {:induction false} WholeSuffix(s: string, w: string, left: bool, k: nat)
    requires WholeFrom(s, w, left) && k <= |s|
    ensures WholeFrom(s[k..], w, true)
    decreases k
  {
    if k > 0 {
      WholeSuffix(s[1..], w, IsSpace(s[0]), k - 1);
      assert s[1..][k - 1..] == s[k..];
    }
  }

  /** Every prefix keeps its occurrences whole: an occurrence cut at the end is no longer there. */
  lemma {:induction false} WholePrefix(s: string, w: string, left: bool, k: nat)
    requires WholeFrom(s, w, left) && k <= |s|
    ensures WholeFrom(s[..k], w, left)
    decreases |s|
  {
    var p := s[..k];
    if k > 0 {
      assert p[0] == s[0];
      if IsPrefix(w, p) {
        assert p[..|w|] == s[..|w|];
      }
      WholePrefix(s[1..], w, IsSpace(s[0]), k - 1);
      assert p[1..] == s[1..][..k - 1];
    }
  }

  /** A text without the word holds it nowhere, whole or not. */
  lemma {:induction false} WholeAbsent(s: string, w: string, left: bool)
    requires !Contains(s, w)
    ensures WholeFrom(s, w, left)
    decreases |s|
  {
    if |s| > 0 {
      WholeAbsent(s[1..], w, IsSpace(s[0]));
    }
  }

  /** A text does not contain a different word of its own length. */
  lemma SameLengthAbsent(s: string, w: string)
    requires |s| == |w| && s != w
    ensures !Contains(s, w)
  {
    if Contains(s, w) {
      ContainsLength(s, w);
    }
  }

  /** A text shorter than the word does not contain it, and one of the same length only as itself. */
  lemma {:induction false} ContainsLength(s: string, w: string)
    requires Contains(s, w)
    ensures |w| <= |s| && (|w| == |s| ==> s == w)
    decreases |s|
  {
    if !IsPrefix(w, s) {
      ContainsLength(s[1..], w);
    }
  }

  /** Two whole-word runs joined at whitespace keep every occurrence whole. */
  lemma {:induction false} WholeConcat(a: string, b: string, w: string, left: bool)
    requires |w| > 0 && SpaceFree(w)
    requires (|a| > 0 && IsSpace(a[|a| - 1])) || (|b| > 0 && IsSpace(b[0]))
    requires WholeFrom(a, w, left) && WholeFrom(b, w, true)
    ensures WholeFrom(a + b, w, left)
    decreases |a|
  {
    if |a| == 0 {
      assert a + b == b;
      WholeSpaceFront(b, w, left);
    } else {
      var s := a + b;
      assert s[0] == a[0] && s[1..] == a[1..] + b;
      if IsPrefix(w, s) && |w| > |a| {
        PrefixChar(w, s, |a| - 1);
        PrefixChar(w, s, |a|);
        assert false;
      }
      if IsPrefix(w, s) && |w| <= |a| {
        assert a[..|w|] == s[..|w|];
        assert IsPrefix(w, a);
        if |a| == |w| {
          assert a[|a| - 1] == w[|w| - 1];
          assert |s| == |w| || s[|w|] == b[0];
        } else {
          assert s[|w|] == a[|w|];
        }
      }
      if |a| == 1 {
        assert s[1..] == b;
        if !IsSpace(a[0]) {
          WholeSpaceFront(b, w, false);
        }
      } else {
        assert a[1..][|a[1..]| - 1] == a[|a| - 1];
        WholeConcat(a[1..], b, w, IsSpace(a[0]));
      }
    }
  }

  /** A space-padded replacement holds the word whole, or not at all. */
  lemma WholePadded(x: string, w: string, left: bool)
    requires |w| > 0 && SpaceFree(w) && SpaceFree(x) && (x == w || !Contains(x, w))
    ensures WholeFrom([' '] + x + [' '], w, left)
  {
    assert !Contains([' '], w) by {
      assert !IsSpace(w[0]);
      assert !IsPrefix(w, [' ']);
      assert !IsPrefix(w, []);
    }
    WholeAbsent([' '], w, true);
    if x == w {
      assert IsPrefix(w, x);
      if |x| > 1 {
        assert !Contains(x[1..], w) by { if Contains(x[1..], w) { ContainsLength(x[1..], w); } }
        WholeAbsent(x[1..], w, IsSpace(x[0]));
      }
      assert WholeFrom(x, w, true);
    } else {
      WholeAbsent(x, w, true);
    }
    WholeConcat(x, [' '], w, true);
    WholeConcat([' '], x + [' '], w, left);
    assert [' '] + (x + [' ']) == [' '] + x + [' '];
  }

  /**
   * A space-free prefix of a rewrite by a text that starts with a space is a prefix of the
   * original, and whitespace or the end after it stays whitespace or the end.
   */
  lemma {:induction false} ReplacePrefixThrough(t: string, pat: string, rep: string, q: string)
    requires |pat| > 0 && |rep| > 0 && rep[0] == ' ' && SpaceFree(q)
    requires IsPrefix(q, ReplaceAll(t, pat, rep))
    ensures IsPrefix(q, t)
    ensures var r := ReplaceAll(t, pat, rep);
      (|t| == |q| || IsSpace(t[|q|])) ==> (|r| == |q| || IsSpace(r[|q|]))
    decreases |t|
  {
    var r := ReplaceAll(t, pat, rep);
    if |t| > 0 {
      if IsPrefix(pat, t) {
        assert r[0] == ' ';
      } else if |q| > 0 {
        var r1 := ReplaceAll(t[1..], pat, rep);
        assert r == [t[0]] + r1;
        assert q[1..] == r1[..|q| - 1];
        ReplacePrefixThrough(t[1..], pat, rep, q[1..]);
        assert t[..|q|] == [t[0]] + t[1..][..|q| - 1];
      }
    }
  }

  /** Rewriting with a space-padded text keeps every whole occurrence of a word whole. */
  lemma {:induction false} ReplaceKeepsWhole(s: string, pat: string, x: string, w: string, left: bool)
    requires |pat| > 0 && |w| > 0 && SpaceFree(w) && SpaceFree(x) && (x == w || !Contains(x, w))
    requires WholeFrom(s, w, left)
    ensures WholeFrom(ReplaceAll(s, pat, [' '] + x + [' ']), w, left)
    decreases |s|
  {
    var rep := [' '] + x + [' '];
    if |s| > 0 {
      if IsPrefix(pat, s) {
        WholeSuffix(s, w, left, |pat|);
        ReplaceKeepsWhole(s[|pat|..], pat, x, w, true);
        WholePadded(x, w, left);
        WholeConcat(rep, ReplaceAll(s[|pat|..], pat, rep), w, left);
      } else {
        var r1 := ReplaceAll(s[1..], pat, rep);
        var r := [s[0]] + r1;
        assert ReplaceAll(s, pat, rep) == r;
        ReplaceKeepsWholeHead(s, pat, rep, w, left);
        ReplaceKeepsWhole(s[1..], pat, x, w, IsSpace(s[0]));
        assert r[1..] == r1;
      }
    }
  }

  /** An occurrence at the front of a rewrite that kept its first character was whole before. */
  lemma ReplaceKeepsWholeHead(s: string, pat: string, rep: string, w: string, left: bool)
    requires |pat| > 0 && |rep| > 0 && rep[0] == ' ' && |w| > 0 && SpaceFree(w)
    requires |s| > 0 && WholeFrom(s, w, left)
    ensures var r := [s[0]] + ReplaceAll(s[1..], pat, rep);
      IsPrefix(w, r) ==> left && (|r| == |w| || IsSpace(r[|w|]))
  {
    var r1 := ReplaceAll(s[1..], pat, rep);
    var r := [s[0]] + r1;
    if IsPrefix(w, r) {
      assert w[1..] == r1[..|w| - 1];
      ReplacePrefixThrough(s[1..], pat, rep, w[1..]);
      assert s[..|w|] == [s[0]] + s[1..][..|w| - 1];
    }
  }

  /** Padding a word with spaces makes every occurrence of it whole. */
  lemma {:induction false} ReplaceMakesWhole(s: string, w: string, left: bool)
    requires |w| > 0 && SpaceFree(w)
    ensures WholeFrom(ReplaceAll(s, w, [' '] + w + [' ']), w, left)
    decreases |s|
  {
    var rep := [' '] + w + [' '];
    if |s| > 0 {
      if IsPrefix(w, s) {
        ReplaceMakesWhole(s[|w|..], w, true);
        WholePadded(w, w, left);
        WholeConcat(rep, ReplaceAll(s[|w|..], w, rep), w, left);
      } else {
        var r1 := ReplaceAll(s[1..], w, rep);
        var r := [s[0]] + r1;
        assert ReplaceAll(s, w, rep) == r;
        if IsPrefix(w, r) {
          assert w[1..] == r1[..|w| - 1];
          ReplacePrefixThrough(s[1..], w, rep, w[1..]);
        }
        ReplaceMakesWhole(s[1..], w, IsSpace(s[0]));
        assert r[1..] == r1;
      }
    }
  }

  /** A space after whitespace, or at the front, is lost in the collapse and strip. */
  lemma DropSpaceBefore(p: string, t: string)
    requires |p| == 0 || IsSpace(p[|p| - 1])
    ensures Strip(Collapse(p + [' '] + t)) == Strip(Collapse(p + t))
  {
    if |p| == 0 {
      assert p + [' '] + t == [' '] + t && p + t == t;
      SqueezeDropEnds(t);
    } else {
      CollapseDropSpace(p, t);
    }
  }

  /** A space before whitespace, or at the end, is lost in the collapse and strip. */
  lemma DropSpaceAfter(a: string, t: string)
    requires |t| == 0 || IsSpace(t[0])
    ensures Strip(Collapse(a + [' '] + t)) == Strip(Collapse(a + t))
  {
    if |t| == 0 {
      assert a + [' '] + t == a + [' '] && a + t == a;
      SqueezeDropEnds(a);
    } else {
      CollapseDropSpace(a, t);
    }
  }

  /** A rewrite at an occurrence at the front emits the replacement and goes on after it. */
  lemma ReplaceAtPrefix(s: string, pat: string, rep: string)
    requires |pat| > 0 && IsPrefix(pat, s)
    ensures ReplaceAll(s, pat, rep) == rep + ReplaceAll(s[|pat|..], pat, rep)
  {
  }

  /** The space before a padded word is lost after whitespace or at the front. */
  lemma DropPadFront(p: string, w: string, t: string)
    requires |p| == 0 || IsSpace(p[|p| - 1])
    ensures Strip(Collapse(p + (([' '] + w + [' ']) + t))) == Strip(Collapse((p + w + [' ']) + t))
  {
    PadRegroup(p, w, t);
    DropSpaceBefore(p, w + [' '] + t);
  }

  lemma PadRegroup(p: string, w: string, t: string)
    ensures p + (([' '] + w + [' ']) + t) == p + [' '] + (w + [' '] + t)
    ensures p + (w + [' '] + t) == (p + w + [' ']) + t
  {
  }

  /** The space after a padded word is lost before whitespace or at the end. */
  lemma DropPadBack(a: string, t: string)
    requires |t| == 0 || IsSpace(t[0])
    ensures Strip(Collapse((a + [' ']) + t)) == Strip(Collapse(a + t))
  {
    DropSpaceAfter(a, t);
  }

  /**
   * Padding whole occurrences of a word with spaces changes nothing once whitespace is
   * collapsed and stripped; `p` is the text already passed, ending in whitespace when `left`.
   */
  lemma {:induction false} ReplacePadSqueeze(p: string, s: string, w: string, left: bool)
    requires |w| > 0 && SpaceFree(w) && WholeFrom(s, w, left)
    requires left ==> |p| == 0 || IsSpace(p[|p| - 1])
    ensures Strip(Collapse(p + ReplaceAll(s, w, [' '] + w + [' ']))) == Strip(Collapse(p + s))
    decreases |s|, 1
  {
    var rep := [' '] + w + [' '];
    if |s| > 0 {
      if IsPrefix(w, s) {
        ReplacePadSqueezeWord(p, s, w, left);
      } else {
        var r1 := ReplaceAll(s[1..], w, rep);
        assert ReplaceAll(s, w, rep) == [s[0]] + r1;
        assert p + ([s[0]] + r1) == p + [s[0]] + r1;
        assert p + s == p + [s[0]] + s[1..];
        ReplacePadSqueeze(p + [s[0]], s[1..], w, IsSpace(s[0]));
      }
    }
  }

  /** The case of `ReplacePadSqueeze` where the text starts with the word. */
  lemma {:induction false} ReplacePadSqueezeWord(p: string, s: string, w: string, left: bool)
    requires |w| > 0 && SpaceFree(w) && WholeFrom(s, w, left) && IsPrefix(w, s)
    requires left ==> |p| == 0 || IsSpace(p[|p| - 1])
    ensures Strip(Collapse(p + ReplaceAll(s, w, [' '] + w + [' ']))) == Strip(Collapse(p + s))
    decreases |s|, 0
  {
    var rep := [' '] + w + [' '];
    var s1 := s[|w|..];
    var r1 := ReplaceAll(s1, w, rep);
    WholeSuffix(s, w, left, |w|);
    assert |s1| == 0 || s1[0] == s[|w|];
    assert s == w + s1;
    assert (p + w) + s1 == p + s;
    ReplaceAtPrefix(s, w, rep);
    DropPadFront(p, w, r1);
    ReplacePadSqueeze(p + w + [' '], s1, w, true);
    DropPadBack(p + w, s1);
  }

  /** A space-free prefix of a collapsed text is a prefix of the text, and so is whitespace after it. */
  lemma {:induction false} CollapsePrefixThrough(t: string, q: string)
    requires SpaceFree(q) && IsPrefix(q, Collapse(t))
    ensures IsPrefix(q, t)
    ensures var r := Collapse(t);
      (|t| == |q| || IsSpace(t[|q|])) ==> (|r| == |q| || IsSpace(r[|q|]))
    decreases |t|
  {
    var r := Collapse(t);
    if |t| > 0 {
      if IsSpace(t[0]) {
        assert r[0] == ' ';
      } else if |q| > 0 {
        var r1 := Collapse(t[1..]);
        assert r == [t[0]] + r1;
        assert q[1..] == r1[..|q| - 1];
        CollapsePrefixThrough(t[1..], q[1..]);
        assert t[..|q|] == [t[0]] + t[1..][..|q| - 1];
      }
    }
  }

  /** Collapsing whitespace keeps every whole occurrence whole. */
  lemma {:induction false} CollapseKeepsWhole(s: string, w: string, left: bool)
    requires |w| > 0 && SpaceFree(w) && WholeFrom(s, w, left)
    ensures WholeFrom(Collapse(s), w, left)
    decreases |s|, 1
  {
    if |s| > 0 {
      if IsSpace(s[0]) {
        CollapseKeepsWholeSpace(s, w, left);
      } else {
        var r1 := Collapse(s[1..]);
        var r := [s[0]] + r1;
        CollapseCons(s[0], s[1..]);
        assert s == [s[0]] + s[1..];
        if IsPrefix(w, r) {
          assert w[1..] == r1[..|w| - 1];
          CollapsePrefixThrough(s[1..], w[1..]);
          assert s[..|w|] == [s[0]] + s[1..][..|w| - 1];
        }
        CollapseKeepsWhole(s[1..], w, IsSpace(s[0]));
        assert r[1..] == r1;
      }
    }
  }

  /** The case of `CollapseKeepsWhole` where the text starts with whitespace. */
  lemma {:induction false} CollapseKeepsWholeSpace(s: string, w: string, left: bool)
    requires |w| > 0 && SpaceFree(w) && WholeFrom(s, w, left) && |s| > 0 && IsSpace(s[0])
    ensures WholeFrom(Collapse(s), w, left)
    decreases |s|, 0
  {
    var l := LStrip(s[1..]);
    LStripFacts(s[1..]);
    WholeSuffix(s, w, left, 1 + |s[1..]| - |l|);
    assert s[1 + |s[1..]| - |l|..] == l;
    CollapseKeepsWhole(l, w, true);
    var r := [' '] + Collapse(l);
    CollapseCons(s[0], s[1..]);
    assert s == [s[0]] + s[1..];
    assert !IsPrefix(w, r) by { assert !IsSpace(w[0]); assert r[0] == ' '; }
    assert r[1..] == Collapse(l);
  }

  /** Collapsing and stripping keep every whole occurrence whole. */
  lemma SqueezeKeepsWhole(s: string, w: string)
    requires |w| > 0 && SpaceFree(w) && WholeFrom(s, w, true)
    ensures WholeFrom(Strip(Collapse(s)), w, true)
  {
    var c := Collapse(s);
    CollapseKeepsWhole(s, w, true);
    var l := LStrip(c);
    LStripFacts(c);
    WholeSuffix(c, w, true, |c| - |l|);
    RStripFacts(l);
    WholePrefix(l, w, true, |RStrip(l)|);
  }
}
