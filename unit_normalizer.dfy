/**
 * The text normaliser shared by the rubric scorer: a fixed chain of plain substring
 * rewrites (no word boundaries) followed by whitespace collapsing.
 */
module UnitNormalizer {
  import opened Wrappers
  import opened Strings

  /** The replacement texts, each padded with spaces. */
  const Usd := " usd "
  const Percent := " percent "
  const BasisPoints := " basis points "
  const Billion := " billion "
  const Million := " million "

  /** One `.replace(pat, rep)` call of the chain. */
  datatype Rule = Rule(pat: string, rep: string)

  /** Lines 8 to 12: commas dropped, currency and percent spelled out, `bps` before `bp`. */
  const FirstRules: seq<Rule> := [
    Rule(",", ""), Rule("$", Usd), Rule("%", Percent), Rule("bps", BasisPoints), Rule("bp", BasisPoints)]

  /** Lines 14 to 17: the magnitude words padded, then `bn` and `mn` spelled out. */
  const SecondRules: seq<Rule> := [
    Rule("billion", Billion), Rule("million", Million), Rule("bn", Billion), Rule("mn", Million)]

  predicate Applicable(rules: seq<Rule>) {
    forall i :: 0 <= i < |rules| ==> |rules[i].pat| > 0
  }

  /** The rules applied one after the other, each to the whole text. */
  function Rewrite(s: string, rules: seq<Rule>): string
    requires Applicable(rules)
    decreases |rules|
  {
    if rules == [] then s else Rewrite(ReplaceAll(s, rules[0].pat, rules[0].rep), rules[1..])
  }

  /** Lower-casing and the first rewrites, then one collapse. */
  function FirstPass(t: string): string {
    Strip(Collapse(Rewrite(Lower(t), FirstRules)))
  }

  /** The second rewrites, then the final collapse. */
  function SecondPass(t: string): string {
    Strip(Collapse(Rewrite(t, SecondRules)))
  }

  /** The first pass, one rewrite at a time. */
  lemma FirstPassSteps(t: string)
    ensures FirstPass(t) == Strip(Collapse(ReplaceAll(ReplaceAll(ReplaceAll(ReplaceAll(ReplaceAll(
      Lower(t), ",", ""), "$", Usd), "%", Percent), "bps", BasisPoints), "bp", BasisPoints)))
  {
    var s0 := Lower(t);
    var s1 := ReplaceAll(s0, ",", "");
    assert Rewrite(s0, FirstRules) == Rewrite(s1, FirstRules[1..]);
    var s2 := ReplaceAll(s1, "$", Usd);
    assert Rewrite(s1, FirstRules[1..]) == Rewrite(s2, FirstRules[2..]);
    var s3 := ReplaceAll(s2, "%", Percent);
    assert Rewrite(s2, FirstRules[2..]) == Rewrite(s3, FirstRules[3..]);
    var s4 := ReplaceAll(s3, "bps", BasisPoints);
    assert Rewrite(s3, FirstRules[3..]) == Rewrite(s4, FirstRules[4..]);
    var s5 := ReplaceAll(s4, "bp", BasisPoints);
    assert Rewrite(s4, FirstRules[4..]) == Rewrite(s5, []);
  }

  /** The second pass, one rewrite at a time. */
  lemma SecondPassSteps(t: string)
    ensures SecondPass(t) == Strip(Collapse(ReplaceAll(ReplaceAll(ReplaceAll(ReplaceAll(
      t, "billion", Billion), "million", Million), "bn", Billion), "mn", Million)))
  {
    var s1 := ReplaceAll(t, "billion", Billion);
    assert Rewrite(t, SecondRules) == Rewrite(s1, SecondRules[1..]);
    var s2 := ReplaceAll(s1, "million", Million);
    assert Rewrite(s1, SecondRules[1..]) == Rewrite(s2, SecondRules[2..]);
    var s3 := ReplaceAll(s2, "bn", Billion);
    assert Rewrite(s2, SecondRules[2..]) == Rewrite(s3, SecondRules[3..]);
    var s4 := ReplaceAll(s3, "mn", Million);
    assert Rewrite(s3, SecondRules[3..]) == Rewrite(s4, []);
  }

  /** `normalize_text`; `None` normalises to the empty string. */
  function NormalizeText(text: Option<string>): (r: string)
    ensures text == None ==> r == ""
  {
    match text
    case None => ""
    case Some(t) => SecondPass(FirstPass(t))
  }

  /** The empty text normalises to the empty text. */
  lemma NormalizeEmpty()
    ensures NormalizeText(Some("")) == ""
  {
    FirstPassSteps("");
    assert Lower("") == "";
    assert FirstPass("") == "";
    SecondPassSteps("");
  }

  /** `strip` of a text that starts and ends with a non-space character changes nothing. */
  lemma StripNothing(s: string)
    requires |s| > 0 && !IsSpace(s[0]) && !IsSpace(s[|s| - 1])
    ensures Strip(s) == s
  {
  }

  /** The second pass changes nothing in a text without magnitude words or `bn`/`mn`. */
  lemma SecondPassKeeps(f: string)
    requires |f| > 0 && !IsSpace(f[0]) && !IsSpace(f[|f| - 1]) && 'm' !in f
    requires ('b' !in f) || (PairAbsent(f, 'b', 'i') && PairAbsent(f, 'b', 'n'))
    requires OnlySpaces(f) && PairAbsent(f, ' ', ' ')
    ensures SecondPass(f) == f
  {
    SecondPassSteps(f);
    if 'b' !in f {
      ReplaceAbsent(f, "billion", Billion);
      ReplaceAbsent(f, "bn", Billion);
    } else {
      PairFree(f, 'b', 'i');
      ReplaceAbsentPair(f, "billion", Billion);
      PairFree(f, 'b', 'n');
      ReplaceAbsentPair(f, "bn", Billion);
    }
    ReplaceAbsent(f, "million", Million);
    ReplaceAbsent(f, "mn", Million);
    CollapseSingleSpaced(f);
    StripNothing(f);
  }

  /** A non-empty run of decimal digits, such as the number in front of a unit. */
  predicate IsNumber(n: string) {
    |n| > 0 && forall i :: 0 <= i < |n| ==> '0' <= n[i] <= '9'
  }

  /** A rewrite whose pattern closes the text, right after a number, replaces just that tail. */
  lemma {:induction false} ReplaceAfterNumber(n: string, pat: string, rep: string)
    requires |pat| > 0 && (forall i :: 0 <= i < |n| ==> '0' <= n[i] <= '9') && !('0' <= pat[0] <= '9')
    ensures ReplaceAll(n + pat, pat, rep) == n + rep
    decreases |n|
  {
    if n == [] {
      assert pat[|pat|..] == [];
      assert ReplaceAll(pat, pat, rep) == rep + ReplaceAll([], pat, rep);
    } else {
      assert (n + pat)[1..] == n[1..] + pat;
      assert !IsPrefix(pat, n + pat) by { assert (n + pat)[0] == n[0]; }
      ReplaceAfterNumber(n[1..], pat, rep);
      assert n == [n[0]] + n[1..];
    }
  }

  /** A number holds no whitespace, no letter and no symbol. */
  lemma NumberFacts(n: string)
    requires IsNumber(n)
    ensures OnlySpaces(n) && PairAbsent(n, ' ', ' ') && !IsSpace(n[0]) && !IsSpace(n[|n| - 1])
    ensures forall c :: c in n ==> '0' <= c <= '9'
    ensures forall a, b :: !('0' <= a <= '9') ==> PairAbsent(n, a, b)
  {
  }

  /** The spacing and letter-pair facts of the basis-point text. */
  lemma BasisPointsText()
    ensures OnlySpaces(BasisPoints) && PairAbsent(BasisPoints, ' ', ' ')
    ensures PairAbsent(BasisPoints, 'b', 'p')
  {
  }

  /** The same facts for the unit without its trailing space. */
  lemma TrimmedBasisPointsText()
    ensures OnlySpaces(" basis points") && PairAbsent(" basis points", ' ', ' ')
    ensures PairAbsent(" basis points", 'b', 'i') && PairAbsent(" basis points", 'b', 'n')
  {
  }

  /** The rewrites of the first pass turn `<number>bps` into `<number> basis points `. */
  lemma BasisPointsRewrites(n: string)
    requires IsNumber(n)
    ensures ReplaceAll(ReplaceAll(ReplaceAll(ReplaceAll(ReplaceAll(Lower(n + "bps"), ",", ""),
      "$", Usd), "%", Percent), "bps", BasisPoints), "bp", BasisPoints) == n + BasisPoints
  {
    var t := n + "bps";
    var s5 := n + BasisPoints;
    BpsFirstChars(n);
    ReplaceAbsent(t, ",", "");
    ReplaceAbsent(t, "$", Usd);
    ReplaceAbsent(t, "%", Percent);
    ReplaceAfterNumber(n, "bps", BasisPoints);
    BasisPointsNoPair(n);
    ReplaceAbsentPair(s5, "bp", BasisPoints);
  }

  /** `<number>bps` is lower case and holds no `,`, `$` or `%`. */
  lemma BpsFirstChars(n: string)
    requires IsNumber(n)
    ensures var t := n + "bps"; Lower(t) == t && ',' !in t && '$' !in t && '%' !in t
  {
    var t := n + "bps";
    NumberFacts(n);
    assert forall i :: 0 <= i < |t| ==> t[i] == if i < |n| then n[i] else "bps"[i - |n|];
    LowerNoUpper(t);
    AbsentFromBoth(n, "bps", ',');
    AbsentFromBoth(n, "bps", '$');
    AbsentFromBoth(n, "bps", '%');
  }

  /** In `<number> basis points `, no `b` is followed by `p`. */
  lemma BasisPointsNoPair(n: string)
    requires IsNumber(n)
    ensures NoPair(n + BasisPoints, 'b', 'p')
  {
    NumberFacts(n);
    BasisPointsText();
    PairAbsentConcat(n, BasisPoints, 'b', 'p');
    PairFree(n + BasisPoints, 'b', 'p');
  }

  /** The collapse and strip of the first pass on `<number> basis points `. */
  lemma BasisPointsCollapse(n: string)
    requires IsNumber(n)
    ensures Strip(Collapse(n + BasisPoints)) == n + " basis points"
  {
    var s5 := n + BasisPoints;
    var f := n + " basis points";
    NumberFacts(n);
    BasisPointsText();
    SingleSpacedConcat(n, BasisPoints);
    CollapseSingleSpaced(s5);
    assert s5 == f + [' '];
    assert RStrip(s5) == RStrip(f);
    StripNothing(f);
  }

  /** The first pass on a number followed by `bps`. */
  lemma FirstPassBasisPoints(n: string)
    requires IsNumber(n)
    ensures FirstPass(n + "bps") == n + " basis points"
  {
    FirstPassSteps(n + "bps");
    BasisPointsRewrites(n);
    BasisPointsCollapse(n);
  }

  /** `bps` is rewritten before `bp`: a number followed by `bps` normalises to `<number> basis points`. */
  lemma BasisPointsExample(n: string)
    requires IsNumber(n)
    ensures NormalizeText(Some(n + "bps")) == n + " basis points"
  {
    var f := n + " basis points";
    FirstPassBasisPoints(n);
    NumberFacts(n);
    TrimmedBasisPointsText();
    SingleSpacedConcat(n, " basis points");
    PairAbsentConcat(n, " basis points", 'b', 'i');
    PairAbsentConcat(n, " basis points", 'b', 'n');
    assert 'm' !in f by {
      assert forall i :: 0 <= i < |f| ==> f[i] == if i < |n| then n[i] else " basis points"[i - |n|];
    }
    SecondPassKeeps(f);
  }

  /** The spacing and letter facts of the magnitude word and its padded form. */
  lemma BillionText()
    ensures OnlySpaces("billion") && PairAbsent("billion", ' ', ' ') && PairAbsent("billion", 'b', 'p')
    ensures 'm' !in Billion && PairAbsent(Billion, 'b', 'n')
    ensures OnlySpaces(Billion) && PairAbsent(Billion, ' ', ' ')
  {
  }

  /** The rewrites of the first pass leave `<number>billion` as it is. */
  lemma BillionFirstRewrites(n: string)
    requires IsNumber(n)
    ensures ReplaceAll(ReplaceAll(ReplaceAll(ReplaceAll(ReplaceAll(Lower(n + "billion"), ",", ""),
      "$", Usd), "%", Percent), "bps", BasisPoints), "bp", BasisPoints) == n + "billion"
  {
    var t := n + "billion";
    BillionFirstChars(n);
    ReplaceAbsent(t, ",", "");
    ReplaceAbsent(t, "$", Usd);
    ReplaceAbsent(t, "%", Percent);
    ReplaceAbsentPair(t, "bps", BasisPoints);
    ReplaceAbsentPair(t, "bp", BasisPoints);
  }

  /** `<number>billion` is lower case and holds none of the first pass's patterns. */
  lemma BillionFirstChars(n: string)
    requires IsNumber(n)
    ensures var t := n + "billion";
      && Lower(t) == t && ',' !in t && '$' !in t && '%' !in t && NoPair(t, 'b', 'p')
  {
    var t := n + "billion";
    NumberFacts(n);
    BillionLower(n);
    BillionText();
    PairAbsentConcat(n, "billion", 'b', 'p');
    PairFree(t, 'b', 'p');
    AbsentFromBoth(n, "billion", ',');
    AbsentFromBoth(n, "billion", '$');
    AbsentFromBoth(n, "billion", '%');
  }

  lemma AbsentFromBoth(x: string, y: string, c: char)
    requires c !in x && c !in y
    ensures c !in x + y
  {
  }

  lemma BillionLower(n: string)
    requires IsNumber(n)
    ensures Lower(n + "billion") == n + "billion"
  {
    var t := n + "billion";
    NumberFacts(n);
    assert forall i :: 0 <= i < |t| ==> t[i] == if i < |n| then n[i] else "billion"[i - |n|];
    LowerNoUpper(t);
  }

  /** The first pass leaves `<number>billion` as it is. */
  lemma FirstPassKeepsBillion(n: string)
    requires IsNumber(n)
    ensures FirstPass(n + "billion") == n + "billion"
  {
    var t := n + "billion";
    FirstPassSteps(t);
    BillionFirstRewrites(n);
    NumberFacts(n);
    BillionText();
    SingleSpacedConcat(n, "billion");
    CollapseSingleSpaced(t);
    assert t[|t| - 1] == 'n';
    StripNothing(t);
  }

  /** The rewrites of the second pass turn `<number>billion` into `<number> billion `. */
  lemma BillionRewrites(n: string)
    requires IsNumber(n)
    ensures ReplaceAll(ReplaceAll(ReplaceAll(ReplaceAll(n + "billion", "billion", Billion),
      "million", Million), "bn", Billion), "mn", Million) == n + Billion
  {
    var s1 := n + Billion;
    NumberFacts(n);
    BillionText();
    ReplaceAfterNumber(n, "billion", Billion);
    assert forall i :: 0 <= i < |s1| ==> s1[i] == if i < |n| then n[i] else Billion[i - |n|];
    ReplaceAbsent(s1, "million", Million);
    PairAbsentConcat(n, Billion, 'b', 'n');
    PairFree(s1, 'b', 'n');
    ReplaceAbsentPair(s1, "bn", Billion);
    ReplaceAbsent(s1, "mn", Million);
  }

  /** Padding spells the magnitude apart: `<number>billion` normalises to `<number> billion`. */
  lemma BillionExample(n: string)
    requires IsNumber(n)
    ensures NormalizeText(Some(n + "billion")) == n + " billion"
  {
    FirstPassKeepsBillion(n);
    SecondPassSteps(n + "billion");
    BillionRewrites(n);
    BillionCollapse(n);
  }

  /** A non-empty run of lower-case ASCII letters. */
  predicate IsWord(w: string) {
    |w| > 0 && forall i :: 0 <= i < |w| ==> 'a' <= w[i] <= 'z'
  }

  /** `<number><word>` is lower case and holds no `,`, `$`, `%` or `bp`. */
  lemma WordFirstChars(n: string, w: string)
    requires IsNumber(n) && IsWord(w) && PairAbsent(w, 'b', 'p')
    ensures var t := n + w;
      && Lower(t) == t && ',' !in t && '$' !in t && '%' !in t && NoPair(t, 'b', 'p')
  {
    var t := n + w;
    NumberFacts(n);
    assert forall i :: 0 <= i < |t| ==> t[i] == if i < |n| then n[i] else w[i - |n|];
    LowerNoUpper(t);
    AbsentFromBoth(n, w, ',');
    AbsentFromBoth(n, w, '$');
    AbsentFromBoth(n, w, '%');
    PairAbsentConcat(n, w, 'b', 'p');
    PairFree(t, 'b', 'p');
  }

  /** The rewrites of the first pass leave `<number><word>` as it is. */
  lemma WordFirstRewrites(n: string, w: string)
    requires IsNumber(n) && IsWord(w) && PairAbsent(w, 'b', 'p')
    ensures ReplaceAll(ReplaceAll(ReplaceAll(ReplaceAll(ReplaceAll(Lower(n + w), ",", ""),
      "$", Usd), "%", Percent), "bps", BasisPoints), "bp", BasisPoints) == n + w
  {
    var t := n + w;
    WordFirstChars(n, w);
    ReplaceAbsent(t, ",", "");
    ReplaceAbsent(t, "$", Usd);
    ReplaceAbsent(t, "%", Percent);
    ReplaceAbsentPair(t, "bps", BasisPoints);
    ReplaceAbsentPair(t, "bp", BasisPoints);
  }

  /** The first pass leaves `<number><word>` as it is when the word holds no `bp`. */
  lemma FirstPassKeepsWord(n: string, w: string)
    requires IsNumber(n) && IsWord(w) && PairAbsent(w, 'b', 'p')
    ensures FirstPass(n + w) == n + w
  {
    var t := n + w;
    FirstPassSteps(t);
    WordFirstRewrites(n, w);
    NumberFacts(n);
    SingleSpacedConcat(n, w);
    CollapseSingleSpaced(t);
    StripNothing(t);
  }

  /** The collapse and strip of the second pass on `<number> million `. */
  lemma MillionCollapse(n: string)
    requires IsNumber(n)
    ensures Strip(Collapse(n + Million)) == n + " million"
  {
    var s := n + Million;
    var f := n + " million";
    NumberFacts(n);
    MillionText();
    SingleSpacedConcat(n, Million);
    CollapseSingleSpaced(s);
    assert s == f + [' '];
    assert RStrip(s) == RStrip(f);
    StripNothing(f);
  }

  /** The collapse and strip of the second pass on `<number> billion `. */
  lemma BillionCollapse(n: string)
    requires IsNumber(n)
    ensures Strip(Collapse(n + Billion)) == n + " billion"
  {
    var s := n + Billion;
    var f := n + " billion";
    NumberFacts(n);
    BillionText();
    SingleSpacedConcat(n, Billion);
    CollapseSingleSpaced(s);
    assert s == f + [' '];
    assert RStrip(s) == RStrip(f);
    StripNothing(f);
  }

  /** The rewrites of the second pass turn `<number>million` into `<number> million `. */
  lemma MillionRewrites(n: string)
    requires IsNumber(n)
    ensures ReplaceAll(ReplaceAll(ReplaceAll(ReplaceAll(n + "million", "billion", Billion),
      "million", Million), "bn", Billion), "mn", Million) == n + Million
  {
    var t := n + "million";
    NumberFacts(n);
    AbsentFromBoth(n, "million", 'b');
    ReplaceAbsent(t, "billion", Billion);
    ReplaceAfterNumber(n, "million", Million);
    MillionKeeps(n);
  }

  /** The spacing and letter facts of the padded magnitude word. */
  lemma MillionText()
    ensures 'b' !in Million && PairAbsent(Million, 'm', 'n')
    ensures OnlySpaces(Million) && PairAbsent(Million, ' ', ' ')
  {
  }

  /** The last two rewrites leave `<number> million ` as it is. */
  lemma MillionKeeps(n: string)
    requires IsNumber(n)
    ensures ReplaceAll(ReplaceAll(n + Million, "bn", Billion), "mn", Million) == n + Million
  {
    var s := n + Million;
    NumberFacts(n);
    MillionText();
    AbsentFromBoth(n, Million, 'b');
    ReplaceAbsent(s, "bn", Billion);
    PairAbsentConcat(n, Million, 'm', 'n');
    PairFree(s, 'm', 'n');
    ReplaceAbsentPair(s, "mn", Million);
  }

  /** Padding spells the magnitude apart: `<number>million` normalises to `<number> million`. */
  lemma MillionExample(n: string)
    requires IsNumber(n)
    ensures NormalizeText(Some(n + "million")) == n + " million"
  {
    FirstPassKeepsWord(n, "million");
    SecondPassSteps(n + "million");
    MillionRewrites(n);
    MillionCollapse(n);
  }

  /** The rewrites of the second pass turn `<number>bn` into `<number> billion `. */
  lemma BnRewrites(n: string)
    requires IsNumber(n)
    ensures ReplaceAll(ReplaceAll(ReplaceAll(ReplaceAll(n + "bn", "billion", Billion),
      "million", Million), "bn", Billion), "mn", Million) == n + Billion
  {
    var t := n + "bn";
    var s := n + Billion;
    NumberFacts(n);
    PairAbsentConcat(n, "bn", 'b', 'i');
    PairFree(t, 'b', 'i');
    ReplaceAbsentPair(t, "billion", Billion);
    AbsentFromBoth(n, "bn", 'm');
    ReplaceAbsent(t, "million", Million);
    ReplaceAfterNumber(n, "bn", Billion);
    AbsentFromBoth(n, Billion, 'm');
    ReplaceAbsent(s, "mn", Million);
  }

  /** The abbreviation `bn` is spelled out: `<number>bn` normalises to `<number> billion`. */
  lemma BnExample(n: string)
    requires IsNumber(n)
    ensures NormalizeText(Some(n + "bn")) == n + " billion"
  {
    FirstPassKeepsWord(n, "bn");
    SecondPassSteps(n + "bn");
    BnRewrites(n);
    BillionCollapse(n);
  }

  /** The rewrites of the second pass turn `<number>mn` into `<number> million `. */
  lemma MnRewrites(n: string)
    requires IsNumber(n)
    ensures ReplaceAll(ReplaceAll(ReplaceAll(ReplaceAll(n + "mn", "billion", Billion),
      "million", Million), "bn", Billion), "mn", Million) == n + Million
  {
    var t := n + "mn";
    NumberFacts(n);
    AbsentFromBoth(n, "mn", 'b');
    ReplaceAbsent(t, "billion", Billion);
    PairAbsentConcat(n, "mn", 'm', 'i');
    PairFree(t, 'm', 'i');
    ReplaceAbsentPair(t, "million", Million);
    ReplaceAbsent(t, "bn", Billion);
    ReplaceAfterNumber(n, "mn", Million);
  }

  /** The abbreviation `mn` is spelled out: `<number>mn` normalises to `<number> million`. */
  lemma MnExample(n: string)
    requires IsNumber(n)
    ensures NormalizeText(Some(n + "mn")) == n + " million"
  {
    FirstPassKeepsWord(n, "mn");
    SecondPassSteps(n + "mn");
    MnRewrites(n);
    MillionCollapse(n);
  }

  /** The spacing and letter facts of the currency text and its trimmed form. */
  lemma DollarText()
    ensures OnlySpaces(Usd) && PairAbsent(Usd, ' ', ' ') && 'b' !in Usd && 'm' !in Usd && '%' !in Usd
    ensures OnlySpaces("usd ") && PairAbsent("usd ", ' ', ' ') && 'b' !in "usd " && 'm' !in "usd "
  {
  }

  /** A number holds none of the characters the rewrites look for. */
  lemma NumberAvoids(n: string, c: char)
    requires IsNumber(n) && !('0' <= c <= '9')
    ensures c !in n
  {
  }

  /** The rewrites of the first pass on `$<number>`. */
  lemma DollarRewrites(n: string)
    requires IsNumber(n)
    ensures ReplaceAll(ReplaceAll(ReplaceAll(ReplaceAll(ReplaceAll(Lower("$" + n), ",", ""),
      "$", Usd), "%", Percent), "bps", BasisPoints), "bp", BasisPoints) == Usd + n
  {
    var t := "$" + n;
    var s3 := Usd + n;
    NumberFacts(n);
    DollarText();
    assert forall i :: 0 <= i < |t| ==> t[i] == if i < 1 then '$' else n[i - 1];
    LowerNoUpper(t);
    NumberAvoids(n, ',');
    ReplaceAbsent(t, ",", "");
    NumberAvoids(n, '$');
    ReplaceAbsent(n, "$", Usd);
    assert t[1..] == n;
    assert ReplaceAll(t, "$", Usd) == s3;
    NumberAvoids(n, '%');
    NumberAvoids(n, 'b');
    assert '%' !in s3 && 'b' !in s3;
    ReplaceAbsent(s3, "%", Percent);
    ReplaceAbsent(s3, "bps", BasisPoints);
    ReplaceAbsent(s3, "bp", BasisPoints);
  }

  /** The collapse and strip of the first pass on ` usd <number>`. */
  lemma DollarCollapse(n: string)
    requires IsNumber(n)
    ensures Strip(Collapse(Usd + n)) == "usd " + n
  {
    var s3 := Usd + n;
    var f := "usd " + n;
    NumberFacts(n);
    DollarText();
    SingleSpacedConcat(Usd, n);
    CollapseSingleSpaced(s3);
    assert s3 == [' '] + f;
    assert LStrip(s3) == LStrip(f);
    StripNothing(f);
  }

  /** The first pass on `$` followed by a number. */
  lemma FirstPassDollar(n: string)
    requires IsNumber(n)
    ensures FirstPass("$" + n) == "usd " + n
  {
    FirstPassSteps("$" + n);
    DollarRewrites(n);
    DollarCollapse(n);
  }

  /** `$` is spelled out: `$<number>` normalises to `usd <number>`. */
  lemma DollarExample(n: string)
    requires IsNumber(n)
    ensures NormalizeText(Some("$" + n)) == "usd " + n
  {
    var f := "usd " + n;
    FirstPassDollar(n);
    NumberFacts(n);
    DollarText();
    SingleSpacedConcat("usd ", n);
    NumberAvoids(n, 'b');
    NumberAvoids(n, 'm');
    assert 'm' !in f && 'b' !in f;
    SecondPassKeeps(f);
  }

  /** The spacing and letter facts of the percent text and its trimmed form. */
  lemma PercentText()
    ensures OnlySpaces(Percent) && PairAbsent(Percent, ' ', ' ') && 'b' !in Percent
    ensures OnlySpaces(" percent") && PairAbsent(" percent", ' ', ' ')
    ensures 'b' !in " percent" && 'm' !in " percent"
  {
  }

  /** The rewrites of the first pass on `<number>%`. */
  lemma PercentRewrites(n: string)
    requires IsNumber(n)
    ensures ReplaceAll(ReplaceAll(ReplaceAll(ReplaceAll(ReplaceAll(Lower(n + "%"), ",", ""),
      "$", Usd), "%", Percent), "bps", BasisPoints), "bp", BasisPoints) == n + Percent
  {
    var t := n + "%";
    var s3 := n + Percent;
    NumberFacts(n);
    PercentText();
    assert forall i :: 0 <= i < |t| ==> t[i] == if i < |n| then n[i] else '%';
    LowerNoUpper(t);
    ReplaceAbsent(t, ",", "");
    ReplaceAbsent(t, "$", Usd);
    ReplaceAfterNumber(n, "%", Percent);
    NumberAvoids(n, 'b');
    assert 'b' !in s3;
    ReplaceAbsent(s3, "bps", BasisPoints);
    ReplaceAbsent(s3, "bp", BasisPoints);
  }

  /** The collapse and strip of the first pass on `<number> percent `. */
  lemma PercentCollapse(n: string)
    requires IsNumber(n)
    ensures Strip(Collapse(n + Percent)) == n + " percent"
  {
    var s3 := n + Percent;
    var f := n + " percent";
    NumberFacts(n);
    PercentText();
    SingleSpacedConcat(n, Percent);
    CollapseSingleSpaced(s3);
    assert s3 == f + [' '];
    assert RStrip(s3) == RStrip(f);
    StripNothing(f);
  }

  /** The first pass on a number followed by `%`. */
  lemma FirstPassPercent(n: string)
    requires IsNumber(n)
    ensures FirstPass(n + "%") == n + " percent"
  {
    FirstPassSteps(n + "%");
    PercentRewrites(n);
    PercentCollapse(n);
  }

  /** `%` is spelled out: `<number>%` normalises to `<number> percent`. */
  lemma PercentExample(n: string)
    requires IsNumber(n)
    ensures NormalizeText(Some(n + "%")) == n + " percent"
  {
    var f := n + " percent";
    FirstPassPercent(n);
    NumberFacts(n);
    PercentText();
    SingleSpacedConcat(n, " percent");
    NumberAvoids(n, 'b');
    NumberAvoids(n, 'm');
    assert 'm' !in f && 'b' !in f;
    SecondPassKeeps(f);
  }

  /** The characters that no normalised text contains: separators, symbols and ASCII capitals. */
  predicate Excluded(c: char) {
    c == ',' || c == '$' || c == '%' || IsUpper(c)
  }

  /** `s` holds none of the excluded characters. */
  predicate Clean(s: string) {
    forall c :: c in s ==> !Excluded(c)
  }

  /** The replacement texts hold none of the excluded characters. */
  lemma ReplacementsClean()
    ensures Clean(Usd) && Clean(Percent) && Clean(BasisPoints) && Clean(Billion) && Clean(Million)
  {
  }

  lemma ReplaceKeepsClean(s: string, pat: string, rep: string)
    requires |pat| > 0 && Clean(s) && Clean(rep)
    ensures Clean(ReplaceAll(s, pat, rep))
  {
    ReplaceChars(s, pat, rep);
  }

  lemma CollapseStripKeepsClean(s: string)
    requires Clean(s)
    ensures Clean(Strip(Collapse(s)))
  {
    CollapseChars(s);
    StripChars(Collapse(s));
  }

  lemma FirstPassClean(t: string)
    ensures Clean(FirstPass(t))
  {
    FirstPassSteps(t);
    ReplacementsClean();
    var s1 := Lower(t);
    LowerFacts(t);
    var s2 := ReplaceAll(s1, ",", "");
    ReplaceDropsChar(s1, ',', "");
    var s3 := ReplaceAll(s2, "$", Usd);
    ReplaceDropsChar(s2, '$', Usd);
    assert forall c :: c in s3 ==> c != ',' && c != '$' && !IsUpper(c);
    var s4 := ReplaceAll(s3, "%", Percent);
    ReplaceDropsChar(s3, '%', Percent);
    assert Clean(s4);
    var s5 := ReplaceAll(s4, "bps", BasisPoints);
    ReplaceKeepsClean(s4, "bps", BasisPoints);
    var s6 := ReplaceAll(s5, "bp", BasisPoints);
    ReplaceKeepsClean(s5, "bp", BasisPoints);
    CollapseStripKeepsClean(s6);
  }

  lemma SecondPassClean(t: string)
    requires Clean(t)
    ensures Clean(SecondPass(t))
  {
    SecondPassSteps(t);
    ReplacementsClean();
    var s1 := ReplaceAll(t, "billion", Billion);
    ReplaceKeepsClean(t, "billion", Billion);
    var s2 := ReplaceAll(s1, "million", Million);
    ReplaceKeepsClean(s1, "million", Million);
    var s3 := ReplaceAll(s2, "bn", Billion);
    ReplaceKeepsClean(s2, "bn", Billion);
    var s4 := ReplaceAll(s3, "mn", Million);
    ReplaceKeepsClean(s3, "mn", Million);
    CollapseStripKeepsClean(s4);
  }

  /** The collapse and strip that end both passes keep `Clean` and fix the whitespace. */
  lemma FinalCollapseShape(s: string)
    requires Clean(s)
    ensures var r := Strip(Collapse(s));
      && Clean(r)
      && (|r| > 0 ==> !IsSpace(r[0]) && !IsSpace(r[|r| - 1]))
      && NoDoubleSpace(r)
      && (forall c :: c in r && IsSpace(c) ==> c == ' ')
  {
    CollapseNoDoubleSpace(s);
    StripKeepsNoDoubleSpace(Collapse(s));
    StripFacts(Collapse(s));
    CollapseChars(s);
    StripChars(Collapse(s));
  }

  /** What the second pass leaves: a clean, single-spaced, stripped text. */
  lemma SecondPassShape(f: string)
    requires Clean(f)
    ensures var r := SecondPass(f);
      && Clean(r)
      && (|r| > 0 ==> !IsSpace(r[0]) && !IsSpace(r[|r| - 1]))
      && NoDoubleSpace(r)
      && (forall c :: c in r && IsSpace(c) ==> c == ' ')
  {
    SecondPassSteps(f);
    SecondRewritesClean(f);
    FinalCollapseShape(ReplaceAll(ReplaceAll(ReplaceAll(ReplaceAll(
      f, "billion", Billion), "million", Million), "bn", Billion), "mn", Million));
  }

  /** The magnitude rewrites keep a clean text clean. */
  lemma SecondRewritesClean(f: string)
    requires Clean(f)
    ensures Clean(ReplaceAll(ReplaceAll(ReplaceAll(ReplaceAll(
      f, "billion", Billion), "million", Million), "bn", Billion), "mn", Million))
  {
    ReplacementsClean();
    var s1 := ReplaceAll(f, "billion", Billion);
    ReplaceKeepsClean(f, "billion", Billion);
    var s2 := ReplaceAll(s1, "million", Million);
    ReplaceKeepsClean(s1, "million", Million);
    var s3 := ReplaceAll(s2, "bn", Billion);
    ReplaceKeepsClean(s2, "bn", Billion);
    ReplaceKeepsClean(s3, "mn", Million);
  }

  /**
   * The shape of every normalised text: `Clean` (no `,`, `$` or `%`, no ASCII capital), no leading or
   * trailing whitespace, no run of two whitespace characters, and every whitespace a space.
   */
  lemma NormalizedShape(text: Option<string>)
    ensures var r := NormalizeText(text);
      && Clean(r)
      && (|r| > 0 ==> !IsSpace(r[0]) && !IsSpace(r[|r| - 1]))
      && NoDoubleSpace(r)
      && (forall c :: c in r && IsSpace(c) ==> c == ' ')
  {
    if text.Some? {
      FirstPassClean(text.value);
      SecondPassShape(FirstPass(text.value));
    }
  }

  /** Lower-casing and the rewrites of lines 8 to 12 leave no `bp` behind. */
  lemma FirstPassNoBp(t: string)
    ensures NoPair(FirstPass(t), 'b', 'p')
  {
    FirstPassSteps(t);
    var s5 := ReplaceAll(ReplaceAll(ReplaceAll(ReplaceAll(Lower(t), ",", ""), "$", Usd),
                "%", Percent), "bps", BasisPoints);
    var s6 := ReplaceAll(s5, "bp", BasisPoints);
    assert "bp" == ['b', 'p'];
    ReplaceRemovesPair(s5, 'b', 'p', BasisPoints);
    CollapseKeepsNoPair(s6, 'b', 'p');
    StripKeepsNoPair(Collapse(s6), 'b', 'p');
  }

  /** The padded magnitude words bring no `bp` into a text that has none. */
  lemma SecondPassNoBp(f: string)
    requires NoPair(f, 'b', 'p')
    ensures NoPair(SecondPass(f), 'b', 'p')
  {
    SecondPassSteps(f);
    var s1 := ReplaceAll(f, "billion", Billion);
    ReplaceKeepsNoPair(f, "billion", Billion, 'b', 'p');
    var s2 := ReplaceAll(s1, "million", Million);
    ReplaceKeepsNoPair(s1, "million", Million, 'b', 'p');
    var s3 := ReplaceAll(s2, "bn", Billion);
    ReplaceKeepsNoPair(s2, "bn", Billion, 'b', 'p');
    var s4 := ReplaceAll(s3, "mn", Million);
    ReplaceKeepsNoPair(s3, "mn", Million, 'b', 'p');
    CollapseKeepsNoPair(s4, 'b', 'p');
    StripKeepsNoPair(Collapse(s4), 'b', 'p');
  }

  /** Spelling out `bn` and then `mn` leaves no `bn`. */
  lemma LastRewritesNoBn(s2: string)
    ensures NoPair(Strip(Collapse(ReplaceAll(ReplaceAll(s2, "bn", Billion), "mn", Million))), 'b', 'n')
  {
    var s3 := ReplaceAll(s2, "bn", Billion);
    assert "bn" == ['b', 'n'];
    ReplaceRemovesPair(s2, 'b', 'n', Billion);
    var s4 := ReplaceAll(s3, "mn", Million);
    ReplaceKeepsNoPair(s3, "mn", Million, 'b', 'n');
    CollapseKeepsNoPair(s4, 'b', 'n');
    StripKeepsNoPair(Collapse(s4), 'b', 'n');
  }

  /** Spelling out `mn` last leaves no `mn`. */
  lemma LastRewriteNoMn(s3: string)
    ensures NoPair(Strip(Collapse(ReplaceAll(s3, "mn", Million))), 'm', 'n')
  {
    var s4 := ReplaceAll(s3, "mn", Million);
    assert "mn" == ['m', 'n'];
    ReplaceRemovesPair(s3, 'm', 'n', Million);
    CollapseKeepsNoPair(s4, 'm', 'n');
    StripKeepsNoPair(Collapse(s4), 'm', 'n');
  }

  /** The second pass leaves no `bn`, whatever its input. */
  lemma SecondPassNoBn(f: string)
    ensures NoPair(SecondPass(f), 'b', 'n')
  {
    SecondPassSteps(f);
    LastRewritesNoBn(ReplaceAll(ReplaceAll(f, "billion", Billion), "million", Million));
  }

  /** The second pass leaves no `mn`, whatever its input. */
  lemma SecondPassNoMn(f: string)
    ensures NoPair(SecondPass(f), 'm', 'n')
  {
    SecondPassSteps(f);
    LastRewriteNoMn(ReplaceAll(ReplaceAll(ReplaceAll(f, "billion", Billion), "million", Million), "bn", Billion));
  }

  /** None of `bp`, `bn`, `mn` survives normalisation, wherever it stood, even inside a word. */
  lemma NoUnitAbbreviations(text: Option<string>)
    ensures var r := NormalizeText(text);
      !Contains(r, "bp") && !Contains(r, "bn") && !Contains(r, "mn")
  {
    var r := NormalizeText(text);
    if text.Some? {
      FirstPassNoBp(text.value);
      SecondPassNoBp(FirstPass(text.value));
      SecondPassNoBn(FirstPass(text.value));
      SecondPassNoMn(FirstPass(text.value));
    }
    ContainsPair(r, 'b', 'p');
    ContainsPair(r, 'b', 'n');
    ContainsPair(r, 'm', 'n');
    assert "bp" == ['b', 'p'] && "bn" == ['b', 'n'] && "mn" == ['m', 'n'];
  }

  // ---- idempotence

  /** The magnitude words: space-free, neither inside the other, and padded by their replacements. */
  lemma MagnitudeWords()
    ensures SpaceFree("billion") && SpaceFree("million")
    ensures !Contains("billion", "million") && !Contains("million", "billion")
    ensures Billion == [' '] + "billion" + [' '] && Million == [' '] + "million" + [' ']
  {
    MagnitudeSpaceFree();
    MagnitudeDistinct();
    MagnitudePadding();
  }

  /** Neither magnitude word holds whitespace. */
  lemma MagnitudeSpaceFree()
    ensures SpaceFree("billion") && SpaceFree("million")
  {
  }

  /** The replacements of lines 14 and 15 are the words with one space on each side. */
  lemma MagnitudePadding()
    ensures Billion == [' '] + "billion" + [' '] && Million == [' '] + "million" + [' ']
  {
  }

  /** Neither magnitude word contains the other. */
  lemma MagnitudeDistinct()
    ensures !Contains("billion", "million") && !Contains("million", "billion")
  {
    SameLengthAbsent("billion", "million");
    SameLengthAbsent("million", "billion");
  }

  /**
   * The second pass leaves both magnitude words whole: every `billion` and `million` in its
   * output stands between whitespace or the ends of the text.
   */
  lemma SecondPassWholeWords(f: string)
    ensures WholeFrom(SecondPass(f), "billion", true) && WholeFrom(SecondPass(f), "million", true)
  {
    SecondPassSteps(f);
    MagnitudeWords();
    var s1 := ReplaceAll(f, "billion", Billion);
    ReplaceMakesWhole(f, "billion", true);
    var s2 := ReplaceAll(s1, "million", Million);
    ReplaceKeepsWhole(s1, "million", "million", "billion", true);
    ReplaceMakesWhole(s1, "million", true);
    var s3 := ReplaceAll(s2, "bn", Billion);
    ReplaceKeepsWhole(s2, "bn", "billion", "billion", true);
    ReplaceKeepsWhole(s2, "bn", "billion", "million", true);
    var s4 := ReplaceAll(s3, "mn", Million);
    ReplaceKeepsWhole(s3, "mn", "million", "billion", true);
    ReplaceKeepsWhole(s3, "mn", "million", "million", true);
    SqueezeKeepsWhole(s4, "billion");
    SqueezeKeepsWhole(s4, "million");
  }

  /** A stripped, single-spaced text with no excluded character and no `bp` passes the first pass unchanged. */
  lemma FirstPassFixes(y: string)
    requires Clean(y) && (|y| > 0 ==> !IsSpace(y[0]) && !IsSpace(y[|y| - 1]))
    requires NoDoubleSpace(y) && (forall c :: c in y && IsSpace(c) ==> c == ' ')
    requires NoPair(y, 'b', 'p')
    ensures FirstPass(y) == y
  {
    FirstPassSteps(y);
    FirstRewritesFix(y);
    SingleSpacedFixed(y);
  }

  /** Lower-casing and the rewrites of lines 8 to 12 change nothing in such a text. */
  lemma FirstRewritesFix(y: string)
    requires Clean(y) && NoPair(y, 'b', 'p')
    ensures ReplaceAll(ReplaceAll(ReplaceAll(ReplaceAll(ReplaceAll(
      Lower(y), ",", ""), "$", Usd), "%", Percent), "bps", BasisPoints), "bp", BasisPoints) == y
  {
    assert forall i :: 0 <= i < |y| ==> !IsUpper(y[i]) by {
      forall i | 0 <= i < |y| ensures !IsUpper(y[i]) { assert y[i] in y; }
    }
    LowerNoUpper(y);
    assert ',' !in y && '$' !in y && '%' !in y;
    ReplaceAbsent(y, ",", "");
    ReplaceAbsent(y, "$", Usd);
    ReplaceAbsent(y, "%", Percent);
    ReplaceAbsentPair(y, "bps", BasisPoints);
    ReplaceAbsentPair(y, "bp", BasisPoints);
  }

  /** A stripped text whose whitespace is lone spaces is its own collapse and strip. */
  lemma SingleSpacedFixed(y: string)
    requires (|y| > 0 ==> !IsSpace(y[0]) && !IsSpace(y[|y| - 1]))
    requires NoDoubleSpace(y) && (forall c :: c in y && IsSpace(c) ==> c == ' ')
    ensures Strip(Collapse(y)) == y
  {
    assert OnlySpaces(y) by {
      forall i | 0 <= i < |y| && IsSpace(y[i]) ensures y[i] == ' ' { assert y[i] in y; }
    }
    assert PairAbsent(y, ' ', ' ') by {
      forall i | 0 <= i < |y| - 1 ensures y[i] != ' ' || y[i + 1] != ' ' {
        assert !(IsSpace(y[i]) && IsSpace(y[i + 1]));
      }
    }
    CollapseSingleSpaced(y);
    if |y| > 0 {
      StripNothing(y);
    }
  }

  /**
   * A stripped, single-spaced text with no `bn` or `mn`, in which both magnitude words are
   * whole, passes the second pass unchanged: padding a whole word only adds spaces that the
   * final collapse and strip remove again.
   */
  lemma SecondPassFixes(y: string)
    requires (|y| > 0 ==> !IsSpace(y[0]) && !IsSpace(y[|y| - 1]))
    requires NoDoubleSpace(y) && (forall c :: c in y && IsSpace(c) ==> c == ' ')
    requires NoPair(y, 'b', 'n') && NoPair(y, 'm', 'n')
    requires WholeFrom(y, "billion", true) && WholeFrom(y, "million", true)
    ensures SecondPass(y) == y
  {
    SecondPassSteps(y);
    SecondRewritesSqueeze(y);
    SingleSpacedFixed(y);
  }

  /** The magnitude rewrites of such a text vanish under the final collapse and strip. */
  lemma SecondRewritesSqueeze(y: string)
    requires NoPair(y, 'b', 'n') && NoPair(y, 'm', 'n')
    requires WholeFrom(y, "billion", true) && WholeFrom(y, "million", true)
    ensures Strip(Collapse(ReplaceAll(ReplaceAll(ReplaceAll(ReplaceAll(
      y, "billion", Billion), "million", Million), "bn", Billion), "mn", Million))) == Strip(Collapse(y))
  {
    var s1 := ReplaceAll(y, "billion", Billion);
    var s2 := ReplaceAll(s1, "million", Million);
    MagnitudePadSqueeze(y);
    MagnitudeNoPairs(y);
    ReplaceAbsentPair(s2, "bn", Billion);
    ReplaceAbsentPair(s2, "mn", Million);
  }

  /** Padding both whole magnitude words vanishes under the collapse and strip. */
  lemma MagnitudePadSqueeze(y: string)
    requires WholeFrom(y, "billion", true) && WholeFrom(y, "million", true)
    ensures Strip(Collapse(ReplaceAll(ReplaceAll(y, "billion", Billion), "million", Million)))
      == Strip(Collapse(y))
  {
    MagnitudeWords();
    var s1 := ReplaceAll(y, "billion", Billion);
    ReplacePadSqueeze([], y, "billion", true);
    ReplaceKeepsWhole(y, "billion", "billion", "million", true);
    var s2 := ReplaceAll(s1, "million", Million);
    ReplacePadSqueeze([], s1, "million", true);
    assert [] + s1 == s1 && [] + s2 == s2 && [] + y == y;
  }

  /** Padding the magnitude words brings in no `bn` and no `mn`. */
  lemma MagnitudeNoPairs(y: string)
    requires NoPair(y, 'b', 'n') && NoPair(y, 'm', 'n')
    ensures var s2 := ReplaceAll(ReplaceAll(y, "billion", Billion), "million", Million);
      NoPair(s2, 'b', 'n') && NoPair(s2, 'm', 'n')
  {
    BillionText();
    MillionText();
    assert PairAbsent(Billion, 'm', 'n') && PairAbsent(Million, 'b', 'n');
    var s1 := ReplaceAll(y, "billion", Billion);
    ReplaceKeepsNoPair(y, "billion", Billion, 'b', 'n');
    ReplaceKeepsNoPair(s1, "million", Million, 'b', 'n');
    ReplaceKeepsNoPair(y, "billion", Billion, 'm', 'n');
    ReplaceKeepsNoPair(s1, "million", Million, 'm', 'n');
  }

  /**
   * Normalisation is idempotent: normalising a normalised text changes nothing. This holds
   * for every input, `None` included.
   */
  lemma NormalizeIdempotent(text: Option<string>)
    ensures NormalizeText(Some(NormalizeText(text))) == NormalizeText(text)
  {
    var y := NormalizeText(text);
    NormalizedShape(text);
    NoUnitAbbreviations(text);
    ContainsPair(y, 'b', 'p');
    ContainsPair(y, 'b', 'n');
    ContainsPair(y, 'm', 'n');
    assert "bp" == ['b', 'p'] && "bn" == ['b', 'n'] && "mn" == ['m', 'n'];
    if text.Some? {
      SecondPassWholeWords(FirstPass(text.value));
    } else {
      WholeAbsent(y, "billion", true);
      WholeAbsent(y, "million", true);
    }
    FirstPassFixes(y);
    SecondPassFixes(y);
  }
}
