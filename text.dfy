/** The string operations of JavaScript and Java that the modelled code uses,
    written out on `seq<char>`: case mapping, `trim`, `includes`/`contains`,
    `indexOf`, `replace` (every occurrence), `join`, `split`, number
    formatting and `parseInt`. */
module Text {
  import opened Wrappers

  predicate IsUpper(c: char) { 'A' <= c <= 'Z' }

  predicate IsLowerLetter(c: char) { 'a' <= c <= 'z' }

  predicate IsDigit(c: char) { '0' <= c <= '9' }

  predicate AllDigits(s: string) { forall i :: 0 <= i < |s| ==> IsDigit(s[i]) }

  /** True when some character of `s` is a decimal digit (the regular expression `/\d+/`). */
  predicate HasDigit(s: string) { exists i :: 0 <= i < |s| && IsDigit(s[i]) }

  // ---------------------------------------------------------------------------
  // Case mapping (`toLowerCase`), on the ASCII letters.

  function LowerChar(c: char): (r: char)
    ensures !IsUpper(r)
    ensures IsUpper(c) || r == c
    ensures IsLowerLetter(r) <==> IsLowerLetter(c) || IsUpper(c)
  {
    if IsUpper(c) then (c as int - 'A' as int + 'a' as int) as char else c
  }

  function Lower(s: string): (r: string)
    ensures |r| == |s|
    ensures forall i :: 0 <= i < |s| ==> r[i] == LowerChar(s[i])
  {
    if s == [] then [] else [LowerChar(s[0])] + Lower(s[1..])
  }

  /** A string without capitals is its own lower-cased form. */
  lemma LowerSelf(s: string)
    requires forall i :: 0 <= i < |s| ==> !IsUpper(s[i])
    ensures Lower(s) == s
  {
  }

  lemma LowerAppend(a: string, b: string)
    ensures Lower(a + b) == Lower(a) + Lower(b)
  {
    assert forall i :: 0 <= i < |a + b| ==> Lower(a + b)[i] == (Lower(a) + Lower(b))[i];
  }

  // ---------------------------------------------------------------------------
  // `trim`: the WhiteSpace and LineTerminator characters of ECMA-262.

  predicate IsJsSpace(c: char) {
    || c == '\t' || c == '\n' || c == '\U{B}' || c == '\U{C}' || c == '\r' || c == ' '
    || c == '\U{A0}' || c == '\U{1680}' || ('\U{2000}' <= c <= '\U{200A}')
    || c == '\U{2028}' || c == '\U{2029}' || c == '\U{202F}' || c == '\U{205F}'
    || c == '\U{3000}' || c == '\U{FEFF}'
  }

  function TrimStart(s: string): (r: string)
    ensures |r| <= |s| && r == s[|s| - |r|..]
    ensures r == [] || !IsJsSpace(r[0])
    ensures forall i :: 0 <= i < |s| - |r| ==> IsJsSpace(s[i])
  {
    if s != [] && IsJsSpace(s[0]) then TrimStart(s[1..]) else s
  }

  function TrimEnd(s: string): (r: string)
    ensures |r| <= |s| && r == s[..|r|]
    ensures r == [] || !IsJsSpace(r[|r| - 1])
    ensures forall i :: |r| <= i < |s| ==> IsJsSpace(s[i])
  {
    if s != [] && IsJsSpace(s[|s| - 1]) then TrimEnd(s[..|s| - 1]) else s
  }

  function Trim(s: string): (r: string)
    ensures |r| <= |s|
    ensures r == [] || (!IsJsSpace(r[0]) && !IsJsSpace(r[|r| - 1]))
  {
    TrimEnd(TrimStart(s))
  }

  /** A string that does not start with white space keeps its first character under `trim`. */
  lemma TrimKeepsFirst(s: string)
    requires s != [] && !IsJsSpace(s[0])
    ensures Trim(s) != [] && Trim(s)[0] == s[0]
  {
    assert TrimStart(s) == s;
  }

  /** A string that neither starts nor ends with white space is its own `trim`. */
  lemma TrimIdentity(s: string)
    requires s != [] && !IsJsSpace(s[0]) && !IsJsSpace(s[|s| - 1])
    ensures Trim(s) == s
  {
    assert TrimStart(s) == s;
  }

  // ---------------------------------------------------------------------------
  // Substrings: `includes`, `contains`, `indexOf`.

  predicate StartsWithAt(s: string, p: string, i: nat) {
    i + |p| <= |s| && s[i..i + |p|] == p
  }

  predicate Contains(s: string, p: string) {
    exists i :: 0 <= i <= |s| - |p| && StartsWithAt(s, p, i)
  }

  /** Looking for a one-character string is looking for that character. */
  lemma ContainsChar(s: string, c: char)
    ensures Contains(s, [c]) <==> c in s
  {
    if c in s {
      var i :| 0 <= i < |s| && s[i] == c;
      assert StartsWithAt(s, [c], i);
    }
    if Contains(s, [c]) {
      var i :| 0 <= i <= |s| - 1 && StartsWithAt(s, [c], i);
      assert s[i] == s[i..i + 1][0] == c;
    }
  }

  /** Some word of `words` occurs in `text` (`words.some(w => text.includes(w))`). */
  predicate ContainsAny(text: string, words: seq<string>) {
    words != [] && (Contains(text, words[0]) || ContainsAny(text, words[1..]))
  }

  lemma {:induction false} ContainsAnyExists(text: string, words: seq<string>)
    ensures ContainsAny(text, words) <==> exists j :: 0 <= j < |words| && Contains(text, words[j])
  {
    if words != [] {
      ContainsAnyExists(text, words[1..]);
      if exists j :: 0 <= j < |words| && Contains(text, words[j]) {
        var j :| 0 <= j < |words| && Contains(text, words[j]);
        if j > 0 {
          assert words[1..][j - 1] == words[j];
        }
      }
      if ContainsAny(text, words[1..]) {
        var j :| 0 <= j < |words| - 1 && Contains(text, words[1..][j]);
        assert words[j + 1] == words[1..][j];
      }
    }
  }

  /** Java's `s.indexOf(p, from)`: the first match at or after `from`, or -1. */
  function IndexFrom(s: string, p: string, from: nat): (r: int)
    ensures r == -1 || (from <= r && StartsWithAt(s, p, r))
    decreases |s| - from
  {
    if from + |p| > |s| then -1
    else if StartsWithAt(s, p, from) then from
    else IndexFrom(s, p, from + 1)
  }

  /** No match lies between `from` and the one found, and none at all when
      -1 is returned. */
  lemma {:induction false} IndexFromFirst(s: string, p: string, from: nat)
    ensures IndexFrom(s, p, from) == -1 ==> forall i: nat :: from <= i ==> !StartsWithAt(s, p, i)
    ensures IndexFrom(s, p, from) != -1 ==> forall i: nat :: from <= i < IndexFrom(s, p, from) ==> !StartsWithAt(s, p, i)
    decreases |s| - from
  {
    if from + |p| <= |s| && !StartsWithAt(s, p, from) {
      IndexFromFirst(s, p, from + 1);
    }
  }

  /** The first match at or after `from` is at `r`. */
  lemma {:induction false} IndexFromAt(s: string, p: string, from: nat, r: nat)
    requires from <= r && StartsWithAt(s, p, r)
    requires forall i: nat :: from <= i < r ==> !StartsWithAt(s, p, i)
    ensures IndexFrom(s, p, from) == r
    decreases r - from
  {
    if from < r {
      IndexFromAt(s, p, from + 1, r);
    }
  }

  /** A text that holds `p + q` holds `p`. */
  lemma ContainsPrefix(s: string, p: string, q: string)
    requires Contains(s, p + q)
    ensures Contains(s, p)
  {
    var i :| 0 <= i <= |s| - |p + q| && StartsWithAt(s, p + q, i);
    assert s[i..i + |p|] == (p + q)[..|p|] == p;
    assert StartsWithAt(s, p, i);
  }

  lemma IndexFromContains(s: string, p: string)
    ensures Contains(s, p) <==> IndexFrom(s, p, 0) >= 0
  {
    var r := IndexFrom(s, p, 0);
    IndexFromFirst(s, p, 0);
    if r >= 0 {
      assert StartsWithAt(s, p, r);
    }
  }

  /** Java's `String.replace(p, v)` (and JavaScript's `replaceAll`): every
      occurrence of `p`, found left to right without overlap, becomes `v`.
      Every caller passes a non-empty literal for `p`. */
  function ReplaceAll(s: string, p: string, v: string): string
    requires p != []
    decreases |s|
  {
    if |s| < |p| then s
    else if s[..|p|] == p then v + ReplaceAll(s[|p|..], p, v)
    else [s[0]] + ReplaceAll(s[1..], p, v)
  }

  /** A text without the pattern is left as it is. */
  lemma {:induction false} ReplaceAllAbsent(s: string, p: string, v: string)
    requires p != [] && !Contains(s, p)
    ensures ReplaceAll(s, p, v) == s
    decreases |s|
  {
    if |s| >= |p| {
      assert !StartsWithAt(s, p, 0);
      assert !Contains(s[1..], p) by {
        if Contains(s[1..], p) {
          var i :| 0 <= i <= |s[1..]| - |p| && StartsWithAt(s[1..], p, i);
          assert StartsWithAt(s, p, i + 1);
        }
      }
      ReplaceAllAbsent(s[1..], p, v);
      assert [s[0]] + s[1..] == s;
    }
  }

  /** No match starts before the pattern after `a`, nor after `a`'s first
      character. */
  lemma NoEarlierMatchTail(a: string, p: string)
    requires a != [] && forall i :: 0 <= i < |a| ==> !StartsWithAt(a + p, p, i)
    ensures forall i :: 0 <= i < |a[1..]| ==> !StartsWithAt(a[1..] + p, p, i)
  {
    forall i | 0 <= i < |a[1..]|
      ensures !StartsWithAt(a[1..] + p, p, i)
    {
      assert !StartsWithAt(a + p, p, i + 1);
      assert (a + p)[1..] == a[1..] + p;
      assert (a + p)[i + 1..i + 1 + |p|] == (a + p)[1..][i..i + |p|];
    }
  }

  /** An occurrence that starts no earlier match is replaced, and the text
      before it is kept. */
  lemma {:induction false} ReplaceAllSplice(a: string, p: string, v: string, rest: string)
    requires p != []
    requires forall i :: 0 <= i < |a| ==> !StartsWithAt(a + p, p, i)
    ensures ReplaceAll(a + p + rest, p, v) == a + v + ReplaceAll(rest, p, v)
  {
    var s := a + p + rest;
    if a == [] {
      assert s == p + rest && s[..|p|] == p && s[|p|..] == rest;
    } else {
      var t := ReplaceAll(rest, p, v);
      assert s[..|p|] != p by {
        assert !StartsWithAt(a + p, p, 0);
        assert s[..|p|] == (a + p)[..|p|];
      }
      NoEarlierMatchTail(a, p);
      calc {
        ReplaceAll(s, p, v);
        [s[0]] + ReplaceAll(s[1..], p, v);
        { assert s[1..] == a[1..] + p + rest;
          ReplaceAllSplice(a[1..], p, v, rest); }
        [a[0]] + (a[1..] + v + t);
        { assert [a[0]] + a[1..] == a; }
        a + v + t;
      }
    }
  }

  /** Every occurrence of the character `c` becomes `v`, character by character. */
  function ReplaceChar(s: string, c: char, v: string): (r: string)
    ensures c !in s ==> r == s
  {
    if s == [] then [] else (if s[0] == c then v else [s[0]]) + ReplaceChar(s[1..], c, v)
  }

  /** Replacing a one-character pattern is replacing that character. */
  lemma {:induction false} ReplaceAllChar(s: string, c: char, v: string)
    ensures ReplaceAll(s, [c], v) == ReplaceChar(s, c, v)
  {
    if s != [] {
      ReplaceAllChar(s[1..], c, v);
    }
  }

  // ---------------------------------------------------------------------------
  // `join` and `split`.

  /** Every character `x` of `s` becomes `f(x)`. */
  function Expand(s: string, f: char -> string): string {
    if s == [] then [] else f(s[0]) + Expand(s[1..], f)
  }

  /** A step that keeps every character of `s` keeps `s`. */
  lemma {:induction false} ExpandKeeps(s: string, f: char -> string)
    requires forall i :: 0 <= i < |s| ==> f(s[i]) == [s[i]]
    ensures Expand(s, f) == s
  {
    if s != [] {
      ExpandKeeps(s[1..], f);
      assert [s[0]] + s[1..] == s;
    }
  }

  lemma {:induction false} ExpandAppend(a: string, b: string, f: char -> string)
    ensures Expand(a + b, f) == Expand(a, f) + Expand(b, f)
  {
    if a == [] {
      assert a + b == b;
    } else {
      assert (a + b)[1..] == a[1..] + b;
      ExpandAppend(a[1..], b, f);
    }
  }

  lemma ExpandSingle(x: char, f: char -> string)
    ensures Expand([x], f) == f(x)
  {
    assert [x][1..] == [];
  }

  /** Expanding twice is expanding once by the composed step. */
  lemma {:induction false} ExpandThen(s: string, f: char -> string, g: char -> string, h: char -> string)
    requires forall x :: Expand(f(x), g) == h(x)
    ensures Expand(Expand(s, f), g) == Expand(s, h)
  {
    if s != [] {
      ExpandThen(s[1..], f, g, h);
      ExpandAppend(f(s[0]), Expand(s[1..], f), g);
    }
  }

  /** The step that replaces the character `c` by `v`. */
  function Sub(c: char, v: string): char -> string {
    x => if x == c then v else [x]
  }

  /** Replacing a character is expanding by `Sub`. */
  lemma {:induction false} ReplaceCharExpand(s: string, c: char, v: string)
    ensures ReplaceChar(s, c, v) == Expand(s, Sub(c, v))
  {
    if s != [] {
      ReplaceCharExpand(s[1..], c, v);
    }
  }

  function Join(sep: string, parts: seq<string>): string {
    if |parts| == 0 then ""
    else if |parts| == 1 then parts[0]
    else parts[0] + sep + Join(sep, parts[1..])
  }

  function Concat(parts: seq<string>): string {
    if parts == [] then "" else parts[0] + Concat(parts[1..])
  }

  lemma ConcatAppend(a: seq<string>, b: seq<string>)
    ensures Concat(a + b) == Concat(a) + Concat(b)
  {
    if a == [] {
      assert a + b == b;
    } else {
      assert (a + b)[1..] == a[1..] + b;
      ConcatAppend(a[1..], b);
    }
  }

  /** JavaScript's `s.split(d)` for a one-character separator. */
  function Split(s: string, d: char): (r: seq<string>)
    ensures |r| >= 1
    ensures forall k :: 0 <= k < |r| ==> d !in r[k]
  {
    if s == [] then [""]
    else
      var rest := Split(s[1..], d);
      if s[0] == d then [""] + rest else [[s[0]] + rest[0]] + rest[1..]
  }

  /** Splitting and joining again with the same separator gives back the input. */
  lemma {:induction false} JoinSplit(s: string, d: char)
    ensures Join([d], Split(s, d)) == s
  {
    if s != [] {
      var rest := Split(s[1..], d);
      JoinSplit(s[1..], d);
      if s[0] == d {
        assert Split(s, d) == [""] + rest;
        assert ([""] + rest)[1..] == rest;
      } else if |rest| == 1 {
        assert Split(s, d) == [[s[0]] + rest[0]];
      } else {
        assert Split(s, d) == [[s[0]] + rest[0]] + rest[1..];
        assert ([[s[0]] + rest[0]] + rest[1..])[1..] == rest[1..];
      }
    }
  }

  /** A string without the separator is a single piece. */
  lemma {:induction false} SplitNone(s: string, d: char)
    requires d !in s
    ensures Split(s, d) == [s]
  {
    if s != [] {
      assert d !in s[1..];
      SplitNone(s[1..], d);
      assert [s[0]] + s[1..] == s;
    }
  }

  /** Splitting a text with one more character in front. */
  lemma SplitCons(c: char, s: string, d: char)
    ensures Split([c] + s, d)
         == if c == d then [""] + Split(s, d) else [[c] + Split(s, d)[0]] + Split(s, d)[1..]
  {
    assert ([c] + s)[1..] == s;
  }

  /** The text before the first separator is the first piece, and the text
      after it is split on its own. */
  lemma {:induction false} SplitFirst(a: string, b: string, d: char)
    requires d !in a
    ensures Split(a + [d] + b, d) == [a] + Split(b, d)
  {
    if a == [] {
      assert a + [d] + b == [d] + b;
      SplitCons(d, b, d);
    } else {
      var c, a' := a[0], a[1..];
      var t := a' + [d] + b;
      assert d !in a';
      SplitFirst(a', b, d);
      assert a + [d] + b == [c] + t;
      SplitCons(c, t, d);
      assert [c] + a' == a;
    }
  }

  /** A string holding the separator splits into at least two pieces. */
  lemma {:induction false} SplitSeparated(s: string, d: char)
    requires d in s
    ensures |Split(s, d)| >= 2
  {
    assert s == [s[0]] + s[1..];
    SplitCons(s[0], s[1..], d);
    if s[0] != d {
      SplitSeparated(s[1..], d);
    }
  }

  /** Three separator-free pieces joined by the separator split back apart. */
  lemma SplitThree(a: string, b: string, c: string, d: char)
    requires d !in a && d !in b && d !in c
    ensures Split(a + [d] + b + [d] + c, d) == [a, b, c]
  {
    SplitNone(c, d);
    SplitFirst(b, c, d);
    assert a + [d] + b + [d] + c == a + [d] + (b + [d] + c);
    SplitFirst(a, b + [d] + c, d);
  }

  /** Two strings that begin differently stay different whatever follows them. */
  lemma DifferentPrefix(a: string, b: string, x: string, y: string)
    requires |a| == |b| && a != b
    ensures a + x != b + y
  {
    var i :| 0 <= i < |a| && a[i] != b[i];
    assert (a + x)[i] == a[i];
    assert (b + y)[i] == b[i];
  }

  // ---------------------------------------------------------------------------
  // Decimal numbers: template-literal formatting of a non-negative integer
  // and `parseInt`.

  function DigitChar(d: nat): (c: char)
    requires d < 10
    ensures IsDigit(c)
  {
    ('0' as int + d) as char
  }

  function DigitValue(c: char): nat
    requires IsDigit(c)
  {
    c as int - '0' as int
  }

  function NatToString(n: nat): (r: string)
    ensures |r| >= 1 && AllDigits(r)
    decreases n
  {
    if n < 10 then [DigitChar(n)] else NatToString(n / 10) + [DigitChar(n % 10)]
  }

  function DigitsValue(s: string): nat
    requires AllDigits(s)
    decreases |s|
  {
    if s == [] then 0 else DigitsValue(s[..|s| - 1]) * 10 + DigitValue(s[|s| - 1])
  }

  /** Reading back the digits of a formatted number gives the number. */
  lemma {:induction false} NatToStringValue(n: nat)
    ensures DigitsValue(NatToString(n)) == n
    decreases n
  {
    var s := NatToString(n);
    if n >= 10 {
      assert s[..|s| - 1] == NatToString(n / 10);
      NatToStringValue(n / 10);
    } else {
      assert s[..|s| - 1] == [];
    }
  }

  /** Different numbers format differently. */
  lemma NatToStringInjective(m: nat, n: nat)
    requires NatToString(m) == NatToString(n)
    ensures m == n
  {
    NatToStringValue(m);
    NatToStringValue(n);
  }

  function LeadingDigits(s: string): (r: string)
    ensures |r| <= |s| && r == s[..|r|] && AllDigits(r)
    ensures |r| == |s| || !IsDigit(s[|r|])
  {
    if s != [] && IsDigit(s[0]) then [s[0]] + LeadingDigits(s[1..]) else []
  }

  predicate IsHexDigit(c: char) { IsDigit(c) || 'a' <= c <= 'f' || 'A' <= c <= 'F' }

  function HexDigitValue(c: char): nat
    requires IsHexDigit(c)
  {
    if IsDigit(c) then DigitValue(c)
    else if 'a' <= c <= 'f' then c as int - 'a' as int + 10
    else c as int - 'A' as int + 10
  }

  function LeadingHexDigits(s: string): (r: string)
    ensures |r| <= |s| && r == s[..|r|]
    ensures forall i :: 0 <= i < |r| ==> IsHexDigit(r[i])
  {
    if s != [] && IsHexDigit(s[0]) then [s[0]] + LeadingHexDigits(s[1..]) else []
  }

  function HexValue(s: string): nat
    requires forall i :: 0 <= i < |s| ==> IsHexDigit(s[i])
    decreases |s|
  {
    if s == [] then 0 else HexValue(s[..|s| - 1]) * 16 + HexDigitValue(s[|s| - 1])
  }

  /** JavaScript's `parseInt(s)` with no radix, for strings without a minus
      sign (every caller passes a piece of a string split on '-'): leading
      white space and a '+' are skipped, "0x"/"0X" selects hexadecimal, and
      the longest run of digits is read; no digit at all gives NaN (`None`). */
  function ParseInt(s: string): (r: Option<nat>)
    requires '-' !in s
  {
    var t := TrimStart(s);
    var u := if t != [] && t[0] == '+' then t[1..] else t;
    if |u| >= 2 && u[0] == '0' && (u[1] == 'x' || u[1] == 'X') then
      var h := LeadingHexDigits(u[2..]);
      if h == [] then None else Some(HexValue(h))
    else
      var d := LeadingDigits(u);
      if d == [] then None else Some(DigitsValue(d))
  }

  /** `parseInt` reads back every number that a template literal printed. */
  lemma ParseIntNatToString(n: nat)
    ensures '-' !in NatToString(n)
    ensures ParseInt(NatToString(n)) == Some(n)
  {
    var s := NatToString(n);
    assert !IsJsSpace(s[0]);
    assert TrimStart(s) == s;
    assert s[0] != '+';
    assert LeadingDigits(s) == s;
    NatToStringValue(n);
  }
}
