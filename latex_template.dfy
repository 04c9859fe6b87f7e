/** The LaTeX template service: escaping of user content, placeholder
    replacement, and the expansion of `{{#section}}…{{/section}}` blocks once
    per list item. Loading templates from the classpath is not modelled; a
    template is a parameter. */
module LatexTemplate {
  import opened Wrappers
  import opened Text
  import opened Model

  // ---------------------------------------------------------------------------
  // Escaping (`escapeLatex`).

  /** The command a backslash is written as, before its braces. */
  const TextBackslash: string := "\\textbackslash"

  /** The seven replacements of `escapeLatex`, in order: step `k` (0 to 6)
      replaces the character `StepChar(k)` by `StepValue(k)` — a backslash by
      `\textbackslash{}` first, then `&`, `%`, `#`, `_`, `{` and `}` each by
      itself with a backslash in front. */
  function StepChar(k: nat): char {
    if k == 0 then '\\' else if k == 1 then '&' else if k == 2 then '%' else if k == 3 then '#'
    else if k == 4 then '_' else if k == 5 then '{' else '}'
  }

  function StepValue(k: nat): string {
    if k == 0 then TextBackslash + "{}" else ['\\', StepChar(k)]
  }

  /** The text after the first `k` replacements. */
  function EscapeUpTo(s: string, k: nat): string
    requires k <= 7
  {
    if k == 0 then s else ReplaceAll(EscapeUpTo(s, k - 1), [StepChar(k - 1)], StepValue(k - 1))
  }

  /** `escapeLatex`: null is ""; otherwise the seven replacements in turn. */
  function EscapeLatex(s: Option<string>): (r: string)
    ensures s.None? ==> r == ""
  {
    match s
    case None => ""
    case Some(v) => EscapeUpTo(v, 7)
  }

  /** The position (1 to 7) of a character in the replacement chain, 0 for any
      other character. */
  function SpecialIndex(c: char): nat {
    match c
    case '\\' => 1
    case '&' => 2
    case '%' => 3
    case '#' => 4
    case '_' => 5
    case '{' => 6
    case '}' => 7
    case _ => 0
  }

  predicate IsSpecial(c: char) { SpecialIndex(c) != 0 }

  /** What a single character has become after the first `k` replacements. */
  function Stage(k: nat, c: char): string {
    if c == '\\' then
      if k == 0 then "\\" else if k <= 5 then TextBackslash + "{}" else if k == 6 then TextBackslash + "\\{}"
      else TextBackslash + "\\{\\}"
    else if 0 < SpecialIndex(c) <= k then ['\\', c]
    else [c]
  }

  /** How each character is escaped, independently of the chain: a backslash
      becomes `\textbackslash\{\}`, the other six specials get a backslash in
      front, everything else stays. */
  function EscapeChar(c: char): (r: string)
    ensures r != [] && r[0] !in "{}"
  {
    if c == '\\' then TextBackslash + "\\{\\}" else if IsSpecial(c) then ['\\', c] else [c]
  }

  /** Expanding by `Sub(c, v)` leaves a text without `c` as it is. */
  lemma SubAbsent(s: string, c: char, v: string)
    requires c !in s
    ensures Expand(s, Sub(c, v)) == s
  {
    assert forall i :: 0 <= i < |s| ==> s[i] != c;
    ExpandKeeps(s, Sub(c, v));
  }

  lemma SubSingle(x: char, c: char, v: string)
    ensures Expand([x], Sub(c, v)) == if x == c then v else [x]
  {
    assert [x][1..] == [];
  }

  /** Steps 6 and 7 of the chain meet the braces that step 1 wrote for a
      backslash: a brace after a text without it gains a backslash. */
  lemma BraceAfter(pre: string, brace: char, post: string)
    requires brace !in pre && brace !in post
    ensures Expand(pre + [brace] + post, Sub(brace, ['\\', brace])) == pre + ['\\', brace] + post
  {
    var f := Sub(brace, ['\\', brace]);
    ExpandAppend(pre + [brace], post, f);
    ExpandAppend(pre, [brace], f);
    SubAbsent(pre, brace, ['\\', brace]);
    SubAbsent(post, brace, ['\\', brace]);
    SubSingle(brace, brace, ['\\', brace]);
  }

  lemma StageStepBackslash(k: nat)
    requires k < 7
    ensures Expand(Stage(k, '\\'), Sub(StepChar(k), StepValue(k))) == Stage(k + 1, '\\')
  {
    if k == 0 {
      SubSingle('\\', '\\', TextBackslash + "{}");
    } else if k <= 4 {
      SubAbsent(TextBackslash + "{}", StepChar(k), StepValue(k));
    } else if k == 5 {
      BraceAfter(TextBackslash, '{', "}");
      assert TextBackslash + "{}" == TextBackslash + ['{'] + "}";
      assert TextBackslash + ['\\', '{'] + "}" == TextBackslash + "\\{}";
    } else {
      BraceAfter(TextBackslash + "\\{", '}', "");
      assert TextBackslash + "\\{}" == TextBackslash + "\\{" + ['}'] + "";
      assert TextBackslash + "\\{" + ['\\', '}'] + "" == TextBackslash + "\\{\\}";
    }
  }

  lemma StageStepOther(k: nat, c: char)
    requires k < 7 && c != '\\'
    ensures Expand(Stage(k, c), Sub(StepChar(k), StepValue(k))) == Stage(k + 1, c)
  {
    var t := Stage(k, c);
    if |t| == 1 {
      SubSingle(c, StepChar(k), StepValue(k));
    } else {
      SubAbsent(t, StepChar(k), StepValue(k));
    }
  }

  lemma StageStep(k: nat, c: char)
    requires k < 7
    ensures Expand(Stage(k, c), Sub(StepChar(k), StepValue(k))) == Stage(k + 1, c)
  {
    if c == '\\' { StageStepBackslash(k); } else { StageStepOther(k, c); }
  }

  lemma {:induction false} ChainStep(s: string, k: nat)
    requires k < 7
    ensures ReplaceAll(Expand(s, c => Stage(k, c)), [StepChar(k)], StepValue(k)) == Expand(s, c => Stage(k + 1, c))
  {
    var e := Expand(s, c => Stage(k, c));
    ReplaceAllChar(e, StepChar(k), StepValue(k));
    ReplaceCharExpand(e, StepChar(k), StepValue(k));
    forall x { StageStep(k, x); }
    ExpandThen(s, c => Stage(k, c), Sub(StepChar(k), StepValue(k)), c => Stage(k + 1, c));
  }

  /** After `k` replacements each character stands at its stage `k`. */
  lemma {:induction false} EscapeStages(s: string, k: nat)
    requires k <= 7
    ensures EscapeUpTo(s, k) == Expand(s, c => Stage(k, c))
  {
    if k == 0 {
      ExpandKeeps(s, c => Stage(0, c));
    } else {
      EscapeStages(s, k - 1);
      ChainStep(s, k - 1);
    }
  }

  /** The chain of replacements escapes character by character. */
  lemma EscapeLatexPerChar(s: string)
    ensures EscapeLatex(Some(s)) == Expand(s, EscapeChar)
  {
    EscapeStages(s, 7);
    forall x ensures Stage(7, x) == EscapeChar(x) {}
    ExpandSame(s, c => Stage(7, c), EscapeChar);
  }

  lemma {:induction false} ExpandSame(s: string, f: char -> string, g: char -> string)
    requires forall x :: f(x) == g(x)
    ensures Expand(s, f) == Expand(s, g)
  {
    if s != [] {
      ExpandSame(s[1..], f, g);
    }
  }

  /** Every brace is preceded by a backslash. */
  predicate BracesEscaped(r: string) {
    forall i :: 0 <= i < |r| && (r[i] == '{' || r[i] == '}') ==> 0 < i && r[i - 1] == '\\'
  }

  lemma BracesEscapedAppend(a: string, b: string)
    requires BracesEscaped(a) && BracesEscaped(b)
    ensures BracesEscaped(a + b)
  {
    forall i | 0 <= i < |a + b| && ((a + b)[i] == '{' || (a + b)[i] == '}')
      ensures 0 < i && (a + b)[i - 1] == '\\'
    {
      if i >= |a| {
        assert (a + b)[i] == b[i - |a|];
        assert (a + b)[i - 1] == b[i - 1 - |a|];
      }
    }
  }

  lemma EscapeCharBraces(c: char)
    ensures BracesEscaped(EscapeChar(c))
  {
    if c == '\\' {
      var r := EscapeChar(c);
      assert r == TextBackslash + "\\{\\}";
      assert forall i :: 0 <= i < |TextBackslash| ==> r[i] == TextBackslash[i];
    }
  }

  lemma {:induction false} ExpandBraces(s: string)
    ensures BracesEscaped(Expand(s, EscapeChar))
  {
    if s != [] {
      ExpandBraces(s[1..]);
      EscapeCharBraces(s[0]);
      BracesEscapedAppend(EscapeChar(s[0]), Expand(s[1..], EscapeChar));
    }
  }

  lemma NoDoubleBrace(r: string, brace: char)
    requires BracesEscaped(r) && (brace == '{' || brace == '}')
    ensures !Contains(r, [brace, brace])
  {
    forall i | 0 <= i <= |r| - 2
      ensures !StartsWithAt(r, [brace, brace], i)
    {
      assert r[i..i + 2][0] == r[i] && r[i..i + 2][1] == r[i + 1];
    }
  }

  /** In escaped text every brace follows a backslash, so it never holds two
      braces in a row and cannot form a `{{…}}` placeholder. */
  lemma EscapeLatexBraces(s: Option<string>)
    ensures BracesEscaped(EscapeLatex(s))
    ensures !Contains(EscapeLatex(s), "{{") && !Contains(EscapeLatex(s), "}}")
  {
    var r := EscapeLatex(s);
    if s.Some? {
      EscapeLatexPerChar(s.value);
      ExpandBraces(s.value);
    }
    NoDoubleBrace(r, '{');
    NoDoubleBrace(r, '}');
  }

  /** Text without any of the seven special characters is left as it is. */
  lemma EscapeLatexPlain(s: string)
    requires forall i :: 0 <= i < |s| ==> !IsSpecial(s[i])
    ensures EscapeLatex(Some(s)) == s
  {
    EscapeLatexPerChar(s);
    ExpandKeeps(s, EscapeChar);
  }

  /** Because the backslash goes first, a backslash ends up as
      `\textbackslash\{\}`: the braces of its own replacement are escaped by
      the later steps. */
  lemma EscapeLatexBackslash()
    ensures EscapeLatex(Some("\\")) == "\\textbackslash\\{\\}"
  {
    EscapeLatexPerChar("\\");
    ExpandSingle('\\', EscapeChar);
  }

  /** Any other special character gets a backslash in front. */
  lemma EscapeLatexSpecial(c: char)
    requires IsSpecial(c) && c != '\\'
    ensures EscapeLatex(Some([c])) == ['\\', c]
  {
    EscapeLatexPerChar([c]);
    ExpandSingle(c, EscapeChar);
  }

  // ---------------------------------------------------------------------------
  // Placeholders (`replace`).

  /** `replace`: every occurrence of the placeholder becomes the escaped
      value, a null value counting as "". Every placeholder the service uses
      is a non-empty literal. */
  function Replace(text: string, placeholder: string, value: Option<string>): string
    requires placeholder != []
  {
    ReplaceAll(text, placeholder, EscapeLatex(Some(value.GetOr(""))))
  }

  /** An occurrence of the placeholder with no earlier match before it is
      replaced by the escaped value; the text before it stays. */
  lemma ReplaceSplice(a: string, placeholder: string, rest: string, value: Option<string>)
    requires placeholder != []
    requires forall i :: 0 <= i < |a| ==> !StartsWithAt(a + placeholder, placeholder, i)
    ensures Replace(a + placeholder + rest, placeholder, value)
         == a + EscapeLatex(Some(value.GetOr(""))) + Replace(rest, placeholder, value)
  {
    ReplaceAllSplice(a, placeholder, EscapeLatex(Some(value.GetOr(""))), rest);
  }

  /** A text without the placeholder is left as it is. */
  lemma ReplaceAbsent(text: string, placeholder: string, value: Option<string>)
    requires placeholder != [] && !Contains(text, placeholder)
    ensures Replace(text, placeholder, value) == text
  {
    ReplaceAllAbsent(text, placeholder, EscapeLatex(Some(value.GetOr(""))));
  }

  /** A null value deletes the placeholder. */
  lemma ReplaceNull(text: string, placeholder: string)
    requires placeholder != []
    ensures Replace(text, placeholder, None) == ReplaceAll(text, placeholder, "")
  {
    EscapeLatexPlain("");
  }

  /** `{{key}}`. */
  function Placeholder(key: string): (r: string)
    ensures |r| >= 4 && r[..2] == "{{"
  {
    "{{" + key + "}}"
  }

  /** A text without `{{` holds no placeholder. */
  lemma NoPlaceholder(text: string, key: string)
    requires !Contains(text, "{{")
    ensures !Contains(text, Placeholder(key))
  {
    if Contains(text, Placeholder(key)) {
      assert Placeholder(key) == "{{" + (key + "}}");
      ContainsPrefix(text, "{{", key + "}}");
    }
  }

  // ---------------------------------------------------------------------------
  // Personal information (`substitute`, first part).

  /** The eight personal-information placeholders, in the order they are
      replaced, and the value each takes. */
  const PersonalKeys: seq<string> :=
    ["personalInfo.name", "personalInfo.title", "personalInfo.email", "personalInfo.phone",
     "personalInfo.location", "personalInfo.summary", "personalInfo.linkedin", "personalInfo.github"]

  function PersonalValue(p: PersonalInfo, k: nat): Option<string> {
    if k == 0 then p.name else if k == 1 then p.title else if k == 2 then p.email else if k == 3 then p.phone
    else if k == 4 then p.location else if k == 5 then p.summary else if k == 6 then p.linkedin else p.github
  }

  /** The placeholders from the `k`-th on replaced, one after the other. */
  function FillFrom(text: string, p: PersonalInfo, k: nat): string
    requires k <= |PersonalKeys|
    decreases |PersonalKeys| - k
  {
    if k == |PersonalKeys| then text
    else FillFrom(Replace(text, Placeholder(PersonalKeys[k]), PersonalValue(p, k)), p, k + 1)
  }

  /** The personal-information placeholders are replaced only when the
      resume has personal information. */
  function FillPersonalInfo(text: string, info: Option<PersonalInfo>): (r: string)
    ensures info.None? ==> r == text
  {
    if info.Some? then FillFrom(text, info.value, 0) else text
  }

  lemma {:induction false} FillFromPlain(text: string, p: PersonalInfo, k: nat)
    requires k <= |PersonalKeys| && !Contains(text, "{{")
    ensures FillFrom(text, p, k) == text
    decreases |PersonalKeys| - k
  {
    if k < |PersonalKeys| {
      NoPlaceholder(text, PersonalKeys[k]);
      ReplaceAbsent(text, Placeholder(PersonalKeys[k]), PersonalValue(p, k));
      FillFromPlain(text, p, k + 1);
    }
  }

  /** A text without any placeholder is left as it is. */
  lemma FillPlain(text: string, info: Option<PersonalInfo>)
    requires !Contains(text, "{{")
    ensures FillPersonalInfo(text, info) == text
  {
    if info.Some? {
      FillFromPlain(text, info.value, 0);
    }
  }

  /** Braces nowhere. */
  predicate BraceFree(s: string) { forall i :: 0 <= i < |s| ==> s[i] != '{' && s[i] != '}' }

  /** The name placeholder, between texts without braces, becomes the
      escaped name (or nothing, for a null name), and the text around it
      stays. */
  lemma FillName(a: string, b: string, p: PersonalInfo)
    requires BraceFree(a) && BraceFree(b)
    ensures FillPersonalInfo(a + "{{personalInfo.name}}" + b, Some(p)) == a + EscapeLatex(Some(p.name.GetOr(""))) + b
  {
    var ph := Placeholder(PersonalKeys[0]);
    assert ph == "{{personalInfo.name}}";
    forall i | 0 <= i < |a|
      ensures !StartsWithAt(a + ph, ph, i)
    {
      if i + |ph| <= |a + ph| {
        assert (a + ph)[i..i + |ph|][0] == a[i] != ph[0];
      }
    }
    ReplaceSplice(a, ph, b, p.name);
    forall i | 0 <= i <= |b| - |ph|
      ensures !StartsWithAt(b, ph, i)
    {
      assert b[i..i + |ph|][0] == b[i] != ph[0];
    }
    ReplaceAbsent(b, ph, p.name);
    var e := EscapeLatex(Some(p.name.GetOr("")));
    EscapeLatexBraces(Some(p.name.GetOr("")));
    BracesEscapedAppend(a, e);
    BracesEscapedAppend(a + e, b);
    NoDoubleBrace(a + e + b, '{');
    FillFromPlain(a + e + b, p, 1);
  }

  // ---------------------------------------------------------------------------
  // Blocks (`substituteBlock`).

  function OpenTag(section: string): string { "{{#" + section + "}}" }

  function CloseTag(section: string): string { "{{/" + section + "}}" }

  /** A list item, as the placeholders its getters fill: key and value, in the
      order the getter map yields them. */
  type Item = seq<(string, Option<string>)>

  /** The same, with each value already escaped as `replace` inserts it. */
  type Fields = seq<(string, string)>

  function EscapeFields(item: Item): (r: Fields)
    ensures |r| == |item|
  {
    seq(|item|, j requires 0 <= j < |item| => (item[j].0, EscapeLatex(Some(item[j].1.GetOr("")))))
  }

  function EscapeItems(items: seq<Item>): (r: seq<Fields>)
    ensures |r| == |items|
  {
    seq(|items|, i requires 0 <= i < |items| => EscapeFields(items[i]))
  }

  /** One copy of the block for an item: each placeholder of the item
      replaced in turn by its escaped value. */
  function Instantiate(block: string, fields: Fields): string
    decreases |fields|
  {
    if fields == [] then block
    else Instantiate(ReplaceAll(block, Placeholder(fields[0].0), fields[0].1), fields[1..])
  }

  /** The copies of the block for the items, in list order. */
  function Copies(block: string, items: seq<Fields>): string {
    if items == [] then "" else Copies(block, items[..|items| - 1]) + Instantiate(block, items[|items| - 1])
  }

  /** The copies for two lists are those of the first followed by those of the second. */
  lemma {:induction false} CopiesAppend(block: string, xs: seq<Fields>, ys: seq<Fields>)
    ensures Copies(block, xs + ys) == Copies(block, xs) + Copies(block, ys)
    decreases |ys|
  {
    if ys == [] {
      assert xs + ys == xs;
    } else {
      var init := ys[..|ys| - 1];
      assert (xs + ys)[..|xs + ys| - 1] == xs + init;
      CopiesAppend(block, xs, init);
    }
  }

  lemma CopiesOne(block: string, item: Fields)
    ensures Copies(block, [item]) == Instantiate(block, item)
  {
    assert [item][..0] == [];
  }

  /** The copies of a block for the items, as a function of the block. */
  function CopiesFor(items: seq<Fields>): string -> string {
    b => Copies(b, items)
  }

  /** Where the source finds a block: the first open tag, and the first close
      tag after it; `None` when either is missing. */
  function Locate(latex: string, section: string): (r: Option<(nat, nat)>)
    ensures r.Some? ==> r.value.0 + |OpenTag(section)| <= r.value.1 && r.value.1 + |CloseTag(section)| <= |latex|
  {
    var start := IndexFrom(latex, OpenTag(section), 0);
    if start < 0 then None
    else
      var end := IndexFrom(latex, CloseTag(section), start + |OpenTag(section)|);
      if end < 0 then None else Some((start, end))
  }

  /** The text with the block at `start`, tags included, replaced by its
      copies: the text before the open tag and after the close tag is kept. */
  function Splice(latex: string, start: nat, end: nat, section: string, copies: string -> string): string
    requires start + |OpenTag(section)| <= end && end + |CloseTag(section)| <= |latex|
  {
    latex[..start] + copies(latex[start + |OpenTag(section)|..end]) + latex[end + |CloseTag(section)|..]
  }

  /** `substituteBlock`, with at most `fuel` expansions: each located block
      is spliced; the text is returned once no block is left (an open tag
      without a close tag after it ends the expansion too). `None` when the
      bound is reached with a block still to expand. */
  function ExpandBlocks(latex: string, section: string, copies: string -> string, fuel: nat): Option<string>
    decreases fuel
  {
    match Locate(latex, section)
    case None => Some(latex)
    case Some((start, end)) =>
      if fuel == 0 then None else ExpandBlocks(Splice(latex, start, end, section, copies), section, copies, fuel - 1)
  }

  /** One expansion step, whatever the text: `fuel` bounds the expansions
      before it and `rest` those after it. */
  lemma {:induction false} BlocksThen(latex: string, section: string, copies: string -> string, fuel: nat, rest: nat,
                                      start: nat, end: nat)
    requires fuel == rest + 1 && Locate(latex, section) == Some((start, end))
    ensures ExpandBlocks(latex, section, copies, fuel)
         == ExpandBlocks(Splice(latex, start, end, section, copies), section, copies, rest)
  {
  }

  /** The positions the source computes are those `Locate` gives. */
  lemma LocateAt(text: string, section: string, start: int, end: int)
    requires start == IndexFrom(text, OpenTag(section), 0) && start >= 0
    requires end == IndexFrom(text, CloseTag(section), start + |OpenTag(section)|)
    ensures end < 0 ==> Locate(text, section) == None
    ensures end >= 0 ==> Locate(text, section) == Some((start, end))
  {
  }

  /** Without an open tag the text is returned as it is. */
  lemma ExpandNoBlock(latex: string, section: string, copies: string -> string, fuel: nat)
    requires !Contains(latex, OpenTag(section))
    ensures ExpandBlocks(latex, section, copies, fuel) == Some(latex)
  {
    IndexFromContains(latex, OpenTag(section));
  }

  /** The first open tag: none starts earlier, in `a` or across its end. */
  predicate FirstAfter(a: string, tag: string) {
    forall i :: 0 <= i < |a| ==> !StartsWithAt(a + tag, tag, i)
  }

  lemma SliceOfSlice(s: string, lo: nat, hi: nat, i: nat, j: nat)
    requires lo <= hi <= |s| && i <= j <= hi - lo
    ensures s[lo..hi][i..j] == s[lo + i..lo + j]
  {
    forall k | 0 <= k < j - i
      ensures s[lo..hi][i..j][k] == s[lo + i..lo + j][k]
    {
      assert s[lo..hi][i..j][k] == s[lo..hi][i + k];
    }
  }

  /** Where `a` and then the tag stand in `s` from `from` on, the search
      from `from` finds the tag right after `a`. */
  lemma FindAt(s: string, from: nat, a: string, tag: string)
    requires FirstAfter(a, tag)
    requires from + |a| + |tag| <= |s| && s[from..from + |a| + |tag|] == a + tag
    ensures IndexFrom(s, tag, from) == from + |a|
  {
    var w := s[from..from + |a| + |tag|];
    assert s[from + |a|..from + |a| + |tag|] == w[|a|..] == tag;
    forall i: nat | from <= i < from + |a|
      ensures !StartsWithAt(s, tag, i)
    {
      assert !StartsWithAt(a + tag, tag, i - from);
      SliceOfSlice(s, from, from + |a| + |tag|, i - from, i - from + |tag|);
    }
    IndexFromAt(s, tag, from, from + |a|);
  }

  /** The block of `a` open `b` close `c` is `b`. */
  lemma LocateBlock(a: string, b: string, c: string, section: string)
    requires FirstAfter(a, OpenTag(section)) && FirstAfter(b, CloseTag(section))
    ensures Locate(a + OpenTag(section) + b + CloseTag(section) + c, section)
         == Some((|a|, |a| + |OpenTag(section)| + |b|))
  {
    var open := OpenTag(section);
    var close := CloseTag(section);
    var latex := a + open + b + close + c;
    var start := |a|;
    var end := |a| + |open| + |b|;
    assert latex[0..start + |open|] == a + open;
    FindAt(latex, 0, a, open);
    assert latex[start + |open|..end + |close|] == b + close;
    FindAt(latex, start + |open|, b, close);
  }

  lemma SpliceBlock(a: string, b: string, c: string, section: string, copies: string -> string)
    ensures Splice(a + OpenTag(section) + b + CloseTag(section) + c, |a|, |a| + |OpenTag(section)| + |b|, section, copies)
         == a + copies(b) + c
  {
    var open := OpenTag(section);
    var close := CloseTag(section);
    var latex := a + open + b + close + c;
    var end := |a| + |open| + |b|;
    assert latex[..|a|] == a;
    assert latex[|a| + |open|..end] == b;
    assert latex[end + |close|..] == c;
  }

  /** A block: the text before the first open tag and after the first close
      tag after it is kept, and the block between the tags becomes its
      copies, one per item, in list order. */
  lemma ExpandOneBlock(a: string, b: string, c: string, section: string, copies: string -> string, fuel: nat)
    requires fuel > 0
    requires FirstAfter(a, OpenTag(section)) && FirstAfter(b, CloseTag(section))
    ensures ExpandBlocks(a + OpenTag(section) + b + CloseTag(section) + c, section, copies, fuel)
         == ExpandBlocks(a + copies(b) + c, section, copies, fuel - 1)
  {
    var latex := a + OpenTag(section) + b + CloseTag(section) + c;
    LocateBlock(a, b, c, section);
    BlocksThen(latex, section, copies, fuel, fuel - 1, |a|, |a| + |OpenTag(section)| + |b|);
    SpliceBlock(a, b, c, section, copies);
  }

  /** An open tag with no close tag after it stops the expansion: the text
      is returned as it is. */
  lemma ExpandUnclosed(a: string, rest: string, section: string, copies: string -> string, fuel: nat)
    requires FirstAfter(a, OpenTag(section)) && !Contains(rest, CloseTag(section))
    ensures ExpandBlocks(a + OpenTag(section) + rest, section, copies, fuel) == Some(a + OpenTag(section) + rest)
  {
    var open := OpenTag(section);
    var close := CloseTag(section);
    var latex := a + open + rest;
    assert latex[0..|a| + |open|] == a + open;
    FindAt(latex, 0, a, open);
    var k := |a| + |open|;
    forall j: nat | k <= j
      ensures !StartsWithAt(latex, close, j)
    {
      if j + |close| <= |latex| {
        assert latex[j..j + |close|] == rest[j - k..j - k + |close|];
        assert !StartsWithAt(rest, close, j - k);
      }
    }
    LocateAt(latex, section, |a|, IndexFrom(latex, close, k));
  }

  /** With no items the block is deleted together with its tags. */
  lemma ExpandNoItems(a: string, b: string, c: string, section: string, fuel: nat)
    requires fuel > 0
    requires FirstAfter(a, OpenTag(section)) && FirstAfter(b, CloseTag(section))
    ensures ExpandBlocks(a + OpenTag(section) + b + CloseTag(section) + c, section, CopiesFor([]), fuel)
         == ExpandBlocks(a + c, section, CopiesFor([]), fuel - 1)
  {
    var none := CopiesFor([]);
    assert none(b) == "";
    assert a + none(b) + c == a + c;
    ExpandOneBlock(a, b, c, section, none, fuel);
  }

  /** A single block in a template: once expanded, no open tag is left, and
      the result is the text around the block with the copies in between. */
  lemma ExpandSingleBlock(a: string, b: string, c: string, section: string, copies: string -> string, fuel: nat)
    requires fuel > 0
    requires FirstAfter(a, OpenTag(section)) && FirstAfter(b, CloseTag(section))
    requires !Contains(a + copies(b) + c, OpenTag(section))
    ensures ExpandBlocks(a + OpenTag(section) + b + CloseTag(section) + c, section, copies, fuel)
         == Some(a + copies(b) + c)
  {
    ExpandOneBlock(a, b, c, section, copies, fuel);
    ExpandNoBlock(a + copies(b) + c, section, copies, fuel - 1);
  }

  /** The copy of the block for one item: its getters applied in turn. */
  method InstantiateBlock(blockTemplate: string, item: Item) returns (block: string)
    ensures block == Instantiate(blockTemplate, EscapeFields(item))
  {
    var fields := EscapeFields(item);
    block := blockTemplate;
    for j := 0 to |item|
      invariant Instantiate(block, fields[j..]) == Instantiate(blockTemplate, fields)
    {
      assert fields[j..][1..] == fields[j + 1..];
      block := Replace(block, Placeholder(item[j].0), item[j].1);
    }
    assert fields[|item|..] == [];
  }

  /** The copies of the block for all items, appended in list order. */
  method CopiesOf(blockTemplate: string, items: seq<Item>) returns (replacement: string)
    ensures replacement == Copies(blockTemplate, EscapeItems(items))
  {
    var all := EscapeItems(items);
    replacement := "";
    for i := 0 to |items|
      invariant replacement == Copies(blockTemplate, all[..i])
    {
      var block := InstantiateBlock(blockTemplate, items[i]);
      assert all[..i + 1][..i] == all[..i];
      replacement := replacement + block;
    }
    assert all[..|items|] == all;
  }

  /** The block at `start` replaced by its copies, tags included. */
  method SpliceCopies(text: string, start: nat, end: nat, section: string, items: seq<Item>) returns (next: string)
    requires start + |OpenTag(section)| <= end && end + |CloseTag(section)| <= |text|
    ensures next == Splice(text, start, end, section, CopiesFor(EscapeItems(items)))
  {
    var replacement := CopiesOf(text[start + |OpenTag(section)|..end], items);
    next := text[..start] + replacement + text[end + |CloseTag(section)|..];
  }

  /** The positions of the first open tag and of the close tag after it,
      -1 for a missing close tag: `Locate`, as the loop computes it. */
  method FindBlock(text: string, section: string) returns (start: int, end: int)
    requires Contains(text, OpenTag(section))
    ensures start >= 0 && end >= -1
    ensures end < 0 ==> Locate(text, section) == None
    ensures end >= 0 ==> Locate(text, section) == Some((start, end))
    ensures end >= 0 ==> start + |OpenTag(section)| <= end && end + |CloseTag(section)| <= |text|
  {
    IndexFromContains(text, OpenTag(section));
    start := IndexFrom(text, OpenTag(section), 0);
    end := IndexFrom(text, CloseTag(section), start + |OpenTag(section)|);
    LocateAt(text, section, start, end);
  }

  /** `substituteBlock`: the source's loop, with the step bound `fuel`. */
  method SubstituteBlock(latex: string, section: string, items: seq<Item>, fuel: nat) returns (r: Option<string>)
    ensures r == ExpandBlocks(latex, section, CopiesFor(EscapeItems(items)), fuel)
  {
    var openTag := OpenTag(section);
    var text := latex;
    var steps := fuel;
    ghost var copies := CopiesFor(EscapeItems(items));
    while Contains(text, openTag)
      invariant ExpandBlocks(text, section, copies, steps) == ExpandBlocks(latex, section, copies, fuel)
      decreases steps
    {
      var start, end := FindBlock(text, section);
      if end == -1 {
        return Some(text);
      }
      if steps == 0 {
        return None;
      }
      var next := SpliceCopies(text, start, end, section, items);
      ghost var before := steps;
      steps := steps - 1;
      BlocksThen(text, section, copies, before, steps, start, end);
      text := next;
    }
    ExpandNoBlock(text, section, copies, steps);
    r := Some(text);
  }

  // ---------------------------------------------------------------------------
  // The getters of each section (`Map.of` in `substitute`).

  /** The item of each element: its fields in the order of `keys`. */
  function Items<T>(xs: seq<T>, keys: seq<string>, get: (T, string) -> Option<string>): (r: seq<Item>)
    ensures |r| == |xs|
    ensures forall i :: 0 <= i < |xs| ==> |r[i]| == |keys|
  {
    seq(|xs|, i requires 0 <= i < |xs| => seq(|keys|, j requires 0 <= j < |keys| => (keys[j], get(xs[i], keys[j]))))
  }

  const ExperienceKeys: set<string> := {"title", "company", "location", "startDate", "endDate", "description"}
  const EducationKeys: set<string> := {"degree", "school", "location", "startDate", "endDate", "description"}
  const SkillKeys: set<string> := {"name", "level"}
  const ProjectKeys: set<string> := {"name", "description", "technologies", "startDate", "endDate", "url"}
  const AchievementKeys: set<string> := {"name", "description", "technologies", "url"}

  function ExperienceGetter(e: Experience, key: string): Option<string> {
    if key == "title" then e.title else if key == "company" then e.company else if key == "location" then e.location
    else if key == "startDate" then e.startDate else if key == "endDate" then e.endDate else e.description
  }

  function EducationGetter(e: Education, key: string): Option<string> {
    if key == "degree" then e.degree else if key == "school" then e.school else if key == "location" then e.location
    else if key == "startDate" then e.startDate else if key == "endDate" then e.endDate else e.description
  }

  function SkillGetter(s: Skill, key: string): Option<string> {
    if key == "name" then s.name else s.level
  }

  function ProjectGetter(p: Project, key: string): Option<string> {
    if key == "name" then p.name else if key == "description" then p.description
    else if key == "technologies" then p.technologies else if key == "startDate" then p.startDate
    else if key == "endDate" then p.endDate else p.url
  }

  function AchievementGetter(a: Achievement, key: string): Option<string> {
    if key == "name" then a.name else if key == "description" then a.description
    else if key == "technologies" then a.technologies else a.url
  }

  /** The order in which a getter map yields its keys: each key once. The
      order of `Map.of` is not specified, so it is a parameter. */
  predicate OrderOf(order: seq<string>, keys: set<string>) {
    && |order| == |keys|
    && (forall i :: 0 <= i < |order| ==> order[i] in keys)
    && (forall i, j :: 0 <= i < j < |order| ==> order[i] != order[j])
  }

  datatype GetterOrders = GetterOrders(
    experience: seq<string>, education: seq<string>, skills: seq<string>, projects: seq<string>,
    achievements: seq<string>)

  predicate ValidOrders(o: GetterOrders) {
    && OrderOf(o.experience, ExperienceKeys) && OrderOf(o.education, EducationKeys)
    && OrderOf(o.skills, SkillKeys) && OrderOf(o.projects, ProjectKeys) && OrderOf(o.achievements, AchievementKeys)
  }

  // ---------------------------------------------------------------------------
  // The whole substitution (`substitute`).

  /** The five sections, expanded in turn; a null list counts as empty. */
  function ExpandSections(text: string, resume: Resume, o: GetterOrders, fuel: nat): Option<string> {
    match ExpandBlocks(text, "experience", CopiesFor(EscapeItems(Items(resume.experience.GetOr([]), o.experience, ExperienceGetter))), fuel)
    case None => None
    case Some(t1) =>
      match ExpandBlocks(t1, "education", CopiesFor(EscapeItems(Items(resume.education.GetOr([]), o.education, EducationGetter))), fuel)
      case None => None
      case Some(t2) =>
        match ExpandBlocks(t2, "skills", CopiesFor(EscapeItems(Items(resume.skills.GetOr([]), o.skills, SkillGetter))), fuel)
        case None => None
        case Some(t3) =>
          match ExpandBlocks(t3, "projects", CopiesFor(EscapeItems(Items(resume.projects.GetOr([]), o.projects, ProjectGetter))), fuel)
          case None => None
          case Some(t4) =>
            ExpandBlocks(t4, "achievements", CopiesFor(EscapeItems(Items(resume.achievements.GetOr([]), o.achievements, AchievementGetter))), fuel)
  }

  /** `substitute`: a null template gives ""; otherwise the personal
      information, then the five sections. */
  function Substituted(resume: Resume, latex: Option<string>, o: GetterOrders, fuel: nat): (r: Option<string>)
    requires ValidOrders(o)
    ensures latex.None? ==> r == Some("")
  {
    if latex.None? then Some("")
    else ExpandSections(FillPersonalInfo(latex.value, resume.personalInfo), resume, o, fuel)
  }

  /** One replacement of personal information. */
  lemma {:induction false} FillStep(t: string, p: PersonalInfo, k: nat)
    requires k < |PersonalKeys|
    ensures FillFrom(t, p, k) == FillFrom(Replace(t, Placeholder(PersonalKeys[k]), PersonalValue(p, k)), p, k + 1)
  {
  }

  /** The personal-information part of `substitute`, one placeholder after
      another as the source reassigns its result. */
  method FillPersonal(text: string, info: Option<PersonalInfo>) returns (result: string)
    ensures result == FillPersonalInfo(text, info)
  {
    result := text;
    if info.Some? {
      var p := info.value;
      FillStep(result, p, 0);
      result := Replace(result, Placeholder(PersonalKeys[0]), p.name);
      FillStep(result, p, 1);
      result := Replace(result, Placeholder(PersonalKeys[1]), p.title);
      FillStep(result, p, 2);
      result := Replace(result, Placeholder(PersonalKeys[2]), p.email);
      FillStep(result, p, 3);
      result := Replace(result, Placeholder(PersonalKeys[3]), p.phone);
      FillStep(result, p, 4);
      result := Replace(result, Placeholder(PersonalKeys[4]), p.location);
      FillStep(result, p, 5);
      result := Replace(result, Placeholder(PersonalKeys[5]), p.summary);
      FillStep(result, p, 6);
      result := Replace(result, Placeholder(PersonalKeys[6]), p.linkedin);
      FillStep(result, p, 7);
      result := Replace(result, Placeholder(PersonalKeys[7]), p.github);
    }
  }

  /** `substitute`, step by step as the source reassigns its result. */
  method Substitute(resume: Resume, latex: Option<string>, o: GetterOrders, fuel: nat) returns (r: Option<string>)
    requires ValidOrders(o)
    ensures r == Substituted(resume, latex, o, fuel)
  {
    if latex.None? {
      return Some("");
    }
    var result := FillPersonal(latex.value, resume.personalInfo);
    var next := SubstituteBlock(result, "experience",
      Items(resume.experience.GetOr([]), o.experience, ExperienceGetter), fuel);
    if next.None? { return None; }
    next := SubstituteBlock(next.value, "education",
      Items(resume.education.GetOr([]), o.education, EducationGetter), fuel);
    if next.None? { return None; }
    next := SubstituteBlock(next.value, "skills", Items(resume.skills.GetOr([]), o.skills, SkillGetter), fuel);
    if next.None? { return None; }
    next := SubstituteBlock(next.value, "projects", Items(resume.projects.GetOr([]), o.projects, ProjectGetter), fuel);
    if next.None? { return None; }
    r := SubstituteBlock(next.value, "achievements",
      Items(resume.achievements.GetOr([]), o.achievements, AchievementGetter), fuel);
  }

  /** A template without any placeholder comes back unchanged. */
  lemma SubstitutePlain(resume: Resume, t: string, o: GetterOrders, fuel: nat)
    requires ValidOrders(o) && !Contains(t, "{{")
    ensures Substituted(resume, Some(t), o, fuel) == Some(t)
  {
    FillPlain(t, resume.personalInfo);
    NoOpenTag(t, "experience");
    NoOpenTag(t, "education");
    NoOpenTag(t, "skills");
    NoOpenTag(t, "projects");
    NoOpenTag(t, "achievements");
    ExpandNoBlock(t, "experience", CopiesFor(EscapeItems(Items(resume.experience.GetOr([]), o.experience, ExperienceGetter))), fuel);
    ExpandNoBlock(t, "education", CopiesFor(EscapeItems(Items(resume.education.GetOr([]), o.education, EducationGetter))), fuel);
    ExpandNoBlock(t, "skills", CopiesFor(EscapeItems(Items(resume.skills.GetOr([]), o.skills, SkillGetter))), fuel);
    ExpandNoBlock(t, "projects", CopiesFor(EscapeItems(Items(resume.projects.GetOr([]), o.projects, ProjectGetter))), fuel);
    ExpandNoBlock(t, "achievements", CopiesFor(EscapeItems(Items(resume.achievements.GetOr([]), o.achievements, AchievementGetter))), fuel);
  }

  lemma NoOpenTag(t: string, section: string)
    requires !Contains(t, "{{")
    ensures !Contains(t, OpenTag(section))
  {
    if Contains(t, OpenTag(section)) {
      assert OpenTag(section) == "{{" + ("#" + section + "}}");
      ContainsPrefix(t, "{{", "#" + section + "}}");
    }
  }

  // ---------------------------------------------------------------------------
  // The getter order.

  const OrderTemplate := "{{name}}{level}}"

  /** A text that starts with the placeholder and holds no other copy of
      it: only that copy is filled. */
  lemma PlaceholderFirst(p: string, rest: string, v: string)
    requires p != [] && !Contains(rest, p)
    ensures ReplaceAll(p + rest, p, v) == v + rest
  {
    assert [] + p + rest == p + rest;
    ReplaceAllSplice([], p, v, rest);
    ReplaceAllAbsent(rest, p, v);
    assert [] + v + rest == v + rest;
  }

  /** Replacing the name by `\{` leaves `\{{level}}`: the escaped brace and
      the template's `{level}}` form a new placeholder. */
  lemma NameFirstStep()
    ensures ReplaceAll(OrderTemplate, Placeholder("name"), "\\{") == "\\{{level}}"
  {
    var p := Placeholder("name");
    var rest := "{level}}";
    assert OrderTemplate == p + rest;
    assert !Contains(rest, p) by {
      assert |rest| == |p|;
      assert rest[..|p|][1] != p[1];
    }
    PlaceholderFirst(p, rest, "\\{");
  }

  /** The new placeholder is then filled with the level. */
  lemma LevelStep()
    ensures ReplaceAll("\\{{level}}", Placeholder("level"), "x") == "\\x"
  {
    var p := Placeholder("level");
    var a := "\\";
    assert "\\{{level}}" == a + p + [];
    assert !StartsWithAt(a + p, p, 0) by {
      assert (a + p)[0] != p[0];
    }
    ReplaceAllSplice(a, p, "x", []);
    assert a + "x" + [] == "\\x";
  }

  /** The two values, escaped in either order. */
  lemma OrderFields()
    ensures EscapeFields([("name", Some("{")), ("level", Some("x"))]) == [("name", "\\{"), ("level", "x")]
    ensures EscapeFields([("level", Some("x")), ("name", Some("{"))]) == [("level", "x"), ("name", "\\{")]
  {
    EscapeLatexSpecial('{');
    EscapeLatexPlain("x");
  }

  /** The template itself holds no level placeholder. */
  lemma LevelAbsent()
    ensures ReplaceAll(OrderTemplate, Placeholder("level"), "x") == OrderTemplate
  {
    var level := Placeholder("level");
    var t := OrderTemplate;
    forall i | 0 <= i <= |t| - |level|
      ensures !StartsWithAt(t, level, i)
    {
      var w := t[i..i + |level|];
      assert w[0] == t[i] && w[1] == t[i + 1] && w[2] == t[i + 2];
    }
    ReplaceAllAbsent(t, level, "x");
  }

  /** The order of the getters can change a copy: with the name `{` and the
      level `x`, the name first gives `\x`. */
  lemma GetterOrderNameFirst()
    ensures Instantiate(OrderTemplate, EscapeFields([("name", Some("{")), ("level", Some("x"))])) == "\\x"
  {
    OrderFields();
    NameFirstStep();
    LevelStep();
    var f: Fields := [("name", "\\{"), ("level", "x")];
    assert f[1..] == [("level", "x")];
    assert f[1..][1..] == [];
  }

  /** ... and the level first gives `\{{level}}`. */
  lemma GetterOrderLevelFirst()
    ensures Instantiate(OrderTemplate, EscapeFields([("level", Some("x")), ("name", Some("{"))])) == "\\{{level}}"
  {
    OrderFields();
    LevelAbsent();
    NameFirstStep();
    var f: Fields := [("level", "x"), ("name", "\\{")];
    assert f[1..] == [("name", "\\{")];
    assert f[1..][1..] == [];
  }
}
