/** The keyword lists of the ATS engine (src/lib/atsSuggestions.ts) and the
    text tests its rules share: keyword and action-verb look-ups, the digit
    patterns `\d+%` and `\d+\+`, and the text the engine analyses. */
module AtsRules {
  import opened Text
  import opened FrontResume
  import opened Wrappers

  /** The technical keywords, in list order. */
  const Technical: seq<string> := [
    "Java", "Python", "JavaScript", "TypeScript", "React", "Node.js", "Spring Boot",
    "SQL", "MongoDB", "PostgreSQL", "Git", "Docker", "Kubernetes", "AWS", "Azure",
    "REST API", "GraphQL", "Microservices", "CI/CD", "Agile", "Scrum", "DevOps"]

  /** The technical keywords lower-cased, entry by entry, as every test of
      the engine uses them (`keyword.toLowerCase()`). */
  const TechnicalLower: seq<string> := [
    "java", "python", "javascript", "typescript", "react", "node.js", "spring boot",
    "sql", "mongodb", "postgresql", "git", "docker", "kubernetes", "aws", "azure",
    "rest api", "graphql", "microservices", "ci/cd", "agile", "scrum", "devops"]

  /** The action verbs, lower-cased: the engine only ever tests them as
      `verb.toLowerCase()` against lower-cased text. */
  const ActionVerbs: seq<string> := [
    "developed", "implemented", "designed", "led", "managed", "created", "improved",
    "optimized", "collaborated", "delivered", "achieved", "increased", "reduced",
    "streamlined", "enhanced", "built", "maintained", "deployed", "integrated"]

  /** Some action verb occurs in `lowerText`. */
  predicate HasActionVerb(lowerText: string) {
    ContainsAny(lowerText, ActionVerbs)
  }

  /** Some lower-cased skill name contains the lower-cased keyword. */
  predicate AnyContains(existing: seq<string>, lowerKeyword: string) {
    exists j :: 0 <= j < |existing| && Contains(existing[j], lowerKeyword)
  }

  /** The regular expression `\d+%`: a digit directly followed by '%'. */
  predicate HasPercent(t: string) {
    exists i :: 0 <= i < |t| - 1 && IsDigit(t[i]) && t[i + 1] == '%'
  }

  /** The regular expression `\d+\+`: a digit directly followed by '+'. */
  predicate HasDigitPlus(t: string) {
    exists i :: 0 <= i < |t| - 1 && IsDigit(t[i]) && t[i + 1] == '+'
  }

  function Descriptions(exps: seq<Experience>): (r: seq<string>)
    ensures |r| == |exps|
    ensures forall i :: 0 <= i < |exps| ==> r[i] == exps[i].description
  {
    if exps == [] then [] else [exps[0].description] + Descriptions(exps[1..])
  }

  function SkillNames(skills: seq<Skill>): (r: seq<string>)
    ensures |r| == |skills|
    ensures forall i :: 0 <= i < |skills| ==> r[i] == skills[i].name
  {
    if skills == [] then [] else [skills[0].name] + SkillNames(skills[1..])
  }

  /** The lower-cased skill names (`existingSkills`). */
  function LowerNames(skills: seq<Skill>): (r: seq<string>)
    ensures |r| == |skills|
    ensures forall i :: 0 <= i < |skills| ==> r[i] == Lower(skills[i].name)
  {
    if skills == [] then [] else [Lower(skills[0].name)] + LowerNames(skills[1..])
  }

  /** A string spread into an array of its characters and joined with
      spaces after a first element: every character is preceded by a space. */
  function Spread(s: string): (r: string)
    ensures |r| == 2 * |s|
  {
    if s == [] then "" else [' ', s[0]] + Spread(s[1..])
  }

  lemma {:induction false} SpreadSpaces(s: string)
    ensures forall p :: 0 <= p < |Spread(s)| && p % 2 == 0 ==> Spread(s)[p] == ' '
  {
    if s != [] {
      SpreadSpaces(s[1..]);
      var r := Spread(s);
      forall p | 0 <= p < |r| && p % 2 == 0 ensures r[p] == ' ' {
        if p >= 2 {
          assert r[p] == Spread(s[1..])[p - 2];
        }
      }
    }
  }

  lemma {:induction false} SpreadAppend(a: string, b: string)
    ensures Spread(a + b) == Spread(a) + Spread(b)
  {
    if a != [] {
      assert (a + b)[1..] == a[1..] + b;
      SpreadAppend(a[1..], b);
    } else {
      assert a + b == b;
    }
  }

  /** The text the engine analyses for keywords and patterns. The source
      spreads the two joined strings into the array it joins, so only the
      summary stays whole; the description and skill text follow it one
      character at a time, each preceded by a space. */
  function AnalysedText(data: ResumeData): string {
    Lower(data.personalInfo.summary
      + Spread(Join(" ", Descriptions(data.experience)))
      + Spread(Join(" ", SkillNames(data.skills))))
  }

  /** A space-free word of two or more characters cannot match across the
      spread tail, whose every other character is a space. */
  lemma NoMatchAcrossSpread(s: string, x: string, k: string)
    requires ' ' !in k && |k| >= 2
    ensures Contains(s + Spread(x), k) ==> Contains(s, k)
  {
    if Contains(s + Spread(x), k) {
      var t := s + Spread(x);
      var i :| 0 <= i <= |t| - |k| && StartsWithAt(t, k, i);
      if i + |k| > |s| {
        SpaceInSpreadMatch(s, x, k, i);
        assert false;
      }
      assert s[i..i + |k|] == t[i..i + |k|];
      assert StartsWithAt(s, k, i);
    }
  }

  /** A match of two or more characters that reaches the spread tail covers
      a character at an even offset into the tail, which is a space. */
  lemma SpaceInSpreadMatch(s: string, x: string, k: string, i: nat)
    requires |k| >= 2 && StartsWithAt(s + Spread(x), k, i) && i + |k| > |s|
    ensures ' ' in k
  {
    var t := s + Spread(x);
    SpreadSpaces(x);
    var p := if i >= |s| then (if (i - |s|) % 2 == 0 then i else i + 1) else |s|;
    assert i <= p < i + |k|;
    assert t[p] == Spread(x)[p - |s|];
    assert k[p - i] == t[i..i + |k|][p - i];
  }

  lemma LowerSpread(s: string)
    ensures Lower(Spread(s)) == Spread(Lower(s))
  {
    assert |Lower(Spread(s))| == |Spread(Lower(s))|;
    forall p | 0 <= p < |Spread(s)| ensures Lower(Spread(s))[p] == Spread(Lower(s))[p] {
      SpreadAt(s, p);
      SpreadAt(Lower(s), p);
    }
  }

  lemma {:induction false} SpreadAt(s: string, p: nat)
    requires p < 2 * |s|
    ensures Spread(s)[p] == if p % 2 == 0 then ' ' else s[p / 2]
  {
    if p >= 2 {
      SpreadAt(s[1..], p - 2);
    }
  }

  /** No word that starts with two characters other than spaces occurs in
      a spread string, every other character of which is a space. */
  lemma NoPairInSpread(x: string, k: string)
    requires |k| >= 2 && k[0] != ' ' && k[1] != ' '
    ensures !Contains(Spread(x), k)
  {
    var t := Spread(x);
    if Contains(t, k) {
      var i :| 0 <= i <= |t| - |k| && StartsWithAt(t, k, i);
      var p := if i % 2 == 0 then i else i + 1;
      SpreadAt(x, p);
    }
  }

  /** With an empty summary the analysed text is all spread tail, so no
      word that starts with two characters other than spaces occurs in it,
      whatever the descriptions and skill names say. */
  lemma SummaryFreeText(data: ResumeData, k: string)
    requires data.personalInfo.summary == ""
    requires |k| >= 2 && k[0] != ' ' && k[1] != ' '
    ensures !Contains(AnalysedText(data), k)
  {
    var j1, j2 := Join(" ", Descriptions(data.experience)), Join(" ", SkillNames(data.skills));
    SpreadAppend(j1, j2);
    assert data.personalInfo.summary + Spread(j1) + Spread(j2) == Spread(j1 + j2);
    LowerSpread(j1 + j2);
    NoPairInSpread(Lower(j1 + j2), k);
  }

  /** The quirk of the source: a keyword without spaces (20 of the 22
      technical keywords) is found in the analysed text exactly when it
      occurs in the lower-cased summary; descriptions and skill names never
      contribute. */
  lemma KeywordSeenOnlyInSummary(data: ResumeData, k: string)
    requires ' ' !in k && |k| >= 2
    ensures Contains(AnalysedText(data), k) <==> Contains(Lower(data.personalInfo.summary), k)
  {
    SpreadTextKeyword(data.personalInfo.summary, Join(" ", Descriptions(data.experience)),
                      Join(" ", SkillNames(data.skills)), k);
  }

  /** The same, for any summary and any two spread strings. */
  lemma SpreadTextKeyword(s: string, j1: string, j2: string, k: string)
    requires ' ' !in k && |k| >= 2
    ensures Contains(Lower(s + Spread(j1) + Spread(j2)), k) <==> Contains(Lower(s), k)
  {
    SpreadAppend(j1, j2);
    assert s + Spread(j1) + Spread(j2) == s + Spread(j1 + j2);
    LowerAppend(s, Spread(j1 + j2));
    LowerSpread(j1 + j2);
    NoMatchAcrossSpread(Lower(s), Lower(j1 + j2), k);
    ContainsExtend(Lower(s), Spread(Lower(j1 + j2)), k);
  }

  /** A word of `a` is a word of `a + b`. */
  lemma ContainsExtend(a: string, b: string, k: string)
    ensures Contains(a, k) ==> Contains(a + b, k)
  {
    if Contains(a, k) {
      var i :| 0 <= i <= |a| - |k| && StartsWithAt(a, k, i);
      assert (a + b)[i..i + |k|] == a[i..i + |k|];
      assert StartsWithAt(a + b, k, i);
    }
  }

  /** A concrete instance of the quirk: a resume whose only mention of Java
      is its skill list does not show "java" in the analysed text. */
  lemma SkillKeywordMissed()
    ensures var data := ResumeData(EmptyPersonalInfo, [], [], [Skill("1", "Java", "80")], [], None);
      Contains(Lower(data.skills[0].name), "java") && !Contains(AnalysedText(data), "java")
  {
    var data := ResumeData(EmptyPersonalInfo, [], [], [Skill("1", "Java", "80")], [], None);
    assert StartsWithAt(Lower("Java"), "java", 0);
    KeywordSeenOnlyInSummary(data, "java");
  }

  /** The text the engine evidently means to analyse: the summary, the
      descriptions and the skill names joined with spaces, lower-cased. */
  function IntendedText(data: ResumeData): string {
    Lower(data.personalInfo.summary + " " + Join(" ", Descriptions(data.experience))
          + " " + Join(" ", SkillNames(data.skills)))
  }

  lemma {:induction false} JoinInfix(sep: string, parts: seq<string>, i: nat) returns (a: string, b: string)
    requires i < |parts|
    ensures Join(sep, parts) == a + parts[i] + b
  {
    if |parts| == 1 {
      a, b := "", "";
    } else if i == 0 {
      a, b := "", sep + Join(sep, parts[1..]);
    } else {
      var a1, b1 := JoinInfix(sep, parts[1..], i - 1);
      a, b := parts[0] + sep + a1, b1;
    }
  }

  /** A word of a slice of `t` is a word of `t`, also after lower-casing. */
  lemma ContainsLowerSlice(t: string, x: string, off: nat, k: string)
    requires off + |x| <= |t| && t[off..off + |x|] == x && Contains(Lower(x), k)
    ensures Contains(Lower(t), k)
  {
    var i :| 0 <= i <= |Lower(x)| - |k| && StartsWithAt(Lower(x), k, i);
    forall m | 0 <= m < |k| ensures Lower(t)[off + i + m] == k[m] {
      assert t[off + i + m] == x[i + m];
      assert Lower(x)[i..i + |k|][m] == k[m];
    }
    assert Lower(t)[off + i..off + i + |k|] == k;
    assert StartsWithAt(Lower(t), k, off + i);
  }

  lemma ContainsLowerInfix(a: string, x: string, b: string, k: string)
    requires Contains(Lower(x), k)
    ensures Contains(Lower(a + x + b), k)
  {
    assert (a + x + b)[|a|..|a| + |x|] == x;
    ContainsLowerSlice(a + x + b, x, |a|, k);
  }

  /** In the intended text every word of the summary, of a description or
      of a skill name is seen. */
  lemma IntendedTextSeesSummary(data: ResumeData, k: string)
    requires Contains(Lower(data.personalInfo.summary), k)
    ensures Contains(IntendedText(data), k)
  {
    var summary := data.personalInfo.summary;
    var d, n := Join(" ", Descriptions(data.experience)), Join(" ", SkillNames(data.skills));
    ContainsLowerInfix("", summary, " " + d + " " + n, k);
    assert "" + summary + (" " + d + " " + n) == summary + " " + d + " " + n;
  }

  /** A word of one of the joined parts is seen in the whole text. */
  lemma ContainsLowerInJoin(pre: string, parts: seq<string>, i: nat, post: string, k: string)
    requires i < |parts| && Contains(Lower(parts[i]), k)
    ensures Contains(Lower(pre + Join(" ", parts) + post), k)
  {
    var a, b := JoinInfix(" ", parts, i);
    var j := Join(" ", parts);
    var t := pre + j + post;
    var x := parts[i];
    assert j[|a|..|a| + |x|] == x;
    assert t[|pre| + |a|..|pre| + |a| + |x|] == j[|a|..|a| + |x|];
    ContainsLowerSlice(t, x, |pre| + |a|, k);
  }

  lemma IntendedTextSeesDescription(data: ResumeData, i: nat, k: string)
    requires i < |data.experience| && Contains(Lower(data.experience[i].description), k)
    ensures Contains(IntendedText(data), k)
  {
    var summary := data.personalInfo.summary;
    var d, n := Join(" ", Descriptions(data.experience)), Join(" ", SkillNames(data.skills));
    ContainsLowerInJoin(summary + " ", Descriptions(data.experience), i, " " + n, k);
    assert summary + " " + d + (" " + n) == summary + " " + d + " " + n;
  }

  lemma IntendedTextSeesSkill(data: ResumeData, i: nat, k: string)
    requires i < |data.skills| && Contains(Lower(data.skills[i].name), k)
    ensures Contains(IntendedText(data), k)
  {
    var summary := data.personalInfo.summary;
    var d := Join(" ", Descriptions(data.experience));
    ContainsLowerInJoin(summary + " " + d + " ", SkillNames(data.skills), i, "", k);
    assert summary + " " + d + " " + Join(" ", SkillNames(data.skills)) + ""
        == summary + " " + d + " " + Join(" ", SkillNames(data.skills));
  }
}
