/**
 * robots.txt rules: reading the file line by line into groups, and the verdict
 * of the most specific matching rule (section 2.2.2 of RFC 9309).
 */
module RobotsRules {
  import opened Text
  import RobotsPattern

  datatype Rule = Rule(allow: bool, pattern: string)
  datatype Group = Group(agents: seq<string>, rules: seq<Rule>)

  /** What one line of the file contributes. */
  datatype Line = Ignored | Sitemap(url: string) | Agent(name: string) | Directive(allow: bool, value: string)

  const PRODUCT := "Munin-Crawler"
  const VERSION := "/1.0 (+https://getmunin.com)"
  const USER_AGENT := PRODUCT + VERSION

  // ----- One line -----

  predicate NoTerminator(s: string) {
    forall k :: 0 <= k < |s| ==> !IsLineTerminator(s[k])
  }

  /** Start of the leftmost `#...` that reaches the end of the line. */
  function CommentStart(line: string, from: nat): (k: nat)
    requires from <= |line|
    ensures from <= k <= |line|
    ensures k < |line| ==> line[k] == '#' && NoTerminator(line[k..])
    ensures forall j :: from <= j < k && line[j] == '#' ==> !NoTerminator(line[j..])
    decreases |line| - from
  {
    if from == |line| || (line[from] == '#' && NoTerminator(line[from..])) then from
    else CommentStart(line, from + 1)
  }

  function StripComment(line: string): string {
    line[..CommentStart(line, 0)]
  }

  function ReadLine(raw: string): Line {
    ReadTrimmed(Trim(StripComment(raw)))
  }

  function ReadTrimmed(line: string): Line {
    var colon := IndexOf(line, ":", 0);
    if colon <= 0 then Ignored
    else
      var key := Lower(Trim(line[..colon]));
      var value := Trim(line[colon + 1..]);
      if key == "sitemap" then Sitemap(value)
      else if key == "user-agent" then Agent(Lower(value))
      else if key == "allow" || key == "disallow" then Directive(key == "allow", value)
      else Ignored
  }

  function ReadLines(raw: seq<string>): (lines: seq<Line>)
    ensures |lines| == |raw|
    ensures forall k :: 0 <= k < |raw| ==> lines[k] == ReadLine(raw[k])
  {
    seq(|raw|, k requires 0 <= k < |raw| => ReadLine(raw[k]))
  }

  /** A trailing comment is dropped exactly when nothing after its `#` is a line
      terminator; in particular a carriage return keeps it. */
  lemma CommentStripped(head: string, rest: string)
    requires '#' !in head
    ensures StripComment(head + "#" + rest) == head <==> NoTerminator(rest)
  {
    var line := head + "#" + rest;
    var k := CommentStart(line, 0);
    assert forall j :: 0 <= j < |head| ==> line[j] == head[j];
    assert line[|head|..] == "#" + rest;
    assert line[..|head|] == head;
    assert NoTerminator("#" + rest) <==> NoTerminator(rest) by {
      if NoTerminator("#" + rest) {
        assert forall j :: 0 <= j < |rest| ==> ("#" + rest)[j + 1] == rest[j];
      }
    }
  }

  /** A file with CRLF line ends keeps its trailing comments in the patterns. */
  lemma CarriageReturnKeepsComment()
    ensures StripComment("Disallow: /x # y\r") == "Disallow: /x # y\r"
  {
    var line := "Disallow: /x # y\r";
    assert forall k :: 0 <= k < |line| ==> line[k..][|line| - 1 - k] == '\r';
    assert CommentStart(line, 0) == |line|;
  }

  /** A line whose first visible character is `#` never contributes a rule or an agent. */
  lemma CommentLineIgnored(raw: string)
    requires Trim(raw) != "" && Trim(raw)[0] == '#'
    ensures ReadLine(raw).Ignored?
  {
    var at := TrimRange(raw).0;
    var stripped := StripComment(raw);
    if at < |stripped| {
      assert stripped[..at] == raw[..at];
      TrimAt(stripped, at);
      HashKeyIgnored(Trim(stripped));
    } else {
      assert stripped == raw[..at][..|stripped|];
      assert AllSpace(stripped);
      assert Trim(stripped) == "";
    }
  }

  lemma HashKeyIgnored(line: string)
    requires line != "" && line[0] == '#'
    ensures ReadTrimmed(line).Ignored?
  {
    hide TrimRange;
    var colon := IndexOf(line, ":", 0);
    if colon > 0 {
      TrimAt(line[..colon], 0);
      assert Lower(Trim(line[..colon]))[0] == '#';
    }
  }

  /** A value as it can be written: no comment sign, no white space around it. */
  predicate IsValue(value: string) {
    '#' !in value && (value == "" || (!IsSpace(value[0]) && !IsSpace(value[|value| - 1])))
  }

  /** What a line with this key, in lower case, contributes. */
  function Meaning(name: string, value: string): Line {
    if name == "sitemap" then Sitemap(value)
    else if name == "user-agent" then Agent(Lower(value))
    else if name == "allow" then Directive(true, value)
    else if name == "disallow" then Directive(false, value)
    else Ignored
  }

  predicate IsKey(name: string) {
    name != "" && forall k :: 0 <= k < |name| ==> 'a' <= name[k] <= 'z' || name[k] == '-'
  }

  lemma NothingToStrip(line: string)
    requires '#' !in line
    ensures StripComment(line) == line
  {
  }

  lemma KeyChars(key: string, name: string)
    requires Spells(key, name) && IsKey(name)
    ensures Lower(key) == name && ':' !in key && '#' !in key && key != ""
    ensures !IsSpace(key[0]) && !IsSpace(key[|key| - 1])
  {
    hide Lower;
    SpelledLower(key, name);
    assert forall k :: 0 <= k < |key| ==> 'a' <= key[k] <= 'z' || 'A' <= key[k] <= 'Z' || key[k] == '-';
    hide Spells, IsKey;
  }

  /** A trimmed line is read by its first colon. */
  lemma ReadParts(front: string, back: string, key: string, value: string)
    requires ':' !in front && front != "" && Trim(front) == key && Trim(back) == value
    ensures ReadTrimmed(front + ":" + back) == Meaning(Lower(key), value)
  {
    hide Trim, IndexOf;
    var line := front + ":" + back;
    ColonAt(front, back);
    assert line[..|front|] == front && line[|front| + 1..] == back;
  }

  lemma ColonAt(front: string, back: string)
    requires ':' !in front
    ensures IndexOf(front + ":" + back, ":", 0) == |front|
  {
    var line, k := front + ":" + back, IndexOf(front + ":" + back, ":", 0);
    assert line[|front|..|front| + 1] == ":";
    assert OccursAt(line, ":", |front|);
    if k < |front| { ColonIn(front, back, k); }
  }

  lemma ColonIn(front: string, back: string, k: nat)
    requires k < |front| && OccursAt(front + ":" + back, ":", k)
    ensures ':' in front
  {
    var line := front + ":" + back;
    assert line[k..k + 1][0] == line[k] == front[k];
  }

  /** Every key in any case, with white space anywhere around key and value: which
      kind of line it makes, which flag, which value. */
  lemma LineReads(pad: string, key: string, mid: string, gap: string, value: string, after: string, name: string)
    requires Spells(key, name) && IsKey(name) && IsValue(value)
    requires AllSpace(pad) && AllSpace(mid) && AllSpace(gap) && AllSpace(after)
    ensures ReadLine(pad + key + mid + ":" + gap + value + after) == Meaning(name, value)
  {
    hide ReadTrimmed, Meaning, Trim, StripComment, Spells, IsKey, Lower;
    var raw := pad + key + mid + ":" + gap + value + after;
    KeyChars(key, name);
    NoHash(pad, mid, gap, after);
    assert '#' !in raw;
    NothingToStrip(raw);
    var front := key + mid;
    TrimPadded("", key, mid);
    assert "" + key + mid == front;
    NoColon(mid);
    if value == "" {
      TrimPadded("", "", "");
      TrimPadded(pad, front + ":", gap + after);
      assert raw == pad + (front + ":") + (gap + after);
      assert front + ":" + "" == front + ":" && "" + "" + "" == "";
      ReadParts(front, "", key, value);
    } else {
      TrimPadded(gap, value, "");
      TrimPadded(pad, front + ":" + gap + value, after);
      assert raw == pad + (front + ":" + gap + value) + after;
      assert front + ":" + gap + value == front + ":" + (gap + value) && gap + value + "" == gap + value;
      ReadParts(front, gap + value, key, value);
    }
  }

  lemma NoHash(pad: string, mid: string, gap: string, after: string)
    requires AllSpace(pad) && AllSpace(mid) && AllSpace(gap) && AllSpace(after)
    ensures '#' !in pad && '#' !in mid && '#' !in gap && '#' !in after
  {
  }

  lemma NoColon(pad: string)
    requires AllSpace(pad)
    ensures ':' !in pad
  {
  }

  // ----- Groups -----

  function AddLine(groups: seq<Group>, sawRule: bool, line: Line): (r: (seq<Group>, bool)) {
    match line
    case Ignored => (groups, sawRule)
    case Sitemap(_) => (groups, sawRule)
    case Agent(name) =>
      if groups == [] || sawRule then (groups + [Group([name], [])], false)
      else
        var last := groups[|groups| - 1];
        (groups[|groups| - 1 := last.(agents := last.agents + [name])], sawRule)
    case Directive(allow, value) =>
      if groups == [] then (groups, sawRule)
      else if value == "" then (groups, true)
      else
        var last := groups[|groups| - 1];
        (groups[|groups| - 1 := last.(rules := last.rules + [Rule(allow, value)])], true)
  }

  /** Groups and the rule flag after the first `n` lines. */
  function Groups(lines: seq<Line>, n: nat): (seq<Group>, bool)
    requires n <= |lines|
  {
    if n == 0 then ([], false)
    else
      var before := Groups(lines, n - 1);
      AddLine(before.0, before.1, lines[n - 1])
  }

  predicate AgentApplies(name: string) {
    name == "*" || (name != "" && StartsWith(Lower(USER_AGENT), name))
  }

  /** We answer to everyone's name and to our own, in any case, but to no other. */
  lemma WeAreNamed()
    ensures AgentApplies("*") && AgentApplies(Lower(PRODUCT)) && !AgentApplies("") && !AgentApplies(Lower("Googlebot"))
  {
    hide Lower;
    LowerConcat(PRODUCT, VERSION);
    OurName();
    OtherName();
    var ours, other := "munin-crawler", "googlebot";
    assert (ours + Lower(VERSION))[..|ours|] == ours;
    assert (ours + Lower(VERSION))[..|other|][0] == 'm';
  }

  lemma OurName()
    ensures Lower(PRODUCT) == "munin-crawler"
  {
    hide Lower;
    SpelledLower(PRODUCT, "munin-crawler");
  }

  lemma OtherName()
    ensures Lower("Googlebot") == "googlebot"
  {
    hide Lower;
    SpelledLower("Googlebot", "googlebot");
  }

  predicate GroupApplies(group: Group) {
    exists k :: 0 <= k < |group.agents| && AgentApplies(group.agents[k])
  }

  function ApplicableRules(groups: seq<Group>): seq<Rule> {
    if groups == [] then []
    else
      var last := groups[|groups| - 1];
      ApplicableRules(groups[..|groups| - 1]) + if GroupApplies(last) then last.rules else []
  }

  // ----- Reference: which agent lines govern a directive -----

  /** Agent line `j` governs position `i`: no later agent line before `i` comes
      after a directive, so both belong to one group. */
  ghost predicate Governs(lines: seq<Line>, j: nat, i: nat)
    requires i <= |lines|
  {
    && j < i && lines[j].Agent?
    && !exists d, k :: j < d < k < i && lines[d].Directive? && lines[k].Agent?
  }

  ghost predicate GovernedByUs(lines: seq<Line>, i: nat)
    requires i <= |lines|
  {
    exists j: nat :: Governs(lines, j, i) && AgentApplies(lines[j].name)
  }

  /** The rules in file order that some agent line naming us governs. */
  ghost function ReferenceRules(lines: seq<Line>, n: nat): seq<Rule>
    requires n <= |lines|
  {
    if n == 0 then []
    else if lines[n - 1].Directive? && lines[n - 1].value != "" && GovernedByUs(lines, n - 1) then
      ReferenceRules(lines, n - 1) + [Rule(lines[n - 1].allow, lines[n - 1].value)]
    else
      ReferenceRules(lines, n - 1)
  }

  ghost predicate NoAgentIn(lines: seq<Line>, lo: nat, hi: nat)
    requires hi <= |lines|
  {
    forall k :: lo <= k < hi ==> !lines[k].Agent?
  }

  /** What the line reader knows after `n` lines, in terms of line positions. */
  ghost predicate GroupInv(lines: seq<Line>, n: nat, groups: seq<Group>, sawRule: bool)
    requires n <= |lines|
  {
    && (groups == [] ==> NoAgentIn(lines, 0, n) && !sawRule)
    && (groups != [] ==>
          && (GroupApplies(groups[|groups| - 1]) <==> GovernedByUs(lines, n))
          && (sawRule ==> exists d :: 0 <= d < n && lines[d].Directive? && NoAgentIn(lines, d + 1, n))
          && (!sawRule ==>
                && groups[|groups| - 1].rules == []
                && forall j: nat, d :: Governs(lines, j, n) && j < d < n ==> !lines[d].Directive?))
    && ApplicableRules(groups) == ReferenceRules(lines, n)
  }

  lemma GovernsSkip(lines: seq<Line>, j: nat, n: nat)
    requires n < |lines| && !lines[n].Agent?
    ensures Governs(lines, j, n + 1) <==> Governs(lines, j, n)
  {
  }

  lemma GovernedSkip(lines: seq<Line>, n: nat)
    requires n < |lines| && !lines[n].Agent?
    ensures GovernedByUs(lines, n + 1) <==> GovernedByUs(lines, n)
  {
    forall j: nat ensures Governs(lines, j, n + 1) <==> Governs(lines, j, n) {
      GovernsSkip(lines, j, n);
    }
  }

  lemma ReplaceLast(groups: seq<Group>, group: Group)
    requires groups != []
    ensures ApplicableRules(groups[|groups| - 1 := group]) ==
      ApplicableRules(groups[..|groups| - 1]) + if GroupApplies(group) then group.rules else []
  {
    assert groups[|groups| - 1 := group][..|groups| - 1] == groups[..|groups| - 1];
  }

  lemma InvIgnored(lines: seq<Line>, n: nat, groups: seq<Group>, sawRule: bool)
    requires n < |lines| && !lines[n].Agent? && !lines[n].Directive?
    requires GroupInv(lines, n, groups, sawRule)
    ensures GroupInv(lines, n + 1, groups, sawRule)
  {
    hide Governs, GovernedByUs, GroupApplies, ApplicableRules;
    GovernedSkip(lines, n);
    forall j: nat ensures Governs(lines, j, n + 1) <==> Governs(lines, j, n) {
      GovernsSkip(lines, j, n);
    }
    if sawRule {
      var d :| 0 <= d < n && lines[d].Directive? && NoAgentIn(lines, d + 1, n);
      assert NoAgentIn(lines, d + 1, n + 1);
    }
    assert ReferenceRules(lines, n + 1) == ReferenceRules(lines, n);
    if groups != [] && !sawRule {
      var m := n + 1;
      forall j: nat, d | Governs(lines, j, m) && j < d < m ensures !lines[d].Directive? {
        GovernsSkip(lines, j, n);
      }
    }
  }

  lemma InvDirective(lines: seq<Line>, n: nat, groups: seq<Group>, sawRule: bool)
    requires n < |lines| && lines[n].Directive?
    requires GroupInv(lines, n, groups, sawRule)
    ensures var r := AddLine(groups, sawRule, lines[n]); GroupInv(lines, n + 1, r.0, r.1)
  {
    hide AgentApplies;
    GovernedSkip(lines, n);
    var r := AddLine(groups, sawRule, lines[n]);
    if groups == [] {
      assert !GovernedByUs(lines, n);
    } else {
      assert NoAgentIn(lines, n + 1, n + 1);
      var last := groups[|groups| - 1];
      if lines[n].value != "" {
        var longer := last.(rules := last.rules + [Rule(lines[n].allow, lines[n].value)]);
        assert GroupApplies(longer) <==> GroupApplies(last);
        ReplaceLast(groups, longer);
        ReplaceLast(groups, last);
        assert groups[|groups| - 1 := last] == groups;
      }
    }
  }

  /** An agent line after a rule starts a group that it alone governs. */
  lemma GovernsFresh(lines: seq<Line>, n: nat, j: nat)
    requires n < |lines| && lines[n].Agent?
    requires NoAgentIn(lines, 0, n) || exists d :: 0 <= d < n && lines[d].Directive? && NoAgentIn(lines, d + 1, n)
    ensures Governs(lines, j, n + 1) <==> j == n
  {
  }

  /** An agent line before any rule joins the agents of the open group. */
  lemma GovernsJoin(lines: seq<Line>, n: nat, j: nat)
    requires n < |lines| && lines[n].Agent?
    requires forall i: nat, d :: Governs(lines, i, n) && i < d < n ==> !lines[d].Directive?
    ensures Governs(lines, j, n + 1) <==> Governs(lines, j, n) || j == n
  {
  }

  lemma InvNewGroup(lines: seq<Line>, n: nat, groups: seq<Group>, sawRule: bool)
    requires n < |lines| && lines[n].Agent? && (groups == [] || sawRule)
    requires GroupInv(lines, n, groups, sawRule)
    ensures var r := AddLine(groups, sawRule, lines[n]); GroupInv(lines, n + 1, r.0, r.1)
  {
    hide AgentApplies;
    var newest := Group([lines[n].name], []);
    var r := groups + [newest];
    assert r[..|r| - 1] == groups;
    var m := n + 1;
    forall j: nat ensures Governs(lines, j, m) ==> j == n {
      GovernsFresh(lines, n, j);
    }
    assert Governs(lines, n, m);
    assert GroupApplies(newest) <==> AgentApplies(lines[n].name) by {
      assert newest.agents[0] == lines[n].name;
    }
  }

  lemma InvJoinGroup(lines: seq<Line>, n: nat, groups: seq<Group>)
    requires n < |lines| && lines[n].Agent? && groups != []
    requires GroupInv(lines, n, groups, false)
    ensures var r := AddLine(groups, false, lines[n]); GroupInv(lines, n + 1, r.0, r.1)
  {
    hide AgentApplies;
    var last := groups[|groups| - 1];
    var wider := last.(agents := last.agents + [lines[n].name]);
    forall j: nat ensures Governs(lines, j, n + 1) <==> Governs(lines, j, n) || j == n {
      GovernsJoin(lines, n, j);
    }
    assert Governs(lines, n, n + 1);
    assert GroupApplies(wider) <==> GroupApplies(last) || AgentApplies(lines[n].name) by {
      assert wider.agents[|last.agents|] == lines[n].name;
      assert forall k :: 0 <= k < |last.agents| ==> wider.agents[k] == last.agents[k];
    }
    ReplaceLast(groups, wider);
    ReplaceLast(groups, last);
    assert groups[|groups| - 1 := last] == groups;
  }

  lemma {:induction false} GroupsInv(lines: seq<Line>, n: nat)
    requires n <= |lines|
    ensures GroupInv(lines, n, Groups(lines, n).0, Groups(lines, n).1)
  {
    hide GroupInv, AddLine;
    if n == 0 {
      NothingRead(lines);
    } else {
      GroupsInv(lines, n - 1);
      var before := Groups(lines, n - 1);
      InvStep(lines, n - 1, before.0, before.1);
    }
  }

  lemma NothingRead(lines: seq<Line>)
    ensures GroupInv(lines, 0, [], false)
  {
  }

  lemma InvRules(lines: seq<Line>, n: nat, groups: seq<Group>, sawRule: bool)
    requires n <= |lines| && GroupInv(lines, n, groups, sawRule)
    ensures ApplicableRules(groups) == ReferenceRules(lines, n)
  {
  }

  lemma InvStep(lines: seq<Line>, n: nat, groups: seq<Group>, sawRule: bool)
    requires n < |lines| && GroupInv(lines, n, groups, sawRule)
    ensures var r := AddLine(groups, sawRule, lines[n]); GroupInv(lines, n + 1, r.0, r.1)
  {
    if lines[n].Directive? {
      InvDirective(lines, n, groups, sawRule);
    } else if !lines[n].Agent? {
      InvIgnored(lines, n, groups, sawRule);
    } else if groups == [] || sawRule {
      InvNewGroup(lines, n, groups, sawRule);
    } else {
      InvJoinGroup(lines, n, groups);
    }
  }

  /** The grouping reader yields exactly the rules governed by an agent line that names us. */
  lemma RulesAreGoverned(lines: seq<Line>)
    ensures ApplicableRules(Groups(lines, |lines|).0) == ReferenceRules(lines, |lines|)
  {
    GroupsInv(lines, |lines|);
  }

  // ----- Lines that do not matter -----

  /** Neither the groups nor the flag see an ignored or sitemap line. */
  lemma {:induction false} SkipLine(front: seq<Line>, x: Line, back: seq<Line>, n: nat)
    requires x.Ignored? || x.Sitemap?
    requires n <= |back|
    ensures Groups(front + [x] + back, |front| + 1 + n) == Groups(front + back, |front| + n)
    decreases n
  {
    var long, short := front + [x] + back, front + back;
    if n == 0 {
      GroupsPrefix(long, short, |front|);
      assert long[|front|] == x;
    } else {
      SkipLine(front, x, back, n - 1);
      assert long[|front| + n] == back[n - 1] == short[|front| + n - 1];
    }
  }

  lemma {:induction false} GroupsPrefix(a: seq<Line>, b: seq<Line>, n: nat)
    requires n <= |a| && n <= |b| && a[..n] == b[..n]
    ensures Groups(a, n) == Groups(b, n)
  {
    if n > 0 {
      assert a[n - 1] == a[..n][n - 1] == b[n - 1];
      assert a[..n - 1] == a[..n][..n - 1] == b[..n - 1];
      GroupsPrefix(a, b, n - 1);
    }
  }

  function Lines(text: string): seq<Line> {
    ReadLines(Split(text, '\n'))
  }

  function RulesOf(lines: seq<Line>): seq<Rule> {
    ApplicableRules(Groups(lines, |lines|).0)
  }

  /** Adding or deleting a comment, sitemap or unknown line anywhere in the file,
      inside, at the top, at the bottom or as its only line, leaves the rules as
      they were. */
  lemma ForeignLineInvisible(front: string, raw: string, back: string)
    requires '\n' !in raw
    requires ReadLine(raw).Ignored? || ReadLine(raw).Sitemap?
    ensures RulesOf(Lines(front + "\n" + raw + "\n" + back)) == RulesOf(Lines(front + "\n" + back))
    ensures RulesOf(Lines(raw + "\n" + back)) == RulesOf(Lines(back))
    ensures RulesOf(Lines(front + "\n" + raw)) == RulesOf(Lines(front))
    ensures RulesOf(Lines(raw)) == RulesOf([])
  {
    hide Lines, RulesOf, ReadLine;
    LinesConcat(front, back);
    LinesConcat(front + "\n" + raw, back);
    LinesConcat(front, raw);
    LinesConcat(raw, back);
    SingleLine(raw);
    var x := ReadLine(raw);
    RulesSkipLine(Lines(front), x, Lines(back));
    RulesSkipLine([], x, Lines(back));
    RulesSkipLine(Lines(front), x, []);
    var none: seq<Line> := [];
    RulesSkipLine(none, x, none);
    assert [] + [x] + Lines(back) == [x] + Lines(back) && [] + Lines(back) == Lines(back);
    assert Lines(front) + [x] + [] == Lines(front) + [x] && Lines(front) + [] == Lines(front);
    assert none + [x] + none == [x] && none + none == none;
  }

  lemma RulesSkipLine(front: seq<Line>, x: Line, back: seq<Line>)
    requires x.Ignored? || x.Sitemap?
    ensures RulesOf(front + [x] + back) == RulesOf(front + back)
  {
    SkipLine(front, x, back, |back|);
  }

  lemma LinesConcat(front: string, back: string)
    ensures Lines(front + "\n" + back) == Lines(front) + Lines(back)
  {
    SplitConcat(front, back, '\n');
  }

  lemma SingleLine(raw: string)
    requires '\n' !in raw
    ensures Lines(raw) == [ReadLine(raw)]
  {
    SplitWhole(raw, '\n');
  }

  function SitemapUrls(lines: seq<Line>, n: nat): seq<string>
    requires n <= |lines|
  {
    if n == 0 then []
    else SitemapUrls(lines, n - 1) + (if lines[n - 1].Sitemap? then [lines[n - 1].url] else [])
  }

  /** Takes line `n` into the groups and the flag: what they say about which agent
      lines govern which rules then holds for one line more. */
  method TakeLine(ghost lines: seq<Line>, ghost n: nat, groups: seq<Group>, sawRule: bool, line: Line)
      returns (groups': seq<Group>, sawRule': bool)
    requires n < |lines| && lines[n] == line && GroupInv(lines, n, groups, sawRule)
    ensures GroupInv(lines, n + 1, groups', sawRule')
  {
    hide GroupInv;
    InvStep(lines, n, groups, sawRule);
    groups', sawRule' := groups, sawRule;
    match line
    case Ignored =>
    case Sitemap(_) =>
    case Agent(name) =>
      if groups == [] || sawRule {
        groups' := groups + [Group([name], [])];
        sawRule' := false;
      } else {
        var last := groups[|groups| - 1];
        groups' := groups[|groups| - 1 := last.(agents := last.agents + [name])];
      }
    case Directive(allow, value) =>
      if groups != [] {
        sawRule' := true;
        if value != "" {
          var last := groups[|groups| - 1];
          groups' := groups[|groups| - 1 := last.(rules := last.rules + [Rule(allow, value)])];
        }
      }
  }

  /** Reads a file; the groups are updated line by line. */
  method ParseRobots(text: string) returns (sitemaps: seq<string>, rules: seq<Rule>)
    ensures sitemaps == SitemapUrls(Lines(text), |Lines(text)|)
    ensures rules == ReferenceRules(Lines(text), |Lines(text)|)
    ensures rules == RulesOf(Lines(text))
  {
    hide ReadLine, GroupInv, Groups, ReferenceRules;
    sitemaps := [];
    var groups: seq<Group> := [];
    var sawRule := false;
    var raw := Split(text, '\n');
    ghost var lines := ReadLines(raw);
    NothingRead(lines);
    for i := 0 to |raw|
      invariant GroupInv(lines, i, groups, sawRule)
      invariant sitemaps == SitemapUrls(lines, i)
    {
      var line := ReadLine(raw[i]);
      assert line == lines[i];
      if line.Sitemap? {
        sitemaps := sitemaps + [line.url];
      }
      groups, sawRule := TakeLine(lines, i, groups, sawRule, line);
    }
    RulesAreGoverned(lines);
    rules := ApplicableRules(groups);
    InvRules(lines, |lines|, groups, sawRule);
  }

  // ----- The verdict -----

  function PatternLength(pattern: string): nat {
    if RobotsPattern.Anchored(pattern) then |pattern| - 1 else |pattern|
  }

  /** A pattern is as long as it is written, but a closing `$` does not count. */
  lemma PatternLengths(p: string)
    ensures PatternLength(p + "$") == |p|
    ensures (p == "" || p[|p| - 1] != '$') ==> PatternLength(p) == |p|
  {
    var anchored := p + "$";
    assert anchored[|p|..] == "$";
    assert p != "" ==> p[|p| - 1..] == [p[|p| - 1]];
  }

  ghost predicate Hits(rule: Rule, path: string) {
    RobotsPattern.Matches(rule.pattern, path)
  }

  /** Every matching disallow rule is answered by a matching allow rule at least as long. */
  ghost predicate Permitted(rules: seq<Rule>, path: string) {
    forall d :: d in rules && !d.allow && Hits(d, path) ==>
      exists a :: a in rules && a.allow && Hits(a, path) && PatternLength(a.pattern) >= PatternLength(d.pattern)
  }

  /** The best rule among `seen`: it matches, none is longer, and an allow rule wins ties. */
  ghost predicate Best(seen: seq<Rule>, path: string, best: Rule) {
    && best in seen && Hits(best, path)
    && forall r :: r in seen && Hits(r, path) ==>
         && PatternLength(r.pattern) <= PatternLength(best.pattern)
         && (PatternLength(r.pattern) == PatternLength(best.pattern) && r.allow ==> best.allow)
  }

  method IsAllowed(rules: seq<Rule>, path: string) returns (r: bool)
    ensures r <==> Permitted(rules, path)
  {
    hide RobotsPattern.Matches, PatternLength;
    var best := Rule(true, "");
    var bestLength: int := -1;
    for i := 0 to |rules|
      invariant bestLength == -1 ==> forall x :: x in rules[..i] ==> !Hits(x, path)
      invariant bestLength != -1 ==> bestLength == PatternLength(best.pattern) && Best(rules[..i], path, best)
    {
      var rule := rules[i];
      assert rules[..i + 1] == rules[..i] + [rule];
      var hit := RobotsPattern.MatchesRobotsPattern(rule.pattern, path);
      if hit {
        var length := PatternLength(rule.pattern);
        if length > bestLength || (length == bestLength && rule.allow) {
          best := rule;
          bestLength := length;
        }
      }
    }
    assert rules[..|rules|] == rules;
    return if bestLength != -1 then best.allow else true;
  }

  /** The verdict depends only on which rules the file holds, not on their order
      or repetition. */
  lemma VerdictIgnoresOrder(rules: seq<Rule>, others: seq<Rule>, path: string)
    requires forall r :: r in rules <==> r in others
    ensures Permitted(rules, path) <==> Permitted(others, path)
  {
    if Permitted(rules, path) {
      forall d | d in others && !d.allow && Hits(d, path)
        ensures exists a :: a in others && a.allow && Hits(a, path) && PatternLength(a.pattern) >= PatternLength(d.pattern)
      {
        var a :| a in rules && a.allow && Hits(a, path) && PatternLength(a.pattern) >= PatternLength(d.pattern);
      }
    }
    if Permitted(others, path) {
      forall d | d in rules && !d.allow && Hits(d, path)
        ensures exists a :: a in rules && a.allow && Hits(a, path) && PatternLength(a.pattern) >= PatternLength(d.pattern)
      {
        var a :| a in others && a.allow && Hits(a, path) && PatternLength(a.pattern) >= PatternLength(d.pattern);
      }
    }
  }

  /** `parseRobots(text).isAllowed(path)`. */
  method AllowedBy(text: string, path: string) returns (r: bool)
    ensures r <==> Permitted(ReferenceRules(Lines(text), |Lines(text)|), path)
  {
    var _, rules := ParseRobots(text);
    r := IsAllowed(rules, path);
  }

  /** A pattern without special signs. */
  predicate IsPlain(p: string) {
    p != "" && IsValue(p) && '*' !in p && '$' !in p && '\n' !in p
  }

  lemma PlainHits(p: string, path: string)
    requires IsPlain(p)
    ensures RobotsPattern.Matches(p, path) <==> StartsWith(path, p)
  {
    hide RobotsPattern.Matches, RobotsPattern.Chain;
    assert !EndsWith(p, "$") by { assert p[|p| - 1..][0] == p[|p| - 1]; }
    SplitWhole(p, '*');
    RobotsPattern.MatchesIffChain(p, path);
    if StartsWith(path, p) { RobotsPattern.ChainNone(path[|p|..], false); }
  }

  lemma OneGroup(agent: string, p: string)
    requires p != ""
    ensures Groups([Agent(agent), Directive(false, p)], 2) == ([Group([agent], [Rule(false, p)])], true)
  {
    hide AgentApplies, GroupApplies;
    var lines := [Agent(agent), Directive(false, p)];
    var none: seq<Group> := [];
    var first, g := Group([agent], []), Group([agent], [Rule(false, p)]);
    assert none + [first] == [first] && first.rules + [Rule(false, p)] == g.rules && [first][0 := g] == [g];
    assert AddLine(none, false, lines[0]) == ([first], false);
    assert AddLine([first], false, lines[1]) == ([g], true);
    hide AddLine;
    assert Groups(lines, 0) == (none, false);
    assert Groups(lines, 1) == ([first], false);
  }

  lemma OneApplies(g: Group)
    requires |g.agents| == 1 && AgentApplies(g.agents[0])
    ensures ApplicableRules([g]) == g.rules
  {
    hide AgentApplies;
    var none: seq<Group> := [];
    assert [g][..0] == none && ApplicableRules(none) == [];
    assert GroupApplies(g);
  }

  /** An agent line and one disallow line make one rule. */
  lemma OneRule(agent: string, p: string)
    requires AgentApplies(agent) && p != ""
    ensures RulesOf([Agent(agent), Directive(false, p)]) == [Rule(false, p)]
  {
    hide AgentApplies, Groups, ApplicableRules;
    OneGroup(agent, p);
    OneApplies(Group([agent], [Rule(false, p)]));
  }

  /** A file that names us and disallows one plain path forbids exactly the paths
      that start with it. */
  lemma OneDisallow(agent: string, p: string, path: string)
    requires IsValue(agent) && '\n' !in agent && AgentApplies(Lower(agent)) && IsPlain(p)
    ensures Permitted(RulesOf(Lines("User-agent: " + agent + "\nDisallow: " + p)), path) <==> !StartsWith(path, p)
  {
    OneDisallowRules(agent, p);
    var rules := RulesOf(Lines("User-agent: " + agent + "\nDisallow: " + p));
    hide RulesOf, Lines, RobotsPattern.Matches, PatternLength, IsValue, AgentApplies;
    PlainHits(p, path);
    assert rules[0] == Rule(false, p);
    assert forall a :: a in rules ==> !a.allow;
  }

  lemma OneDisallowRules(agent: string, p: string)
    requires IsValue(agent) && '\n' !in agent && AgentApplies(Lower(agent)) && IsPlain(p)
    ensures RulesOf(Lines("User-agent: " + agent + "\nDisallow: " + p)) == [Rule(false, p)]
  {
    hide RulesOf, Lines, ReadLine, AgentApplies, IsValue;
    var first, second := "User-agent: " + agent, "Disallow: " + p;
    assert "User-agent: " + agent + "\nDisallow: " + p == first + "\n" + second;
    LinesConcat(first, second);
    SingleLine(first);
    SingleLine(second);
    AgentLine(agent);
    DisallowLine(p);
    OneRule(Lower(agent), p);
    assert [Agent(Lower(agent))] + [Directive(false, p)] == [Agent(Lower(agent)), Directive(false, p)];
  }

  lemma AgentLine(agent: string)
    requires IsValue(agent)
    ensures ReadLine("User-agent: " + agent) == Agent(Lower(agent))
  {
    hide ReadLine, IsValue;
    LineReads("", "User-agent", "", " ", agent, "", "user-agent");
    assert "" + "User-agent" + "" + ":" + " " + agent + "" == "User-agent: " + agent;
  }

  lemma DisallowLine(p: string)
    requires IsValue(p)
    ensures ReadLine("Disallow: " + p) == Directive(false, p)
  {
    hide ReadLine, IsValue;
    LineReads("", "Disallow", "", " ", p, "", "disallow");
    assert "" + "Disallow" + "" + ":" + " " + p + "" == "Disallow: " + p;
  }

  /** The longer rule decides, whichever way round it is written. */
  lemma LongerRuleDecides(p: string, q: string, path: string, allowLonger: bool)
    requires IsPlain(p) && IsPlain(q) && |p| < |q| && StartsWith(path, p) && StartsWith(path, q)
    ensures Permitted([Rule(!allowLonger, p), Rule(allowLonger, q)], path) <==> allowLonger
  {
    hide RobotsPattern.Matches, PatternLength, IsValue, StartsWith;
    PlainHits(p, path);
    PlainHits(q, path);
    PatternLengths(p);
    PatternLengths(q);
    var rules := [Rule(!allowLonger, p), Rule(allowLonger, q)];
    assert rules[0] in rules && rules[1] in rules;
  }
}
