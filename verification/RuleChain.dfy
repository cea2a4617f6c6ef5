/** The rule lines of the legacy ontology: chains of token groups joined by "=>" and "=". */
module RuleChain {
  import opened PythonText

  datatype Operator = Equal | Implies

  /** left => right */
  type Rule = (string, string)

  // ---------- reading a line ----------

  /** re.split around "=>" and "=": the segments between them, and the operators. */
  function SplitLine(line: string, segment: string): (r: (seq<string>, seq<Operator>))
    ensures |r.0| == |r.1| + 1
    decreases |line|
  {
    if line == "" then ([segment], [])
    else if line[0] == '=' && |line| > 1 && line[1] == '>' then
      var rest := SplitLine(line[2..], "");
      ([segment] + rest.0, [Implies] + rest.1)
    else if line[0] == '=' then
      var rest := SplitLine(line[1..], "");
      ([segment] + rest.0, [Equal] + rest.1)
    else SplitLine(line[1..], segment + [line[0]])
  }

  function Groups(segments: seq<string>): (groups: seq<seq<string>>)
    ensures |groups| == |segments|
  {
    seq(|segments|, i requires 0 <= i < |segments| => Split(segments[i], ""))
  }

  ghost predicate WellFormed(groups: seq<seq<string>>, operators: seq<Operator>) {
    |groups| == |operators| + 1 && operators != [] && forall i :: 0 <= i < |groups| ==> groups[i] != []
  }

  // ---------- the chain ----------

  /** The tokens that the next operator starts from, after `n` operators. */
  function Carried(groups: seq<seq<string>>, operators: seq<Operator>, n: nat): seq<string>
    requires n < |groups| && |groups| == |operators| + 1 && forall i :: 0 <= i < |groups| ==> groups[i] != []
  {
    if n > 0 && operators[n - 1] == Equal then [groups[n][|groups[n]| - 1]] else groups[n]
  }

  function Pairs(lefts: seq<string>, rights: seq<string>): set<Rule> {
    set i, j | 0 <= i < |lefts| && 0 <= j < |rights| && lefts[i] != rights[j] :: (lefts[i], rights[j])
  }

  /** The rules after `n` operators. */
  ghost function Rules(groups: seq<seq<string>>, operators: seq<Operator>, n: nat): set<Rule>
    requires n <= |operators| && |groups| == |operators| + 1 && forall i :: 0 <= i < |groups| ==> groups[i] != []
  {
    if n == 0 then {}
    else
      var lefts, rights := Carried(groups, operators, n - 1), groups[n];
      Rules(groups, operators, n - 1) + Pairs(lefts, rights)
      + (if operators[n - 1] == Equal then Pairs(rights, lefts) else {})
  }

  method AddPairs(rules: set<Rule>, lefts: seq<string>, rights: seq<string>, both: bool) returns (more: set<Rule>)
    ensures more == rules + Pairs(lefts, rights) + (if both then Pairs(rights, lefts) else {})
  {
    more := rules;
    for i := 0 to |lefts|
      invariant more == rules + Pairs(lefts[..i], rights) + (if both then Pairs(rights, lefts[..i]) else {})
    {
      for j := 0 to |rights|
        invariant more == rules + Pairs(lefts[..i], rights) + Pairs([lefts[i]], rights[..j])
          + (if both then Pairs(rights, lefts[..i]) + Pairs(rights[..j], [lefts[i]]) else {})
      {
        PairsOfOne(lefts[i], rights, j);
        if lefts[i] != rights[j] {
          more := more + {(lefts[i], rights[j])};
          if both {
            more := more + {(rights[j], lefts[i])};
          }
        }
      }
      assert rights[..|rights|] == rights;
      PairsOfMore(lefts, i, rights);
    }
    assert lefts[..|lefts|] == lefts;
  }

  lemma {:induction false} PairsOfOne(left: string, rights: seq<string>, j: nat)
    requires j < |rights|
    ensures Pairs([left], rights[..j + 1])
        == Pairs([left], rights[..j]) + (if left != rights[j] then {(left, rights[j])} else {})
    ensures Pairs(rights[..j + 1], [left])
        == Pairs(rights[..j], [left]) + (if left != rights[j] then {(rights[j], left)} else {})
  {
    forall rule: Rule
      ensures rule in Pairs([left], rights[..j + 1]) <==>
        rule in Pairs([left], rights[..j]) || (left != rights[j] && rule == (left, rights[j]))
      ensures rule in Pairs(rights[..j + 1], [left]) <==>
        rule in Pairs(rights[..j], [left]) || (left != rights[j] && rule == (rights[j], left))
    {
      InPairs([left], rights[..j + 1], rule);
      InPairs([left], rights[..j], rule);
      InPairs(rights[..j + 1], [left], rule);
      InPairs(rights[..j], [left], rule);
      assert rights[..j + 1] == rights[..j] + [rights[j]];
      hide Pairs;
    }
  }

  lemma {:induction false} InPairs(lefts: seq<string>, rights: seq<string>, rule: Rule)
    ensures rule in Pairs(lefts, rights) <==> rule.0 in lefts && rule.1 in rights && rule.0 != rule.1
  {
    if rule.0 in lefts && rule.1 in rights && rule.0 != rule.1 {
      var i :| 0 <= i < |lefts| && lefts[i] == rule.0;
      var j :| 0 <= j < |rights| && rights[j] == rule.1;
      assert rule == (lefts[i], rights[j]);
    }
  }

  lemma {:induction false} PairsOfMore(lefts: seq<string>, i: nat, rights: seq<string>)
    requires i < |lefts|
    ensures Pairs(lefts[..i + 1], rights) == Pairs(lefts[..i], rights) + Pairs([lefts[i]], rights)
    ensures Pairs(rights, lefts[..i + 1]) == Pairs(rights, lefts[..i]) + Pairs(rights, [lefts[i]])
  {
    forall rule: Rule
      ensures rule in Pairs(lefts[..i + 1], rights) <==> rule in Pairs(lefts[..i], rights) + Pairs([lefts[i]], rights)
      ensures rule in Pairs(rights, lefts[..i + 1]) <==> rule in Pairs(rights, lefts[..i]) + Pairs(rights, [lefts[i]])
    {
      InPairs(lefts[..i + 1], rights, rule);
      InPairs(lefts[..i], rights, rule);
      InPairs([lefts[i]], rights, rule);
      InPairs(rights, lefts[..i + 1], rule);
      InPairs(rights, lefts[..i], rule);
      InPairs(rights, [lefts[i]], rule);
      assert lefts[..i + 1] == lefts[..i] + [lefts[i]];
      hide Pairs;
    }
  }

  /** No rules unless the line has an operator and a token on each side of every operator. */
  method ExtractRulesFromLine(line: string) returns (rules: set<Rule>)
    ensures var parts := SplitLine(line, "");
            var groups := Groups(parts.0);
            rules == if WellFormed(groups, parts.1) then Rules(groups, parts.1, |parts.1|) else {}
  {
    hide Pairs;
    var parts := SplitLine(line, "");
    if |parts.1| == 0 { return {}; }
    var groups := Groups(parts.0);
    for i := 0 to |groups|
      invariant forall j :: 0 <= j < i ==> groups[j] != []
    {
      if groups[i] == [] { return {}; }
    }
    rules := {};
    var current := groups[0];
    for n := 0 to |parts.1|
      invariant rules == Rules(groups, parts.1, n) && current == Carried(groups, parts.1, n)
    {
      var next := groups[n + 1];
      rules := AddPairs(rules, current, next, parts.1[n] == Equal);
      current := if parts.1[n] == Equal then [next[|next| - 1]] else next;
    }
  }

  // ---------- what the rules imply together ----------

  ghost predicate Walks(rules: set<Rule>, path: seq<string>) {
    path != [] && forall i :: 0 <= i < |path| - 1 ==> path[i] == path[i + 1] || (path[i], path[i + 1]) in rules
  }

  /** `b` follows from `a` through any number of rules, none included. */
  ghost predicate Reaches(rules: set<Rule>, a: string, b: string) {
    exists path :: Walks(rules, path) && path[0] == a && path[|path| - 1] == b
  }

  lemma {:induction false} ReachesSelf(rules: set<Rule>, a: string)
    ensures Reaches(rules, a, a)
  {
    assert Walks(rules, [a]);
  }

  lemma {:induction false} ReachesByRule(rules: set<Rule>, a: string, b: string)
    requires a == b || (a, b) in rules
    ensures Reaches(rules, a, b)
  {
    assert Walks(rules, [a, b]);
  }

  lemma {:induction false} ReachesOn(rules: set<Rule>, a: string, b: string, c: string)
    requires Reaches(rules, a, b) && Reaches(rules, b, c)
    ensures Reaches(rules, a, c)
  {
    var first :| Walks(rules, first) && first[0] == a && first[|first| - 1] == b;
    var second :| Walks(rules, second) && second[0] == b && second[|second| - 1] == c;
    assert Walks(rules, first + second);
  }

  lemma {:induction false} ReachesMore(fewer: set<Rule>, more: set<Rule>, a: string, b: string)
    requires fewer <= more && Reaches(fewer, a, b)
    ensures Reaches(more, a, b)
  {
    var path :| Walks(fewer, path) && path[0] == a && path[|path| - 1] == b;
    assert Walks(more, path);
  }

  /** Step `n` joins every carried token with every token of the next group. */
  lemma {:induction false} StepJoins(groups: seq<seq<string>>, operators: seq<Operator>, n: nat, x: string, y: string)
    requires WellFormed(groups, operators) && n < |operators| && x in Carried(groups, operators, n)
    requires y in groups[n + 1]
    ensures Reaches(Rules(groups, operators, n + 1), x, y)
    ensures operators[n] == Equal ==> Reaches(Rules(groups, operators, n + 1), y, x)
  {
    var rules := Rules(groups, operators, n + 1);
    InPairs(Carried(groups, operators, n), groups[n + 1], (x, y));
    InPairs(groups[n + 1], Carried(groups, operators, n), (y, x));
    ReachesByRule(rules, x, y);
    if operators[n] == Equal {
      ReachesByRule(rules, y, x);
    }
  }

  /** Every token of a group reaches a token that is carried on, though only one may be. */
  lemma {:induction false} ReachesCarried(groups: seq<seq<string>>, operators: seq<Operator>, n: nat, x: string)
    returns (c: string)
    requires WellFormed(groups, operators) && n <= |operators| && x in groups[n]
    ensures c in Carried(groups, operators, n) && Reaches(Rules(groups, operators, n), x, c)
  {
    hide Rules;
    if n > 0 && operators[n - 1] == Equal {
      c := groups[n][|groups[n]| - 1];
      var before := Carried(groups, operators, n - 1)[0];
      StepJoins(groups, operators, n - 1, before, x);
      StepJoins(groups, operators, n - 1, before, c);
      ReachesOn(Rules(groups, operators, n), x, before, c);
    } else {
      c := x;
      ReachesSelf(Rules(groups, operators, n), x);
    }
  }

  lemma {:induction false} RulesGrow(groups: seq<seq<string>>, operators: seq<Operator>, n: nat, x: string, y: string)
    requires WellFormed(groups, operators) && n < |operators| && Reaches(Rules(groups, operators, n), x, y)
    ensures Reaches(Rules(groups, operators, n + 1), x, y)
  {
    ReachesMore(Rules(groups, operators, n), Rules(groups, operators, n + 1), x, y);
  }

  /** What reaches a token before the last step reaches all of the last group. */
  lemma {:induction false} LastStepReaches(groups: seq<seq<string>>, operators: seq<Operator>, n: nat, x: string,
        z: string, y: string)
    requires WellFormed(groups, operators) && 0 < n <= |operators| && z in groups[n - 1] && y in groups[n]
    requires Reaches(Rules(groups, operators, n - 1), x, z)
    ensures Reaches(Rules(groups, operators, n), x, y)
  {
    hide Rules, Reaches, Carried;
    var rules := Rules(groups, operators, n);
    var c := ReachesCarried(groups, operators, n - 1, z);
    RulesGrow(groups, operators, n - 1, x, z);
    RulesGrow(groups, operators, n - 1, z, c);
    StepJoins(groups, operators, n - 1, c, y);
    ReachesOn(rules, x, z, c);
    ReachesOn(rules, x, c, y);
  }

  /** Each token of an earlier group reaches each token of any later one. */
  lemma {:induction false} EarlierReachesLater(groups: seq<seq<string>>, operators: seq<Operator>, n: nat, i: nat,
        j: nat, x: string, y: string)
    requires WellFormed(groups, operators) && n <= |operators| && i < j <= n && x in groups[i] && y in groups[j]
    ensures Reaches(Rules(groups, operators, n), x, y)
    decreases n
  {
    hide Rules, Reaches, Carried;
    if j < n {
      EarlierReachesLater(groups, operators, n - 1, i, j, x, y);
      RulesGrow(groups, operators, n - 1, x, y);
    } else if i == n - 1 {
      ReachesSelf(Rules(groups, operators, n - 1), x);
      LastStepReaches(groups, operators, n, x, x, y);
    } else {
      var z := groups[n - 1][0];
      EarlierReachesLater(groups, operators, n - 1, i, n - 1, x, z);
      LastStepReaches(groups, operators, n, x, z, y);
    }
  }

  /** In a line of "=" only, every token reaches every other. */
  lemma {:induction false} EqualsReachAll(groups: seq<seq<string>>, operators: seq<Operator>, n: nat, i: nat, j: nat,
        x: string, y: string)
    requires WellFormed(groups, operators) && 0 < n <= |operators| && i <= n && j <= n && x in groups[i]
    requires y in groups[j]
    requires forall k :: 0 <= k < |operators| ==> operators[k] == Equal
    ensures Reaches(Rules(groups, operators, n), x, y)
    decreases n, 1
  {
    hide Rules;
    var c := Carried(groups, operators, n - 1)[0];
    ToCarried(groups, operators, n, i, x);
    ToCarried(groups, operators, n, j, y);
    ReachesOn(Rules(groups, operators, n), x, c, y);
  }

  /** Both ways between any token and the one carried into the last step. */
  lemma {:induction false} ToCarried(groups: seq<seq<string>>, operators: seq<Operator>, n: nat, i: nat, x: string)
    requires WellFormed(groups, operators) && 0 < n <= |operators| && i <= n && x in groups[i]
    requires forall k :: 0 <= k < |operators| ==> operators[k] == Equal
    ensures var c := Carried(groups, operators, n - 1)[0];
            Reaches(Rules(groups, operators, n), x, c) && Reaches(Rules(groups, operators, n), c, x)
    decreases n, 0
  {
    hide Rules;
    var rules := Rules(groups, operators, n);
    var carried := Carried(groups, operators, n - 1);
    var c := carried[0];
    if i == n {
      StepJoins(groups, operators, n - 1, c, x);
    } else if n == 1 {
      var z := groups[1][0];
      StepJoins(groups, operators, 0, x, z);
      StepJoins(groups, operators, 0, c, z);
      ReachesOn(rules, x, z, c);
      ReachesOn(rules, c, z, x);
    } else {
      assert c in groups[n - 1];
      EqualsReachAll(groups, operators, n - 1, i, n - 1, x, c);
      EqualsReachAll(groups, operators, n - 1, n - 1, i, c, x);
      RulesGrow(groups, operators, n - 1, x, c);
      RulesGrow(groups, operators, n - 1, c, x);
    }
  }

  // ---------- lines and what is read from them ----------

  function Sign(operator: Operator): string {
    if operator.Implies? then "=>" else "="
  }

  /** A line written out of its segments. */
  function Line(segments: seq<string>, operators: seq<Operator>): string
    requires |segments| == |operators| + 1
  {
    if operators == [] then segments[0]
    else segments[0] + Sign(operators[0]) + Line(segments[1..], operators[1..])
  }

  predicate NoSign(segment: string) {
    forall i :: 0 <= i < |segment| ==> segment[i] != '='
  }

  /** Segments without "=", none of which turns the "=" before it into "=>". */
  ghost predicate Readable(segments: seq<string>, operators: seq<Operator>) {
    && |segments| == |operators| + 1 && (forall i :: 0 <= i < |segments| ==> NoSign(segments[i]))
    && forall i :: 0 <= i < |operators| && operators[i] == Equal ==> segments[i + 1] == "" || segments[i + 1][0] != '>'
  }

  /** The first segment and operator of what follows the text read so far. */
  lemma {:induction false} SplitWord(before: string, word: string, rest: string)
    requires NoSign(word)
    ensures SplitLine(word + rest, before) == SplitLine(rest, before + word)
    decreases word
  {
    if word == "" {
      assert word + rest == rest && before + word == before;
    } else {
      assert (word + rest)[0] == word[0] && (word + rest)[1..] == word[1..] + rest;
      SplitWord(before + [word[0]], word[1..], rest);
      assert before + [word[0]] + word[1..] == before + word;
    }
  }

  lemma {:induction false} SplitSign(before: string, operator: Operator, rest: string)
    requires operator == Equal ==> rest == "" || rest[0] != '>'
    ensures var later := SplitLine(rest, "");
      SplitLine(Sign(operator) + rest, before) == ([before] + later.0, [operator] + later.1)
  {
    var line := Sign(operator) + rest;
    if operator.Implies? {
      assert line[0] == '=' && line[1] == '>' && line[2..] == rest;
    } else {
      assert line[0] == '=' && line[1..] == rest;
    }
  }

  /** Reading a line gives the segments and operators it was written out of. */
  lemma {:induction false} ReadsBack(segments: seq<string>, operators: seq<Operator>)
    requires Readable(segments, operators)
    ensures SplitLine(Line(segments, operators), "") == (segments, operators)
    decreases operators
  {
    if operators == [] {
      SplitWord("", segments[0], "");
      assert segments[0] + "" == segments[0] == "" + segments[0] && segments == [segments[0]];
    } else {
      var rest := Line(segments[1..], operators[1..]);
      ReadsBack(segments[1..], operators[1..]);
      SplitWord("", segments[0], Sign(operators[0]) + rest);
      if operators[0] == Equal {
        FirstOfLine(segments[1..], operators[1..]);
      }
      SplitSign("" + segments[0], operators[0], rest);
      assert segments[0] + Sign(operators[0]) + rest == segments[0] + (Sign(operators[0]) + rest);
      assert "" + segments[0] == segments[0];
      assert [segments[0]] + segments[1..] == segments && [operators[0]] + operators[1..] == operators;
    }
  }

  lemma {:induction false} FirstOfLine(segments: seq<string>, operators: seq<Operator>)
    requires Readable(segments, operators) && (segments[0] == "" || segments[0][0] != '>')
    ensures Line(segments, operators) == "" || Line(segments, operators)[0] != '>'
  {
    if operators != [] && segments[0] == "" {
      assert Line(segments, operators)[0] == Sign(operators[0])[0] == '=';
    }
  }

  /** One more operator in front. */
  lemma {:induction false} LineOfMore(segment: string, operator: Operator, later: (seq<string>, seq<Operator>))
    requires |later.0| == |later.1| + 1
    ensures Line([segment] + later.0, [operator] + later.1) == segment + Sign(operator) + Line(later.0, later.1)
  {
    var segments, operators := [segment] + later.0, [operator] + later.1;
    assert segments[1..] == later.0 && operators[1..] == later.1;
  }

  lemma {:induction false} ReadableMore(segment: string, operator: Operator, later: (seq<string>, seq<Operator>))
    requires Readable(later.0, later.1) && NoSign(segment)
    requires operator == Equal ==> later.0[0] == "" || later.0[0][0] != '>'
    ensures Readable([segment] + later.0, [operator] + later.1)
  {
    hide NoSign;
    var segments, operators := [segment] + later.0, [operator] + later.1;
    forall i | 0 <= i < |segments|
      ensures NoSign(segments[i])
      ensures i < |operators| && operators[i] == Equal ==> segments[i + 1] == "" || segments[i + 1][0] != '>'
    {
      assert i > 0 ==> segments[i] == later.0[i - 1];
    }
  }

  /** The operator that a line starts with, and the line after it. */
  lemma {:induction false} SplitAtSign(line: string, segment: string) returns (operator: Operator, rest: string)
    requires line != "" && line[0] == '='
    ensures line == Sign(operator) + rest && |rest| < |line| && (operator == Equal ==> rest == "" || rest[0] != '>')
    ensures var later := SplitLine(rest, "");
      SplitLine(line, segment) == ([segment] + later.0, [operator] + later.1)
  {
    operator := if |line| > 1 && line[1] == '>' then Implies else Equal;
    rest := line[|Sign(operator)|..];
  }

  /** What is read is readable and is written as the line again. */
  ghost predicate WrittenBack(line: string, segment: string) {
    var parts := SplitLine(line, segment);
    && Readable(parts.0, parts.1) && Line(parts.0, parts.1) == segment + line
    && (parts.0[0] == "" || (segment + line != "" && parts.0[0][0] == (segment + line)[0]))
  }

  lemma {:induction false} SignWritesBack(line: string, segment: string, operator: Operator, rest: string)
    requires NoSign(segment) && WrittenBack(rest, "") && line == Sign(operator) + rest
    requires operator == Equal ==> rest == "" || rest[0] != '>'
    requires SplitLine(line, segment) == ([segment] + SplitLine(rest, "").0, [operator] + SplitLine(rest, "").1)
    ensures WrittenBack(line, segment)
  {
    hide Readable, Line, SplitLine, Sign;
    assert "" + rest == rest;
    LineOfMore(segment, operator, SplitLine(rest, ""));
    ReadableMore(segment, operator, SplitLine(rest, ""));
    assert segment + Sign(operator) + rest == segment + line;
  }

  /** Every line is read into segments and operators that it is written out of. */
  lemma {:induction false} WritesBack(line: string, segment: string)
    requires NoSign(segment)
    ensures WrittenBack(line, segment)
    decreases |line|
  {
    if line == "" {
      assert segment + line == segment;
    } else if line[0] == '=' {
      hide WrittenBack, SplitLine, Sign;
      var operator, rest := SplitAtSign(line, segment);
      WritesBack(rest, "");
      SignWritesBack(line, segment, operator, rest);
    } else {
      hide Readable, Line;
      WritesBack(line[1..], segment + [line[0]]);
      assert segment + [line[0]] + line[1..] == segment + line;
    }
  }

  /** Reading undoes writing, and no line is read in a second way. */
  lemma {:induction false} LineRoundTrip(segments: seq<string>, operators: seq<Operator>, line: string)
    ensures Readable(segments, operators) && Line(segments, operators) == line
      <==> SplitLine(line, "") == (segments, operators)
  {
    WritesBack(line, "");
    assert "" + line == line;
    hide Readable, Line, SplitLine;
    if Readable(segments, operators) && Line(segments, operators) == line {
      ReadsBack(segments, operators);
    }
  }

  // ---------- what the rules do not say ----------

  /** `a` is carried into operator `m`: after "=" only the last token of a group is. */
  ghost predicate GoesInto(groups: seq<seq<string>>, operators: seq<Operator>, m: nat, a: string)
    requires m < |operators| < |groups|
  {
    a in groups[m] && (m > 0 && operators[m - 1] == Equal ==> groups[m] != [] && a == groups[m][|groups[m]| - 1])
  }

  /** Operator `m` says `rule`. */
  ghost predicate Says(groups: seq<seq<string>>, operators: seq<Operator>, m: nat, rule: Rule)
    requires m < |operators| < |groups|
  {
    && rule.0 != rule.1
    && ((GoesInto(groups, operators, m, rule.0) && rule.1 in groups[m + 1])
        || (operators[m] == Equal && GoesInto(groups, operators, m, rule.1) && rule.0 in groups[m + 1]))
  }

  /** Every rule is said by an operator of the line, and every operator is heard. */
  lemma {:induction false} RulesExactly(groups: seq<seq<string>>, operators: seq<Operator>, n: nat, rule: Rule)
    requires WellFormed(groups, operators) && n <= |operators|
    ensures rule in Rules(groups, operators, n) <==> exists m :: 0 <= m < n && Says(groups, operators, m, rule)
  {
    if n > 0 {
      RulesExactly(groups, operators, n - 1, rule);
      var lefts, rights := Carried(groups, operators, n - 1), groups[n];
      InPairs(lefts, rights, rule);
      InPairs(rights, lefts, rule);
      assert forall a :: a in lefts <==> GoesInto(groups, operators, n - 1, a);
      hide Pairs, GoesInto, Carried;
      assert Says(groups, operators, n - 1, rule) <==>
        rule in Pairs(lefts, rights) || (operators[n - 1] == Equal && rule in Pairs(rights, lefts));
    }
  }

  /** No token stands in two groups. */
  ghost predicate Apart(groups: seq<seq<string>>) {
    forall i, j, a :: 0 <= i < j < |groups| && a in groups[i] ==> a !in groups[j]
  }

  /** Along rules of "=>" only, a path stays where it is or goes on to later groups. */
  lemma {:induction false} PathGoesOn(groups: seq<seq<string>>, operators: seq<Operator>, path: seq<string>, j: nat)
    returns (k: nat)
    requires WellFormed(groups, operators) && Apart(groups) && j < |groups| && path != [] && path[0] in groups[j]
    requires forall m :: 0 <= m < |operators| ==> operators[m] == Implies
    requires Walks(Rules(groups, operators, |operators|), path)
    ensures j <= k < |groups| && path[|path| - 1] in groups[k] && (k == j ==> path[|path| - 1] == path[0])
    decreases |path|
  {
    hide Rules;
    k := j;
    if |path| > 1 {
      if path[0] != path[1] {
        RulesExactly(groups, operators, |operators|, (path[0], path[1]));
        var m :| 0 <= m < |operators| && Says(groups, operators, m, (path[0], path[1]));
        assert m == j;
        k := j + 1;
      }
      k := PathGoesOn(groups, operators, path[1..], k);
    }
  }

  /** In a line of "=>" only, nothing leads back to an earlier group, or from a token to another of its group,
      unless a token is repeated. */
  lemma {:induction false} NothingLeadsBack(groups: seq<seq<string>>, operators: seq<Operator>, i: nat, j: nat,
        x: string, y: string)
    requires WellFormed(groups, operators) && Apart(groups) && i <= j < |groups| && x in groups[j] && y in groups[i]
    requires (forall m :: 0 <= m < |operators| ==> operators[m] == Implies) && (i < j || x != y)
    ensures !Reaches(Rules(groups, operators, |operators|), x, y)
  {
    hide Rules, Apart;
    var rules := Rules(groups, operators, |operators|);
    forall path | Walks(rules, path) && path[0] == x
      ensures path[|path| - 1] != y
    {
      var k := PathGoesOn(groups, operators, path, j);
      InOneGroup(groups, i, k, y);
    }
  }

  lemma {:induction false} InOneGroup(groups: seq<seq<string>>, i: nat, k: nat, a: string)
    requires Apart(groups) && i <= k < |groups| && a in groups[i]
    ensures a in groups[k] ==> i == k
  {
  }
}
