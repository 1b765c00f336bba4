/** Rule lines as text: how the generator writes them, how the linter takes them apart, and `uniqueOrdered`. The
    other renderer modules use text only through a `Lexicon`, whose laws hold of the real functions. */
module RuleText {
  import opened Common
  import Text

  /** A `RULE-SET` rule before it is written. */
  datatype Spec = Spec(provider: string, target: string, noResolve: bool)

  datatype Lexicon = Lexicon(
    trim: string -> string,            // strings.TrimSpace
    lower: string -> string,           // strings.ToLower of TrimSpace
    split: string -> seq<string>,      // splitCSVRule
    ruleSet: Spec -> string,           // renderRuleSet
    matchLine: string -> string,       // "MATCH," and a policy
    isMatch: string -> bool,           // has the prefix "MATCH,"
    builtin: string -> bool,           // isBuiltinProxyReference
    clean: string -> bool,             // a name that survives trimming and splitting
    ruleSetTag: string, matchTag: string, direct: string, reject: string)

  ghost predicate Lawful(x: Lexicon) {
    TrimLaws(x) && BuiltinLaws(x) && RuleLaws(x) && MatchLaws(x)
  }

  ghost predicate TrimLaws(x: Lexicon) {
    && x.trim("") == "" && (forall s: string :: x.trim(x.trim(s)) == x.trim(s))
    && (forall s: string :: x.lower(x.lower(s)) == x.lower(s))
    && (forall s: string | x.clean(s) :: x.trim(s) == s && s != "")
  }

  ghost predicate BuiltinLaws(x: Lexicon) {
    && (forall s: string :: x.builtin(x.trim(s)) == x.builtin(s))
    && x.clean(x.direct) && x.clean(x.reject) && x.builtin(x.direct) && x.builtin(x.reject)
  }

  ghost predicate RuleLaws(x: Lexicon) {
    && x.ruleSetTag != x.matchTag && (forall spec: Spec :: x.ruleSet(spec) != "")
    && (forall spec: Spec | x.clean(spec.provider) && x.clean(spec.target) :: RuleLineLaw(x, spec))
  }

  ghost predicate MatchLaws(x: Lexicon) {
    forall p: string | x.trim(p) == p && p != "" :: MatchLineLaw(x, p)
  }

  ghost predicate RuleLineLaw(x: Lexicon, spec: Spec) {
    var line := x.ruleSet(spec);
    && x.trim(line) == line && line != "" && !x.isMatch(line)
    && |x.split(line)| >= 3 && x.split(line)[0] == x.ruleSetTag
    && x.split(line)[1] == spec.provider && x.split(line)[2] == spec.target
  }

  ghost predicate MatchLineLaw(x: Lexicon, policy: string) {
    var line := x.matchLine(policy);
    && x.trim(line) == line && line != "" && x.isMatch(line)
    && |x.split(line)| >= 1 && x.split(line)[0] == x.matchTag
  }

  // ---- The real functions ----

  function RuleSetLine(spec: Spec): string {
    "RULE-SET" + [','] + (spec.provider + [','] + if spec.noResolve then spec.target + [','] + "no-resolve" else spec.target)
  }

  function MatchLine(policy: string): string {
    "MATCH" + [','] + policy
  }

  predicate IsMatch(s: string) {
    |Text.Trim(s)| >= 6 && Text.Trim(s)[..6] == "MATCH,"
  }

  predicate IsBuiltin(s: string) {
    Text.Trim(s) in {"DIRECT", "REJECT", "REJECT-DROP", "PASS"}
  }

  predicate IsClean(s: string) {
    s != "" && Text.Trimmed(s) && ',' !in s
  }

  function Go(lower: string -> string, direct: string, reject: string): Lexicon {
    Lexicon((s: string) => Text.Trim(s), lower, (s: string) => Text.Split(s, ','), (spec: Spec) => RuleSetLine(spec),
            (p: string) => MatchLine(p), (s: string) => IsMatch(s), (s: string) => IsBuiltin(s), (s: string) => IsClean(s),
            "RULE-SET", "MATCH", direct, reject)
  }

  lemma SplitTwo(a: string, b: string, rest: string)
    requires ',' !in a && ',' !in b
    ensures Text.Split(a + [','] + (b + [','] + rest), ',') == [a, b] + Text.Split(rest, ',')
  {
    Text.SplitWord(a, ',', b + [','] + rest);
    Text.SplitWord(b, ',', rest);
  }

  lemma SplitRuleLine(spec: Spec)
    requires ',' !in spec.provider && ',' !in spec.target
    ensures var parts := Text.Split(RuleSetLine(spec), ',');
            |parts| >= 3 && parts[0] == "RULE-SET" && parts[1] == spec.provider && parts[2] == spec.target
  {
    if spec.noResolve {
      SplitTail("RULE-SET", spec.provider, spec.target, "no-resolve");
    } else {
      SplitTwo("RULE-SET", spec.provider, spec.target);
      Text.SplitWord(spec.target, ',', "");
    }
  }

  lemma SplitTail(tag: string, provider: string, target: string, more: string)
    requires ',' !in tag && ',' !in provider && ',' !in target
    ensures var parts := Text.Split(tag + [','] + (provider + [','] + (target + [','] + more)), ',');
            |parts| >= 3 && parts[0] == tag && parts[1] == provider && parts[2] == target
  {
    SplitTwo(tag, provider, target + [','] + more);
    Text.SplitWord(target, ',', more);
  }

  lemma MatchLineLaws(policy: string)
    requires policy != "" && Text.Trimmed(policy)
    ensures Text.Trimmed(MatchLine(policy)) && MatchLine(policy)[..6] == "MATCH,"
    ensures Text.Split(MatchLine(policy), ',')[0] == "MATCH"
  {
    var line := MatchLine(policy);
    Text.SplitWord("MATCH", ',', policy);
    assert line[|line| - 1] == policy[|policy| - 1];
  }

  lemma GoTrimLaws(lower: string -> string, direct: string, reject: string)
    requires forall s: string :: lower(lower(s)) == lower(s)
    ensures TrimLaws(Go(lower, direct, reject))
  {
  }

  lemma GoBuiltinLaws(lower: string -> string, direct: string, reject: string)
    requires IsClean(direct) && IsClean(reject) && IsBuiltin(direct) && IsBuiltin(reject)
    ensures BuiltinLaws(Go(lower, direct, reject))
  {
  }

  lemma BuiltinTargets()
    ensures IsClean("DIRECT") && IsClean("REJECT") && IsBuiltin("DIRECT") && IsBuiltin("REJECT")
  {
  }

  lemma GoRuleLaws(lower: string -> string, direct: string, reject: string)
    ensures RuleLaws(Go(lower, direct, reject))
  {
    var x := Go(lower, direct, reject);
    forall spec: Spec | x.clean(spec.provider) && x.clean(spec.target) ensures RuleLineLaw(x, spec) {
      SplitRuleLine(spec);
      RuleIsNoMatch(RuleSetLine(spec));
    }
  }

  lemma RuleIsNoMatch(line: string)
    requires line != "" && line[0] == 'R' && Text.Trimmed(line)
    ensures Text.Trim(line) == line && !IsMatch(line)
  {
  }

  lemma GoMatchLaws(lower: string -> string, direct: string, reject: string)
    ensures MatchLaws(Go(lower, direct, reject))
  {
    var x := Go(lower, direct, reject);
    forall p: string | x.trim(p) == p && p != "" ensures MatchLineLaw(x, p) {
      assert Text.Trimmed(Text.Trim(p));
      MatchLineLaws(p);
    }
  }

  /** The real functions are lawful, so everything proved of a lawful lexicon holds of the program's text. */
  lemma GoIsLawful(lower: string -> string)
    requires forall s: string :: lower(lower(s)) == lower(s)
    ensures var x := Go(lower, "DIRECT", "REJECT");
            Lawful(x) && x.direct == "DIRECT" && x.reject == "REJECT"
  {
    BuiltinTargets();
    GoTrimLaws(lower, "DIRECT", "REJECT");
    GoBuiltinLaws(lower, "DIRECT", "REJECT");
    GoRuleLaws(lower, "DIRECT", "REJECT");
    GoMatchLaws(lower, "DIRECT", "REJECT");
  }

  lemma PlainRuleParts(tag: string, provider: string, target: string)
    requires ',' !in tag && ',' !in provider && ',' !in target
    ensures Text.Split(tag + [','] + (provider + [','] + target), ',') == [tag, provider, target]
  {
    SplitTwo(tag, provider, target);
    Text.SplitWord(target, ',', "");
  }

  lemma LongRuleParts(tag: string, provider: string, target: string, more: string)
    requires ',' !in tag && ',' !in provider && ',' !in target && ',' !in more
    ensures Text.Split(tag + [','] + (provider + [','] + (target + [','] + more)), ',') == [tag, provider, target, more]
  {
    SplitTwo(tag, provider, target + [','] + more);
    Text.SplitWord(target, ',', more);
    Text.SplitWord(more, ',', "");
  }

  /** A rule line is its parts between commas, and nothing else. */
  lemma RuleLineParts(lower: string -> string, spec: Spec)
    requires ',' !in spec.provider && ',' !in spec.target
    ensures var x := Go(lower, "DIRECT", "REJECT");
            x.split(x.ruleSet(spec)) == if spec.noResolve then ["RULE-SET", spec.provider, spec.target, "no-resolve"] else ["RULE-SET", spec.provider, spec.target]
  {
    if spec.noResolve {
      LongRuleParts("RULE-SET", spec.provider, spec.target, "no-resolve");
    } else {
      PlainRuleParts("RULE-SET", spec.provider, spec.target);
    }
  }

  lemma SpacedName()
    ensures Text.Trim(" A") == "A" && !IsBuiltin("A")
  {
    Text.TrimLeadingSpace(' ', "A");
    assert Text.Trim("A") == "A";
  }

  lemma GoTrimsNames(lower: string -> string)
    ensures var x := Go(lower, "DIRECT", "REJECT"); x.trim(" A") == "A" && !x.builtin("A")
  {
    SpacedName();
  }

  // ---- uniqueOrdered ----

  /** Trimmed, without blanks, first occurrences in order. */
  function Unique(x: Lexicon, values: seq<string>): seq<string> {
    if values == [] then []
    else
      var init, v := Unique(x, values[..|values| - 1]), x.trim(values[|values| - 1]);
      if v == "" || v in init then init else init + [v]
  }

  method UniqueOrdered(x: Lexicon, values: seq<string>) returns (out: seq<string>)
    ensures out == Unique(x, values)
  {
    out := [];
    var seen: set<string> := {};
    for i := 0 to |values|
      invariant out == Unique(x, values[..i])
      invariant forall v :: v in seen <==> v in out
    {
      assert values[..i + 1][..i] == values[..i];
      var value := x.trim(values[i]);
      if value == "" {
        continue;
      }
      if value in seen {
        continue;
      }
      seen := seen + {value};
      out := out + [value];
    }
    assert values[..|values|] == values;
  }

  ghost predicate Mentions(x: Lexicon, values: seq<string>, v: string) {
    exists i :: 0 <= i < |values| && x.trim(values[i]) == v
  }

  lemma MentionsLast(x: Lexicon, values: seq<string>, v: string)
    requires values != []
    ensures Mentions(x, values, v) <==> Mentions(x, values[..|values| - 1], v) || x.trim(values[|values| - 1]) == v
  {
  }

  lemma {:induction false} InUnique(x: Lexicon, values: seq<string>, v: string)
    ensures v in Unique(x, values) <==> v != "" && Mentions(x, values, v)
  {
    if values != [] {
      InUnique(x, values[..|values| - 1], v);
      MentionsLast(x, values, v);
    }
  }

  lemma {:induction false} UniqueIsDistinct(x: Lexicon, values: seq<string>)
    ensures Distinct(Unique(x, values))
  {
    if values != [] {
      UniqueIsDistinct(x, values[..|values| - 1]);
    }
  }

  /** A last value that is not blank and not mentioned before stays last. */
  lemma UniqueKeepsLast(x: Lexicon, values: seq<string>, last: string)
    requires x.trim(last) == last && last != "" && !Mentions(x, values, last)
    ensures Unique(x, values + [last]) == Unique(x, values) + [last]
  {
    InUnique(x, values, last);
    assert (values + [last])[..|values|] == values;
  }

  /** Distinct, trimmed and not blank: nothing to do. */
  lemma {:induction false} UniqueOfUnique(x: Lexicon, values: seq<string>)
    requires Distinct(values) && forall v | v in values :: x.trim(v) == v && v != ""
    ensures Unique(x, values) == values
  {
    if values != [] {
      var init := values[..|values| - 1];
      UniqueOfUnique(x, init);
      assert values == init + [values[|values| - 1]];
    }
  }
}
