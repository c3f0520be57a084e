/**
 * The firewall-style path matcher of lib/utils.js (getExclusionMatcher).
 *
 * Patterns are kept abstract: `P` stands for a JavaScript RegExp and
 * `search(pattern, name)` for `name.search(pattern) !== -1`.
 */
module ExclusionRules {
  import opened Common

  /** A rule as the caller wrote it: a bare RegExp, or an object whose
      `pattern` may not be a RegExp at all (None), whose `include` is already
      reduced to its truthiness (`!!rule.include`) and whose `type` may be
      missing (None) or any string. */
  datatype Rule<P> =
    | Bare(regexp: P)
    | Object(pattern: Option<P>, includeFlag: bool, typeName: Option<string>)

  /** The closure returned by getExclusionMatcher: it only captures its two
      arguments, nothing is checked when it is built. */
  datatype ExclusionMatcher<P> = ExclusionMatcher(rules: seq<Rule<P>>, defaultIsExclude: bool)

  datatype MatchError =
    | FileTypeNotProvided(ofType: string)   // 'Internal error: file type was not provided, ...'
    | NoRulesSpecified                       // 'No rules specified'
    | InvalidType(typeName: string)          // 'Invalid type for match [...]'
    | PatternNotRegExp                       // 'Pattern was not a regexp for rule'

  function GetExclusionMatcher<P>(rules: seq<Rule<P>>, defaultIsExclude: bool): (r: ExclusionMatcher<P>) {
    ExclusionMatcher(rules, defaultIsExclude)
  }

  /** `rule.type || 'any'`: a missing or empty type means 'any'. */
  function EffectiveType<P>(r: Rule<P>): (res: string) {
    match r
    case Bare(_) => "any"
    case Object(_, _, t) => if t == None || t == Some("") then "any" else t.value
  }

  function EffectivePattern<P>(r: Rule<P>): (res: Option<P>) {
    match r
    case Bare(re) => Some(re)
    case Object(p, _, _) => p
  }

  function EffectiveInclude<P>(r: Rule<P>): (res: bool) {
    match r
    case Bare(_) => false
    case Object(_, inc, _) => inc
  }

  predicate KnownType(t: string) {
    t == "file" || t == "dir" || t == "any"
  }

  /** The rule would survive both validity checks once it is reached. */
  predicate WellFormed<P>(r: Rule<P>) {
    KnownType(EffectiveType(r)) && EffectivePattern(r).Some?
  }

  /** The rule is well formed and decides for `name` of kind `ofType`. */
  predicate Fires<P>(r: Rule<P>, search: (P, string) -> bool, name: string, ofType: string) {
    && WellFormed(r)
    && search(EffectivePattern(r).value, name)
    && (EffectiveType(r) == "any" || EffectiveType(r) == ofType)
  }

  /** The rules from the current one on, in list order; the first rule that
      fires decides, and evaluation stops there. */
  function Scan<P>(rules: seq<Rule<P>>, search: (P, string) -> bool, name: string, ofType: string,
                   defaultIsExclude: bool): (r: Result<bool, MatchError>)
    decreases |rules|
  {
    if rules == [] then Ok(defaultIsExclude)
    else
      var r := rules[0];
      if !KnownType(EffectiveType(r)) then Err(InvalidType(EffectiveType(r)))
      else if EffectivePattern(r).None? then Err(PatternNotRegExp)
      else if search(EffectivePattern(r).value, name) && (EffectiveType(r) == "any" || EffectiveType(r) == ofType)
      then Ok(!EffectiveInclude(r))
      else Scan(rules[1..], search, name, ofType, defaultIsExclude)
  }

  /** Rules that are all well formed never make the scan fail. */
  lemma {:induction false} WellFormedNeverFails<P>(rules: seq<Rule<P>>, search: (P, string) -> bool, name: string,
                                                   ofType: string, defaultIsExclude: bool)
    requires forall j :: 0 <= j < |rules| ==> WellFormed(rules[j])
    ensures Scan(rules, search, name, ofType, defaultIsExclude).Ok?
    decreases |rules|
  {
    if rules != [] {
      assert WellFormed(rules[0]);
      assert forall j :: 0 <= j < |rules[1..]| ==> rules[1..][j] == rules[j + 1];
      WellFormedNeverFails(rules[1..], search, name, ofType, defaultIsExclude);
    }
  }

  /** What one call of the returned `isExcluded(name, ofType)` yields. */
  function Decide<P>(m: ExclusionMatcher<P>, search: (P, string) -> bool, name: string, ofType: string)
    : (r: Result<bool, MatchError>)
  {
    if !(ofType == "file" || ofType == "dir") then Err(FileTypeNotProvided(ofType))
    else if |m.rules| < 1 then Err(NoRulesSpecified)
    else Scan(m.rules, search, name, ofType, m.defaultIsExclude)
  }

  /** The body of `isExcluded`: a loop over the rules that leaves by `break`
      at the first rule that matches. */
  method IsExcluded<P>(m: ExclusionMatcher<P>, search: (P, string) -> bool, name: string, ofType: string)
    returns (r: Result<bool, MatchError>)
    ensures r == Decide(m, search, name, ofType)
  {
    if !(ofType == "file" || ofType == "dir") {
      return Err(FileTypeNotProvided(ofType));
    }
    if |m.rules| < 1 {
      return Err(NoRulesSpecified);
    }
    var ret: Option<bool> := None;
    var index := 0;
    while index < |m.rules|
      invariant 0 <= index <= |m.rules|
      invariant ret == None
      invariant Scan(m.rules, search, name, ofType, m.defaultIsExclude)
             == Scan(m.rules[index..], search, name, ofType, m.defaultIsExclude)
    {
      var rule := m.rules[index];
      var pattern, incl, ty;
      match rule {
        case Bare(re) =>
          pattern, incl, ty := Some(re), false, "any";
        case Object(p, inc, t) =>
          pattern, incl := p, inc;
          ty := if t == None || t == Some("") then "any" else t.value;
      }
      assert m.rules[index..][0] == rule;
      if !(ty == "file" || ty == "dir" || ty == "any") {
        return Err(InvalidType(ty));
      }
      if pattern.None? {
        return Err(PatternNotRegExp);
      }
      if search(pattern.value, name) && (ty == "any" || ty == ofType) {
        ret := Some(!incl);
        break;
      }
      assert m.rules[index..][1..] == m.rules[index + 1..];
      index := index + 1;
    }
    r := Ok(if ret == None then m.defaultIsExclude else ret.value);
  }

  // ---------------------------------------------------------------------------
  // What the decision means.

  /** Both argument checks happen on every call, before any rule is looked at:
      an unknown kind fails even with no rules, and no rules fails for every name. */
  lemma ChecksOnEveryCall<P>(m: ExclusionMatcher<P>, search: (P, string) -> bool, name: string, ofType: string)
    ensures !(ofType == "file" || ofType == "dir") ==> Decide(m, search, name, ofType) == Err(FileTypeNotProvided(ofType))
    ensures (ofType == "file" || ofType == "dir") && m.rules == [] ==> Decide(m, search, name, ofType) == Err(NoRulesSpecified)
  {
  }

  /** The rules before index `k` are well formed and none of them fires. */
  predicate PassedOver<P>(rules: seq<Rule<P>>, search: (P, string) -> bool, name: string, ofType: string, k: int) {
    forall j :: 0 <= j < k && j < |rules| ==> WellFormed(rules[j]) && !Fires(rules[j], search, name, ofType)
  }

  lemma PassedOverShift<P>(rules: seq<Rule<P>>, search: (P, string) -> bool, name: string, ofType: string, k: nat)
    requires rules != [] && WellFormed(rules[0]) && !Fires(rules[0], search, name, ofType)
    requires PassedOver(rules[1..], search, name, ofType, k)
    ensures PassedOver(rules, search, name, ofType, k + 1)
  {
    forall j | 0 <= j < k + 1 && j < |rules| ensures WellFormed(rules[j]) && !Fires(rules[j], search, name, ofType) {
      if j > 0 { assert rules[j] == rules[1..][j - 1]; }
    }
  }

  /** The first rule, in list order, that fires decides: the result is the
      negation of its `include`, whatever the rules after it say (they are not
      even validated). */
  lemma {:induction false} FirstFiringRuleDecides<P>(rules: seq<Rule<P>>, search: (P, string) -> bool,
                                                      name: string, ofType: string, def: bool, k: nat,
                                                      later: seq<Rule<P>>)
    requires k < |rules|
    requires PassedOver(rules, search, name, ofType, k)
    requires Fires(rules[k], search, name, ofType)
    ensures Scan(rules, search, name, ofType, def) == Ok(!EffectiveInclude(rules[k]))
    ensures Scan(rules[..k + 1] + later, search, name, ofType, def) == Ok(!EffectiveInclude(rules[k]))
    decreases k
  {
    var swapped := rules[..k + 1] + later;
    assert swapped[k] == rules[k];
    if k > 0 {
      assert rules[..k + 1][1..] == rules[1..k + 1];
      assert rules[1..][..k] == rules[1..k + 1];
      assert rules[1..][..k] + later == swapped[1..];
      assert WellFormed(rules[0]) && !Fires(rules[0], search, name, ofType);
      assert swapped[0] == rules[0];
      assert PassedOver(rules[1..], search, name, ofType, k - 1) by {
        forall j | 0 <= j < k - 1 && j < |rules[1..]|
          ensures WellFormed(rules[1..][j]) && !Fires(rules[1..][j], search, name, ofType) {
          assert rules[1..][j] == rules[j + 1];
        }
      }
      FirstFiringRuleDecides(rules[1..], search, name, ofType, def, k - 1, later);
    }
  }

  /** A well-formed rule list none of whose rules fires yields the default. */
  lemma {:induction false} NoFiringRuleGivesDefault<P>(rules: seq<Rule<P>>, search: (P, string) -> bool,
                                                       name: string, ofType: string, def: bool)
    requires PassedOver(rules, search, name, ofType, |rules|)
    ensures Scan(rules, search, name, ofType, def) == Ok(def)
    decreases |rules|
  {
    if rules != [] {
      NoFiringRuleGivesDefault(rules[1..], search, name, ofType, def);
    }
  }

  /** A malformed rule only fails the call when the scan reaches it. */
  lemma {:induction false} MalformedRuleFailsWhenReached<P>(rules: seq<Rule<P>>, search: (P, string) -> bool,
                                                            name: string, ofType: string, def: bool, k: nat)
    requires k < |rules|
    requires PassedOver(rules, search, name, ofType, k)
    requires !WellFormed(rules[k])
    ensures Scan(rules, search, name, ofType, def) ==
              if !KnownType(EffectiveType(rules[k])) then Err(InvalidType(EffectiveType(rules[k])))
              else Err(PatternNotRegExp)
    decreases k
  {
    if k > 0 {
      MalformedRuleFailsWhenReached(rules[1..], search, name, ofType, def, k - 1);
    }
  }

  /** Every successful decision is explained either by a firing rule with
      only well-formed, non-firing rules before it, or by the default. */
  lemma {:induction false} DecisionExplained<P>(rules: seq<Rule<P>>, search: (P, string) -> bool,
                                                name: string, ofType: string, def: bool)
    requires Scan(rules, search, name, ofType, def).Ok?
    ensures var b := Scan(rules, search, name, ofType, def).value;
      || (exists k :: 0 <= k < |rules| && Fires(rules[k], search, name, ofType) && b == !EffectiveInclude(rules[k])
                      && PassedOver(rules, search, name, ofType, k))
      || (b == def && PassedOver(rules, search, name, ofType, |rules|))
    decreases |rules|
  {
    if rules != [] && !Fires(rules[0], search, name, ofType) {
      var tail := rules[1..];
      DecisionExplained(tail, search, name, ofType, def);
      var b := Scan(rules, search, name, ofType, def).value;
      assert b == Scan(tail, search, name, ofType, def).value;
      if exists k :: 0 <= k < |tail| && Fires(tail[k], search, name, ofType) && b == !EffectiveInclude(tail[k])
                     && PassedOver(tail, search, name, ofType, k) {
        var k :| 0 <= k < |tail| && Fires(tail[k], search, name, ofType) && b == !EffectiveInclude(tail[k])
                 && PassedOver(tail, search, name, ofType, k);
        assert rules[k + 1] == tail[k];
        PassedOverShift(rules, search, name, ofType, k);
      } else {
        PassedOverShift(rules, search, name, ofType, |tail|);
      }
    }
  }

  /** A bare RegExp is the exclusion rule `{pattern, include: false, type: 'any'}`. */
  lemma BareIsExclusionShorthand<P>(re: P, rest: seq<Rule<P>>, search: (P, string) -> bool,
                                    name: string, ofType: string, def: bool)
    ensures Scan([Bare(re)] + rest, search, name, ofType, def)
         == Scan([Object(Some(re), false, Some("any"))] + rest, search, name, ofType, def)
    ensures search(re, name) ==> Scan([Bare(re)] + rest, search, name, ofType, def) == Ok(true)
  {
    assert ([Bare(re)] + rest)[1..] == rest;
    assert ([Object(Some(re), false, Some("any"))] + rest)[1..] == rest;
  }
}
