/**
 * The journey timeline: the icon each milestone gets from keywords in its
 * title, tried in a fixed order, the horizontal scroll step of the two
 * arrow buttons, and the rule that a missing or empty list renders nothing.
 */
module JourneyTimeline {
  import opened Wrappers
  import opened Text

  datatype Icon = GraduationCap | Briefcase | Code | Terminal | Server | Layers | Flag

  /** The keyword rules in the order they are tried. */
  const Rules: seq<(seq<string>, Icon)> := [
    (["school", "college"], GraduationCap),
    (["work", "intern"], Briefcase),
    (["code", "python"], Code),
    (["django", "backend"], Terminal),
    (["devops", "docker"], Server),
    (["full-stack"], Layers)]

  predicate AnyIn(t: string, words: seq<string>) {
    exists w | w in words :: Contains(t, w)
  }

  /** The icon of the first rule with a keyword in `t`, or Flag when none has. */
  function FirstMatch(rules: seq<(seq<string>, Icon)>, t: string): (icon: Icon)
    ensures (forall k | 0 <= k < |rules| :: !AnyIn(t, rules[k].0)) ==> icon == Flag
    ensures (exists k | 0 <= k < |rules| :: AnyIn(t, rules[k].0)) ==>
              exists k | 0 <= k < |rules| :: FirstMatchAt(rules, t, k) && icon == rules[k].1
  {
    if rules == [] then Flag
    else if AnyIn(t, rules[0].0) then
      assert FirstMatchAt(rules, t, 0);
      rules[0].1
    else
      var icon := FirstMatch(rules[1..], t);
      assert forall k | 1 <= k < |rules| :: rules[k] == rules[1..][k - 1];
      assert forall k | 0 <= k < |rules| - 1 :: FirstMatchAt(rules[1..], t, k) ==> FirstMatchAt(rules, t, k + 1);
      icon
  }

  /** Rule k is the first rule with a keyword in `t`. */
  predicate FirstMatchAt(rules: seq<(seq<string>, Icon)>, t: string, k: int) {
    0 <= k < |rules| && AnyIn(t, rules[k].0) && forall j | 0 <= j < k :: !AnyIn(t, rules[j].0)
  }

  /**
   * `getIcon`: the chain of keyword tests on the lower-cased title. The chain
   * is the rule table read top to bottom: the first matching rule wins.
   */
  function GetIcon(title: string): (icon: Icon)
    ensures icon == FirstMatch(Rules, Lower(title))
  {
    var t := Lower(title);
    var r1, r2, r3, r4, r5 := Rules[1..], Rules[2..], Rules[3..], Rules[4..], Rules[5..];
    assert r1[1..] == r2 && r2[1..] == r3 && r3[1..] == r4 && r4[1..] == r5 && r5[1..] == [];
    assert FirstMatch(r5, t) == if AnyIn(t, ["full-stack"]) then Layers else Flag;
    assert FirstMatch(r4, t) == if AnyIn(t, ["devops", "docker"]) then Server else FirstMatch(r5, t);
    assert FirstMatch(r3, t) == if AnyIn(t, ["django", "backend"]) then Terminal else FirstMatch(r4, t);
    assert FirstMatch(r2, t) == if AnyIn(t, ["code", "python"]) then Code else FirstMatch(r3, t);
    assert FirstMatch(r1, t) == if AnyIn(t, ["work", "intern"]) then Briefcase else FirstMatch(r2, t);
    assert FirstMatch(Rules, t) == if AnyIn(t, ["school", "college"]) then GraduationCap else FirstMatch(r1, t);
    AnyInPair(t, "school", "college");
    AnyInPair(t, "work", "intern");
    AnyInPair(t, "code", "python");
    AnyInPair(t, "django", "backend");
    AnyInPair(t, "devops", "docker");
    AnyInOne(t, "full-stack");
    if Contains(t, "school") || Contains(t, "college") then GraduationCap
    else if Contains(t, "work") || Contains(t, "intern") then Briefcase
    else if Contains(t, "code") || Contains(t, "python") then Code
    else if Contains(t, "django") || Contains(t, "backend") then Terminal
    else if Contains(t, "devops") || Contains(t, "docker") then Server
    else if Contains(t, "full-stack") then Layers
    else Flag
  }

  lemma AnyInPair(t: string, a: string, b: string)
    ensures AnyIn(t, [a, b]) == (Contains(t, a) || Contains(t, b))
  {
    if Contains(t, b) {
      assert b in [a, b];
    }
  }

  lemma AnyInOne(t: string, a: string)
    ensures AnyIn(t, [a]) == Contains(t, a)
  {
  }

  /** A title gets the Flag exactly when it holds none of the keywords. */
  lemma FlagIffNoKeyword(title: string)
    ensures GetIcon(title) == Flag <==> forall k | 0 <= k < |Rules| :: !AnyIn(Lower(title), Rules[k].0)
  {
    RulesNeverFlag();
  }

  /** No rule hands out the Flag. */
  lemma RulesNeverFlag()
    ensures forall k | 0 <= k < |Rules| :: Rules[k].1 != Flag
  {
  }

  /** The test ignores case. */
  lemma GetIconIgnoresCase(title: string)
    ensures GetIcon(Upper(title)) == GetIcon(title)
  {
    LowerOfUpper(title);
  }

  /** A title matching the work rule gets the briefcase even when a later rule matches too. */
  lemma WorkBeatsCode(title: string)
    requires Contains(Lower(title), "intern") && !Contains(Lower(title), "school") && !Contains(Lower(title), "college")
    ensures GetIcon(title) == Briefcase
  {
  }

  /** The scroll step: 320 pixels left for "left", 320 right for anything else. */
  function ScrollOffset(direction: string): (dx: int)
    ensures dx == -320 <==> direction == "left"
    ensures dx == 320 <==> direction != "left"
  {
    if direction == "left" then -320 else 320
  }

  datatype JourneyItem = JourneyItem(title: string, subtitle: string, dateRange: string, description: string)

  /** The icons rendered, one per item in order, or nothing for a missing or empty list. */
  function Timeline(items: Option<seq<JourneyItem>>): (r: Option<seq<Icon>>)
    ensures r.None? <==> items.None? || items.value == []
    ensures r.Some? ==> |r.value| == |items.value|
                        && forall i | 0 <= i < |items.value| :: r.value[i] == GetIcon(items.value[i].title)
  {
    if items.None? || items.value == [] then None
    else Some(seq(|items.value|, i requires 0 <= i < |items.value| => GetIcon(items.value[i].title)))
  }
}
