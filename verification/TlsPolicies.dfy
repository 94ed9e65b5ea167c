/** The bootstrap path of `ensure_wildcard_tls_policy`: drop nulls and every policy with a
    subject under our wildcard, then put ours in front. */
module TlsPolicies {

  import opened Common

  /** A policy as the filter sees it: its `subjects`, when the key is an array.  A subject
      that is not a string is `None`. */
  datatype Policy = Policy(id: string, subjects: Option<seq<Option<string>>>)

  datatype Slot = Null | Entry(policy: Policy)

  function WildcardSubject(region: string, domain: string): string {
    "*." + region + "." + domain
  }

  function StripPrefix(s: string, prefix: string): Option<string> {
    if prefix <= s then Some(s[|prefix|..]) else None
  }

  function StripSuffix(s: string, suffix: string): Option<string> {
    if |suffix| <= |s| && s[|s| - |suffix|..] == suffix then Some(s[..|s| - |suffix|]) else None
  }

  function TrimEndDots(s: string): string {
    if |s| > 0 && s[|s| - 1] == '.' then TrimEndDots(s[..|s| - 1]) else s
  }

  predicate SubjectOverlaps(subject: string, wildcard: string, suffix: string) {
    || subject == wildcard
    || match StripSuffix(subject, suffix)
       case Some(prefix) => TrimEndDots(prefix) != "" && '.' !in TrimEndDots(prefix)
       case None => false
  }

  predicate Overlaps(policy: Policy, wildcard: string) {
    match StripPrefix(wildcard, "*.")
    case None => false
    case Some(suffix) =>
      match policy.subjects
      case None => false
      case Some(subjects) =>
        exists i :: 0 <= i < |subjects| && subjects[i].Some? && SubjectOverlaps(subjects[i].value, wildcard, suffix)
  }

  function Survivors(slots: seq<Slot>, wildcard: string): seq<Policy> {
    if |slots| == 0 then []
    else (if slots[0].Entry? && !Overlaps(slots[0].policy, wildcard) then [slots[0].policy] else [])
         + Survivors(slots[1..], wildcard)
  }

  function Rewritten(ours: Policy, existing: seq<Slot>, wildcard: string): seq<Policy> {
    [ours] + Survivors(existing, wildcard)
  }

  // ---------------------------------------------------------------- what names a policy covers

  predicate IsLabel(s: string) {
    s != "" && '.' !in s
  }

  /** Section 6.4.3 of RFC 6125: a subject names a host when they agree in every label after
      the first, and in the first label up to wildcard characters; how a wildcard fragment
      matches inside that label is left open here. */
  ghost predicate SubjectCovers(subject: string, leaf: string, suffix: string) {
    exists pattern :: IsLabel(pattern) && subject == pattern + "." + suffix && LabelMayMatch(pattern, leaf)
  }

  predicate LabelMayMatch(pattern: string, leaf: string) {
    pattern == leaf || '*' in pattern
  }

  /** A policy without subjects applies to every host. */
  predicate Unrestricted(policy: Policy) {
    policy.subjects.None? || policy.subjects.value == []
  }

  ghost predicate Covers(policy: Policy, leaf: string, suffix: string) {
    || Unrestricted(policy)
    || exists i :: 0 <= i < |policy.subjects.value| && policy.subjects.value[i].Some?
                   && SubjectCovers(policy.subjects.value[i].value, leaf, suffix)
  }

  // ---------------------------------------------------------------- trimming

  lemma {:induction false} TrimEndDotsShape(s: string)
    ensures TrimEndDots(s) <= s
    ensures forall i :: |TrimEndDots(s)| <= i < |s| ==> s[i] == '.'
    ensures TrimEndDots(s) != "" ==> TrimEndDots(s)[|TrimEndDots(s)| - 1] != '.'
  {
    if |s| > 0 && s[|s| - 1] == '.' {
      TrimEndDotsShape(s[..|s| - 1]);
    }
  }

  /** `label` followed by any number of dots. */
  ghost predicate LabelThenDots(prefix: string) {
    exists n: nat :: n <= |prefix| && IsLabel(prefix[..n]) && forall i :: n <= i < |prefix| ==> prefix[i] == '.'
  }

  lemma TrimmedIsLabel(prefix: string)
    ensures (TrimEndDots(prefix) != "" && '.' !in TrimEndDots(prefix)) <==> LabelThenDots(prefix)
  {
    var t := TrimEndDots(prefix);
    TrimEndDotsShape(prefix);
    assert t == prefix[..|t|];
    if LabelThenDots(prefix) {
      var n: nat :| n <= |prefix| && IsLabel(prefix[..n]) && forall i :: n <= i < |prefix| ==> prefix[i] == '.';
      assert prefix[n - 1] == prefix[..n][n - 1] != '.';
      assert |t| >= n;
      assert |t| > 0 ==> t[|t| - 1] == prefix[|t| - 1];
      assert |t| == n;
    }
  }

  /** Ours, or a dotless label followed by any number of dots, even none, in front of the
      suffix. */
  ghost predicate Claimed(subject: string, suffix: string) {
    subject == "*." + suffix || exists prefix :: subject == prefix + suffix && LabelThenDots(prefix)
  }

  /** Exactly which subjects the filter strips. */
  lemma OverlapIff(subject: string, suffix: string)
    ensures SubjectOverlaps(subject, "*." + suffix, suffix) <==> Claimed(subject, suffix)
  {
    var wildcard := "*." + suffix;
    match StripSuffix(subject, suffix) {
      case Some(prefix) =>
        assert subject == prefix + suffix;
        TrimmedIsLabel(prefix);
        forall other | subject == other + suffix
          ensures other == prefix
        {
          assert other == subject[..|subject| - |suffix|];
        }
      case None =>
        forall other
          ensures subject != other + suffix
        {
          assert (other + suffix)[|other|..] == suffix;
        }
    }
  }

  /** So the filter takes more than the hosts under the wildcard: the suffix it compares has
      no leading dot, and a name that merely ends in the same letters is stripped too. */
  lemma OverlapIsNotExact(leaf: string, suffix: string)
    requires IsLabel(leaf)
    ensures SubjectOverlaps(leaf + suffix, "*." + suffix, suffix)
  {
    assert leaf[..|leaf|] == leaf;
    assert LabelThenDots(leaf);
    OverlapIff(leaf + suffix, suffix);
  }

  lemma CoveredIsStripped(subject: string, leaf: string, suffix: string)
    requires SubjectCovers(subject, leaf, suffix)
    ensures SubjectOverlaps(subject, "*." + suffix, suffix)
  {
    var pattern :| IsLabel(pattern) && subject == pattern + "." + suffix && LabelMayMatch(pattern, leaf);
    var prefix := pattern + ".";
    assert prefix[..|pattern|] == pattern;
    assert LabelThenDots(prefix);
    assert subject == prefix + suffix;
    OverlapIff(subject, suffix);
  }

  // ---------------------------------------------------------------- the rewritten list

  /** The list loses exactly the nulls and the overlapping policies. */
  lemma {:induction false} SurvivorsAre(slots: seq<Slot>, wildcard: string)
    ensures forall p :: p in Survivors(slots, wildcard) <==> Entry(p) in slots && !Overlaps(p, wildcard)
  {
    if |slots| > 0 {
      SurvivorsAre(slots[1..], wildcard);
      assert slots == [slots[0]] + slots[1..];
    }
  }

  /** No string among the subjects is claimed by the wildcard. */
  ghost predicate Unclaimed(policy: Policy, suffix: string) {
    policy.subjects.Some? ==>
      forall subject :: Some(subject) in policy.subjects.value ==> !Claimed(subject, suffix)
  }

  lemma OverlapsIffClaimed(policy: Policy, suffix: string)
    ensures Overlaps(policy, "*." + suffix) <==> !Unclaimed(policy, suffix)
  {
    var wildcard := "*." + suffix;
    assert wildcard[|"*."|..] == suffix && "*." <= wildcard;
    if policy.subjects.Some? {
      var subjects := policy.subjects.value;
      forall i | 0 <= i < |subjects| && subjects[i].Some?
        ensures SubjectOverlaps(subjects[i].value, wildcard, suffix) <==> Claimed(subjects[i].value, suffix)
      {
        OverlapIff(subjects[i].value, suffix);
      }
      if i :| 0 <= i < |subjects| && subjects[i].Some? && SubjectOverlaps(subjects[i].value, wildcard, suffix) {
        assert Some(subjects[i].value) in subjects;
      }
      if subject :| Some(subject) in subjects && Claimed(subject, suffix) {
        var i :| 0 <= i < |subjects| && subjects[i] == Some(subject);
        assert subjects[i].Some? && SubjectOverlaps(subjects[i].value, wildcard, suffix);
      }
    }
  }

  /** A policy survives the rewrite if and only if it was there and none of its subjects is
      ours, nor a dotless label with dots or none behind it in front of the suffix. */
  lemma SurvivesIff(ours: Policy, existing: seq<Slot>, region: string, domain: string, policy: Policy)
    ensures policy in Rewritten(ours, existing, WildcardSubject(region, domain))[1..] <==>
              Entry(policy) in existing && Unclaimed(policy, region + "." + domain)
  {
    var suffix := region + "." + domain;
    assert WildcardSubject(region, domain) == "*." + suffix;
    SurvivorsAre(existing, "*." + suffix);
    OverlapsIffClaimed(policy, suffix);
  }

  predicate EndsIn(s: string, suffix: string) {
    |suffix| <= |s| && s[|s| - |suffix|..] == suffix
  }

  /** So policies of other names are left alone: one whose subjects all end otherwise is kept. */
  lemma ForeignPolicyIsKept(ours: Policy, existing: seq<Slot>, region: string, domain: string, policy: Policy)
    requires Entry(policy) in existing
    requires policy.subjects.Some? ==>
               forall name :: Some(name) in policy.subjects.value ==> !EndsIn(name, region + "." + domain)
    ensures policy in Rewritten(ours, existing, WildcardSubject(region, domain))[1..]
  {
    var suffix := region + "." + domain;
    if policy.subjects.Some? {
      forall name | Some(name) in policy.subjects.value
        ensures !Claimed(name, suffix)
      {
        assert ("*." + suffix)[2..] == suffix;
        forall prefix
          ensures name != prefix + suffix
        {
          assert (prefix + suffix)[|prefix|..] == suffix;
        }
      }
    }
    SurvivesIff(ours, existing, region, domain, policy);
  }

  /** Each policy that survives does so once, and in its place: the list is rewritten slot by
      slot. */
  lemma {:induction false} SurvivorsKeepOrder(a: seq<Slot>, slot: Slot, b: seq<Slot>, suffix: string)
    ensures Survivors(a + [slot] + b, "*." + suffix) ==
              Survivors(a, "*." + suffix)
              + (if slot.Entry? && Unclaimed(slot.policy, suffix) then [slot.policy] else [])
              + Survivors(b, "*." + suffix)
  {
    var wildcard := "*." + suffix;
    var all := a + [slot] + b;
    if |a| == 0 {
      assert all[1..] == b;
      if slot.Entry? {
        OverlapsIffClaimed(slot.policy, suffix);
      }
    } else {
      assert all[1..] == a[1..] + [slot] + b;
      SurvivorsKeepOrder(a[1..], slot, b, suffix);
    }
  }

  /** A survivor with subjects covers no single-label host under the wildcard. */
  lemma SurvivorCoversNothing(policy: Policy, existing: seq<Slot>, leaf: string, suffix: string)
    requires policy in Survivors(existing, "*." + suffix) && !Unrestricted(policy)
    ensures !Covers(policy, leaf, suffix)
  {
    var wildcard := "*." + suffix;
    assert wildcard[|"*."|..] == suffix && "*." <= wildcard;
    SurvivorsAre(existing, wildcard);
    var subjects := policy.subjects.value;
    forall i | 0 <= i < |subjects| && subjects[i].Some?
      ensures !SubjectCovers(subjects[i].value, leaf, suffix)
    {
      if SubjectCovers(subjects[i].value, leaf, suffix) {
        CoveredIsStripped(subjects[i].value, leaf, suffix);
      }
    }
  }

  /** Some policy behind ours applies to the host as well. */
  ghost predicate CoveredTwice(list: seq<Policy>, leaf: string, suffix: string) {
    exists k :: 0 < k < |list| && Covers(list[k], leaf, suffix)
  }

  /** After the rewrite ours is first, and it is the only policy for every single-label host
      under the wildcard if and only if the old list had no policy without subjects; one such
      policy is kept, and doubles ours for all of them. */
  lemma OnlyOursCovers(ours: Policy, existing: seq<Slot>, region: string, domain: string, leaf: string)
    ensures var list := Rewritten(ours, existing, WildcardSubject(region, domain));
            && list[0] == ours
            && (CoveredTwice(list, leaf, region + "." + domain) <==>
                  exists p :: Entry(p) in existing && Unrestricted(p))
  {
    var suffix := region + "." + domain;
    var wildcard := WildcardSubject(region, domain);
    var list := Rewritten(ours, existing, wildcard);
    assert wildcard == "*." + suffix;
    SurvivorsAre(existing, wildcard);
    assert forall k :: 0 < k < |list| ==> list[k] == Survivors(existing, wildcard)[k - 1];
    if k :| 0 < k < |list| && Covers(list[k], leaf, suffix) {
      assert list[k] in Survivors(existing, wildcard);
      if !Unrestricted(list[k]) {
        SurvivorCoversNothing(list[k], existing, leaf, suffix);
      }
      assert Entry(list[k]) in existing && Unrestricted(list[k]);
    }
    if p :| Entry(p) in existing && Unrestricted(p) {
      assert !Overlaps(p, wildcard);
      var i :| 0 <= i < |Survivors(existing, wildcard)| && Survivors(existing, wildcard)[i] == p;
      assert list[i + 1] == p;
    }
  }
}
