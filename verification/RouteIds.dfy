/** The `@id` of a route and of the session-ended fallback. */
module RouteIds {

  /** `host.replace('.', "_")`. */
  function Underscored(host: string): string {
    if |host| == 0 then ""
    else [if host[0] == '.' then '_' else host[0]] + Underscored(host[1..])
  }

  function RouteId(host: string): string {
    "dun-tunel-" + Underscored(host)
  }

  function FallbackId(region: string): string {
    "dun-tunel-session-ended-" + region
  }

  lemma {:induction false} UnderscoredAt(host: string)
    ensures |Underscored(host)| == |host|
    ensures forall i :: 0 <= i < |host| ==> Underscored(host)[i] == if host[i] == '.' then '_' else host[i]
  {
    if |host| > 0 {
      UnderscoredAt(host[1..]);
    }
  }

  /** The two characters that an id does not tell apart. */
  predicate Confused(c: char, d: char) {
    c == d || (c in {'.', '_'} && d in {'.', '_'})
  }

  predicate Alike(a: string, b: string) {
    |a| == |b| && forall i :: 0 <= i < |a| ==> Confused(a[i], b[i])
  }

  /** Exactly which hosts share an id: those that differ at most in dots against underscores. */
  lemma RouteIdsAgreeIff(a: string, b: string)
    ensures RouteId(a) == RouteId(b) <==> Alike(a, b)
  {
    UnderscoredAt(a);
    UnderscoredAt(b);
    assert RouteId(a)[10..] == Underscored(a) && RouteId(b)[10..] == Underscored(b);
    if RouteId(a) == RouteId(b) {
      assert Underscored(a) == Underscored(b);
      forall i | 0 <= i < |a|
        ensures Confused(a[i], b[i])
      {
        assert Underscored(a)[i] == Underscored(b)[i];
      }
    } else if |a| == |b| {
      var i :| 0 <= i < |a| && Underscored(a)[i] != Underscored(b)[i];
      assert !Confused(a[i], b[i]);
    }
  }

  /** Two hosts without an underscore share an id only when they are the same host. */
  lemma RouteIdIsInjective(a: string, b: string)
    requires '_' !in a && '_' !in b
    ensures RouteId(a) == RouteId(b) <==> a == b
  {
    RouteIdsAgreeIff(a, b);
    if RouteId(a) == RouteId(b) {
      forall i | 0 <= i < |a|
        ensures a[i] == b[i]
      {
        assert a[i] in a && b[i] in b;
      }
    }
  }

  /** The condition is needed: an underscore and a dot give the same id. */
  lemma RouteIdCollides(prefix: string, suffix: string)
    ensures RouteId(prefix + "_" + suffix) == RouteId(prefix + "." + suffix)
  {
    RouteIdsAgreeIff(prefix + "_" + suffix, prefix + "." + suffix);
  }

  /** A route id is the fallback's id exactly when the host spells it out. */
  lemma RouteIdIsFallbackIff(host: string, region: string)
    ensures RouteId(host) == FallbackId(region) <==> Underscored(host) == "session-ended-" + region
  {
    assert FallbackId(region) == "dun-tunel-" + ("session-ended-" + region);
    assert RouteId(host)[10..] == Underscored(host);
    assert FallbackId(region)[10..] == "session-ended-" + region;
  }

  /** A dotted host never takes the fallback's id. */
  lemma DottedHostIsNotFallback(host: string, region: string)
    requires '.' in host && '_' !in region
    ensures RouteId(host) != FallbackId(region)
  {
    UnderscoredAt(host);
    RouteIdIsFallbackIff(host, region);
    var i :| 0 <= i < |host| && host[i] == '.';
    assert Underscored(host)[i] == '_';
    assert '_' !in "session-ended-" + region;
  }

  function Dotted(s: string): string {
    if |s| == 0 then "" else [if s[0] == '_' then '.' else s[0]] + Dotted(s[1..])
  }

  lemma {:induction false} DottedBack(s: string)
    requires '.' !in s
    ensures Underscored(Dotted(s)) == s && '_' !in Dotted(s)
    ensures '_' in s ==> '.' in Dotted(s)
  {
    if |s| > 0 {
      DottedBack(s[1..]);
      assert Dotted(s)[1..] == Dotted(s[1..]);
      assert s == [s[0]] + s[1..];
    }
  }

  lemma {:induction false} UnderscoredConcat(a: string, b: string)
    ensures Underscored(a + b) == Underscored(a) + Underscored(b)
  {
    if |a| == 0 {
      assert a + b == b;
    } else {
      assert (a + b)[1..] == a[1..] + b;
      UnderscoredConcat(a[1..], b);
    }
  }

  lemma SpelledOut(prefix: string, region: string)
    requires '.' !in prefix && '.' !in region
    ensures Underscored(prefix + Dotted(region)) == prefix + region
  {
    DottedBack(region);
    UnderscoredConcat(prefix, Dotted(region));
    UnderscoredAt(prefix);
    assert Underscored(prefix) == prefix;
  }

  lemma UnderscoredHasNoDot(host: string, prefix: string, region: string)
    requires Underscored(host) == prefix + region
    ensures '.' !in region && ('.' in host ==> '_' in prefix + region)
  {
    UnderscoredAt(host);
    forall i | 0 <= i < |region|
      ensures region[i] != '.'
    {
      assert region[i] == Underscored(host)[|prefix| + i];
    }
    if i :| 0 <= i < |host| && host[i] == '.' {
      assert Underscored(host)[i] == '_';
    }
  }

  ghost predicate SpellsOut(host: string, prefix: string, region: string) {
    '.' in host && '_' !in host && Underscored(host) == prefix + region
  }

  lemma SpellableIff(prefix: string, region: string)
    requires '.' !in prefix && '_' !in prefix
    ensures (exists host :: SpellsOut(host, prefix, region)) <==> '_' in region && '.' !in region
  {
    if '_' in region && '.' !in region {
      SpelledOut(prefix, region);
      DottedBack(region);
      assert SpellsOut(prefix + Dotted(region), prefix, region);
    }
    if host :| SpellsOut(host, prefix, region) {
      UnderscoredHasNoDot(host, prefix, region);
    }
  }

  /** Some session host is given the fallback's id. */
  ghost predicate FallbackIdIsTaken(region: string) {
    exists host :: '.' in host && '_' !in host && RouteId(host) == FallbackId(region)
  }

  /** Exactly for which regions that can happen. */
  lemma FallbackIdIsTakenIff(region: string)
    ensures FallbackIdIsTaken(region) <==> '_' in region && '.' !in region
  {
    var prefix := "session-ended-";
    SpellableIff(prefix, region);
    if host :| SpellsOut(host, prefix, region) {
      RouteIdIsFallbackIff(host, region);
    }
    if FallbackIdIsTaken(region) {
      var host :| '.' in host && '_' !in host && RouteId(host) == FallbackId(region);
      RouteIdIsFallbackIff(host, region);
      assert SpellsOut(host, prefix, region);
    }
  }
}
