/** What the two calculators guarantee: the zero-impact rule, monotonicity in
    the impact metrics (under Unchanged scope for both versions, under Changed
    scope for v3.1, and its failure under Changed scope for v4.0), agreement
    between the versions, and the documented test vectors. */
module CvssProperties {
  import opened Numeric
  import opened Cvss

  // ---------------------------------------------------------------------------
  // The impact sub-score

  /** With weights in [0, 1], the intact share lies in [0, 1]. */
  lemma {:induction false} IntactInUnit(ws: seq<real>)
    requires forall k :: 0 <= k < |ws| ==> 0.0 <= ws[k] <= 1.0
    ensures 0.0 <= Intact(ws) <= 1.0
  {
    if ws != [] {
      IntactInUnit(ws[1..]);
      var p := Intact(ws[1..]);
      var f := 1.0 - ws[0];
      MulMonotone(f, 1.0, p);
      assert f * p <= p;
      MulMonotone(0.0, f, p);
      assert 0.0 <= f * p;
      assert f * p == Intact(ws);
    }
  }

  /** When no impact weight is set, everything is intact. */
  lemma {:induction false} IntactOfNone(ws: seq<real>)
    requires forall k :: 0 <= k < |ws| ==> ws[k] == 0.0
    ensures Intact(ws) == 1.0
  {
    if ws != [] {
      IntactOfNone(ws[1..]);
    }
  }

  /** The impact sub-score is at least each of its weights. */
  lemma {:induction false} ImpactSubAtLeast(ws: seq<real>, k: nat)
    requires forall j :: 0 <= j < |ws| ==> 0.0 <= ws[j] <= 1.0
    requires k < |ws|
    ensures ImpactSub(ws) >= ws[k]
  {
    var rest := Intact(ws[1..]);
    var f := 1.0 - ws[0];
    IntactInUnit(ws[1..]);
    assert Intact(ws) == f * rest;
    if k == 0 {
      MulMonotone(rest, 1.0, f);
      assert rest * f <= f;
    } else {
      ImpactSubAtLeast(ws[1..], k - 1);
      assert ws[1..][k - 1] == ws[k];
      MulMonotone(f, 1.0, rest);
      assert f * rest <= rest;
    }
  }

  /** Raising impact weights never lowers the impact sub-score. */
  lemma {:induction false} ImpactSubMonotone(ws: seq<real>, vs: seq<real>)
    requires |ws| == |vs|
    requires forall k :: 0 <= k < |ws| ==> 0.0 <= ws[k] <= vs[k] <= 1.0
    ensures ImpactSub(ws) <= ImpactSub(vs)
  {
    if ws != [] {
      ImpactSubMonotone(ws[1..], vs[1..]);
      IntactInUnit(ws[1..]);
      IntactInUnit(vs[1..]);
      var p, q := Intact(ws[1..]), Intact(vs[1..]);
      var f, g := 1.0 - ws[0], 1.0 - vs[0];
      assert q <= p;
      MulMonotone(g, f, q);
      assert g * q <= f * q;
      MulMonotone(q, p, f);
      assert q * f <= p * f;
      assert f * q == q * f && f * p == p * f;
      calc {
        Intact(vs);
        g * q;
      <= f * q;
      <= f * p;
        Intact(ws);
      }
    }
  }

  /** Appending metrics set to None leaves the impact sub-score as it was. */
  lemma {:induction false} ImpactSubPadded(ws: seq<real>, zs: seq<real>)
    requires forall k :: 0 <= k < |zs| ==> zs[k] == 0.0
    ensures ImpactSub(ws + zs) == ImpactSub(ws)
  {
    if ws == [] {
      assert ws + zs == zs;
      IntactOfNone(zs);
    } else {
      assert (ws + zs)[1..] == ws[1..] + zs;
      ImpactSubPadded(ws[1..], zs);
    }
  }

  /** Inserting a neutral weight 1.0 leaves a product as it was. */
  lemma {:induction false} ProductWithNeutral(xs: seq<real>, ys: seq<real>)
    ensures Product(xs + [1.0] + ys) == Product(xs + ys)
  {
    if xs == [] {
      assert xs + [1.0] + ys == [1.0] + ys;
      assert ([1.0] + ys)[1..] == ys;
      assert xs + ys == ys;
    } else {
      assert (xs + [1.0] + ys)[1..] == xs[1..] + [1.0] + ys;
      assert (xs + ys)[1..] == xs[1..] + ys;
      ProductWithNeutral(xs[1..], ys);
    }
  }

  // ---------------------------------------------------------------------------
  // Impact and the rounded score

  /** Without any impact, neither scope formula yields a positive impact. */
  lemma ImpactOfNothing(scope: Scope)
    ensures Impact(scope, 0.0) <= 0.0
  {
    if scope == Changed {
      PowSplit(-0.02, 5, 10);
      PowSplit(-0.02, 5, 5);
      assert Pow(-0.02, 15) == -0.000000000000000000000000032768;
    }
  }

  /** From the smallest non-zero impact sub-score (0.22) up, the impact is
      well above zero under either scope. */
  lemma ImpactFromLow(scope: Scope, iss: real)
    requires 0.22 <= iss <= 1.0
    ensures Impact(scope, iss) >= 0.7
  {
    if scope == Changed {
      PowBounded(iss - 0.02, 15);
    }
  }

  /** The rounded score is 0 exactly when every impact weight is 0. */
  lemma ScoreZeroIff(scope: Scope, ws: seq<real>, es: seq<real>)
    requires forall k :: 0 <= k < |ws| ==> ws[k] in {0.0, 0.22, 0.56}
    requires forall k :: 0 <= k < |es| ==> 0.0 <= es[k] <= 1.0
    ensures Score(scope, ws, es) == 0.0 <==> forall k :: 0 <= k < |ws| ==> ws[k] == 0.0
  {
    ProductInUnit(es);
    if forall k :: 0 <= k < |ws| ==> ws[k] == 0.0 {
      IntactOfNone(ws);
      ImpactOfNothing(scope);
    } else {
      var k :| 0 <= k < |ws| && ws[k] != 0.0;
      ImpactSubAtLeast(ws, k);
      IntactInUnit(ws);
      ImpactFromLow(scope, ImpactSub(ws));
    }
  }

  /** Under Unchanged scope the rounded score never falls when the impact
      weights rise. */
  lemma UnchangedScoreMonotone(ws: seq<real>, vs: seq<real>, es: seq<real>)
    requires |ws| == |vs|
    requires forall k :: 0 <= k < |ws| ==> 0.0 <= ws[k] <= vs[k] <= 1.0
    requires forall k :: 0 <= k < |es| ==> 0.0 <= es[k] <= 1.0
    ensures Score(Unchanged, ws, es) <= Score(Unchanged, vs, es)
  {
    ImpactSubMonotone(ws, vs);
    ProductInUnit(es);
    var exploit := Exploitability(es);
    RoundTenthMonotone(BaseScore(Unchanged, ImpactSub(ws), exploit),
                       BaseScore(Unchanged, ImpactSub(vs), exploit));
  }

  /** The rounded score never falls when the impact rises, or when the lower
      impact is not positive at all (both scores are then 0 and above). */
  lemma ScoreMonotoneInImpact(scope: Scope, ws: seq<real>, vs: seq<real>, es: seq<real>)
    requires forall k :: 0 <= k < |es| ==> 0.0 <= es[k] <= 1.0
    requires Impact(scope, ImpactSub(ws)) <= 0.0 ||
             Impact(scope, ImpactSub(ws)) <= Impact(scope, ImpactSub(vs))
    ensures Score(scope, ws, es) <= Score(scope, vs, es)
  {
    ProductInUnit(es);
    var exploit := Exploitability(es);
    RoundTenthMonotone(BaseScore(scope, ImpactSub(ws), exploit),
                       BaseScore(scope, ImpactSub(vs), exploit));
  }

  /** Below an impact sub-score of 0.85 the Changed-scope impact formula is
      increasing: the linear term 7.52 * x outgrows 3.25 * (x - 0.02)^15,
      whose slope stays below 3.25 * 15 * 0.85^14 < 5.1 there (PowDiff). */
  lemma ChangedImpactMonotone(a: real, b: real)
    requires 0.02 <= a <= b <= 0.85
    ensures Impact(Changed, a) <= Impact(Changed, b)
  {
    var y, z := a - 0.02, b - 0.02;
    PowDiff(y, z, 0.85, 15);
    PowSplit(0.85, 5, 10);
    PowSplit(0.85, 5, 5);
    assert Pow(0.85, 15) <= 0.0874;
    MulMonotone(Pow(0.85, 15), 0.0874, 15.0 * (z - y));
    assert 0.85 * (Pow(z, 15) - Pow(y, 15)) <= 1.311 * (b - a);
  }

  /** Under Changed scope the largest v3.1 impact sub-score short of all High
      (H/H/L, 0.848992) has a smaller impact than all High (0.914816), although
      the latter lies past the point where the formula turns downward. */
  lemma ChangedImpactAtTop()
    ensures Impact(Changed, 0.848992) <= Impact(Changed, 0.914816)
  {
    PowSplit(0.828992, 5, 10);
    PowSplit(0.828992, 5, 5);
    assert Pow(0.828992, 15) >= 0.06;
    PowSplit(0.894816, 5, 10);
    PowSplit(0.894816, 5, 5);
    assert Pow(0.894816, 15) <= 0.1889;
  }

  // ---------------------------------------------------------------------------
  // Severity order of the impact letters

  /** The rank of an impact letter in the order None < Low < High. */
  function Severity(a: Arg): int
  {
    if a == Str("N") then 0 else if a == Str("L") then 1 else 2
  }

  /** a and b are impact letters and b is at least as severe as a. */
  predicate NoMoreSevere(a: Arg, b: Arg)
  {
    && a.Str? && a.s in {"N", "L", "H"}
    && b.Str? && b.s in {"N", "L", "H"}
    && Severity(a) <= Severity(b)
  }

  /** In the shared impact table more severe letters weigh more. */
  lemma ImpactWeights(a: Arg, b: Arg)
    requires NoMoreSevere(a, b)
    ensures V3Impact[a.s] <= V3Impact[b.s] && V4Impact[a.s] <= V4Impact[b.s]
  {
  }

  /** In the shared impact table exactly None weighs 0. */
  lemma ZeroWeightIsNone(a: Arg)
    requires HasOwn(V3Impact, a) || HasOwn(V4Impact, a)
    ensures V3Impact[a.s] == 0.0 <==> a == Str("N")
    ensures V4Impact[a.s] == 0.0 <==> a == Str("N")
  {
  }

  // ---------------------------------------------------------------------------
  // CVSS v3.1

  /** The score is 0 exactly when Confidentiality, Integrity and Availability
      are all None, under either scope. */
  lemma V3ZeroImpactIff(m: V3Metrics)
    requires V3Valid(m)
    ensures CVSSv3(m) == Success(0.0) <==>
            m.confidentiality == m.integrity == m.availability == Str("N")
  {
    V3PassesIffValid(m);
    V3ScoreZeroIff(m);
  }

  /** The step of V3ZeroImpactIff on a selection that passed validation. */
  lemma V3ScoreZeroIff(m: V3Metrics)
    requires V3Passes(m)
    ensures CVSSv3(m) == Success(0.0) <==>
            m.confidentiality == m.integrity == m.availability == Str("N")
  {
    var ws := V3ImpactWeights(m);
    ScoreZeroIff(V3Scope(m), ws, V3ExploitWeights(m));
    ZeroWeightIsNone(m.confidentiality);
    ZeroWeightIsNone(m.integrity);
    ZeroWeightIsNone(m.availability);
    if ws[0] == 0.0 && ws[1] == 0.0 && ws[2] == 0.0 {
      forall k | 0 <= k < 3
        ensures ws[k] == 0.0
      {
        if k == 0 {} else if k == 1 {} else {}
      }
    }
  }

  /** Under Unchanged scope, raising any of Confidentiality, Integrity and
      Availability never lowers the score. */
  lemma V3UnchangedMonotone(m: V3Metrics, c: Arg, i: Arg, a: Arg)
    requires V3Valid(m) && m.scope == Str("U")
    requires NoMoreSevere(m.confidentiality, c)
    requires NoMoreSevere(m.integrity, i)
    requires NoMoreSevere(m.availability, a)
    ensures var raised := m.(confidentiality := c, integrity := i, availability := a);
            CVSSv3(m).Success? && CVSSv3(raised).Success? &&
            CVSSv3(m).value <= CVSSv3(raised).value
  {
    var raised := m.(confidentiality := c, integrity := i, availability := a);
    assert V3Valid(raised);
    V3PassesIffValid(m);
    V3PassesIffValid(raised);
    var ws, vs := V3ImpactWeights(m), V3ImpactWeights(raised);
    ImpactWeights(m.confidentiality, c);
    ImpactWeights(m.integrity, i);
    ImpactWeights(m.availability, a);
    forall k | 0 <= k < 3
      ensures 0.0 <= ws[k] <= vs[k] <= 1.0
    {
      if k == 0 {} else if k == 1 {} else {}
    }
    var es := V3ExploitWeights(m);
    assert V3ExploitWeights(raised) == es;
    assert V3Scope(m) == V3Scope(raised) == Unchanged;
    UnchangedScoreMonotone(ws, vs, es);
  }

  /** The impact sub-score of three impact weights is 0 or at least 0.22, and
      at most 0.848992 unless all three are High. */
  lemma V3ImpactSubRange(ws: seq<real>)
    requires |ws| == 3 && forall k :: 0 <= k < 3 ==> ws[k] in {0.0, 0.22, 0.56}
    ensures ImpactSub(ws) == 0.0 || ImpactSub(ws) >= 0.22
    ensures ws == [0.56, 0.56, 0.56] || ImpactSub(ws) <= 0.848992
  {
    if forall k :: 0 <= k < 3 ==> ws[k] == 0.0 {
      IntactOfNone(ws);
    } else {
      var k :| 0 <= k < 3 && ws[k] != 0.0;
      ImpactSubAtLeast(ws, k);
    }
    if ws != [0.56, 0.56, 0.56] {
      var top := if ws[0] != 0.56 then [0.22, 0.56, 0.56]
                 else if ws[1] != 0.56 then [0.56, 0.22, 0.56]
                 else [0.56, 0.56, 0.22];
      assert ImpactSub([0.22, 0.56, 0.56]) == 0.848992;
      assert ImpactSub([0.56, 0.22, 0.56]) == 0.848992;
      assert ImpactSub([0.56, 0.56, 0.22]) == 0.848992;
      forall k | 0 <= k < 3
        ensures 0.0 <= ws[k] <= top[k] <= 1.0
      {
        if k == 0 {} else if k == 1 {} else {}
      }
      ImpactSubMonotone(ws, top);
    }
  }

  /** Under Changed scope, raising three impact weights never lowers the
      rounded score, past the turning point of the impact formula included. */
  lemma V3ChangedScoreMonotone(ws: seq<real>, vs: seq<real>, es: seq<real>)
    requires |ws| == 3 && forall k :: 0 <= k < 3 ==> ws[k] in {0.0, 0.22, 0.56}
    requires |vs| == 3 && forall k :: 0 <= k < 3 ==> vs[k] in {0.0, 0.22, 0.56}
    requires forall k :: 0 <= k < 3 ==> ws[k] <= vs[k]
    requires forall k :: 0 <= k < |es| ==> 0.0 <= es[k] <= 1.0
    ensures Score(Changed, ws, es) <= Score(Changed, vs, es)
  {
    forall k | 0 <= k < 3
      ensures 0.0 <= ws[k] <= vs[k] <= 1.0
    {
      if k == 0 {} else if k == 1 {} else {}
    }
    ImpactSubMonotone(ws, vs);
    V3ImpactSubRange(ws);
    V3ImpactSubRange(vs);
    var x, y := ImpactSub(ws), ImpactSub(vs);
    if x == 0.0 {
      ImpactOfNothing(Changed);
    } else if y <= 0.848992 {
      ChangedImpactMonotone(x, y);
    } else if ws == [0.56, 0.56, 0.56] {
      assert vs == ws;
    } else {
      assert vs == [0.56, 0.56, 0.56];
      assert ImpactSub([0.56, 0.56, 0.56]) == 0.914816;
      ChangedImpactMonotone(x, 0.848992);
      ChangedImpactAtTop();
    }
    ScoreMonotoneInImpact(Changed, ws, vs, es);
  }

  /** Under Changed scope too, raising any of Confidentiality, Integrity and
      Availability never lowers the score. */
  lemma V3ChangedMonotone(m: V3Metrics, c: Arg, i: Arg, a: Arg)
    requires V3Valid(m) && m.scope == Str("C")
    requires NoMoreSevere(m.confidentiality, c)
    requires NoMoreSevere(m.integrity, i)
    requires NoMoreSevere(m.availability, a)
    ensures var raised := m.(confidentiality := c, integrity := i, availability := a);
            CVSSv3(m).Success? && CVSSv3(raised).Success? &&
            CVSSv3(m).value <= CVSSv3(raised).value
  {
    var raised := m.(confidentiality := c, integrity := i, availability := a);
    assert V3Valid(raised);
    V3PassesIffValid(m);
    V3PassesIffValid(raised);
    var ws, vs := V3ImpactWeights(m), V3ImpactWeights(raised);
    ImpactWeights(m.confidentiality, c);
    ImpactWeights(m.integrity, i);
    ImpactWeights(m.availability, a);
    forall k | 0 <= k < 3
      ensures ws[k] <= vs[k]
    {
      if k == 0 {} else if k == 1 {} else {}
    }
    var es := V3ExploitWeights(m);
    assert V3ExploitWeights(raised) == es;
    assert V3Scope(m) == V3Scope(raised) == Changed;
    V3ChangedScoreMonotone(ws, vs, es);
  }

  /** Under Changed scope, PrivilegesRequired Low and High weigh more than
      under Unchanged scope; None weighs the same. */
  lemma V3ChangedPrivileges(m: V3Metrics)
    requires V3Valid(m) && m.scope == Str("C")
    ensures var plain := m.(scope := Str("U"));
            V3Valid(plain) &&
            (V3ExploitWeights(m)[2] == V3ExploitWeights(plain)[2] <==>
             m.privilegesRequired == Str("N")) &&
            V3ExploitWeights(m)[2] >= V3ExploitWeights(plain)[2]
  {
  }

  /** AV:N/AC:L/PR:N/UI:N/S:U/C:H/I:H/A:H scores 9.8. */
  lemma V3TypicalCase()
    ensures CVSSv3(V3Metrics(Str("N"), Str("L"), Str("N"), Str("N"), Str("U"),
                             Str("H"), Str("H"), Str("H"))) == Success(9.8)
  {
    var m := V3Metrics(Str("N"), Str("L"), Str("N"), Str("N"), Str("U"),
                       Str("H"), Str("H"), Str("H"));
    assert V3ImpactWeights(m) == [0.56, 0.56, 0.56];
    assert V3ExploitWeights(m) == [0.85, 0.77, 0.85, 0.85];
    assert Intact([0.56, 0.56, 0.56]) == 0.085184;
    assert Product([0.85, 0.77, 0.85, 0.85]) == 0.47287625;
    assert BaseScore(Unchanged, 0.914816, 3.887042775) == 9.760161495;
    RoundTenthOf(9.760161495, 9.8);
  }

  /** AV:L/AC:H/PR:L/UI:R/S:U/C:L/I:L/A:N scores 3.3. */
  lemma V3LowCase()
    ensures CVSSv3(V3Metrics(Str("L"), Str("H"), Str("L"), Str("R"), Str("U"),
                             Str("L"), Str("L"), Str("N"))) == Success(3.3)
  {
    var m := V3Metrics(Str("L"), Str("H"), Str("L"), Str("R"), Str("U"),
                       Str("L"), Str("L"), Str("N"));
    assert V3ImpactWeights(m) == [0.22, 0.22, 0.0];
    assert V3ExploitWeights(m) == [0.55, 0.44, 0.62, 0.62];
    assert Intact([0.22, 0.22, 0.0]) == 0.6084;
    assert Product([0.55, 0.44, 0.62, 0.62]) == 0.0930248;
    assert BaseScore(Unchanged, 0.3916, 0.764663856) == 3.278735856;
    RoundTenthOf(3.278735856, 3.3);
  }

  /** Leaving out UserInteraction and the later metrics is rejected. */
  lemma V3MissingMetrics()
    ensures CVSSv3(V3Metrics(Str("N"), Str("L"), Str("N"), Undefined, Undefined,
                             Undefined, Undefined, Undefined)) == Failure(InvalidV3Metrics)
  {
  }

  // ---------------------------------------------------------------------------
  // CVSS v4.0

  /** Leaving Scope out is the same as giving "U". */
  lemma V4OmittedScope(m: V4Metrics)
    ensures CVSSv4(m.(scope := Undefined)) == CVSSv4(m.(scope := Str("U")))
  {
  }

  /** The score is 0 exactly when all six impact metrics are None. */
  lemma V4ZeroImpactIff(m: V4Metrics)
    requires V4Valid(m)
    ensures CVSSv4(m) == Success(0.0) <==>
            && m.confidentiality == m.integrity == m.availability == Str("N")
            && m.safetyConfidentiality == m.safetyIntegrity == m.safetyAvailability == Str("N")
  {
    V4PassesIffValid(m);
    V4ScoreZeroIff(m);
  }

  /** The step of V4ZeroImpactIff on a selection that passed validation. */
  lemma V4ScoreZeroIff(m: V4Metrics)
    requires V4Passes(m)
    ensures CVSSv4(m) == Success(0.0) <==>
            && m.confidentiality == m.integrity == m.availability == Str("N")
            && m.safetyConfidentiality == m.safetyIntegrity == m.safetyAvailability == Str("N")
  {
    var ws, es := V4ImpactWeights(m), V4ExploitWeights(m);
    ScoreZeroIff(V4Scope(m), ws, es);
    ZeroWeightIsNone(m.confidentiality);
    ZeroWeightIsNone(m.integrity);
    ZeroWeightIsNone(m.availability);
    ZeroWeightIsNone(m.safetyConfidentiality);
    ZeroWeightIsNone(m.safetyIntegrity);
    ZeroWeightIsNone(m.safetyAvailability);
    if ws[0] == 0.0 && ws[1] == 0.0 && ws[2] == 0.0 &&
       ws[3] == 0.0 && ws[4] == 0.0 && ws[5] == 0.0 {
      forall k | 0 <= k < 6
        ensures ws[k] == 0.0
      {
        if k == 0 {} else if k == 1 {} else if k == 2 {}
        else if k == 3 {} else if k == 4 {} else {}
      }
    }
  }

  /** Under Unchanged scope, raising any of the six impact metrics never
      lowers the score. */
  lemma V4UnchangedMonotone(m: V4Metrics, vc: Arg, vi: Arg, va: Arg, sc: Arg, si: Arg, sa: Arg)
    requires V4Valid(m) && ScopeOrDefault(m.scope) == Str("U")
    requires NoMoreSevere(m.confidentiality, vc)
    requires NoMoreSevere(m.integrity, vi)
    requires NoMoreSevere(m.availability, va)
    requires NoMoreSevere(m.safetyConfidentiality, sc)
    requires NoMoreSevere(m.safetyIntegrity, si)
    requires NoMoreSevere(m.safetyAvailability, sa)
    ensures var raised := m.(confidentiality := vc, integrity := vi, availability := va,
                             safetyConfidentiality := sc, safetyIntegrity := si,
                             safetyAvailability := sa);
            CVSSv4(m).Success? && CVSSv4(raised).Success? &&
            CVSSv4(m).value <= CVSSv4(raised).value
  {
    var raised := m.(confidentiality := vc, integrity := vi, availability := va,
                     safetyConfidentiality := sc, safetyIntegrity := si,
                     safetyAvailability := sa);
    assert V4Valid(raised);
    V4PassesIffValid(m);
    V4PassesIffValid(raised);
    V4ScoreUnchangedMonotone(m, raised);
  }

  /** The step of V4UnchangedMonotone on selections that passed validation. */
  lemma V4ScoreUnchangedMonotone(m: V4Metrics, raised: V4Metrics)
    requires V4Passes(m) && V4Passes(raised) && ScopeOrDefault(m.scope) == Str("U")
    requires raised.attackVector == m.attackVector
    requires raised.attackComplexity == m.attackComplexity
    requires raised.attackRequirements == m.attackRequirements
    requires raised.privilegesRequired == m.privilegesRequired
    requires raised.userInteraction == m.userInteraction
    requires raised.scope == m.scope
    requires NoMoreSevere(m.confidentiality, raised.confidentiality)
    requires NoMoreSevere(m.integrity, raised.integrity)
    requires NoMoreSevere(m.availability, raised.availability)
    requires NoMoreSevere(m.safetyConfidentiality, raised.safetyConfidentiality)
    requires NoMoreSevere(m.safetyIntegrity, raised.safetyIntegrity)
    requires NoMoreSevere(m.safetyAvailability, raised.safetyAvailability)
    ensures CVSSv4(m).Success? && CVSSv4(raised).Success? &&
            CVSSv4(m).value <= CVSSv4(raised).value
  {
    var ws, vs := V4ImpactWeights(m), V4ImpactWeights(raised);
    ImpactWeights(m.confidentiality, raised.confidentiality);
    ImpactWeights(m.integrity, raised.integrity);
    ImpactWeights(m.availability, raised.availability);
    ImpactWeights(m.safetyConfidentiality, raised.safetyConfidentiality);
    ImpactWeights(m.safetyIntegrity, raised.safetyIntegrity);
    ImpactWeights(m.safetyAvailability, raised.safetyAvailability);
    forall k | 0 <= k < 6
      ensures 0.0 <= ws[k] <= vs[k] <= 1.0
    {
      if k == 0 {} else if k == 1 {} else if k == 2 {}
      else if k == 3 {} else if k == 4 {} else {}
    }
    var es := V4ExploitWeights(m);
    assert V4ExploitWeights(raised) == es;
    assert V4Scope(m) == V4Scope(raised) == Unchanged;
    UnchangedScoreMonotone(ws, vs, es);
  }

  /** AV:N/AC:L/AR:N/PR:N/UI:N/S:U with VC, VI, VA High and SC, SI, SA None
      scores 9.8. */
  lemma V4TypicalCase()
    ensures CVSSv4(V4Metrics(Str("N"), Str("L"), Str("N"), Str("N"), Str("N"), Str("U"),
                             Str("H"), Str("H"), Str("H"), Str("N"), Str("N"), Str("N")))
            == Success(9.8)
  {
    var m := V4Metrics(Str("N"), Str("L"), Str("N"), Str("N"), Str("N"), Str("U"),
                       Str("H"), Str("H"), Str("H"), Str("N"), Str("N"), Str("N"));
    assert V4Passes(m);
    assert V4ImpactWeights(m) == [0.56, 0.56, 0.56, 0.0, 0.0, 0.0];
    assert V4ExploitWeights(m) == [0.85, 0.77, 1.0, 0.85, 0.85];
    assert Intact([0.56, 0.56, 0.56, 0.0, 0.0, 0.0]) == 0.085184;
    assert Product([0.85, 0.77, 1.0, 0.85, 0.85]) == 0.47287625;
    assert BaseScore(Unchanged, 0.914816, 3.887042775) == 9.760161495;
    RoundTenthOf(9.760161495, 9.8);
  }

  /** Under Changed scope the v4.0 score is not monotone in the impact
      metrics: with AV:N/AC:L/AR:N/PR:N/UI:N/S:C, VC, VI, VA, SC and SI High,
      raising SA from Low to High lowers the score from 9.9 to 9.7. The
      impact sub-score of six metrics reaches past the point where the
      Changed-scope impact formula turns downward. */
  lemma V4ChangedNotMonotone()
    ensures var m := V4Metrics(Str("N"), Str("L"), Str("N"), Str("N"), Str("N"), Str("C"),
                               Str("H"), Str("H"), Str("H"), Str("H"), Str("H"), Str("L"));
            var raised := m.(safetyAvailability := Str("H"));
            NoMoreSevere(m.safetyAvailability, raised.safetyAvailability) &&
            CVSSv4(m) == Success(9.9) && CVSSv4(raised) == Success(9.7)
  {
    assert Severity(Str("L")) == 1 && Severity(Str("H")) == 2;
    V4ChangedBelowTop();
    V4ChangedAtTop();
  }

  /** The selection of V4ChangedNotMonotone before SA is raised. */
  lemma V4ChangedBelowTop()
    ensures CVSSv4(V4Metrics(Str("N"), Str("L"), Str("N"), Str("N"), Str("N"), Str("C"),
                             Str("H"), Str("H"), Str("H"), Str("H"), Str("H"), Str("L")))
            == Success(9.9)
  {
    var m := V4Metrics(Str("N"), Str("L"), Str("N"), Str("N"), Str("N"), Str("C"),
                       Str("H"), Str("H"), Str("H"), Str("H"), Str("H"), Str("L"));
    assert V4Passes(m);
    assert V4ExploitWeights(m) == [0.85, 0.77, 1.0, 0.85, 0.85];
    assert V4ImpactWeights(m) == [0.56, 0.56, 0.56, 0.56, 0.56, 0.22];
    assert V4Scope(m) == Changed;
    ChangedScoreBelowTop();
  }

  /** The selection of V4ChangedNotMonotone after SA is raised. */
  lemma V4ChangedAtTop()
    ensures CVSSv4(V4Metrics(Str("N"), Str("L"), Str("N"), Str("N"), Str("N"), Str("C"),
                             Str("H"), Str("H"), Str("H"), Str("H"), Str("H"), Str("H")))
            == Success(9.7)
  {
    var m := V4Metrics(Str("N"), Str("L"), Str("N"), Str("N"), Str("N"), Str("C"),
                       Str("H"), Str("H"), Str("H"), Str("H"), Str("H"), Str("H"));
    assert V4Passes(m);
    assert V4ExploitWeights(m) == [0.85, 0.77, 1.0, 0.85, 0.85];
    assert V4ImpactWeights(m) == [0.56, 0.56, 0.56, 0.56, 0.56, 0.56];
    assert V4Scope(m) == Changed;
    ChangedScoreAtTop();
  }

  /** The arithmetic of V4ChangedNotMonotone, before SA is raised. */
  lemma ChangedScoreBelowTop()
    ensures Score(Changed, [0.56, 0.56, 0.56, 0.56, 0.56, 0.22],
                  [0.85, 0.77, 1.0, 0.85, 0.85]) == 9.9
  {
    assert Product([0.85, 0.77, 1.0, 0.85, 0.85]) == 0.47287625;
    assert Intact([0.56, 0.56, 0.56, 0.56, 0.56, 0.22]) == 0.012863465472;
    PowSplit(0.967136534528, 5, 10);
    PowSplit(0.967136534528, 5, 5);
    assert 0.6057 <= Pow(0.967136534528, 15) <= 0.6058;
    var base := BaseScore(Changed, 0.987136534528, 3.887042775);
    assert 9.85 <= base < 9.95;
    RoundTenthOf(base, 9.9);
  }

  /** The arithmetic of V4ChangedNotMonotone, after SA is raised. */
  lemma ChangedScoreAtTop()
    ensures Score(Changed, [0.56, 0.56, 0.56, 0.56, 0.56, 0.56],
                  [0.85, 0.77, 1.0, 0.85, 0.85]) == 9.7
  {
    assert Product([0.85, 0.77, 1.0, 0.85, 0.85]) == 0.47287625;
    assert Intact([0.56, 0.56, 0.56, 0.56, 0.56, 0.56]) == 0.007256313856;
    PowSplit(0.972743686144, 5, 10);
    PowSplit(0.972743686144, 5, 5);
    assert 0.6606 <= Pow(0.972743686144, 15) <= 0.6607;
    var base := BaseScore(Changed, 0.992743686144, 3.887042775);
    assert 9.65 <= base < 9.75;
    RoundTenthOf(base, 9.7);
  }

  /** Leaving out Scope and the impact metrics is rejected. */
  lemma V4MissingMetrics()
    ensures CVSSv4(V4Metrics(Str("N"), Str("L"), Str("N"), Str("N"), Str("N"), Undefined,
                             Undefined, Undefined, Undefined, Undefined, Undefined, Undefined))
            == Failure(InvalidV4Metrics)
  {
  }

  // ---------------------------------------------------------------------------
  // The two versions side by side

  /** The v3.1 selection made of the v4.0 metrics both versions have. */
  function AsV3(m: V4Metrics): V3Metrics
  {
    V3Metrics(m.attackVector, m.attackComplexity, m.privilegesRequired, m.userInteraction,
              m.scope, m.confidentiality, m.integrity, m.availability)
  }

  /** With AttackRequirements and the three safety metrics None, the v4.0
      score equals the v3.1 score of the shared metrics under Unchanged scope,
      and also under Changed scope when PrivilegesRequired is None (the one
      PR letter both v3.1 tables weigh alike). */
  lemma V4AgreesWithV3(m: V4Metrics)
    requires m.attackRequirements == Str("N")
    requires m.safetyConfidentiality == m.safetyIntegrity == m.safetyAvailability == Str("N")
    requires m.scope == Str("U") || (m.scope == Str("C") && m.privilegesRequired == Str("N"))
    ensures CVSSv4(m).Success? <==> CVSSv3(AsV3(m)).Success?
    ensures CVSSv4(m).Success? ==> CVSSv4(m).value == CVSSv3(AsV3(m)).value
  {
    V4PassesIffValid(m);
    V3PassesIffValid(AsV3(m));
    if V4Valid(m) {
      V4ScoreAgreesWithV3(m);
    }
  }

  /** The score step of V4AgreesWithV3. */
  lemma V4ScoreAgreesWithV3(m: V4Metrics)
    requires V4Passes(m) && V3Passes(AsV3(m))
    requires m.attackRequirements == Str("N")
    requires m.safetyConfidentiality == m.safetyIntegrity == m.safetyAvailability == Str("N")
    requires m.scope == Str("U") || (m.scope == Str("C") && m.privilegesRequired == Str("N"))
    ensures CVSSv4(m) == Success(CVSSv3(AsV3(m)).value)
  {
    var m3 := AsV3(m);
    var ws4, ws3 := V4ImpactWeights(m), V3ImpactWeights(m3);
    assert ws4 == ws3 + [0.0, 0.0, 0.0];
    ImpactSubPadded(ws3, [0.0, 0.0, 0.0]);
    var es4, es3 := V4ExploitWeights(m), V3ExploitWeights(m3);
    assert es4 == es3[..2] + [1.0] + es3[2..];
    ProductWithNeutral(es3[..2], es3[2..]);
    assert es3[..2] + es3[2..] == es3;
    assert Product(es4) == Product(es3);
    assert V4Scope(m) == V3Scope(m3);
    assert Score(V4Scope(m), ws4, es4) == Score(V3Scope(m3), ws3, es3);
  }
}
