/** The CVSS base-score calculator: CVSSv3 scores the eight base metrics of
    CVSS v3.1, CVSSv4 the twelve metrics of the closed-form v4.0 variant.
    Each validates its metric letters against a fixed weight table, combines
    the weights into an impact and an exploitability sub-score, applies the
    Unchanged or Changed scope formula, caps the result at 10 and rounds it to
    one decimal place. All arithmetic is over exact reals. */
module Cvss {
  import opened Numeric

  /** One property of the metrics object a caller passes in: a property the
      caller leaves out is undefined; otherwise it is null or a string. */
  datatype Arg = Undefined | Null | Str(s: string)

  /** The two exceptions the calculator throws, one per version. */
  datatype Error = InvalidV3Metrics | InvalidV4Metrics

  datatype Result<+R> = Success(value: R) | Failure(error: Error)

  /** A weight table: metric letter to weight. */
  type Table = map<string, real>

  datatype Scope = Unchanged | Changed

  /** `W.X[a]` is truthy: a names an entry of t whose weight is not 0.
      Looking up null or undefined reads the keys "null" and "undefined",
      which no table has. */
  predicate Truthy(t: Table, a: Arg)
  {
    a.Str? && a.s in t && t[a.s] != 0.0
  }

  /** `Object.prototype.hasOwnProperty.call(t, a)`. */
  predicate HasOwn(t: Table, a: Arg)
  {
    a.Str? && a.s in t
  }

  /** `a == null`, which JavaScript makes true for undefined as well. */
  predicate Nullish(a: Arg)
  {
    a.Undefined? || a.Null?
  }

  /** `["U", "C"].includes(a)`. */
  predicate IsScopeLetter(a: Arg)
  {
    a == Str("U") || a == Str("C")
  }

  /** t has exactly the given letters and none of them weighs 0. */
  predicate PositiveTable(t: Table, letters: set<string>)
  {
    t.Keys == letters && forall k | k in t :: t[k] != 0.0
  }

  /** In a table without zero weights, truthiness is membership. */
  lemma TruthyIffLetter(t: Table, letters: set<string>, a: Arg)
    requires PositiveTable(t, letters)
    ensures Truthy(t, a) <==> a.Str? && a.s in letters
  {
  }

  // ---------------------------------------------------------------------------
  // Arithmetic shared by both versions

  /** The product of the weights. */
  function Product(ws: seq<real>): real
  {
    if ws == [] then 1.0 else ws[0] * Product(ws[1..])
  }

  /** The product of (1 - w) over the impact weights: how much of each
      security property is left intact. */
  function Intact(ws: seq<real>): real
  {
    if ws == [] then 1.0 else (1.0 - ws[0]) * Intact(ws[1..])
  }

  /** The impact sub-score: 1 - (1 - w1) * ... * (1 - wn). */
  function ImpactSub(ws: seq<real>): real
  {
    1.0 - Intact(ws)
  }

  /** The exploitability sub-score: 8.22 times the product of the
      exploitability weights. */
  function Exploitability(ws: seq<real>): real
  {
    8.22 * Product(ws)
  }

  /** The impact of an impact sub-score under the given scope. */
  function Impact(scope: Scope, iss: real): real
  {
    match scope
    case Unchanged => 6.42 * iss
    case Changed => 7.52 * (iss - 0.029) - 3.25 * Pow(iss - 0.02, 15)
  }

  /** The unrounded base score: 0 unless the impact is positive; otherwise
      impact plus exploitability, times 1.08 when the scope is Changed,
      capped at 10. */
  function BaseScore(scope: Scope, iss: real, exploit: real): (r: real)
    ensures r <= 10.0
    ensures Impact(scope, iss) <= 0.0 ==> r == 0.0
    ensures Impact(scope, iss) > 0.0 && exploit >= 0.0 ==>
              r >= Min(Impact(scope, iss), 10.0)
  {
    var impact := Impact(scope, iss);
    if impact > 0.0 then
      match scope
      case Unchanged => Min(impact + exploit, 10.0)
      case Changed => Min(1.08 * (impact + exploit), 10.0)
    else
      0.0
  }

  /** A product of weights in [0, 1] lies in [0, 1]. */
  lemma {:induction false} ProductInUnit(ws: seq<real>)
    requires forall k :: 0 <= k < |ws| ==> 0.0 <= ws[k] <= 1.0
    ensures 0.0 <= Product(ws) <= 1.0
  {
    if ws != [] {
      ProductInUnit(ws[1..]);
      var p := Product(ws[1..]);
      MulMonotone(ws[0], 1.0, p);
      assert ws[0] * p <= p;
      MulMonotone(0.0, ws[0], p);
      assert 0.0 <= ws[0] * p;
      assert ws[0] * p == Product(ws);
    }
  }

  /** The rounded base score of the given impact and exploitability weights:
      a whole number of tenths between 0 and 10. */
  function Score(scope: Scope, impactWeights: seq<real>, exploitWeights: seq<real>): (s: real)
    requires forall k :: 0 <= k < |exploitWeights| ==> 0.0 <= exploitWeights[k] <= 1.0
    ensures 0.0 <= s <= 10.0 && OneDecimal(s)
  {
    var iss := ImpactSub(impactWeights);
    var exploit := Exploitability(exploitWeights);
    ProductInUnit(exploitWeights);
    assert Impact(scope, iss) > 0.0 ==> BaseScore(scope, iss, exploit) >= 0.0;
    RoundTenth(BaseScore(scope, iss, exploit))
  }

  // ---------------------------------------------------------------------------
  // CVSS v3.1

  /** The eight v3.1 base metrics, by the names the caller uses. */
  datatype V3Metrics = V3Metrics(
    attackVector: Arg,
    attackComplexity: Arg,
    privilegesRequired: Arg,
    userInteraction: Arg,
    scope: Arg,
    confidentiality: Arg,
    integrity: Arg,
    availability: Arg)

  const V3AttackVector: Table := map["N" := 0.85, "A" := 0.62, "L" := 0.55, "P" := 0.2]
  const V3AttackComplexity: Table := map["L" := 0.77, "H" := 0.44]
  /** PrivilegesRequired has one table per Scope letter. */
  const V3PrivilegesRequired: map<string, Table> := map[
    "U" := map["N" := 0.85, "L" := 0.62, "H" := 0.27],
    "C" := map["N" := 0.85, "L" := 0.68, "H" := 0.5]]
  const V3UserInteraction: Table := map["N" := 0.85, "R" := 0.62]
  /** Confidentiality, Integrity and Availability share this table. */
  const V3Impact: Table := map["N" := 0.0, "L" := 0.22, "H" := 0.56]

  /** The letters each v3.1 metric admits. */
  predicate V3Valid(m: V3Metrics)
  {
    && m.attackVector.Str? && m.attackVector.s in {"N", "A", "L", "P"}
    && m.attackComplexity.Str? && m.attackComplexity.s in {"L", "H"}
    && m.privilegesRequired.Str? && m.privilegesRequired.s in {"N", "L", "H"}
    && m.userInteraction.Str? && m.userInteraction.s in {"N", "R"}
    && m.scope.Str? && m.scope.s in {"U", "C"}
    && m.confidentiality.Str? && m.confidentiality.s in {"N", "L", "H"}
    && m.integrity.Str? && m.integrity.s in {"N", "L", "H"}
    && m.availability.Str? && m.availability.s in {"N", "L", "H"}
  }

  /** The validation guard of CVSSv3: none of its rejection tests fires. */
  predicate V3Passes(m: V3Metrics)
  {
    && Truthy(V3AttackVector, m.attackVector)
    && Truthy(V3AttackComplexity, m.attackComplexity)
    && m.scope.Str? && m.scope.s in V3PrivilegesRequired
    && Truthy(V3PrivilegesRequired[m.scope.s], m.privilegesRequired)
    && Truthy(V3UserInteraction, m.userInteraction)
    && HasOwn(V3Impact, m.confidentiality)
    && HasOwn(V3Impact, m.integrity)
    && HasOwn(V3Impact, m.availability)
    && IsScopeLetter(m.scope)
  }

  /** The Scope a validated v3.1 selection names. */
  function V3Scope(m: V3Metrics): Scope
  {
    if m.scope == Str("U") then Unchanged else Changed
  }

  /** The impact weights [C, I, A] of a validated selection. */
  function V3ImpactWeights(m: V3Metrics): (ws: seq<real>)
    requires V3Passes(m)
    ensures |ws| == 3 && forall k :: 0 <= k < 3 ==> ws[k] in {0.0, 0.22, 0.56}
  {
    [V3Impact[m.confidentiality.s], V3Impact[m.integrity.s], V3Impact[m.availability.s]]
  }

  /** The exploitability weights [AV, AC, PR, UI] of a validated selection,
      PR read from the table of its Scope. */
  function V3ExploitWeights(m: V3Metrics): (ws: seq<real>)
    requires V3Passes(m)
    ensures |ws| == 4 && forall k :: 0 <= k < 4 ==> 0.0 < ws[k] <= 1.0
  {
    [V3AttackVector[m.attackVector.s],
     V3AttackComplexity[m.attackComplexity.s],
     V3PrivilegesRequired[m.scope.s][m.privilegesRequired.s],
     V3UserInteraction[m.userInteraction.s]]
  }

  /** The guard of CVSSv3 accepts exactly the selections that name a letter
      of each metric's table (all weights it tests for truthiness are
      non-zero). */
  lemma V3PassesIffValid(m: V3Metrics)
    ensures V3Passes(m) <==> V3Valid(m)
  {
    V3TableLetters();
    TruthyIffLetter(V3AttackVector, {"N", "A", "L", "P"}, m.attackVector);
    TruthyIffLetter(V3AttackComplexity, {"L", "H"}, m.attackComplexity);
    TruthyIffLetter(V3UserInteraction, {"N", "R"}, m.userInteraction);
    if IsScopeLetter(m.scope) {
      TruthyIffLetter(V3PrivilegesRequired[m.scope.s], {"N", "L", "H"}, m.privilegesRequired);
    }
  }

  /** The letters of the v3.1 tables; every exploitability weight is non-zero. */
  lemma V3TableLetters()
    ensures PositiveTable(V3AttackVector, {"N", "A", "L", "P"})
    ensures PositiveTable(V3AttackComplexity, {"L", "H"})
    ensures V3PrivilegesRequired.Keys == {"U", "C"}
    ensures PositiveTable(V3PrivilegesRequired["U"], {"N", "L", "H"})
    ensures PositiveTable(V3PrivilegesRequired["C"], {"N", "L", "H"})
    ensures PositiveTable(V3UserInteraction, {"N", "R"})
    ensures V3Impact.Keys == {"N", "L", "H"}
  {
  }

  /** The CVSS v3.1 base score, or the error the calculator throws. */
  function CVSSv3(m: V3Metrics): (r: Result<real>)
    ensures r.Failure? <==> !V3Valid(m)
    ensures r.Failure? ==> r.error == InvalidV3Metrics
    ensures r.Success? ==> 0.0 <= r.value <= 10.0 && OneDecimal(r.value)
  {
    V3PassesIffValid(m);
    if !V3Passes(m) then
      Failure(InvalidV3Metrics)
    else Success(Score(V3Scope(m), V3ImpactWeights(m), V3ExploitWeights(m)))
  }

  // ---------------------------------------------------------------------------
  // CVSS v4.0 (closed-form variant)

  /** The twelve v4.0 metrics, by the names the caller uses. */
  datatype V4Metrics = V4Metrics(
    attackVector: Arg,
    attackComplexity: Arg,
    attackRequirements: Arg,
    privilegesRequired: Arg,
    userInteraction: Arg,
    scope: Arg,
    confidentiality: Arg,
    integrity: Arg,
    availability: Arg,
    safetyConfidentiality: Arg,
    safetyIntegrity: Arg,
    safetyAvailability: Arg)

  const V4AttackVector: Table := map["N" := 0.85, "A" := 0.62, "L" := 0.55, "P" := 0.2]
  const V4AttackComplexity: Table := map["L" := 0.77, "H" := 0.44]
  const V4AttackRequirements: Table := map["N" := 1.0, "P" := 0.85]
  /** One PrivilegesRequired table, whatever the Scope. */
  const V4PrivilegesRequired: Table := map["N" := 0.85, "L" := 0.62, "H" := 0.27]
  const V4UserInteraction: Table := map["N" := 0.85, "R" := 0.62]
  /** The six impact metrics VC, VI, VA, SC, SI and SA share this table. */
  const V4Impact: Table := map["N" := 0.0, "L" := 0.22, "H" := 0.56]

  /** The destructuring default `scope = "U"`: it replaces undefined only. */
  function ScopeOrDefault(a: Arg): Arg
  {
    if a.Undefined? then Str("U") else a
  }

  /** `fields.some((f) => f == null)` over the eleven metrics other than Scope. */
  predicate SomeFieldNullish(m: V4Metrics)
  {
    || Nullish(m.attackVector) || Nullish(m.attackComplexity)
    || Nullish(m.attackRequirements) || Nullish(m.privilegesRequired)
    || Nullish(m.userInteraction)
    || Nullish(m.confidentiality) || Nullish(m.integrity) || Nullish(m.availability)
    || Nullish(m.safetyConfidentiality) || Nullish(m.safetyIntegrity)
    || Nullish(m.safetyAvailability)
  }

  /** The letters each v4.0 metric admits; Scope may also be left out. */
  predicate V4Valid(m: V4Metrics)
  {
    && m.attackVector.Str? && m.attackVector.s in {"N", "A", "L", "P"}
    && m.attackComplexity.Str? && m.attackComplexity.s in {"L", "H"}
    && m.attackRequirements.Str? && m.attackRequirements.s in {"N", "P"}
    && m.privilegesRequired.Str? && m.privilegesRequired.s in {"N", "L", "H"}
    && m.userInteraction.Str? && m.userInteraction.s in {"N", "R"}
    && (m.scope.Undefined? || (m.scope.Str? && m.scope.s in {"U", "C"}))
    && m.confidentiality.Str? && m.confidentiality.s in {"N", "L", "H"}
    && m.integrity.Str? && m.integrity.s in {"N", "L", "H"}
    && m.availability.Str? && m.availability.s in {"N", "L", "H"}
    && m.safetyConfidentiality.Str? && m.safetyConfidentiality.s in {"N", "L", "H"}
    && m.safetyIntegrity.Str? && m.safetyIntegrity.s in {"N", "L", "H"}
    && m.safetyAvailability.Str? && m.safetyAvailability.s in {"N", "L", "H"}
  }

  /** The validation guard of CVSSv4: none of its rejection tests fires. */
  predicate V4Passes(m: V4Metrics)
  {
    && !SomeFieldNullish(m)
    && Truthy(V4AttackVector, m.attackVector)
    && Truthy(V4AttackComplexity, m.attackComplexity)
    && Truthy(V4AttackRequirements, m.attackRequirements)
    && Truthy(V4PrivilegesRequired, m.privilegesRequired)
    && Truthy(V4UserInteraction, m.userInteraction)
    && IsScopeLetter(ScopeOrDefault(m.scope))
    && HasOwn(V4Impact, m.confidentiality)
    && HasOwn(V4Impact, m.integrity)
    && HasOwn(V4Impact, m.availability)
    && HasOwn(V4Impact, m.safetyConfidentiality)
    && HasOwn(V4Impact, m.safetyIntegrity)
    && HasOwn(V4Impact, m.safetyAvailability)
  }

  /** The Scope a validated v4.0 selection names, Unchanged when left out. */
  function V4Scope(m: V4Metrics): Scope
  {
    if ScopeOrDefault(m.scope) == Str("U") then Unchanged else Changed
  }

  /** The impact weights [VC, VI, VA, SC, SI, SA] of a validated selection. */
  function V4ImpactWeights(m: V4Metrics): (ws: seq<real>)
    requires V4Passes(m)
    ensures |ws| == 6 && forall k :: 0 <= k < 6 ==> ws[k] in {0.0, 0.22, 0.56}
  {
    [V4Impact[m.confidentiality.s], V4Impact[m.integrity.s], V4Impact[m.availability.s],
     V4Impact[m.safetyConfidentiality.s], V4Impact[m.safetyIntegrity.s],
     V4Impact[m.safetyAvailability.s]]
  }

  /** The exploitability weights [AV, AC, AR, PR, UI] of a validated selection. */
  function V4ExploitWeights(m: V4Metrics): (ws: seq<real>)
    requires V4Passes(m)
    ensures |ws| == 5 && forall k :: 0 <= k < 5 ==> 0.0 < ws[k] <= 1.0
  {
    [V4AttackVector[m.attackVector.s],
     V4AttackComplexity[m.attackComplexity.s],
     V4AttackRequirements[m.attackRequirements.s],
     V4PrivilegesRequired[m.privilegesRequired.s],
     V4UserInteraction[m.userInteraction.s]]
  }

  /** The guard of CVSSv4 accepts exactly the selections that name a letter
      of each metric's table. */
  lemma V4PassesIffValid(m: V4Metrics)
    ensures V4Passes(m) <==> V4Valid(m)
  {
    V4TableLetters();
    TruthyIffLetter(V4AttackVector, {"N", "A", "L", "P"}, m.attackVector);
    TruthyIffLetter(V4AttackComplexity, {"L", "H"}, m.attackComplexity);
    TruthyIffLetter(V4AttackRequirements, {"N", "P"}, m.attackRequirements);
    TruthyIffLetter(V4PrivilegesRequired, {"N", "L", "H"}, m.privilegesRequired);
    TruthyIffLetter(V4UserInteraction, {"N", "R"}, m.userInteraction);
  }

  /** The letters of the v4.0 tables; every exploitability weight is non-zero. */
  lemma V4TableLetters()
    ensures PositiveTable(V4AttackVector, {"N", "A", "L", "P"})
    ensures PositiveTable(V4AttackComplexity, {"L", "H"})
    ensures PositiveTable(V4AttackRequirements, {"N", "P"})
    ensures PositiveTable(V4PrivilegesRequired, {"N", "L", "H"})
    ensures PositiveTable(V4UserInteraction, {"N", "R"})
    ensures V4Impact.Keys == {"N", "L", "H"}
  {
  }

  /** The closed-form CVSS v4.0 base score, or the error the calculator throws. */
  function CVSSv4(m: V4Metrics): (r: Result<real>)
    ensures r.Failure? <==> !V4Valid(m)
    ensures r.Failure? ==> r.error == InvalidV4Metrics
    ensures r.Success? ==> 0.0 <= r.value <= 10.0 && OneDecimal(r.value)
  {
    V4PassesIffValid(m);
    if !V4Passes(m) then
      Failure(InvalidV4Metrics)
    else Success(Score(V4Scope(m), V4ImpactWeights(m), V4ExploitWeights(m)))
  }
}
