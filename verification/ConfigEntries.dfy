/**
  What a resolved configuration shows and reports: which value, from where, what
  of it is redacted, and what each violation says. Stated of the values and
  violations that `Resolve` returns, without the steps that make them.
 */
module ConfigEntries {
  import opened R = ConfigResolver
  import opened Wrappers

  /** The entry shows a raw value: as it is when redaction is off, else nothing
      of a secret and the redactor's output for what is only sensitive. */
  ghost predicate Shows(e: Entry, raw: Value, options: Options) {
    if options.redactSecrets == Some(false) then e.value == raw && !e.redacted
    else if e.secret then e.value == Str("REDACTED") && e.redacted
    else if e.sensitive then e.value == options.redact(raw) && e.redacted
    else e.value == raw && !e.redacted
  }

  /** A key's entry is locked by its definition or by a value the request may take. */
  ghost predicate LockedEntry(d: Definition, candidates: seq<ConfigValue>, input: Input) {
    d.overridable == Some(false) || exists c :: c in candidates && Eligible(d, candidates, input, c) && c.locked
  }

  lemma WinsOnce(d: Definition, candidates: seq<ConfigValue>, input: Input, i: nat, j: nat)
    requires Wins(d, candidates, input, i) && Wins(d, candidates, input, j)
    ensures i == j
  {
  }

  lemma WinnerAt(d: Definition, candidates: seq<ConfigValue>, input: Input, i: nat)
    requires Wins(d, candidates, input, i)
    ensures Winning(Applicable(d, Relevant(d, candidates, input))) == Some(candidates[i])
  {
    WinnerIsDeclared(d, candidates, input);
    assert candidates[i] in candidates;
    var j: nat :| Wins(d, candidates, input, j) &&
      Some(candidates[j]) == Winning(Applicable(d, Relevant(d, candidates, input)));
    WinsOnce(d, candidates, input, i, j);
  }

  lemma LockedMeans(d: Definition, candidates: seq<ConfigValue>, input: Input)
    ensures var applicable := Applicable(d, Relevant(d, candidates, input));
            IsLocked(d, Winning(applicable), applicable) <==> LockedEntry(d, candidates, input)
  {
    ApplicableMembers(d, candidates, input);
    var applicable := Applicable(d, Relevant(d, candidates, input));
    assert applicable != [] ==> applicable[|applicable| - 1] in applicable;
  }

  /** The winning candidate is what the entry shows and names as its source; a
      winner without a value leaves the key out. */
  lemma ShowsWinner(values: map<string, Entry>, ds: map<string, Definition>, keys: seq<string>,
                    candidates: seq<ConfigValue>, input: Input, options: Options, k: string, i: nat)
    requires (forall key :: key in keys ==> key in ds) && k in keys
    requires ValuesFor(values, ds, keys, candidates, input, options) && Wins(ds[k], candidates, input, i)
    ensures k in values <==> candidates[i].value != Undefined
    ensures k in values ==>
        var (d, c, e) := (ds[k], candidates[i], values[k]);
        && Shows(e, c.value, options)
        && e.sourceScope == c.scope && e.sourceObjectId == c.scopeId && !e.defaulted
        && e.secret == (d.secret || c.secret) && e.sensitive == (d.sensitive || c.sensitive || e.secret)
        && e.inherited == (c.scope != Runtime) && e.locked == LockedEntry(d, candidates, input)
  {
    assert ValueFor(values, ds[k], k, candidates, input, options);
    WinnerAt(ds[k], candidates, input, i);
    LockedMeans(ds[k], candidates, input);
  }

  /** Without an eligible candidate the default is shown, if there is one. */
  lemma ShowsDefault(values: map<string, Entry>, ds: map<string, Definition>, keys: seq<string>,
                     candidates: seq<ConfigValue>, input: Input, options: Options, k: string)
    requires (forall key :: key in keys ==> key in ds) && k in keys
    requires ValuesFor(values, ds, keys, candidates, input, options)
    requires forall c :: c in candidates ==> !Eligible(ds[k], candidates, input, c)
    ensures k in values <==> ds[k].defaultValue != Undefined
    ensures k in values ==>
        var (d, e) := (ds[k], values[k]);
        && Shows(e, d.defaultValue, options)
        && e.sourceScope == Global && e.sourceObjectId == None && e.defaulted
        && e.secret == d.secret && e.sensitive == (d.sensitive || d.secret)
        && e.inherited == (d.inherited != Some(false)) && e.locked == (d.overridable == Some(false))
  {
    assert ValueFor(values, ds[k], k, candidates, input, options);
    WinnerIsDeclared(ds[k], candidates, input);
    LockedMeans(ds[k], candidates, input);
  }

  /*
   * Secrets.
   */

  /** The two candidates differ in the value of a secret at most, and the
      definition permits both or neither. */
  ghost predicate SameButSecret(d: Definition, a: ConfigValue, b: ConfigValue) {
    && b == a.(value := b.value)
    && (a.key == d.key && a != b ==>
          && (d.secret || a.secret)
          && (Permitted(d, a) <==> Permitted(d, b)) && (a.value == Undefined <==> b.value == Undefined))
  }

  ghost predicate SecretsApart(d: Definition, a: seq<ConfigValue>, b: seq<ConfigValue>) {
    |a| == |b| && forall i: nat {:trigger a[i], b[i]} :: i < |a| ==> SameButSecret(d, a[i], b[i])
  }

  lemma SameLocks(d: Definition, a: seq<ConfigValue>, b: seq<ConfigValue>, input: Input, scope: Scope)
    requires SecretsApart(d, a, b) && LockedFor(d, a, input, scope)
    ensures LockedFor(d, b, input, scope)
  {
    var c :| c in a && c.key == d.key && MatchesScope(c, input) && c.locked && Rank(c.scope) < Rank(scope);
    var i :| 0 <= i < |a| && a[i] == c;
    assert SameButSecret(d, a[i], b[i]) && b[i] in b;
  }

  lemma SameEligible(d: Definition, a: seq<ConfigValue>, b: seq<ConfigValue>, input: Input, i: nat)
    requires SecretsApart(d, a, b) && SecretsApart(d, b, a) && i < |a| && Eligible(d, a, input, a[i])
    ensures Eligible(d, b, input, b[i])
  {
    assert SameButSecret(d, a[i], b[i]);
    if LockedFor(d, b, input, b[i].scope) { SameLocks(d, b, a, input, b[i].scope); }
  }

  lemma SameWinner(d: Definition, a: seq<ConfigValue>, b: seq<ConfigValue>, input: Input, i: nat)
    requires SecretsApart(d, a, b) && SecretsApart(d, b, a) && Wins(d, a, input, i)
    ensures Wins(d, b, input, i)
  {
    SameEligible(d, a, b, input, i);
    assert SameButSecret(d, a[i], b[i]);
    forall j | 0 <= j < |b| && Eligible(d, b, input, b[j])
      ensures Rank(b[j].scope) < Rank(b[i].scope) || (b[j].scope == b[i].scope && j <= i)
    {
      SameEligible(d, b, a, input, j);
      assert SameButSecret(d, a[j], b[j]);
    }
  }

  lemma SameLockedEntry(d: Definition, a: seq<ConfigValue>, b: seq<ConfigValue>, input: Input)
    requires SecretsApart(d, a, b) && SecretsApart(d, b, a) && LockedEntry(d, a, input)
    ensures LockedEntry(d, b, input)
  {
    if d.overridable != Some(false) {
      var c :| c in a && Eligible(d, a, input, c) && c.locked;
      var i :| 0 <= i < |a| && a[i] == c;
      SameEligible(d, a, b, input, i);
      assert SameButSecret(d, a[i], b[i]) && b[i] in b;
    }
  }

  /** Unless redaction is off, two requests that differ in the values of secrets
      only resolve to the same values: nothing shown depends on them. */
  lemma SecretsStayHidden(ds: map<string, Definition>, keys: seq<string>, x: Input, y: Input, options: Options,
                          vx: map<string, Entry>, vy: map<string, Entry>)
    requires forall k :: k in keys ==> k in ds
    requires y == x.(values := y.values, runtimeOverrides := y.runtimeOverrides)
    requires forall k :: k in keys ==> SecretsApart(ds[k], Candidates(x), Candidates(y))
    requires options.redactSecrets != Some(false)
    requires ValuesFor(vx, ds, keys, Candidates(x), x, options) && ValuesFor(vy, ds, keys, Candidates(y), y, options)
    ensures vx == vy
  {
    forall k | k in keys ensures ValueFor(vy, ds[k], k, Candidates(y), x, options) {
      assert ValueFor(vy, ds[k], k, Candidates(y), y, options);
      RelevantByIds(ds[k], Candidates(y), x, y);
    }
    forall k ensures SameValue(vx, vy, k) {
      if k in keys { SameSecretEntry(vx, vy, ds, keys, Candidates(x), Candidates(y), x, options, k); }
    }
    SameValuesEverywhere(vx, vy);
  }

  lemma SameSecretEntry(va: map<string, Entry>, vb: map<string, Entry>, ds: map<string, Definition>,
                        keys: seq<string>, a: seq<ConfigValue>, b: seq<ConfigValue>, input: Input, options: Options,
                        k: string)
    requires (forall key :: key in keys ==> key in ds) && k in keys
    requires ValuesFor(va, ds, keys, a, input, options) && ValuesFor(vb, ds, keys, b, input, options)
    requires SecretsApart(ds[k], a, b) && options.redactSecrets != Some(false)
    ensures SameValue(va, vb, k)
  {
    var d := ds[k];
    assert SecretsApart(d, b, a) by {
      forall i: nat | i < |a| ensures SameButSecret(d, b[i], a[i]) { assert SameButSecret(d, a[i], b[i]); }
    }
    if LockedEntry(d, a, input) { SameLockedEntry(d, a, b, input); }
    if LockedEntry(d, b, input) { SameLockedEntry(d, b, a, input); }
    WinnerIsDeclared(d, a, input);
    if w: nat :| Wins(d, a, input, w) {
      SameWinner(d, a, b, input, w);
      assert SameButSecret(d, a[w], b[w]);
      ShowsWinner(va, ds, keys, a, input, options, k, w);
      ShowsWinner(vb, ds, keys, b, input, options, k, w);
    } else {
      forall c | c in b ensures !Eligible(d, b, input, c) {
        var i :| 0 <= i < |b| && b[i] == c;
        assert a[i] in a;
        if Eligible(d, b, input, c) { SameEligible(d, b, a, input, i); }
      }
      ShowsDefault(va, ds, keys, a, input, options, k);
      ShowsDefault(vb, ds, keys, b, input, options, k);
    }
  }

  /*
   * What may be shown, and what is reported.
   */

  /** A value fits a type: seen from the value, which types it fits. */
  lemma FitsTypes(t: ValueType, v: Value, nullable: bool)
    ensures TypeMatches(t, v, nullable) <==>
        match v
        case Undefined => true
        case Null => nullable
        case Bool(_) => t == BooleanType
        case Num(Finite(r)) => t == NumberType || (t == IntegerType && r.Floor as real == r)
        case Num(NegativeZero) => t == NumberType || t == IntegerType
        case Num(NotFinite(_)) => false
        case Str(_) => t == StringType || t == SecretRefType
        case Object(_) => t == StringType || t == SecretRefType || t == ObjectType
        case Array(_) => t == StringType || t == SecretRefType || t == ArrayType
  {
  }

  /** An entry that is not the default's comes from a scope the definition
      allows, and its winner's value is permitted. */
  lemma EntryIsAllowed(values: map<string, Entry>, ds: map<string, Definition>, keys: seq<string>,
                       candidates: seq<ConfigValue>, input: Input, options: Options, k: string)
    requires (forall key :: key in keys ==> key in ds) && k in keys
    requires ValuesFor(values, ds, keys, candidates, input, options)
    requires k in values && !values[k].defaulted
    ensures var (d, e) := (ds[k], values[k]);
            && e.sourceScope in d.allowedScopes
            && (!d.tenantOverridable ==> e.sourceScope != Tenant && e.sourceScope != TenantPipeline)
            && (!d.runtimeOverridable ==> e.sourceScope != Runtime)
            && exists c :: c in candidates && c.scope == e.sourceScope && Shows(e, c.value, options) &&
                 (c.value == Null ==> d.nullable) &&
                 (d.allowedValues.Some? ==> c.value in d.allowedValues.value) &&
                 TypeMatches(d.valueType, c.value, d.nullable)
  {
    WinnerIsDeclared(ds[k], candidates, input);
    if w: nat :| Wins(ds[k], candidates, input, w) {
      ShowsWinner(values, ds, keys, candidates, input, options, k, w);
      assert candidates[w] in candidates;
    } else {
      ShowsDefault(values, ds, keys, candidates, input, options, k);
    }
  }

  /** The candidate calls for this report. */
  ghost predicate Offends(d: Definition, candidates: seq<ConfigValue>, input: Input, c: ConfigValue, reason: Reason) {
    match reason
    case ScopeNotAllowed => forall scope :: scope in d.allowedScopes ==> scope != c.scope
    case TenantOverrideNotAllowed => (c.scope == Tenant || c.scope == TenantPipeline) && !d.tenantOverridable
    case RuntimeOverrideNotAllowed => c.scope == Runtime && !d.runtimeOverridable
    case LockedByHigherTrust => LockedFor(d, candidates, input, c.scope)
    case NullNotAllowed => c.value == Null && !d.nullable
    case OutsideAllowedValues =>
      d.allowedValues.Some? && forall v :: v in d.allowedValues.value ==> v != c.value
    case TypeMismatch => !TypeMatches(d.valueType, c.value, d.nullable)
    case RequiredMissing => false
  }

  /** A required value is missing: the winner has none, or there is no winner and no default. */
  ghost predicate MissingAt(d: Definition, candidates: seq<ConfigValue>, input: Input, scope: Scope) {
    && d.required && !d.nullable
    && ((exists i: nat :: Wins(d, candidates, input, i) && candidates[i].scope == scope &&
           (candidates[i].value == Undefined || candidates[i].value == Null))
        || ((forall c :: c in candidates ==> !Eligible(d, candidates, input, c)) && scope == Global &&
           (d.defaultValue == Undefined || d.defaultValue == Null)))
  }

  lemma {:induction false} ReportedOf(d: Definition, cs: seq<ConfigValue>, all: seq<ConfigValue>, v: Violation)
    ensures v in CandidateViolations(d, cs, all) <==> exists c :: c in cs && v in Violations(d, c, all)
  {
    if cs != [] {
      var n := |cs| - 1;
      ReportedOf(d, cs[..n], all, v);
      assert cs == cs[..n] + [cs[n]];
    }
  }

  lemma ReportedOne(d: Definition, candidates: seq<ConfigValue>, input: Input, c: ConfigValue, v: Violation)
    ensures v in Violations(d, c, Relevant(d, candidates, input)) <==>
        v.key == c.key && c.scope == v.scope && Offends(d, candidates, input, c, v.reason)
  {
    RelevantMembers(d, candidates, input);
    var relevant := Relevant(d, candidates, input);
    assert LockedFor(d, candidates, input, c.scope) <==> LockedBelow(c, relevant);
    InWhen(d, c, relevant, v);
  }

  lemma InWhen(d: Definition, c: ConfigValue, all: seq<ConfigValue>, v: Violation)
    ensures v in Violations(d, c, all) <==>
        && v == Violation(c.key, c.scope, v.reason)
        && match v.reason
           case ScopeNotAllowed => c.scope !in d.allowedScopes
           case TenantOverrideNotAllowed => (c.scope == Tenant || c.scope == TenantPipeline) && !d.tenantOverridable
           case RuntimeOverrideNotAllowed => c.scope == Runtime && !d.runtimeOverridable
           case LockedByHigherTrust => LockedBelow(c, all)
           case NullNotAllowed => c.value == Null && !d.nullable
           case OutsideAllowedValues => d.allowedValues.Some? && c.value !in d.allowedValues.value
           case TypeMismatch => !TypeMatches(d.valueType, c.value, d.nullable)
           case RequiredMissing => false
  {
  }

  /** A candidate the request matches calls for the report. */
  ghost predicate SomeOffends(d: Definition, candidates: seq<ConfigValue>, input: Input, v: Violation) {
    exists c :: c in candidates && c.key == v.key && MatchesScope(c, input) && c.scope == v.scope &&
      Offends(d, candidates, input, c, v.reason)
  }

  lemma ReportedForKey(d: Definition, candidates: seq<ConfigValue>, input: Input, v: Violation)
    ensures v in KeyViolations(d, Relevant(d, candidates, input)) <==>
        v.key == d.key &&
        (|| SomeOffends(d, candidates, input, v)
         || (v.reason == RequiredMissing && MissingAt(d, candidates, input, v.scope)))
  {
    var relevant := Relevant(d, candidates, input);
    RelevantMembers(d, candidates, input);
    ReportedOf(d, relevant, relevant, v);
    forall c { ReportedOne(d, candidates, input, c, v); }
    assert (exists c :: c in relevant && v in Violations(d, c, relevant)) <==>
           v.key == d.key && SomeOffends(d, candidates, input, v);
    MissingMeans(d, candidates, input);
  }

  lemma MissingMeans(d: Definition, candidates: seq<ConfigValue>, input: Input)
    ensures var w := Winning(Applicable(d, Relevant(d, candidates, input)));
            forall scope :: MissingAt(d, candidates, input, scope) <==>
                            Missing(d, w) && scope == if w.Some? then w.value.scope else Global
  {
    var w := Winning(Applicable(d, Relevant(d, candidates, input)));
    WinnerIsDeclared(d, candidates, input);
    if i: nat :| Wins(d, candidates, input, i) {
      WinnerAt(d, candidates, input, i);
      forall j: nat | Wins(d, candidates, input, j) ensures j == i { WinsOnce(d, candidates, input, i, j); }
      assert candidates[i] in candidates;
    }
  }

  lemma {:induction false} CollectsFrom(keys: seq<string>, report: string -> seq<Violation>, v: Violation)
    ensures v in Collect(keys, report) <==> exists k :: k in keys && v in report(k)
  {
    if keys != [] {
      var n := |keys| - 1;
      CollectsFrom(keys[..n], report, v);
      assert keys == keys[..n] + [keys[n]];
    }
  }

  /** Exactly what is reported, reason by reason. */
  lemma ReportedIff(ds: map<string, Definition>, keys: seq<string>, candidates: seq<ConfigValue>, input: Input,
                    v: Violation)
    requires forall k :: k in keys ==> k in ds && ds[k].key == k
    ensures v in AllViolations(ds, keys, candidates, input) <==>
        v.key in keys &&
        (|| SomeOffends(ds[v.key], candidates, input, v)
         || (v.reason == RequiredMissing && MissingAt(ds[v.key], candidates, input, v.scope)))
  {
    CollectsFrom(keys, Reporter(ds, candidates, input), v);
    forall k | k in keys { ReportedForKey(ds[k], candidates, input, v); }
  }

  /** A value with a scope id applies to the requests it names and no others. */
  lemma ScopedApplies(c: ConfigValue, input: Input, id: string)
    requires c.scopeId == Some(id)
    ensures MatchesScope(c, input) <==>
        && (c.scope == Tenant ==> id == input.tenantId)
        && (c.scope == Pipeline ==> id == input.pipelineId)
        && (c.scope == TenantPipeline ==> id == input.tenantId + ":" + input.pipelineId)
        && (c.scope == PipelineVersion ==> input.pipelineVersionId == Some(id))
        && (c.scope == Environment ==> id == input.environment || input.environmentId == Some(id))
  {
  }
}
