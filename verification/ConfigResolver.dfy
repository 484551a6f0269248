/**
  The layered configuration resolver.

  `unknown` values are the shapes the type checks can tell apart; objects and
  arrays have identity, as `Object.is` compares them. `redact` is the redactor
  of sensitive values, which is not part of this model.
 */
module ConfigResolver {
  import opened Wrappers
  import opened Sorting

  datatype Number = Finite(r: real) | NegativeZero | NotFinite(name: string)

  datatype Value =
    | Undefined
    | Null
    | Bool(b: bool)
    | Num(n: Number)
    | Str(s: string)
    | Object(ref: nat)
    | Array(ref: nat)

  datatype ValueType = StringType | SecretRefType | IntegerType | NumberType | BooleanType | ObjectType | ArrayType

  datatype Scope = Global | Environment | Pipeline | PipelineVersion | Tenant | TenantPipeline | Runtime

  /** The position in CONFIG_SCOPE_PRECEDENCE: later scopes win. */
  function Rank(scope: Scope): (r: int) {
    match scope
    case Global => 0
    case Environment => 1
    case Pipeline => 2
    case PipelineVersion => 3
    case Tenant => 4
    case TenantPipeline => 5
    case Runtime => 6
  }

  datatype Definition = Definition(
    key: string, valueType: ValueType, defaultValue: Value, allowedScopes: seq<Scope>,
    required: bool, secret: bool, sensitive: bool, overridable: Option<bool>, inherited: Option<bool>,
    nullable: bool, tenantOverridable: bool, runtimeOverridable: bool, allowedValues: Option<seq<Value>>)

  datatype ConfigValue = ConfigValue(
    key: string, value: Value, scope: Scope, scopeId: Option<string>,
    locked: bool, secret: bool, sensitive: bool)

  datatype Input = Input(
    pipelineId: string, pipelineVersionId: Option<string>, tenantId: string, environment: string,
    environmentId: Option<string>, executionScopeId: Option<string>,
    values: seq<ConfigValue>, runtimeOverrides: seq<(string, Value)>)

  datatype Options = Options(strict: bool, redactSecrets: Option<bool>, redact: Value -> Value)

  datatype Reason =
    | ScopeNotAllowed | TenantOverrideNotAllowed | RuntimeOverrideNotAllowed | LockedByHigherTrust
    | NullNotAllowed | OutsideAllowedValues | TypeMismatch | RequiredMissing

  datatype Violation = Violation(key: string, scope: Scope, reason: Reason)

  datatype Entry = Entry(
    value: Value, sourceScope: Scope, sourceObjectId: Option<string>, defaulted: bool, locked: bool,
    secret: bool, sensitive: bool, redacted: bool, inherited: bool)

  datatype Resolved = Resolved(values: map<string, Entry>, violations: seq<Violation>)

  /*
   * One candidate.
   */

  predicate MatchesScope(c: ConfigValue, input: Input) {
    match c.scope
    case Global => true
    case Runtime => true
    case Environment => c.scopeId == Some(input.environment) || c.scopeId == input.environmentId
    case Pipeline => c.scopeId == Some(input.pipelineId)
    case PipelineVersion => c.scopeId == input.pipelineVersionId
    case Tenant => c.scopeId == Some(input.tenantId)
    case TenantPipeline => c.scopeId == Some(input.tenantId + ":" + input.pipelineId)
  }

  predicate IsInteger(n: Number) {
    n == NegativeZero || (n.Finite? && n.r == n.r.Floor as real)
  }

  predicate TypeMatches(t: ValueType, v: Value, nullable: bool) {
    if v == Undefined then true
    else if v == Null then nullable
    else
      match t
      case StringType => v.Str? || v.Object? || v.Array?
      case SecretRefType => v.Str? || v.Object? || v.Array?
      case IntegerType => v.Num? && IsInteger(v.n)
      case NumberType => v.Num? && !v.n.NotFinite?
      case BooleanType => v.Bool?
      case ObjectType => v.Object?
      case ArrayType => v.Array?
  }

  /** A locked value at a lower, more trusted scope than `c`'s. */
  predicate LockedBelow(c: ConfigValue, all: seq<ConfigValue>) {
    exists other :: other in all && other.locked && Rank(other.scope) < Rank(c.scope)
  }

  function When(condition: bool, c: ConfigValue, reason: Reason): (r: seq<Violation>) {
    if condition then [Violation(c.key, c.scope, reason)] else []
  }

  /** Everything wrong with `c`, in the order it is reported. */
  function Violations(d: Definition, c: ConfigValue, all: seq<ConfigValue>): seq<Violation> {
    When(c.scope !in d.allowedScopes, c, ScopeNotAllowed)
    + When((c.scope == Tenant || c.scope == TenantPipeline) && !d.tenantOverridable, c, TenantOverrideNotAllowed)
    + When(c.scope == Runtime && !d.runtimeOverridable, c, RuntimeOverrideNotAllowed)
    + When(LockedBelow(c, all), c, LockedByHigherTrust)
    + When(c.value == Null && !d.nullable, c, NullNotAllowed)
    + When(d.allowedValues.Some? && c.value !in d.allowedValues.value, c, OutsideAllowedValues)
    + When(!TypeMatches(d.valueType, c.value, d.nullable), c, TypeMismatch)
  }

  /** Nothing in the definition forbids this value at this scope. */
  predicate Permitted(d: Definition, c: ConfigValue) {
    && c.scope in d.allowedScopes
    && (c.scope == Tenant || c.scope == TenantPipeline ==> d.tenantOverridable)
    && (c.scope == Runtime ==> d.runtimeOverridable)
    && (c.value == Null ==> d.nullable)
    && (d.allowedValues.Some? ==> c.value in d.allowedValues.value)
    && TypeMatches(d.valueType, c.value, d.nullable)
  }

  predicate Rejected(d: Definition, c: ConfigValue, all: seq<ConfigValue>) {
    !Permitted(d, c) || LockedBelow(c, all)
  }

  /** A candidate is rejected exactly when there is a violation to report about it. */
  lemma RejectedHasViolation(d: Definition, c: ConfigValue, all: seq<ConfigValue>)
    ensures Rejected(d, c, all) <==> |Violations(d, c, all)| > 0
  {
  }

  /*
   * One key.
   */

  function RuntimeCandidate(input: Input, o: (string, Value)): ConfigValue {
    ConfigValue(o.0, o.1, Runtime, Some(if input.executionScopeId.Some? then input.executionScopeId.value
                                        else "invocation"), false, false, false)
  }

  function RuntimeCandidates(input: Input): (r: seq<ConfigValue>)
    ensures forall c :: c in r ==> c.scope == Runtime
  {
    seq(|input.runtimeOverrides|,
        i requires 0 <= i < |input.runtimeOverrides| => RuntimeCandidate(input, input.runtimeOverrides[i]))
  }

  function Candidates(input: Input): seq<ConfigValue> {
    input.values + RuntimeCandidates(input)
  }

  /** The two filters in a row: this key, and a scope of this request. */
  function Speaks(key: string, input: Input): ConfigValue -> bool {
    (c: ConfigValue) => c.key == key && MatchesScope(c, input)
  }

  function RankOf(c: ConfigValue): int {
    Rank(c.scope)
  }

  /** The candidates that speak about this key and request, most trusted scope first. */
  function Relevant(d: Definition, candidates: seq<ConfigValue>, input: Input): seq<ConfigValue> {
    SortBy(Keep(candidates, Speaks(d.key, input)), RankOf)
  }

  function Acceptable(d: Definition, relevant: seq<ConfigValue>): ConfigValue -> bool {
    (c: ConfigValue) => !Rejected(d, c, relevant)
  }

  function Applicable(d: Definition, relevant: seq<ConfigValue>): seq<ConfigValue> {
    Keep(relevant, Acceptable(d, relevant))
  }

  function Winning(applicable: seq<ConfigValue>): Option<ConfigValue> {
    if applicable == [] then None else Some(applicable[|applicable| - 1])
  }

  function RawValue(d: Definition, winning: Option<ConfigValue>): Value {
    if winning.Some? then winning.value.value else d.defaultValue
  }

  predicate IsLocked(d: Definition, winning: Option<ConfigValue>, applicable: seq<ConfigValue>) {
    || (winning.Some? && winning.value.locked)
    || d.overridable == Some(false)
    || exists c :: c in applicable && c.key == d.key && c.locked
  }

  predicate Missing(d: Definition, winning: Option<ConfigValue>) {
    var raw := RawValue(d, winning);
    (raw == Undefined || raw == Null) && d.required && !d.nullable
  }

  /** The entry for one key, absent if its value is undefined. */
  function EntryOf(d: Definition, relevant: seq<ConfigValue>, options: Options): Option<Entry> {
    var applicable := Applicable(d, relevant);
    var w := Winning(applicable);
    var raw := RawValue(d, w);
    if raw == Undefined then None
    else
      var secret := d.secret || (w.Some? && w.value.secret);
      var sensitive := d.sensitive || (w.Some? && w.value.sensitive) || secret;
      var redacting := options.redactSecrets != Some(false);
      Some(Entry(
        if secret && redacting then Str("REDACTED") else if sensitive && redacting then options.redact(raw) else raw,
        if w.Some? then w.value.scope else Global,
        if w.Some? then w.value.scopeId else None,
        w.None?,
        IsLocked(d, w, applicable),
        secret, sensitive, (secret || sensitive) && redacting,
        if w.Some? then w.value.scope != Runtime else d.inherited != Some(false)))
  }

  function CandidateViolations(d: Definition, cs: seq<ConfigValue>, all: seq<ConfigValue>): seq<Violation> {
    if cs == [] then []
    else CandidateViolations(d, cs[..|cs| - 1], all) + Violations(d, cs[|cs| - 1], all)
  }

  /** The violations reported for one key. */
  function KeyViolations(d: Definition, relevant: seq<ConfigValue>): seq<Violation> {
    var w := Winning(Applicable(d, relevant));
    CandidateViolations(d, relevant, relevant) +
      (if Missing(d, w) then [Violation(d.key, if w.Some? then w.value.scope else Global, RequiredMissing)] else [])
  }

  /*
   * The resolver.
   */

  /** `new Map(definitions.map(d => [d.key, d]))`: the last definition of a key
      counts, at the place of its first. */
  function DefMap(ds: seq<Definition>): map<string, Definition> {
    if ds == [] then map[] else DefMap(ds[..|ds| - 1])[ds[|ds| - 1].key := ds[|ds| - 1]]
  }

  function DefKeys(ds: seq<Definition>): (keys: seq<string>)
    ensures forall k :: k in keys <==> k in DefMap(ds)
    ensures Distinct(keys)
    ensures forall k :: k in DefMap(ds) ==> DefMap(ds)[k].key == k
  {
    if ds == [] then []
    else
      var front := DefKeys(ds[..|ds| - 1]);
      if ds[|ds| - 1].key in front then front else front + [ds[|ds| - 1].key]
  }

  /** The violations of one key by name. */
  function Reporter(ds: map<string, Definition>, candidates: seq<ConfigValue>, input: Input): string -> seq<Violation> {
    (k: string) => if k in ds then KeyViolations(ds[k], Relevant(ds[k], candidates, input)) else []
  }

  function Collect(keys: seq<string>, report: string -> seq<Violation>): seq<Violation> {
    if keys == [] then [] else Collect(keys[..|keys| - 1], report) + report(keys[|keys| - 1])
  }

  /** Everything reported, key by key. */
  function AllViolations(ds: map<string, Definition>, keys: seq<string>, candidates: seq<ConfigValue>, input: Input)
    : seq<Violation>
  {
    Collect(keys, Reporter(ds, candidates, input))
  }

  /** The resolved value of one key. */
  ghost predicate ValueFor(values: map<string, Entry>, d: Definition, k: string, candidates: seq<ConfigValue>,
                           input: Input, options: Options)
  {
    EntryOf(d, Relevant(d, candidates, input), options) == if k in values then Some(values[k]) else None
  }

  /** The resolved values, key by key. */
  ghost predicate ValuesFor(values: map<string, Entry>, ds: map<string, Definition>, keys: seq<string>,
                            candidates: seq<ConfigValue>, input: Input, options: Options)
    requires forall k :: k in keys ==> k in ds
  {
    && (forall k :: k in values ==> k in keys)
    && (forall k {:trigger ValueFor(values, ds[k], k, candidates, input, options)} :: k in keys ==>
          ValueFor(values, ds[k], k, candidates, input, options))
  }

  /** One more key with its own entry, or without one. */
  lemma ValuesGrow(values: map<string, Entry>, ds: map<string, Definition>, keys: seq<string>, key: string,
                   candidates: seq<ConfigValue>, input: Input, options: Options, entry: Option<Entry>)
    requires key !in keys && key in ds && forall k :: k in keys ==> k in ds
    requires ValuesFor(values, ds, keys, candidates, input, options)
    requires entry == EntryOf(ds[key], Relevant(ds[key], candidates, input), options)
    ensures ValuesFor(if entry.Some? then values[key := entry.value] else values, ds, keys + [key], candidates, input,
                      options)
  {
    var grown := if entry.Some? then values[key := entry.value] else values;
    forall k | k in keys + [key] ensures ValueFor(grown, ds[k], k, candidates, input, options) {
      if k != key { assert ValueFor(values, ds[k], k, candidates, input, options); }
    }
  }

  class ConfigResolver {
    var definitions: map<string, Definition>
    var keys: seq<string>

    ghost predicate Valid()
      reads this
    {
      && Distinct(keys)
      && (forall k :: k in keys <==> k in definitions)
      && (forall k :: k in definitions ==> definitions[k].key == k)
    }

    constructor (ds: seq<Definition>)
      ensures Valid() && definitions == DefMap(ds) && keys == DefKeys(ds)
    {
      definitions, keys := map[], [];
      new;
      for i := 0 to |ds|
        invariant definitions == DefMap(ds[..i]) && keys == DefKeys(ds[..i])
      {
        assert ds[..i + 1][..i] == ds[..i];
        if ds[i].key !in definitions { keys := keys + [ds[i].key]; }
        definitions := definitions[ds[i].key := ds[i]];
      }
      assert ds[..|ds|] == ds;
    }

    method Resolve(input: Input, options: Options) returns (r: Result<Resolved, seq<Violation>>)
      requires Valid()
      ensures r.Failure? <==>
          options.strict && AllViolations(definitions, keys, Candidates(input), input) != []
      ensures r.Failure? ==> r.error == AllViolations(definitions, keys, Candidates(input), input)
      ensures r.Success? ==>
          && r.value.violations == AllViolations(definitions, keys, Candidates(input), input)
          && ValuesFor(r.value.values, definitions, keys, Candidates(input), input, options)
    {
      var violations, values := ResolveKeys(definitions, keys, Candidates(input), input, options);
      if options.strict && |violations| > 0 { return Failure(violations); }
      r := Success(Resolved(values, violations));
    }
  }

  lemma NextKey(keys: seq<string>, i: nat)
    requires Distinct(keys) && i < |keys|
    ensures keys[i] in keys && keys[i] !in keys[..i] && keys[..i + 1] == keys[..i] + [keys[i]]
    ensures forall k :: k in keys[..i] ==> k in keys
  {
  }

  /** The loop over definitions. */
  method ResolveKeys(ds: map<string, Definition>, keys: seq<string>, candidates: seq<ConfigValue>, input: Input,
                     options: Options) returns (violations: seq<Violation>, values: map<string, Entry>)
    requires Distinct(keys) && forall k :: k in keys ==> k in ds
    ensures violations == AllViolations(ds, keys, candidates, input)
    ensures ValuesFor(values, ds, keys, candidates, input, options)
  {
    violations, values := [], map[];
    for i := 0 to |keys|
      invariant violations == AllViolations(ds, keys[..i], candidates, input)
      invariant ValuesFor(values, ds, keys[..i], candidates, input, options)
    {
      NextKey(keys, i);
      var more, entry := ResolveKey(ds[keys[i]], Relevant(ds[keys[i]], candidates, input), options);
      ValuesGrow(values, ds, keys[..i], keys[i], candidates, input, options, entry);
      violations := violations + more;
      if entry.Some? { values := values[keys[i] := entry.value]; }
    }
    assert keys[..|keys|] == keys;
  }

  /** Collects what is wrong with each candidate of a key. */
  method ReportCandidates(d: Definition, relevant: seq<ConfigValue>) returns (violations: seq<Violation>)
    ensures violations == CandidateViolations(d, relevant, relevant)
  {
    violations := [];
    for i := 0 to |relevant|
      invariant violations == CandidateViolations(d, relevant[..i], relevant)
    {
      assert relevant[..i + 1][..i] == relevant[..i];
      violations := violations + Violations(d, relevant[i], relevant);
    }
    assert relevant[..|relevant|] == relevant;
  }

  /** The body of the loop over definitions, after the candidates are listed. */
  method ResolveKey(d: Definition, relevant: seq<ConfigValue>, options: Options)
    returns (violations: seq<Violation>, entry: Option<Entry>)
    ensures violations == KeyViolations(d, relevant)
    ensures entry == EntryOf(d, relevant, options)
  {
    violations := ReportCandidates(d, relevant);
    var applicable := Applicable(d, relevant);
    var winning := Winning(applicable);
    var rawValue := RawValue(d, winning);
    if Missing(d, winning) {
      violations := violations +
        [Violation(d.key, if winning.Some? then winning.value.scope else Global, RequiredMissing)];
    }
    entry := None;
    if rawValue != Undefined {
      var secret := d.secret || (winning.Some? && winning.value.secret);
      var sensitive := d.sensitive || (winning.Some? && winning.value.sensitive) || secret;
      var redacting := options.redactSecrets != Some(false);
      var value := rawValue;
      if secret && redacting { value := Str("REDACTED"); }
      else if sensitive && redacting { value := options.redact(rawValue); }
      entry := Some(Entry(
        value,
        if winning.Some? then winning.value.scope else Global,
        if winning.Some? then winning.value.scopeId else None,
        winning.None?,
        IsLocked(d, winning, applicable),
        secret, sensitive, (secret || sensitive) && redacting,
        if winning.Some? then winning.value.scope != Runtime else d.inherited != Some(false)));
    }
  }

  /*
   * What resolving a key means, without lists being sorted or filtered.
   */

  /** Some candidate for this key and request is locked below `scope`. */
  ghost predicate LockedFor(d: Definition, candidates: seq<ConfigValue>, input: Input, scope: Scope) {
    exists other :: other in candidates && other.key == d.key && MatchesScope(other, input) &&
      other.locked && Rank(other.scope) < Rank(scope)
  }

  /** A candidate this request may take: it speaks about the key, matches the
      request, and nothing in the definition or a lock forbids it. */
  ghost predicate Eligible(d: Definition, candidates: seq<ConfigValue>, input: Input, c: ConfigValue) {
    c.key == d.key && MatchesScope(c, input) && Permitted(d, c) && !LockedFor(d, candidates, input, c.scope)
  }

  /** Candidate `i` is eligible, and no eligible one is at a higher scope, or
      later at the same scope. */
  ghost predicate Wins(d: Definition, candidates: seq<ConfigValue>, input: Input, i: nat) {
    && i < |candidates| && Eligible(d, candidates, input, candidates[i])
    && forall j :: 0 <= j < |candidates| && Eligible(d, candidates, input, candidates[j]) ==>
        Rank(candidates[j].scope) < Rank(candidates[i].scope) ||
        (candidates[j].scope == candidates[i].scope && j <= i)
  }

  lemma RelevantMembers(d: Definition, candidates: seq<ConfigValue>, input: Input)
    ensures forall c :: c in Relevant(d, candidates, input) <==>
        c in candidates && c.key == d.key && MatchesScope(c, input)
    ensures SortedBy(Relevant(d, candidates, input), RankOf)
  {
    var listed := Keep(candidates, Speaks(d.key, input));
    KeepMembers(candidates, Speaks(d.key, input));
    SortMembers(listed, RankOf);
    SortSorted(listed, RankOf);
  }

  lemma EligibleIsAcceptable(d: Definition, candidates: seq<ConfigValue>, input: Input, c: ConfigValue)
    ensures Eligible(d, candidates, input, c) <==>
        c.key == d.key && MatchesScope(c, input) && !Rejected(d, c, Relevant(d, candidates, input))
  {
    RelevantMembers(d, candidates, input);
    var relevant := Relevant(d, candidates, input);
    assert LockedFor(d, candidates, input, c.scope) <==> LockedBelow(c, relevant);
  }

  /** Filtering by rank sees through the sort. */
  lemma RelevantOfRank(d: Definition, candidates: seq<ConfigValue>, input: Input, k: int)
    ensures Keep(Relevant(d, candidates, input), OfRank(RankOf, k)) ==
            Keep(candidates, Both(Speaks(d.key, input), OfRank(RankOf, k)))
  {
    SortStable(Keep(candidates, Speaks(d.key, input)), RankOf, k);
    KeepTwice(candidates, Speaks(d.key, input), OfRank(RankOf, k), Both(Speaks(d.key, input), OfRank(RankOf, k)));
  }

  /** The applicable candidates are the eligible ones. */
  lemma ApplicableMembers(d: Definition, candidates: seq<ConfigValue>, input: Input)
    ensures forall c :: c in Applicable(d, Relevant(d, candidates, input)) <==>
        c in candidates && Eligible(d, candidates, input, c)
  {
    RelevantMembers(d, candidates, input);
    var relevant := Relevant(d, candidates, input);
    var applicable := Applicable(d, relevant);
    KeepMembers(relevant, Acceptable(d, relevant));
    forall c ensures c in applicable <==> c in candidates && Eligible(d, candidates, input, c) {
      EligibleIsAcceptable(d, candidates, input, c);
    }
  }

  /** The winner is the last in input order of the highest eligible scope, and
      the default is used exactly when nothing is eligible. */
  lemma WinnerIsDeclared(d: Definition, candidates: seq<ConfigValue>, input: Input)
    ensures var w := Winning(Applicable(d, Relevant(d, candidates, input)));
            && (w.None? <==> forall c :: c in candidates ==> !Eligible(d, candidates, input, c))
            && (w.Some? ==> exists i: nat :: Wins(d, candidates, input, i) && candidates[i] == w.value)
  {
    var applicable := Applicable(d, Relevant(d, candidates, input));
    ApplicableMembers(d, candidates, input);
    if applicable != [] {
      assert applicable[0] in applicable;
      var i: nat := WinningIndex(d, candidates, input);
      assert Wins(d, candidates, input, i);
    }
  }

  /** The resolver keeps this candidate when it filters. */
  ghost predicate Taken(d: Definition, relevant: seq<ConfigValue>, input: Input, c: ConfigValue) {
    c.key == d.key && MatchesScope(c, input) && !Rejected(d, c, relevant)
  }

  lemma LastTaken(d: Definition, candidates: seq<ConfigValue>, input: Input, relevant: seq<ConfigValue>)
    returns (i: nat)
    requires relevant == Relevant(d, candidates, input) && Applicable(d, relevant) != []
    ensures i < |candidates| && Taken(d, relevant, input, candidates[i])
    ensures Winning(Applicable(d, relevant)) == Some(candidates[i])
    ensures forall j: nat {:trigger NotAfter(candidates, RankOf, j, i)} ::
        j < |candidates| && Taken(d, relevant, input, candidates[j]) ==> NotAfter(candidates, RankOf, j, i)
  {
    i := LastOfSorted(candidates, Speaks(d.key, input), RankOf, Acceptable(d, relevant), Applicable(d, relevant));
    forall j: nat | j < |candidates| && Taken(d, relevant, input, candidates[j])
      ensures NotAfter(candidates, RankOf, j, i)
    {
    }
  }

  lemma WinningIndex(d: Definition, candidates: seq<ConfigValue>, input: Input) returns (i: nat)
    requires Applicable(d, Relevant(d, candidates, input)) != []
    ensures Wins(d, candidates, input, i)
    ensures Winning(Applicable(d, Relevant(d, candidates, input))) == Some(candidates[i])
  {
    var relevant := Relevant(d, candidates, input);
    i := LastTaken(d, candidates, input, relevant);
    EligibleIsAcceptable(d, candidates, input, candidates[i]);
    forall j | 0 <= j < |candidates| && Eligible(d, candidates, input, candidates[j])
      ensures Rank(candidates[j].scope) < Rank(candidates[i].scope) ||
              (candidates[j].scope == candidates[i].scope && j <= i)
    {
      EligibleIsAcceptable(d, candidates, input, candidates[j]);
      assert NotAfter(candidates, RankOf, j, i);
    }
  }

  /*
   * Independence from the rest of the input.
   */

  function UpTo(key: string, scope: Scope): ConfigValue -> bool {
    (c: ConfigValue) => c.key == key && Rank(c.scope) <= Rank(scope)
  }

  /** Two candidate lists that agree on what a key has at or below a scope. */
  ghost predicate AgreeUpTo(key: string, scope: Scope, a: seq<ConfigValue>, b: seq<ConfigValue>) {
    Keep(a, UpTo(key, scope)) == Keep(b, UpTo(key, scope))
  }

  ghost predicate LocksAt(d: Definition, a: seq<ConfigValue>, input: Input, lock: ConfigValue) {
    lock in a && lock.key == d.key && MatchesScope(lock, input) && lock.locked
  }

  /** A lock caps the winner: nothing above the locked scope can win. */
  lemma LockCapsWinner(d: Definition, a: seq<ConfigValue>, input: Input, lock: ConfigValue)
    requires LocksAt(d, a, input, lock)
    ensures forall c :: c in Applicable(d, Relevant(d, a, input)) ==> Rank(c.scope) <= Rank(lock.scope)
  {
    RelevantMembers(d, a, input);
    var relevant := Relevant(d, a, input);
    KeepMembers(relevant, Acceptable(d, relevant));
    forall c | c in Applicable(d, relevant) ensures Rank(c.scope) <= Rank(lock.scope) {
      assert lock in relevant;
      assert !LockedBelow(c, relevant);
    }
  }

  /** Candidates of the two lists at or below the lock are rejected alike. */
  lemma SameVerdict(d: Definition, a: seq<ConfigValue>, b: seq<ConfigValue>, input: Input, scope: Scope,
                    c: ConfigValue)
    requires AgreeUpTo(d.key, scope, a, b) && Rank(c.scope) <= Rank(scope)
    ensures Rejected(d, c, Relevant(d, a, input)) <==> Rejected(d, c, Relevant(d, b, input))
  {
    RelevantMembers(d, a, input);
    RelevantMembers(d, b, input);
    KeepMembers(a, UpTo(d.key, scope));
    KeepMembers(b, UpTo(d.key, scope));
    forall other: ConfigValue | other.key == d.key && Rank(other.scope) < Rank(c.scope)
      ensures other in a <==> other in b
    {
      assert other in Keep(a, UpTo(d.key, scope)) <==> other in a;
      assert other in Keep(b, UpTo(d.key, scope)) <==> other in b;
    }
    assert LockedBelow(c, Relevant(d, a, input)) <==> LockedBelow(c, Relevant(d, b, input));
  }

  /** At a rank at or below the agreed scope the relevant candidates are the same list. */
  lemma SameRelevantAtRank(d: Definition, a: seq<ConfigValue>, b: seq<ConfigValue>, input: Input, scope: Scope, k: int)
    requires AgreeUpTo(d.key, scope, a, b) && k <= Rank(scope)
    ensures Keep(Relevant(d, a, input), OfRank(RankOf, k)) == Keep(Relevant(d, b, input), OfRank(RankOf, k))
  {
    RelevantOfRank(d, a, input, k);
    RelevantOfRank(d, b, input, k);
    RelevantFromAgreed(d, a, input, scope, k);
    RelevantFromAgreed(d, b, input, scope, k);
  }

  lemma RelevantFromAgreed(d: Definition, a: seq<ConfigValue>, input: Input, scope: Scope, k: int)
    requires k <= Rank(scope)
    ensures Keep(a, Both(Speaks(d.key, input), OfRank(RankOf, k))) ==
            Keep(Keep(a, UpTo(d.key, scope)), Both(Speaks(d.key, input), OfRank(RankOf, k)))
  {
    KeepTwice(a, UpTo(d.key, scope), Both(Speaks(d.key, input), OfRank(RankOf, k)),
              Both(Speaks(d.key, input), OfRank(RankOf, k)));
  }

  lemma LockSurvives(d: Definition, a: seq<ConfigValue>, b: seq<ConfigValue>, input: Input, lock: ConfigValue)
    requires LocksAt(d, a, input, lock) && AgreeUpTo(d.key, lock.scope, a, b)
    ensures LocksAt(d, b, input, lock)
  {
    KeepMembers(a, UpTo(d.key, lock.scope));
    KeepMembers(b, UpTo(d.key, lock.scope));
    assert lock in Keep(a, UpTo(d.key, lock.scope));
  }

  lemma SortedRelevant(d: Definition, a: seq<ConfigValue>, input: Input)
    ensures SortedBy(Relevant(d, a, input), RankOf)
  {
    SortSorted(Keep(a, Speaks(d.key, input)), RankOf);
  }

  /** Lock non-interference: with a lock at some scope, whatever is added or
      removed strictly above it, locked or not, runtime overrides included,
      leaves the key's applicable candidates, and so its entry, as they were. */
  lemma LockNonInterference(d: Definition, a: seq<ConfigValue>, b: seq<ConfigValue>, input: Input, lock: ConfigValue,
                            options: Options)
    requires LocksAt(d, a, input, lock) && AgreeUpTo(d.key, lock.scope, a, b)
    ensures Applicable(d, Relevant(d, a, input)) == Applicable(d, Relevant(d, b, input))
    ensures EntryOf(d, Relevant(d, a, input), options) == EntryOf(d, Relevant(d, b, input), options)
  {
    var ra, rb := Relevant(d, a, input), Relevant(d, b, input);
    LockSurvives(d, a, b, input, lock);
    SortedRelevant(d, a, input);
    SortedRelevant(d, b, input);
    forall k ensures Keep(Keep(ra, OfRank(RankOf, k)), Acceptable(d, ra)) ==
                     Keep(Keep(rb, OfRank(RankOf, k)), Acceptable(d, rb))
    {
      if k <= Rank(lock.scope) {
        SameApplicableAtRank(d, a, b, input, lock.scope, k);
      } else {
        NoneAboveLock(d, a, input, lock, k);
        NoneAboveLock(d, b, input, lock, k);
      }
    }
    FilteredClassesEqual(ra, rb, RankOf, Acceptable(d, ra), Acceptable(d, rb));
  }

  lemma SameApplicableAtRank(d: Definition, a: seq<ConfigValue>, b: seq<ConfigValue>, input: Input, scope: Scope,
                             k: int)
    requires AgreeUpTo(d.key, scope, a, b) && k <= Rank(scope)
    ensures var (ra, rb) := (Relevant(d, a, input), Relevant(d, b, input));
            Keep(Keep(ra, OfRank(RankOf, k)), Acceptable(d, ra)) == Keep(Keep(rb, OfRank(RankOf, k)), Acceptable(d, rb))
  {
    var ra, rb := Relevant(d, a, input), Relevant(d, b, input);
    SameRelevantAtRank(d, a, b, input, scope, k);
    var here := Keep(ra, OfRank(RankOf, k));
    KeepMembers(ra, OfRank(RankOf, k));
    forall c | c in here ensures Acceptable(d, ra)(c) == Acceptable(d, rb)(c) {
      SameVerdict(d, a, b, input, scope, c);
    }
    KeepSame(here, Acceptable(d, ra), Acceptable(d, rb));
  }

  lemma NoneAboveLock(d: Definition, a: seq<ConfigValue>, input: Input, lock: ConfigValue, k: int)
    requires LocksAt(d, a, input, lock) && Rank(lock.scope) < k
    ensures var r := Relevant(d, a, input);
            Keep(Keep(r, OfRank(RankOf, k)), Acceptable(d, r)) == []
  {
    var r := Relevant(d, a, input);
    var kept := Keep(Keep(r, OfRank(RankOf, k)), Acceptable(d, r));
    LockCapsWinner(d, a, input, lock);
    KeepMembers(r, OfRank(RankOf, k));
    KeepMembers(r, Acceptable(d, r));
    KeepMembers(Keep(r, OfRank(RankOf, k)), Acceptable(d, r));
    EmptyOrFirst(kept);
  }

  /** A locked key's entry comes from the locked scope or a more trusted one. */
  lemma LockCapsEntry(d: Definition, a: seq<ConfigValue>, input: Input, lock: ConfigValue, options: Options)
    requires LocksAt(d, a, input, lock)
    requires EntryOf(d, Relevant(d, a, input), options).Some?
    ensures Rank(EntryOf(d, Relevant(d, a, input), options).value.sourceScope) <= Rank(lock.scope)
  {
    LockCapsWinner(d, a, input, lock);
    var applicable := Applicable(d, Relevant(d, a, input));
    assert applicable == [] || applicable[|applicable| - 1] in applicable;
  }

  /** The relevant candidates depend on the identifiers in the request only. */
  lemma RelevantByIds(d: Definition, candidates: seq<ConfigValue>, a: Input, b: Input)
    requires b == a.(values := b.values, runtimeOverrides := b.runtimeOverrides)
    ensures Relevant(d, candidates, a) == Relevant(d, candidates, b)
  {
    KeepSame(candidates, Speaks(d.key, a), Speaks(d.key, b));
  }

  /** In particular no set of runtime overrides can move a key locked below runtime. */
  lemma OverridesCannotUnlock(d: Definition, a: Input, b: Input, lock: ConfigValue, options: Options)
    requires LocksAt(d, Candidates(a), a, lock) && lock.scope != Runtime
    requires b == a.(runtimeOverrides := b.runtimeOverrides)
    ensures EntryOf(d, Relevant(d, Candidates(a), a), options) == EntryOf(d, Relevant(d, Candidates(b), b), options)
  {
    OverridesAreAbove(a, d.key, lock.scope);
    OverridesAreAbove(b, d.key, lock.scope);
    LockNonInterference(d, Candidates(a), Candidates(b), a, lock, options);
    RelevantByIds(d, Candidates(b), a, b);
  }

  lemma OverridesAreAbove(a: Input, key: string, scope: Scope)
    requires scope != Runtime
    ensures Keep(Candidates(a), UpTo(key, scope)) == Keep(a.values, UpTo(key, scope))
  {
    var runtime := RuntimeCandidates(a);
    KeepConcat(a.values, runtime, UpTo(key, scope));
    KeepMembers(runtime, UpTo(key, scope));
    EmptyOrFirst(Keep(runtime, UpTo(key, scope)));
  }

  /** Both lists hold the same candidates at this rank, in the same order. */
  ghost predicate SameAtRank(a: seq<ConfigValue>, b: seq<ConfigValue>, k: int) {
    Keep(a, OfRank(RankOf, k)) == Keep(b, OfRank(RankOf, k))
  }

  /** The lists differ only in how candidates of different scopes are interleaved. */
  ghost predicate SameScopeByScope(a: seq<ConfigValue>, b: seq<ConfigValue>) {
    forall k {:trigger SameAtRank(a, b, k)} :: SameAtRank(a, b, k)
  }

  /** Reordering the input across scopes, with each scope's own order kept,
      changes nothing: neither any entry nor any violation. */
  lemma ReorderAcrossScopes(d: Definition, a: seq<ConfigValue>, b: seq<ConfigValue>, input: Input)
    requires SameScopeByScope(a, b)
    ensures Relevant(d, a, input) == Relevant(d, b, input)
  {
    SortedRelevant(d, a, input);
    SortedRelevant(d, b, input);
    forall k ensures Keep(Relevant(d, a, input), OfRank(RankOf, k)) == Keep(Relevant(d, b, input), OfRank(RankOf, k)) {
      RelevantOfRank(d, a, input, k);
      RelevantOfRank(d, b, input, k);
      var spoken := Both(Speaks(d.key, input), OfRank(RankOf, k));
      KeepTwice(a, OfRank(RankOf, k), Speaks(d.key, input), spoken);
      KeepTwice(b, OfRank(RankOf, k), Speaks(d.key, input), spoken);
      assert SameAtRank(a, b, k);
    }
    SortedClassesEqual(Relevant(d, a, input), Relevant(d, b, input), RankOf);
  }

  /** Two requests that differ in how the values of different scopes are interleaved, and in nothing else. */
  ghost predicate Interleaved(a: Input, b: Input) {
    && b == a.(values := b.values)
    && SameScopeByScope(a.values, b.values)
  }

  lemma InterleavedRelevant(d: Definition, a: Input, b: Input)
    requires Interleaved(a, b)
    ensures Relevant(d, Candidates(a), a) == Relevant(d, Candidates(b), b)
  {
    var ca, cb, runtime := Candidates(a), Candidates(b), RuntimeCandidates(a);
    assert RuntimeCandidates(b) == runtime;
    forall k ensures SameAtRank(ca, cb, k) {
      KeepConcat(a.values, runtime, OfRank(RankOf, k));
      KeepConcat(b.values, runtime, OfRank(RankOf, k));
      assert SameAtRank(a.values, b.values, k);
    }
    ReorderAcrossScopes(d, ca, cb, a);
    RelevantByIds(d, cb, a, b);
  }

  /** Two such requests have the same violations ... */
  lemma InterleavedViolations(ds: map<string, Definition>, keys: seq<string>, a: Input, b: Input)
    requires Interleaved(a, b)
    ensures AllViolations(ds, keys, Candidates(a), a) == AllViolations(ds, keys, Candidates(b), b)
  {
    var f, g := Reporter(ds, Candidates(a), a), Reporter(ds, Candidates(b), b);
    forall k | k in keys ensures f(k) == g(k) {
      if k in ds { InterleavedRelevant(ds[k], a, b); }
    }
    CollectSame(keys, f, g);
  }

  /** ... and resolve to the same values. */
  lemma InterleavingIrrelevant(ds: map<string, Definition>, keys: seq<string>, a: Input, b: Input, options: Options,
                               va: map<string, Entry>, vb: map<string, Entry>)
    requires Interleaved(a, b) && forall k :: k in keys ==> k in ds
    requires ValuesFor(va, ds, keys, Candidates(a), a, options)
    requires ValuesFor(vb, ds, keys, Candidates(b), b, options)
    ensures va == vb
  {
    forall k ensures SameValue(va, vb, k) {
      if k in keys { InterleavedValue(ds[k], k, a, b, options, va, vb); }
    }
    SameValuesEverywhere(va, vb);
  }

  ghost predicate SameValue(va: map<string, Entry>, vb: map<string, Entry>, k: string) {
    (k in va <==> k in vb) && (k in va ==> va[k] == vb[k])
  }

  lemma SameValuesEverywhere(va: map<string, Entry>, vb: map<string, Entry>)
    requires forall k {:trigger SameValue(va, vb, k)} :: SameValue(va, vb, k)
    ensures va == vb
  {
    forall k ensures k in va <==> k in vb { assert SameValue(va, vb, k); }
    forall k | k in va ensures va[k] == vb[k] { assert SameValue(va, vb, k); }
  }

  lemma InterleavedValue(d: Definition, k: string, a: Input, b: Input, options: Options, va: map<string, Entry>,
                         vb: map<string, Entry>)
    requires Interleaved(a, b)
    requires ValueFor(va, d, k, Candidates(a), a, options) && ValueFor(vb, d, k, Candidates(b), b, options)
    ensures SameValue(va, vb, k)
  {
    InterleavedRelevant(d, a, b);
  }

  lemma {:induction false} CollectSame(keys: seq<string>, f: string -> seq<Violation>, g: string -> seq<Violation>)
    requires forall k :: k in keys ==> f(k) == g(k)
    ensures Collect(keys, f) == Collect(keys, g)
  {
    if keys != [] {
      CollectSame(keys[..|keys| - 1], f, g);
    }
  }

  /*
   * When strict mode throws.
   */

  /** Some candidate the request matches is not eligible, or a required value is missing. */
  ghost predicate KeyAtFault(d: Definition, candidates: seq<ConfigValue>, input: Input) {
    || (exists c :: c in candidates && c.key == d.key && MatchesScope(c, input) && !Eligible(d, candidates, input, c))
    || Missing(d, Winning(Applicable(d, Relevant(d, candidates, input))))
  }

  lemma {:induction false} NoCandidateViolations(d: Definition, cs: seq<ConfigValue>, all: seq<ConfigValue>)
    ensures CandidateViolations(d, cs, all) == [] <==> forall c :: c in cs ==> !Rejected(d, c, all)
  {
    if cs != [] {
      var n := |cs| - 1;
      NoCandidateViolations(d, cs[..n], all);
      RejectedHasViolation(d, cs[n], all);
      assert cs == cs[..n] + [cs[n]];
    }
  }

  lemma KeyViolationsMeanFault(d: Definition, candidates: seq<ConfigValue>, input: Input)
    ensures KeyViolations(d, Relevant(d, candidates, input)) == [] <==> !KeyAtFault(d, candidates, input)
  {
    assert forall xs: seq<Violation>, ys: seq<Violation> :: xs + ys == [] <==> xs == [] && ys == [];
    var relevant := Relevant(d, candidates, input);
    NoCandidateViolations(d, relevant, relevant);
    RelevantMembers(d, candidates, input);
    forall c ensures Eligible(d, candidates, input, c) <==>
        c.key == d.key && MatchesScope(c, input) && !Rejected(d, c, relevant)
    {
      EligibleIsAcceptable(d, candidates, input, c);
    }
  }

  lemma {:induction false} CollectsSomething(keys: seq<string>, report: string -> seq<Violation>)
    ensures Collect(keys, report) != [] <==> exists k :: k in keys && report(k) != []
  {
    if keys != [] {
      var n := |keys| - 1;
      CollectsSomething(keys[..n], report);
      assert keys == keys[..n] + [keys[n]];
    }
  }

  /** Strict mode throws exactly when some key is at fault. */
  lemma StrictThrows(ds: map<string, Definition>, keys: seq<string>, candidates: seq<ConfigValue>, input: Input)
    requires forall k :: k in keys ==> k in ds
    ensures AllViolations(ds, keys, candidates, input) != [] <==>
        exists k :: k in keys && KeyAtFault(ds[k], candidates, input)
  {
    CollectsSomething(keys, Reporter(ds, candidates, input));
    forall k | k in keys
      ensures Reporter(ds, candidates, input)(k) != [] <==> KeyAtFault(ds[k], candidates, input)
    {
      KeyViolationsMeanFault(ds[k], candidates, input);
    }
  }

  /*
   * An absent scope id is not a mismatch: `undefined === undefined`.
   */

  /** Which values without a scope id apply: the unscoped ones always, an
      environment's to every request that names no environment id, a pipeline
      version's to every request that names no version, no other. */
  lemma UnscopedApplies(c: ConfigValue, input: Input)
    requires c.scopeId == None
    ensures MatchesScope(c, input) <==>
        match c.scope
        case Global => true
        case Runtime => true
        case Environment => input.environmentId == None
        case PipelineVersion => input.pipelineVersionId == None
        case _ => false
  {
  }

  /** So one such value, locked, caps the key for every request that names no id
      at its scope: nothing from a higher scope can win there. */
  lemma UnscopedLockCaps(d: Definition, a: seq<ConfigValue>, input: Input, lock: ConfigValue, options: Options)
    requires lock in a && lock.key == d.key && lock.locked && lock.scopeId == None
    requires lock.scope == Environment || lock.scope == PipelineVersion
    requires if lock.scope == Environment then input.environmentId == None else input.pipelineVersionId == None
    requires EntryOf(d, Relevant(d, a, input), options).Some?
    ensures Rank(EntryOf(d, Relevant(d, a, input), options).value.sourceScope) <= Rank(lock.scope)
  {
    UnscopedApplies(lock, input);
    LockCapsEntry(d, a, input, lock, options);
  }
}
