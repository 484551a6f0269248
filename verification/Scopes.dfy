/**
  Scope strings: `*`, `t/<tenant>`, `t/<tenant>/e/<environment>` and
  `t/<tenant>/p/<pipeline>`, how they are printed, parsed and compared.
 */
module Scopes {
  import opened Wrappers
  import opened Strings

  datatype ScopeInput = ScopeInput(tenantId: Option<string>, environment: Option<string>, pipelineId: Option<string>)

  const GLOBAL_SCOPE := "*"

  const NO_SCOPE := ScopeInput(None, None, None)

  /** The line terminators of the host language, which `.` in a pattern does not match. */
  predicate IsLineTerminator(c: char) {
    c == '\n' || c == '\r' || c == '\U{2028}' || c == '\U{2029}'
  }

  /** What `trim` removes. */
  predicate IsSpace(c: char) {
    || IsLineTerminator(c) || c == ' ' || c == '\t' || c == '\U{0B}' || c == '\U{0C}' || c == '\U{A0}'
    || c == '\U{1680}' || ('\U{2000}' <= c <= '\U{200A}') || c == '\U{202F}' || c == '\U{205F}'
    || c == '\U{3000}' || c == '\U{FEFF}'
  }

  function TrimStart(s: string): string {
    if s != "" && IsSpace(s[0]) then TrimStart(s[1..]) else s
  }

  function TrimEnd(s: string): string {
    if s != "" && IsSpace(s[|s| - 1]) then TrimEnd(s[..|s| - 1]) else s
  }

  /** `s?.trim()`, with absence and emptiness both falsy. */
  function Trimmed(s: Option<string>): string {
    if s.Some? then TrimEnd(TrimStart(s.value)) else ""
  }

  function ScopeToString(input: ScopeInput): string {
    var t, e, p := Trimmed(input.tenantId), Trimmed(input.environment), Trimmed(input.pipelineId);
    if t == "" then GLOBAL_SCOPE
    else if p != "" then "t/" + t + "/p/" + p
    else if e != "" then "t/" + t + "/e/" + e
    else "t/" + t
  }

  predicate OneLine(s: string) {
    forall i :: 0 <= i < |s| ==> !IsLineTerminator(s[i])
  }

  /** The pattern `^t\/([^/]+)(?:\/(e|p)\/(.+))?$`, matched by hand: the tenant
      runs to the first slash, which decides where the groups are. */
  function ParseScope(scope: string): ScopeInput {
    if scope == "" || scope == GLOBAL_SCOPE || !("t/" <= scope) then NO_SCOPE
    else
      var rest := scope[2..];
      var n := Span(rest, '/');
      if n == 0 then NO_SCOPE
      else if n == |rest| then ScopeInput(Some(rest), None, None)
      else
        var tail := rest[n + 1..];
        if |tail| < 3 || tail[1] != '/' || !OneLine(tail[2..]) then NO_SCOPE
        else if tail[0] == 'e' then ScopeInput(Some(rest[..n]), Some(tail[2..]), None)
        else if tail[0] == 'p' then ScopeInput(Some(rest[..n]), None, Some(tail[2..]))
        else NO_SCOPE
  }

  /** What a printed scope can hold of its input: trimmed parts, nothing without
      a tenant, and the pipeline in preference to the environment. */
  function Canonical(input: ScopeInput): ScopeInput {
    var t, e, p := Trimmed(input.tenantId), Trimmed(input.environment), Trimmed(input.pipelineId);
    if t == "" then NO_SCOPE
    else if p != "" then ScopeInput(Some(t), None, Some(p))
    else if e != "" then ScopeInput(Some(t), Some(e), None)
    else ScopeInput(Some(t), None, None)
  }

  /** The part of the input printed after the tenant, if any. */
  function Leaf(input: ScopeInput): string {
    if Trimmed(input.pipelineId) != "" then Trimmed(input.pipelineId) else Trimmed(input.environment)
  }

  /** A scope string with something after the tenant; `mark` is `e` or `p`. */
  function LeafScope(t: string, mark: char, leaf: string): string {
    "t/" + t + "/" + [mark] + "/" + leaf
  }

  lemma ParseLeafScope(t: string, mark: char, leaf: string)
    requires t != "" && leaf != "" && (mark == 'e' || mark == 'p')
    ensures Free(t, '/') && OneLine(leaf) ==>
        (ParseScope(LeafScope(t, mark, leaf)) ==
         if mark == 'e' then ScopeInput(Some(t), Some(leaf), None) else ScopeInput(Some(t), None, Some(leaf)))
    ensures ParseScope(LeafScope(t, mark, leaf)).tenantId == Some(t) ==> Free(t, '/') && OneLine(leaf)
  {
    var scope := LeafScope(t, mark, leaf);
    var rest := scope[2..];
    assert rest == t + "/" + [mark] + "/" + leaf;
    assert rest[..|t|] == t;
    if Free(t, '/') {
      SpanIs(rest, '/', |t|);
      var tail := rest[|t| + 1..];
      assert tail == [mark, '/'] + leaf;
      assert tail[2..] == leaf;
    } else {
    }
  }

  /** The scope string that spells this tenant, with one environment or pipeline or neither. */
  ghost predicate Spells(scope: string, parsed: ScopeInput) {
    && parsed.tenantId.Some? && parsed.tenantId.value != "" && Free(parsed.tenantId.value, '/')
    && match (parsed.environment, parsed.pipelineId)
       case (None, None) => scope == "t/" + parsed.tenantId.value
       case (Some(e), None) => e != "" && OneLine(e) && scope == LeafScope(parsed.tenantId.value, 'e', e)
       case (None, Some(p)) => p != "" && OneLine(p) && scope == LeafScope(parsed.tenantId.value, 'p', p)
       case (Some(_), Some(_)) => false
  }

  lemma ParsedIsSpelled(scope: string)
    requires ParseScope(scope) != NO_SCOPE
    ensures Spells(scope, ParseScope(scope))
  {
    var rest := scope[2..];
    var n := Span(rest, '/');
    assert scope == "t/" + rest;
    if n < |rest| { SplitAtSlash(scope, rest, n); }
  }

  lemma SplitAtSlash(scope: string, rest: string, n: nat)
    requires scope == "t/" + rest && n + 3 < |rest| && rest[n] == '/' && rest[n + 2] == '/'
    ensures scope == LeafScope(rest[..n], rest[n + 1], rest[n + 1..][2..])
  {
    assert rest == rest[..n] + "/" + [rest[n + 1]] + "/" + rest[n + 1..][2..];
    assert "t/" + (rest[..n] + "/" + [rest[n + 1]] + "/" + rest[n + 1..][2..]) ==
           LeafScope(rest[..n], rest[n + 1], rest[n + 1..][2..]);
  }

  lemma SpelledIsParsed(scope: string, parsed: ScopeInput)
    requires Spells(scope, parsed)
    ensures ParseScope(scope) == parsed
  {
    var t := parsed.tenantId.value;
    if parsed.environment.Some? {
      ParseLeafScope(t, 'e', parsed.environment.value);
    } else if parsed.pipelineId.Some? {
      ParseLeafScope(t, 'p', parsed.pipelineId.value);
    } else {
      assert scope[2..] == t;
      SpanIs(t, '/', |t|);
    }
  }

  /** For every string: it is parsed to a tenant's scope if and only if it spells
      that scope; any other string is parsed to no scope. */
  lemma ParsesIffSpelled(scope: string, parsed: ScopeInput)
    requires parsed != NO_SCOPE
    ensures ParseScope(scope) == parsed <==> Spells(scope, parsed)
  {
    if ParseScope(scope) == parsed { ParsedIsSpelled(scope); }
    if Spells(scope, parsed) { SpelledIsParsed(scope, parsed); }
  }

  predicate AllSpace(s: string) {
    forall c :: c in s ==> IsSpace(c)
  }

  lemma {:induction false} TrimStartMeans(s: string) returns (space: string)
    ensures AllSpace(space) && s == space + TrimStart(s)
    ensures TrimStart(s) != "" ==> !IsSpace(TrimStart(s)[0])
  {
    space := "";
    if s != "" && IsSpace(s[0]) {
      var more := TrimStartMeans(s[1..]);
      space := [s[0]] + more;
    }
  }

  lemma {:induction false} TrimEndMeans(s: string) returns (space: string)
    ensures AllSpace(space) && s == TrimEnd(s) + space
    ensures TrimEnd(s) != "" ==> !IsSpace(TrimEnd(s)[|TrimEnd(s)| - 1]) && TrimEnd(s)[0] == s[0]
  {
    space := "";
    if s != "" && IsSpace(s[|s| - 1]) {
      var more := TrimEndMeans(s[..|s| - 1]);
      space := more + [s[|s| - 1]];
    }
  }

  /** Trimming takes white space off both ends, and leaves none there. */
  lemma TrimmedMeans(s: string) returns (before: string, after: string)
    ensures AllSpace(before) && AllSpace(after) && s == before + Trimmed(Some(s)) + after
    ensures var t := Trimmed(Some(s)); t != "" ==> !IsSpace(t[0]) && !IsSpace(t[|t| - 1])
  {
    before := TrimStartMeans(s);
    after := TrimEndMeans(TrimStart(s));
  }

  lemma PrintForms(input: ScopeInput)
    ensures var t, e, p := Trimmed(input.tenantId), Trimmed(input.environment), Trimmed(input.pipelineId);
            t != "" ==>
              (ScopeToString(input) ==
               if p != "" then LeafScope(t, 'p', p) else if e != "" then LeafScope(t, 'e', e) else "t/" + t)
  {
    var t, e, p := Trimmed(input.tenantId), Trimmed(input.environment), Trimmed(input.pipelineId);
    assert "t/" + t + "/p/" + p == LeafScope(t, 'p', p);
    assert "t/" + t + "/e/" + e == LeafScope(t, 'e', e);
  }

  lemma OneLineMeans(s: string)
    ensures OneLine(s) <==> forall c :: c in s ==> c !in {'\n', '\r', '\U{2028}', '\U{2029}'}
  {
    if OneLine(s) {
      forall c | c in s ensures c !in {'\n', '\r', '\U{2028}', '\U{2029}'} {
        var i :| 0 <= i < |s| && s[i] == c;
      }
    } else {
      var i :| 0 <= i < |s| && IsLineTerminator(s[i]);
      assert s[i] in s;
    }
  }

  /** Parsing gives back what was printed exactly when the tenant has no slash
      and the environment or pipeline no line terminator. */
  lemma ParseInvertsPrint(input: ScopeInput)
    ensures ParseScope(ScopeToString(input)) == Canonical(input) <==>
        Trimmed(input.tenantId) == "" ||
        (Free(Trimmed(input.tenantId), '/') &&
         forall c :: c in Leaf(input) ==> c !in {'\n', '\r', '\U{2028}', '\U{2029}'})
  {
    var t := Trimmed(input.tenantId);
    OneLineMeans(Leaf(input));
    if t != "" {
      PrintForms(input);
      if Leaf(input) != "" {
        ParseLeafScope(t, if Trimmed(input.pipelineId) != "" then 'p' else 'e', Leaf(input));
      }
    }
  }

  lemma PrintedLeafTenant(tenant: string, mark: char, leaf: string)
    requires tenant != "" && Free(tenant, '/') && leaf != ""
    ensures var parsed := ParseScope(LeafScope(tenant, mark, leaf)).tenantId; parsed == None || parsed == Some(tenant)
  {
    var rest := LeafScope(tenant, mark, leaf)[2..];
    assert rest == tenant + "/" + [mark] + "/" + leaf;
    assert rest[..|tenant|] == tenant;
    SpanIs(rest, '/', |tenant|);
  }

  /** What a printed scope can be parsed to: its own tenant or none at all. */
  lemma PrintedTenant(tenant: string, environment: Option<string>, pipelineId: Option<string>)
    requires Trimmed(Some(tenant)) == tenant != "" && Free(tenant, '/')
    ensures var parsed := ParseScope(ScopeToString(ScopeInput(Some(tenant), environment, pipelineId))).tenantId;
            parsed == None || parsed == Some(tenant)
  {
    var input := ScopeInput(Some(tenant), environment, pipelineId);
    PrintForms(input);
    if Leaf(input) == "" {
      assert ("t/" + tenant)[2..] == tenant;
      SpanIs(tenant, '/', |tenant|);
    } else {
      PrintedLeafTenant(tenant, if Trimmed(pipelineId) != "" then 'p' else 'e', Leaf(input));
    }
  }

  /** True when a grant at `grantScope` authorizes a request at `requestScope`. */
  predicate ScopeCovers(grantScope: string, requestScope: string) {
    if grantScope == GLOBAL_SCOPE || grantScope == requestScope then true
    else
      var g, r := ParseScope(grantScope), ParseScope(requestScope);
      g.tenantId.Some? && g.tenantId == r.tenantId && g.environment.None? && g.pipelineId.None?
  }

  /** Coverage is a partial order on all strings, with `*` on top. */
  lemma CoversReflexive(a: string)
    ensures ScopeCovers(a, a) && ScopeCovers(GLOBAL_SCOPE, a)
    ensures ScopeCovers(a, GLOBAL_SCOPE) ==> a == GLOBAL_SCOPE
  {
  }

  lemma CoversAntisymmetric(a: string, b: string)
    requires ScopeCovers(a, b) && ScopeCovers(b, a)
    ensures a == b
  {
  }

  lemma CoversTransitive(a: string, b: string, c: string)
    requires ScopeCovers(a, b) && ScopeCovers(b, c)
    ensures ScopeCovers(a, c)
  {
  }

  /** For resources the printer and parser agree on, coverage is what the
      hierarchy says: everything, the same resource, or the resource's tenant. */
  lemma CoversMeansAncestor(grant: ScopeInput, request: ScopeInput)
    requires ParseScope(ScopeToString(grant)) == Canonical(grant)
    requires ParseScope(ScopeToString(request)) == Canonical(request)
    ensures ScopeCovers(ScopeToString(grant), ScopeToString(request)) <==>
        var g, r := Canonical(grant), Canonical(request);
        || g == NO_SCOPE
        || g == r
        || (g == ScopeInput(g.tenantId, None, None) && g.tenantId == r.tenantId)
  {
    PrintForms(grant);
    PrintForms(request);
  }
}
