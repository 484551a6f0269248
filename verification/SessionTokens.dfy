/**
  Session tokens and the in-memory revocation store, which forgets a revoked
  token once it has expired.

  The clock is read in whole milliseconds, separately by `verify`, by `revoke`
  and by the store's clean-up. Expiry is a number of seconds that need not be
  whole. Signature, hash and encoding are abstract.
 */
module SessionTokens {
  import opened Strings
  import opened Wrappers

  datatype Principal = Principal(id: string, kind: string, tenant: Option<string>, roles: seq<string>)

  datatype Payload = Payload(principal: Principal, iat: int, exp: real)

  /** What a payload segment decodes to: JSON may be `null`, and a claim may be
      missing or of another type. */
  datatype Parsed =
    | Unparseable
    | Null
    | Claims(exp: Option<real>, sub: Option<string>, kind: string, tid: Option<string>, roles: Option<seq<string>>)

  datatype Host = Host(mac: string -> string, hash: string -> string, header: string,
                       encode: Payload -> string, decode: string -> Parsed)

  /** What a host owes one payload: encoded segments hold no dot, and the
      payload's claims decode to what was encoded. Nothing is asked for other
      payloads, such as expiries that a JSON number cannot hold. */
  ghost predicate FaithfulFor(h: Host, p: Payload) {
    && Free(h.header, '.')
    && (forall s :: Free(h.mac(s), '.'))
    && Free(h.encode(p), '.')
    && h.decode(h.encode(p)) ==
       Claims(Some(p.exp), Some(p.principal.id), p.principal.kind, p.principal.tenant, Some(p.principal.roles))
  }

  ghost predicate CollisionFree(h: Host) {
    forall a, b :: h.hash(a) == h.hash(b) ==> a == b
  }

  /** `Math.floor(ms / 1000)`. */
  function Seconds(ms: int): int {
    ms / 1000
  }

  /*
   * Tokens.
   */

  function PayloadOf(p: Principal, ttl: real, now: int): Payload {
    Payload(p, Seconds(now), Seconds(now) as real + ttl)
  }

  function Sign(h: Host, p: Principal, ttl: real, now: int): string {
    var input := h.header + "." + h.encode(PayloadOf(p, ttl, now));
    input + "." + h.mac(input)
  }

  datatype Verdict =
    | Accepted(principal: Principal)
    | Malformed
    | SignatureMismatch
    | BadPayload
    | PayloadFault
    | InvalidClaims
    | TokenExpired
    | TokenRevoked

  /** The checks up to the revocation list. */
  function VerdictBefore(h: Host, token: string, now: int): Verdict {
    var segments := Split(token, '.');
    if |segments| != 3 then Malformed
    else if segments[2] != h.mac(segments[0] + "." + segments[1]) then SignatureMismatch
    else
      match h.decode(segments[1])
      case Unparseable => BadPayload
      case Null => PayloadFault
      case Claims(exp, sub, kind, tid, roles) =>
        if exp.None? || sub.None? then InvalidClaims
        else if Seconds(now) as real >= exp.value then TokenExpired
        else Accepted(Principal(sub.value, kind, tid, if roles.Some? then roles.value else []))
  }

  /** The expiry claim, when the token has one. */
  function Expiry(h: Host, token: string): Option<real> {
    var segments := Split(token, '.');
    if |segments| == 3 && h.decode(segments[1]).Claims? then h.decode(segments[1]).exp else None
  }

  /** The moment, in milliseconds, up to which `revoke` asks the store to remember. */
  function RememberUntil(h: Host, token: string, now: int): real {
    match Expiry(h, token)
    case Some(exp) => exp * 1000.0
    case None => (Seconds(now) + 24 * 3600) as real * 1000.0
  }

  /*
   * The store.
   */

  function Remaining(entries: map<string, real>, now: int): map<string, real> {
    map k | k in entries && entries[k] > now as real :: entries[k]
  }

  class InMemorySessionRevocationStore {
    var entries: map<string, real>

    constructor ()
      ensures entries == map[]
    {
      entries := map[];
    }

    method Gc(now: int)
      modifies this
      ensures entries == Remaining(old(entries), now)
    {
      var todo := entries.Keys;
      while todo != {}
        invariant todo <= entries.Keys <= old(entries).Keys
        invariant forall k :: k in entries ==> entries[k] == old(entries)[k]
        invariant forall k :: k in old(entries) && k !in todo ==> (k in entries <==> old(entries)[k] > now as real)
        decreases |todo|
      {
        var k :| k in todo;
        todo := todo - {k};
        if entries[k] <= now as real {
          entries := entries - {k};
        }
      }
    }

    method Revoke(tokenHash: string, until: real, now: int)
      modifies this
      ensures entries == Remaining(old(entries)[tokenHash := until], now)
    {
      entries := entries[tokenHash := until];
      Gc(now);
    }

    method IsRevoked(tokenHash: string, now: int) returns (revoked: bool)
      modifies this
      ensures entries == Remaining(old(entries), now) && revoked == (tokenHash in entries)
    {
      Gc(now);
      revoked := tokenHash in entries;
    }
  }

  /*
   * The service. `now` is the first reading of the clock, `later` the store's.
   */

  /** `verify` asks the store only after every other check has passed. */
  function VerifyWith(h: Host, entries: map<string, real>, token: string, now: int, later: int): Verdict {
    var before := VerdictBefore(h, token, now);
    if before.Accepted? && h.hash(token) in Remaining(entries, later) then TokenRevoked else before
  }

  function AfterVerify(h: Host, entries: map<string, real>, token: string, now: int, later: int): map<string, real> {
    if VerdictBefore(h, token, now).Accepted? then Remaining(entries, later) else entries
  }

  function AfterRevoke(h: Host, entries: map<string, real>, token: string, now: int, later: int): map<string, real> {
    if |Split(token, '.')| != 3 then entries
    else Remaining(entries[h.hash(token) := RememberUntil(h, token, now)], later)
  }

  class SessionTokenService {
    const host: Host
    const revocation: InMemorySessionRevocationStore

    constructor (host: Host, revocation: InMemorySessionRevocationStore)
      ensures this.host == host && this.revocation == revocation
    {
      this.host, this.revocation := host, revocation;
    }

    method Verify(token: string, now: int, later: int) returns (verdict: Verdict)
      modifies revocation
      ensures verdict == VerifyWith(host, old(revocation.entries), token, now, later)
      ensures revocation.entries == AfterVerify(host, old(revocation.entries), token, now, later)
    {
      var segments := Split(token, '.');
      if |segments| != 3 { return Malformed; }
      var expected := host.mac(segments[0] + "." + segments[1]);
      if segments[2] != expected { return SignatureMismatch; }
      var payload := host.decode(segments[1]);
      if payload == Unparseable { return BadPayload; }
      if payload == Null { return PayloadFault; }
      if payload.exp.None? || payload.sub.None? { return InvalidClaims; }
      if Seconds(now) as real >= payload.exp.value { return TokenExpired; }
      var revoked := revocation.IsRevoked(host.hash(token), later);
      if revoked { return TokenRevoked; }
      verdict := Accepted(Principal(payload.sub.value, payload.kind, payload.tid,
                                    if payload.roles.Some? then payload.roles.value else []));
    }

    method Revoke(token: string, now: int, later: int)
      modifies revocation
      ensures revocation.entries == AfterRevoke(host, old(revocation.entries), token, now, later)
    {
      var segments := Split(token, '.');
      if |segments| != 3 { return; }
      var exp := (Seconds(now) + 24 * 3600) as real;
      var payload := host.decode(segments[1]);
      if payload.Claims? && payload.exp.Some? {
        exp := payload.exp.value;
      }
      revocation.Revoke(host.hash(token), exp * 1000.0, later);
    }
  }

  /*
   * Signing and verifying.
   */

  lemma SignedSegments(h: Host, p: Principal, ttl: real, now: int)
    requires FaithfulFor(h, PayloadOf(p, ttl, now))
    ensures var body := h.encode(PayloadOf(p, ttl, now));
            Split(Sign(h, p, ttl, now), '.') == [h.header, body, h.mac(h.header + "." + body)]
  {
    var body := h.encode(PayloadOf(p, ttl, now));
    var parts := [h.header, body, h.mac(h.header + "." + body)];
    JoinThree(h.header, body, parts[2]);
    assert Join(parts, ".") == Sign(h, p, ttl, now);
    SplitJoin(parts, '.');
  }

  /** A signed token is accepted, with the principal it was signed for, exactly
      until its time to live is over. */
  lemma SignedIsAccepted(h: Host, p: Principal, ttl: real, signed: int, now: int)
    requires FaithfulFor(h, PayloadOf(p, ttl, signed))
    ensures var exp := Seconds(signed) as real + ttl;
            && Expiry(h, Sign(h, p, ttl, signed)) == Some(exp)
            && VerdictBefore(h, Sign(h, p, ttl, signed), now) ==
               if (Seconds(now) as real) < exp then Accepted(p) else TokenExpired
  {
    SignedSegments(h, p, ttl, signed);
  }

  /** The token is a header, a body and their signature, and the body holds this
      principal's claims with an expiry still to come. */
  ghost predicate Genuine(h: Host, token: string, now: int, p: Principal, header: string, body: string) {
    var signature := h.mac(header + "." + body);
    && Free(header, '.') && Free(body, '.') && Free(signature, '.')
    && token == header + "." + body + "." + signature
    && h.decode(body).Claims? && var claims := h.decode(body);
       && claims.sub == Some(p.id) && claims.kind == p.kind && claims.tid == p.tenant
       && (if claims.roles.Some? then p.roles == claims.roles.value else p.roles == [])
       && claims.exp.Some? && Seconds(now) as real < claims.exp.value
  }

  lemma GenuinePasses(h: Host, token: string, now: int, p: Principal, header: string, body: string)
    requires Genuine(h, token, now, p, header, body)
    ensures VerdictBefore(h, token, now) == Accepted(p)
  {
    var parts := [header, body, h.mac(header + "." + body)];
    JoinThree(parts[0], parts[1], parts[2]);
    SplitJoin(parts, '.');
    assert Split(token, '.') == parts;
  }

  lemma PassingIsGenuine(h: Host, token: string, now: int, p: Principal)
    requires VerdictBefore(h, token, now) == Accepted(p)
    ensures Genuine(h, token, now, p, Split(token, '.')[0], Split(token, '.')[1])
  {
    var parts := Split(token, '.');
    JoinSplit(token, '.');
    JoinThree(parts[0], parts[1], parts[2]);
    assert parts == [parts[0], parts[1], parts[2]];
    assert parts[0] in parts && parts[1] in parts && parts[2] in parts;
  }

  /** For every string: it passes the checks, as this principal, if and only if it is genuine. */
  lemma PassesIff(h: Host, token: string, now: int, p: Principal)
    ensures VerdictBefore(h, token, now) == Accepted(p) <==>
        exists header, body :: Genuine(h, token, now, p, header, body)
  {
    if VerdictBefore(h, token, now) == Accepted(p) { PassingIsGenuine(h, token, now, p); }
    if header, body :| Genuine(h, token, now, p, header, body) { GenuinePasses(h, token, now, p, header, body); }
  }

  /** What is wrong with a string that does not pass, in this order: it has not
      three parts, the third is not the signature of the others, the body does not
      decode or to no claims, a claim is missing, the expiry has come. */
  lemma FailsAs(h: Host, token: string, now: int, header: string, body: string, signature: string)
    requires Free(header, '.') && Free(body, '.') && Free(signature, '.')
    requires token == header + "." + body + "." + signature
    ensures var verdict := VerdictBefore(h, token, now);
            && verdict != Malformed
            && (verdict == SignatureMismatch <==> signature != h.mac(header + "." + body))
            && (signature == h.mac(header + "." + body) ==>
                  && (h.decode(body) == Unparseable ==> verdict == BadPayload)
                  && (h.decode(body) == Null ==> verdict == PayloadFault)
                  && (h.decode(body).Claims? && (h.decode(body).exp == None || h.decode(body).sub == None) ==>
                        verdict == InvalidClaims))
  {
    JoinThree(header, body, signature);
    SplitJoin([header, body, signature], '.');
    assert Split(token, '.') == [header, body, signature];
  }

  /** Strings of another shape are malformed. */
  lemma MalformedIff(h: Host, token: string, now: int)
    ensures VerdictBefore(h, token, now) == Malformed <==>
        forall a, b, c :: Free(a, '.') && Free(b, '.') && Free(c, '.') ==> token != a + "." + b + "." + c
  {
    JoinSplit(token, '.');
    var parts := Split(token, '.');
    if |parts| == 3 {
      JoinThree(parts[0], parts[1], parts[2]);
      assert parts == [parts[0], parts[1], parts[2]];
      assert Free(parts[0], '.') && Free(parts[1], '.') && Free(parts[2], '.');
    }
    forall a, b, c | Free(a, '.') && Free(b, '.') && Free(c, '.') && token == a + "." + b + "." + c
      ensures |parts| == 3
    {
      JoinThree(a, b, c);
      SplitJoin([a, b, c], '.');
    }
  }

  lemma JoinThree(a: string, b: string, c: string)
    ensures Join([a, b, c], ".") == a + "." + b + "." + c
  {
    assert [a, b, c][1..] == [b, c] && [b, c][1..] == [c];
    assert Join([b, c], ".") == b + "." + c;
  }

  /*
   * A host for whole expiries.
   */

  /** Commas and dots are escaped. */
  function Escape(s: string): (r: string)
    ensures Free(r, ',') && Free(r, '.')
  {
    if s == "" then ""
    else
      var rest := Escape(s[1..]);
      match s[0]
      case '~' => "~0" + rest
      case ',' => "~1" + rest
      case '.' => "~2" + rest
      case c => [c] + rest
  }

  function Unescape(s: string): string {
    if s == "" then ""
    else if s[0] != '~' || |s| == 1 then [s[0]] + Unescape(s[1..])
    else [if s[1] == '0' then '~' else if s[1] == '1' then ',' else '.'] + Unescape(s[2..])
  }

  lemma {:induction false} UnescapeEscape(s: string)
    ensures Unescape(Escape(s)) == s
  {
    if s != "" {
      UnescapeEscape(s[1..]);
      var r := Escape(s);
      assert if s[0] in "~,." then r[2..] == Escape(s[1..]) else r[1..] == Escape(s[1..]);
    }
  }

  function Unary(n: int): (s: string)
    ensures Free(s, ',') && Free(s, '.')
  {
    seq(if n < 0 then -n else n, _ => if n < 0 then '-' else '+')
  }

  function Number(s: string): int {
    if s == "" || s[0] == '+' then |s| else -|s|
  }

  /** A payload with a whole expiry, field by field. */
  function Fields(q: Payload): (fields: seq<string>)
    ensures forall f :: f in fields ==> Free(f, ',') && Free(f, '.')
  {
    var p := q.principal;
    [Unary(q.iat), Unary(q.exp.Floor), Escape(p.id), Escape(p.kind),
     if p.tenant.Some? then "+" + Escape(p.tenant.value) else ""] +
    seq(|p.roles|, i requires 0 <= i < |p.roles| => Escape(p.roles[i]))
  }

  function ReadFields(fields: seq<string>): Parsed {
    if |fields| < 5 then Unparseable
    else
      Claims(Some(Number(fields[1]) as real), Some(Unescape(fields[2])), Unescape(fields[3]),
             if fields[4] == "" then None else Some(Unescape(fields[4][1..])),
             Some(seq(|fields| - 5, i requires 0 <= i < |fields| - 5 => Unescape(fields[i + 5]))))
  }

  lemma {:induction false} JoinFree(parts: seq<string>, sep: string, c: char)
    requires Free(sep, c) && forall p :: p in parts ==> Free(p, c)
    ensures Free(Join(parts, sep), c)
  {
    if parts != [] {
      assert Free(parts[0], c);
      JoinFree(parts[1..], sep, c);
    }
  }

  lemma FieldsReadBack(q: Payload)
    requires q.exp == q.exp.Floor as real
    ensures var p := q.principal;
            ReadFields(Fields(q)) == Claims(Some(q.exp), Some(p.id), p.kind, p.tenant, Some(p.roles))
  {
    var p, fields := q.principal, Fields(q);
    UnescapeEscape(p.id);
    UnescapeEscape(p.kind);
    if p.tenant.Some? {
      UnescapeEscape(p.tenant.value);
      assert fields[4][1..] == Escape(p.tenant.value);
    }
    forall i | 0 <= i < |p.roles| ensures Unescape(fields[i + 5]) == p.roles[i] { UnescapeEscape(p.roles[i]); }
    assert ReadFields(fields).roles.value == p.roles;
  }

  /** One host is faithful for all whole times to live at once and has no
      collisions: what the theorems on signed tokens ask of a host can be met. */
  lemma WholeExpiriesHaveAHost() returns (h: Host)
    ensures CollisionFree(h)
    ensures forall p, ttl: int, now {:trigger WholePayload(p, ttl, now)} :: FaithfulFor(h, WholePayload(p, ttl, now))
  {
    h := Host(_ => "", s => s, "", q => Join(Fields(q), ","), s => ReadFields(Split(s, ',')));
    forall p, ttl: int, now ensures FaithfulFor(h, WholePayload(p, ttl, now)) {
      var q := WholePayload(p, ttl, now);
      assert q.exp == (Seconds(now) + ttl) as real;
      JoinFree(Fields(q), ",", '.');
      assert "," == [','];
      SplitJoin(Fields(q), ',');
      FieldsReadBack(q);
    }
  }

  function WholePayload(p: Principal, ttl: int, now: int): Payload {
    PayloadOf(p, ttl as real, now)
  }

  /*
   * Expiry in seconds against forgetting in milliseconds.
   */

  predicate Expired(exp: real, now: int) {
    Seconds(now) as real >= exp
  }

  predicate Forgotten(exp: real, now: int) {
    exp * 1000.0 <= now as real
  }

  function Ceil(x: real): int {
    if x.Floor as real == x then x.Floor else x.Floor + 1
  }

  lemma ExpiredFrom(exp: real, now: int)
    ensures Expired(exp, now) <==> now >= 1000 * Ceil(exp)
  {
  }

  /** For a whole number of seconds the two tests agree at every moment. */
  lemma WholeSecondsAgree(exp: int, now: int)
    ensures Expired(exp as real, now) <==> Forgotten(exp as real, now)
  {
    ExpiredFrom(exp as real, now);
  }

  /** In general a token is expired whenever it is forgotten if and only if its
      expiry is less than one millisecond below a whole second. */
  lemma ForgettingImpliesExpiredIff(exp: real)
    ensures (forall now: int :: Forgotten(exp, now) ==> Expired(exp, now)) <==>
            exp * 1000.0 > (1000 * Ceil(exp) - 1) as real
  {
    var last := 1000 * Ceil(exp) - 1;
    ExpiredFrom(exp, last);
    assert Forgotten(exp, last) <==> exp * 1000.0 <= last as real;
    forall now: int | Forgotten(exp, now) && exp * 1000.0 > last as real ensures Expired(exp, now) {
      ExpiredFrom(exp, now);
    }
  }

  /*
   * All runs.
   */

  /** `all` is what the store would hold if it never forgot, `swept` when it last did. */
  datatype State = State(entries: map<string, real>, all: map<string, real>, swept: int)

  datatype Step = Revoke(token: string, now: int, later: int) | Verify(token: string, now: int, later: int)

  function Apply(h: Host, s: State, step: Step): State {
    match step
    case Revoke(token, now, later) =>
      if |Split(token, '.')| != 3 then s
      else
        State(AfterRevoke(h, s.entries, token, now, later), s.all[h.hash(token) := RememberUntil(h, token, now)], later)
    case Verify(token, now, later) =>
      State(AfterVerify(h, s.entries, token, now, later), s.all,
            if VerdictBefore(h, token, now).Accepted? then later else s.swept)
  }

  /** The clock never goes back, within a step or between steps. */
  ghost predicate Clocked(steps: seq<Step>, start: int) {
    && (forall i :: 0 <= i < |steps| ==> start <= steps[i].now <= steps[i].later)
    && (forall i, j :: 0 <= i < j < |steps| ==> steps[i].later <= steps[j].now)
  }

  ghost predicate Run(h: Host, start: int, states: seq<State>, steps: seq<Step>) {
    && |states| == |steps| + 1 && states[0] == State(map[], map[], start) && Clocked(steps, start)
    && forall i :: 0 <= i < |steps| ==> states[i + 1] == Apply(h, states[i], steps[i])
  }

  /** The store holds what it was ever told and has not outlived. */
  ghost predicate Inv(s: State) {
    s.entries == Remaining(s.all, s.swept)
  }

  lemma {:induction false} RunKeepsInv(h: Host, start: int, states: seq<State>, steps: seq<Step>, i: nat)
    requires Run(h, start, states, steps) && i < |states|
    ensures Inv(states[i])
    ensures if i == 0 then states[i].swept == start else states[i].swept <= steps[i - 1].later
  {
    if i > 0 {
      RunKeepsInv(h, start, states, steps, i - 1);
      var s, step := states[i - 1], steps[i - 1];
      assert states[i - 1 + 1] == Apply(h, s, step);
      assert s.swept <= step.later;
    }
  }

  /** The store's answer, from what it was ever told. */
  lemma StoreAnswers(h: Host, start: int, states: seq<State>, steps: seq<Step>, i: nat, k: string)
    requires Run(h, start, states, steps) && i < |steps|
    ensures var s, later := states[i], steps[i].later;
            k in Remaining(s.entries, later) <==> k in s.all && s.all[k] > later as real
  {
    RunKeepsInv(h, start, states, steps, i);
    assert states[i].swept <= steps[i].later;
  }

  /** Was this very token revoked before the i-th step? */
  ghost predicate RevokedBefore(steps: seq<Step>, i: nat, token: string)
    requires i <= |steps|
  {
    |Split(token, '.')| == 3 && exists j :: 0 <= j < i && steps[j].Revoke? && steps[j].token == token
  }

  /** The list holds exactly the tokens that were revoked, each with its expiry. */
  lemma {:induction false} ListHoldsRevoked(h: Host, start: int, states: seq<State>, steps: seq<Step>, i: nat,
                                            token: string)
    requires CollisionFree(h) && Run(h, start, states, steps) && i < |states|
    ensures h.hash(token) in states[i].all <==> RevokedBefore(steps, i, token)
    ensures h.hash(token) in states[i].all && Expiry(h, token).Some? ==>
        states[i].all[h.hash(token)] == Expiry(h, token).value * 1000.0
  {
    if i > 0 {
      ListHoldsRevoked(h, start, states, steps, i - 1, token);
      var step := steps[i - 1];
      assert states[i - 1 + 1] == Apply(h, states[i - 1], step);
      assert RevokedBefore(steps, i, token) <==>
             RevokedBefore(steps, i - 1, token) ||
             (|Split(token, '.')| == 3 && step.Revoke? && step.token == token);
    }
  }

  /** In every run the verdict on a token is decided by the token, the clock and
      whether this very token was revoked before: revoking others does not
      matter. It is rejected as revoked unless the store's clock has already
      passed its expiry. */
  lemma VerdictInRun(h: Host, start: int, states: seq<State>, steps: seq<Step>, i: nat)
    requires CollisionFree(h) && Run(h, start, states, steps) && i < |steps| && steps[i].Verify?
    ensures var Verify(token, now, later) := steps[i];
            var before := VerdictBefore(h, token, now);
            VerifyWith(h, states[i].entries, token, now, later) ==
            if before.Accepted? && RevokedBefore(steps, i, token) && !Forgotten(Expiry(h, token).value, later)
            then TokenRevoked else before
  {
    var token, now := steps[i].token, steps[i].now;
    StoreAnswers(h, start, states, steps, i, h.hash(token));
    ListHoldsRevoked(h, start, states, steps, i, token);
  }

  /** A revoked token is accepted again if and only if it passes the other
      checks at the first reading of the clock and is forgotten at the second. */
  lemma RevokedAcceptedIff(h: Host, start: int, states: seq<State>, steps: seq<Step>, i: nat)
    requires CollisionFree(h) && Run(h, start, states, steps) && i < |steps| && steps[i].Verify?
    requires RevokedBefore(steps, i, steps[i].token)
    ensures var Verify(token, now, later) := steps[i];
            VerifyWith(h, states[i].entries, token, now, later).Accepted? <==>
            VerdictBefore(h, token, now).Accepted? && Forgotten(Expiry(h, token).value, later)
  {
    VerdictInRun(h, start, states, steps, i);
  }

  /** A token signed for a whole number of seconds and later revoked never
      verifies again, provided the two readings of the clock in `verify` fall
      into the same second. */
  lemma RevokedNeverVerifies(h: Host, start: int, states: seq<State>, steps: seq<Step>, i: nat, p: Principal, ttl: int,
                             signed: int)
    requires FaithfulFor(h, PayloadOf(p, ttl as real, signed)) && CollisionFree(h)
    requires Run(h, start, states, steps) && i < |steps| && steps[i].Verify?
    requires steps[i].token == Sign(h, p, ttl as real, signed) && RevokedBefore(steps, i, steps[i].token)
    requires Seconds(steps[i].now) == Seconds(steps[i].later)
    ensures !VerifyWith(h, states[i].entries, steps[i].token, steps[i].now, steps[i].later).Accepted?
  {
    var exp := Seconds(signed) + ttl;
    RevokedAcceptedIff(h, start, states, steps, i);
    SignedIsAccepted(h, p, ttl as real, signed, steps[i].now);
    assert Expiry(h, steps[i].token) == Some(exp as real);
    WholeSecondsAgree(exp, steps[i].later);
  }

  /** Without that it can: the store may forget the token between the two
      readings, one millisecond apart. */
  lemma RevokedVerifiesAcrossExpiry(h: Host, p: Principal, ttl: int, signed: int)
    requires FaithfulFor(h, PayloadOf(p, ttl as real, signed)) && ttl > 0
    ensures var token, exp := Sign(h, p, ttl as real, signed), 1000 * (Seconds(signed) + ttl);
            var entries := AfterRevoke(h, map[], token, signed, signed);
            && VerifyWith(h, entries, token, exp - 1, exp - 1) == TokenRevoked
            && VerifyWith(h, entries, token, exp - 1, exp) == Accepted(p)
  {
    var token, exp := Sign(h, p, ttl as real, signed), 1000 * (Seconds(signed) + ttl);
    SignedSegments(h, p, ttl as real, signed);
    SignedIsAccepted(h, p, ttl as real, signed, exp - 1);
    assert RememberUntil(h, token, signed) == exp as real;
    assert signed < exp;
  }

  /** A revoked token that names no expiry is remembered for exactly a day from
      the second it was revoked in; a malformed one is not remembered at all. */
  lemma RevocationHorizon(h: Host, entries: map<string, real>, token: string, now: int, swept: int, later: int)
    requires now <= swept <= later && h.hash(token) !in entries
    ensures var revoked := h.hash(token) in Remaining(AfterRevoke(h, entries, token, now, swept), later);
            if |Split(token, '.')| != 3 then !revoked
            else if Expiry(h, token).Some? then revoked <==> (later as real) < Expiry(h, token).value * 1000.0
            else revoked <==> later < now - now % 1000 + 86400000
    ensures forall other :: other != h.hash(token) ==>
        (other in Remaining(AfterRevoke(h, entries, token, now, swept), later) <==> other in Remaining(entries, later))
  {
  }

  /** The forgetting store and one that never forgets give the same verdict on a
      token in every run if both readings fall into the same second and the
      token's expiry is a whole second. */
  lemma ForgettingMakesNoDifference(h: Host, start: int, states: seq<State>, steps: seq<Step>, i: nat)
    requires CollisionFree(h) && Run(h, start, states, steps) && i < |steps| && steps[i].Verify?
    requires Seconds(steps[i].now) == Seconds(steps[i].later)
    requires Expiry(h, steps[i].token).Some? ==>
        Expiry(h, steps[i].token).value.Floor as real == Expiry(h, steps[i].token).value
    ensures VerifyWith(h, states[i].entries, steps[i].token, steps[i].now, steps[i].later) ==
            NeverForgetting(h, states[i].all, steps[i].token, steps[i].now)
  {
    var token, now := steps[i].token, steps[i].now;
    VerdictInRun(h, start, states, steps, i);
    ListHoldsRevoked(h, start, states, steps, i, token);
    if VerdictBefore(h, token, now).Accepted? {
      WholeSecondsAgree(Expiry(h, token).value.Floor, steps[i].later);
    }
  }

  function NeverForgetting(h: Host, all: map<string, real>, token: string, now: int): Verdict {
    var before := VerdictBefore(h, token, now);
    if before.Accepted? && h.hash(token) in all then TokenRevoked else before
  }

  /** In general, at one moment, forgetting makes a difference to a revoked token
      if and only if the token is forgotten before it is expired. */
  lemma ForgettingMakesDifferenceIff(h: Host, start: int, states: seq<State>, steps: seq<Step>, i: nat)
    requires CollisionFree(h) && Run(h, start, states, steps) && i < |steps| && steps[i].Verify?
    requires steps[i].now == steps[i].later && RevokedBefore(steps, i, steps[i].token)
    requires VerdictBefore(h, steps[i].token, steps[i].now) !in
             {SignatureMismatch, BadPayload, PayloadFault, InvalidClaims}
    ensures var Verify(token, now, later) := steps[i];
            Expiry(h, token).Some? &&
            (VerifyWith(h, states[i].entries, token, now, later) != NeverForgetting(h, states[i].all, token, now) <==>
             Forgotten(Expiry(h, token).value, now) && !Expired(Expiry(h, token).value, now))
  {
    VerdictInRun(h, start, states, steps, i);
    ListHoldsRevoked(h, start, states, steps, i, steps[i].token);
  }
}
