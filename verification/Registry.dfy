/**
 The relay's durable routes and invitations. Every method holds the registry lock and is one atomic
 step. Random tokens are new when generated, and the digest is injective.
 */
module Registry {
  import opened Wrappers

  const INVITATION_TTL_SECONDS: nat := 5 * 60
  const MIN_TOKEN_BYTES: nat := 32
  const MAX_TOKEN_BYTES: nat := 512
  const ROUTE_ID_BYTES: nat := 64

  datatype Invitation = Invitation(route: string, expiresAt: nat)

  datatype Route = Route(tokenHash: string, generation: nat, name: Option<string>)

  datatype Response = Response(route: string, token: string, generation: nat)

  /** What an authorized control connection remembers. */
  datatype Session = Session(route: string, token: string, generation: nat)

  datatype Pairing = Pairing(invitation: string, route: string)

  predicate ValidRouteId(value: string) {
    |value| == ROUTE_ID_BYTES && forall c :: c in value ==> '0' <= c <= '9' || 'a' <= c <= 'f'
  }

  /** Bounded, without ASCII white space or control characters. */
  predicate ValidToken(value: string) {
    MIN_TOKEN_BYTES <= |value| <= MAX_TOKEN_BYTES && forall c :: c in value ==> 32 < c as int && c as int != 127
  }

  predicate WhiteSpace(c: char) {
    var n := c as int;
    9 <= n <= 13 || n in [0x20, 0x85, 0xA0, 0x1680, 0x2028, 0x2029, 0x202F, 0x205F, 0x3000] || 0x2000 <= n <= 0x200A
  }

  /** Control characters and those that change line or writing direction. */
  predicate Unsafe(c: char) {
    var n := c as int;
    n < 32 || 127 <= n < 160 || 0x2028 <= n <= 0x202E || 0x2066 <= n <= 0x2069
  }

  function Utf16Units(value: string): (n: nat) {
    if value == "" then 0 else Utf16Units(value[1..]) + if value[0] as int < 0x1_0000 then 1 else 2
  }

  /** A single visible line of at most eighty UTF-16 units. */
  predicate ValidLabel(value: string) {
    && (exists c :: c in value && !WhiteSpace(c))
    && Utf16Units(value) <= 80
    && (forall c :: c in value ==> !Unsafe(c))
  }

  ghost predicate Injective(digest: string -> string) {
    forall a, b :: digest(a) == digest(b) ==> a == b
  }

  class Registry {
    const digest: string -> string
    /** By digest of the invitation token. */
    var invitations: map<string, Invitation>
    var routes: map<string, Route>
    /** Every token ever generated here, and the one each route now answers to. */
    ghost var issued: set<string>
    ghost var holders: map<string, string>
    ghost var pairings: seq<Pairing>

    ghost predicate Valid() reads this {
      && Injective(digest)
      && holders.Keys == routes.Keys
      && (forall r :: r in routes ==> routes[r].tokenHash == digest(holders[r]) && holders[r] in issued)
      && (forall r, q :: r in routes && q in routes && holders[r] == holders[q] ==> r == q)
      && (forall d :: d in invitations ==> Unspent(d))
      && (forall i, j :: 0 <= i < j < |pairings| ==> pairings[i].invitation != pairings[j].invitation)
      && (forall i :: 0 <= i < |pairings| ==> pairings[i].invitation in issued)
    }

    /** An invitation on file was generated here and has not paired. */
    ghost predicate Unspent(d: string) reads this {
      && (exists t :: t in issued && digest(t) == d)
      && (forall i :: 0 <= i < |pairings| ==> digest(pairings[i].invitation) != d)
    }

    /** Some route answers to this token. */
    ghost predicate Held(token: string) reads this {
      exists r :: r in routes && routes[r].tokenHash == digest(token)
    }

    constructor (digest: string -> string)
      requires Injective(digest)
      ensures Valid() && routes == map[] && invitations == map[] && issued == {} && this.digest == digest
    {
      this.digest := digest;
      invitations, routes, issued, holders, pairings := map[], map[], {}, map[], [];
    }

    function Authorize(route: string, token: string): (session: Option<Session>) reads this {
      if ValidRouteId(route) && ValidToken(token) && route in routes && routes[route].tokenHash == digest(token)
      then Some(Session(route, token, routes[route].generation))
      else None
    }

    predicate IsCurrent(session: Session) reads this {
      Authorize(session.route, session.token) == Some(session)
    }

    /** No token that had lost its route, or never had one, got one back. */
    twostate predicate NothingRevives() reads this {
      old(issued) <= issued && forall t :: t in old(issued) && !old(Held(t)) ==> !Held(t)
    }

    /** Every route but one is as it was. */
    twostate predicate OthersStay(route: string) reads this {
      forall r :: r != route ==> (r in routes <==> r in old(routes)) && (r in routes ==> routes[r] == old(routes)[r])
    }

    /** An operation on one route leaves every other route's sessions as current as they were. */
    twostate lemma OthersKeepSessions(route: string, session: Session)
      requires OthersStay(route) && session.route != route
      ensures old(IsCurrent(session)) <==> IsCurrent(session)
    {
    }

    /** A single-use invitation for a new route, `candidate`, or to rotate an existing one. */
    method CreateInvitation(rotate: Option<string>, candidate: string, token: string, now: nat) returns (r: Option<Invitation>)
      requires Valid() && ValidToken(token) && token !in issued && candidate !in routes
      modifies this
      ensures Valid() && NothingRevives() && routes == old(routes) && pairings == old(pairings) && issued <= old(issued) + {token}
      ensures r.Some? <==> rotate.None? || (ValidRouteId(rotate.value) && rotate.value in old(routes))
      ensures r.Some? ==> r.value == Invitation(if rotate.Some? then rotate.value else candidate, now + 5 * 60)
      ensures invitations == if r.Some? then old(invitations)[digest(token) := r.value] else old(invitations)
    {
      if rotate.Some? && (!ValidRouteId(rotate.value) || rotate.value !in routes) { return None; }
      var invitation := Invitation(if rotate.Some? then rotate.value else candidate, now + INVITATION_TTL_SECONDS);
      invitations := invitations[digest(token) := invitation];
      issued := issued + {token};
      forall d | d in invitations ensures Unspent(d) {
        if d != digest(token) { assert old(Unspent(d)); }
      }
      return Some(invitation);
    }

    /** Takes an invitation off the file, whatever becomes of the attempt. */
    method Claim(invitation: string) returns (record: Option<Invitation>)
      requires Valid()
      modifies this`invitations
      ensures Valid() && invitations == old(invitations) - {digest(invitation)}
      ensures record == if digest(invitation) in old(invitations) then Some(old(invitations)[digest(invitation)]) else None
      ensures record.Some? ==> invitation in issued && forall i :: 0 <= i < |pairings| ==> pairings[i].invitation != invitation
    {
      if digest(invitation) !in invitations {
        assert invitations - {digest(invitation)} == invitations;
        return None;
      }
      assert Unspent(digest(invitation));
      ghost var t :| t in issued && digest(t) == digest(invitation);
      assert t == invitation;
      record := Some(invitations[digest(invitation)]);
      invitations := invitations - {digest(invitation)};
      forall d | d in invitations ensures Unspent(d) { assert old(Unspent(d)); }
    }

    /** The invitation is on file for this route, still runs, and the route's counter can move on. */
    predicate Redeemable(route: string, invitation: string, now: nat) reads this {
      && digest(invitation) in invitations
      && invitations[digest(invitation)].route == route
      && now <= invitations[digest(invitation)].expiresAt
      && (route in routes ==> routes[route].generation < U64_MAX)
    }

    /**
     Consumes one invitation and issues the route's next token. The invitation is gone once it was
     found, even if the attempt then fails or the process dies before the route is written.
     */
    method Pair(route: string, invitation: string, token: string, now: nat, dies: bool) returns (r: Option<Response>)
      requires Valid() && ValidToken(token) && token !in issued
      modifies this
      ensures Valid() && NothingRevives() && OthersStay(route)
      ensures r.None? ==> routes == old(routes) && pairings == old(pairings) && issued == old(issued)
      ensures r.Some? ==> route in routes && IsCurrent(Session(route, token, routes[route].generation)) && r.value == Response(route, token, routes[route].generation)
      ensures r.Some? <==> !dies && ValidRouteId(route) && ValidToken(invitation) && old(Redeemable(route, invitation, now))
      ensures r.Some? ==> digest(invitation) in old(invitations) && old(invitations)[digest(invitation)].route == route
      ensures r.Some? ==> now <= old(invitations)[digest(invitation)].expiresAt
      ensures !dies && ValidRouteId(route) && ValidToken(invitation) && digest(invitation) in old(invitations) ==>
                var kept := old(invitations)[digest(invitation)];
                kept.route == route && now <= kept.expiresAt && (route in old(routes) ==> old(routes)[route].generation < U64_MAX) ==> r.Some?
      ensures r.Some? ==> routes[route].generation == if route in old(routes) then old(routes)[route].generation + 1 else 1
      ensures r.Some? ==> routes[route].name == if route in old(routes) then old(routes)[route].name else None
      ensures r.Some? ==> pairings == old(pairings) + [Pairing(invitation, route)] && issued == old(issued) + {token}
      ensures r.Some? && route in old(routes) ==> !Held(old(holders)[route])
      ensures invitations == if ValidRouteId(route) && ValidToken(invitation) then old(invitations) - {digest(invitation)} else old(invitations)
    {
      if !ValidRouteId(route) || !ValidToken(invitation) { return None; }
      var record := Claim(invitation);
      if record.None? { return None; }
      if dies || record.value.route != route || record.value.expiresAt < now { return None; }
      if route in routes && routes[route].generation >= U64_MAX { return None; }
      var generation := if route in routes then routes[route].generation + 1 else 1;
      var name := if route in routes then routes[route].name else None;
      Answer(route, token, Route(digest(token), generation, name), invitation);
      return Some(Response(route, token, generation));
    }

    /** The route answers to the new token from now on. */
    ghost method Note(route: string, token: string, invitation: string)
      modifies this`issued, this`holders, this`pairings
      ensures issued == old(issued) + {token} && holders == old(holders)[route := token]
      ensures pairings == old(pairings) + [Pairing(invitation, route)]
    {
      issued, holders, pairings := issued + {token}, holders[route := token], pairings + [Pairing(invitation, route)];
    }

    method Answer(route: string, token: string, record: Route, invitation: string)
      requires Valid() && ValidRouteId(route) && ValidToken(token) && token !in issued && record.tokenHash == digest(token)
      requires invitation in issued && digest(invitation) !in invitations
      requires forall i :: 0 <= i < |pairings| ==> pairings[i].invitation != invitation
      modifies this
      ensures Valid() && NothingRevives() && routes == old(routes)[route := record] && invitations == old(invitations)
      ensures pairings == old(pairings) + [Pairing(invitation, route)] && issued == old(issued) + {token}
      ensures route in old(routes) ==> !Held(old(holders)[route])
    {
      routes := routes[route := record];
      Note(route, token, invitation);
      forall d | d in invitations ensures Unspent(d) {
        assert old(Unspent(d));
        var t :| t in old(issued) && digest(t) == d;
        assert t in issued;
      }
      forall t | t in old(issued) && Held(t) ensures old(Held(t)) && (route in old(routes) ==> t != old(holders)[route]) {
        var r :| r in routes && routes[r].tokenHash == digest(t);
        assert r != route;
        assert r in old(routes) && old(routes)[r].tokenHash == digest(t);
      }
    }

    /** An independent route after local approval; the generated id must not exist yet. */
    method Register(route: string, token: string, name: string) returns (r: Option<Response>)
      requires Valid() && ValidRouteId(route) && ValidToken(token) && token !in issued
      modifies this
      ensures Valid() && NothingRevives() && OthersStay(route) && invitations == old(invitations) && pairings == old(pairings) && issued <= old(issued) + {token}
      ensures r.Some? <==> ValidLabel(name) && route !in old(routes)
      ensures r.None? ==> routes == old(routes)
      ensures r.Some? ==> r.value == Response(route, token, 1) && IsCurrent(Session(route, token, 1)) && routes[route].name == Some(name)
    {
      if !ValidLabel(name) || route in routes { return None; }
      routes := routes[route := Route(digest(token), 1, Some(name))];
      issued, holders := issued + {token}, holders[route := token];
      forall d | d in invitations ensures Unspent(d) {
        assert old(Unspent(d));
        var t :| t in old(issued) && digest(t) == d;
        assert t in issued;
      }
      forall t | t in old(issued) && Held(t) ensures old(Held(t)) {
        var q :| q in routes && routes[q].tokenHash == digest(t);
        assert q != route && q in old(routes) && old(routes)[q].tokenHash == digest(t);
      }
      return Some(Response(route, token, 1));
    }

    /** `None` refuses a malformed route id. */
    method Revoke(route: string) returns (removed: Option<bool>)
      requires Valid()
      modifies this
      ensures Valid() && NothingRevives() && OthersStay(route) && invitations == old(invitations) && pairings == old(pairings) && issued == old(issued)
      ensures removed == if ValidRouteId(route) then Some(route in old(routes)) else None
      ensures routes == if removed == Some(true) then old(routes) - {route} else old(routes)
      ensures removed == Some(true) ==> !Held(old(holders)[route])
    {
      if !ValidRouteId(route) { return None; }
      if route !in routes { return Some(false); }
      routes := routes - {route};
      holders := holders - {route};
      forall d | d in invitations ensures Unspent(d) { assert old(Unspent(d)); }
      forall t | Held(t) ensures old(Held(t)) && t != old(holders)[route] {
        var q :| q in routes && routes[q].tokenHash == digest(t);
        assert q in old(routes) && old(routes)[q].tokenHash == digest(t) && old(routes)[q].tokenHash == digest(old(holders)[q]);
      }
      return Some(true);
    }

    /** Renaming keeps every credential; `None` refuses a malformed route id or name. */
    method Rename(route: string, name: string) returns (found: Option<bool>)
      requires Valid()
      modifies this`routes
      ensures Valid() && NothingRevives() && OthersStay(route) && invitations == old(invitations) && pairings == old(pairings) && issued == old(issued)
      ensures found == if ValidRouteId(route) && ValidLabel(name) then Some(route in old(routes)) else None
      ensures routes == if found == Some(true) then old(routes)[route := old(routes)[route].(name := Some(name))] else old(routes)
      ensures forall s: Session :: old(IsCurrent(s)) <==> IsCurrent(s)
    {
      if !ValidRouteId(route) || !ValidLabel(name) { return None; }
      if route !in routes { return Some(false); }
      routes := routes[route := routes[route].(name := Some(name))];
      forall d | d in invitations ensures Unspent(d) { assert old(Unspent(d)); }
      forall t | Held(t) ensures old(Held(t)) {
        var q :| q in routes && routes[q].tokenHash == digest(t);
        assert q in old(routes) && old(routes)[q].tokenHash == digest(t);
      }
      return Some(true);
    }
  }

  /** An invitation for a new route pairs up to five minutes after it was made, and not a second longer. */
  method InviteThenPair(registry: Registry, id: string, invitation: string, token: string, now: nat, later: nat)
    returns (r: Option<Response>)
    requires registry.Valid() && ValidRouteId(id) && id !in registry.routes
    requires ValidToken(invitation) && invitation !in registry.issued && ValidToken(token) && token !in registry.issued && token != invitation
    modifies registry
    ensures registry.Valid() && (r.Some? <==> later <= now + 300)
    ensures r.Some? ==> r.value == Response(id, token, 1) && registry.IsCurrent(Session(id, token, 1)) && registry.routes[id].name == None
  {
    var made := registry.CreateInvitation(None, id, invitation, now);
    assert made == Some(Invitation(id, now + 300));
    r := registry.Pair(id, invitation, token, later, false);
  }

  // --- What texts pass ---

  /** Route ids are 64 lower-case hexadecimal digits. */
  lemma {:induction false} RouteIdsAreHex(value: string)
    ensures ValidRouteId(value) <==> |value| == 64 && forall i :: 0 <= i < |value| ==> value[i] in "0123456789abcdef"
  {
    if ValidRouteId(value) {
      forall i | 0 <= i < |value| ensures value[i] in "0123456789abcdef" { assert value[i] in value; HexDigit(value[i]); }
    }
    if forall i :: 0 <= i < |value| ==> value[i] in "0123456789abcdef" {
      forall c | c in value ensures '0' <= c <= '9' || 'a' <= c <= 'f' {
        var i :| 0 <= i < |value| && value[i] == c;
        HexDigit(value[i]);
      }
    }
  }

  lemma {:induction false} HexDigit(c: char)
    ensures '0' <= c <= '9' || 'a' <= c <= 'f' <==> c in "0123456789abcdef"
  {
    var digits := "0123456789abcdef";
    if '0' <= c <= '9' { assert digits[c as int - '0' as int] == c; }
    if 'a' <= c <= 'f' { assert digits[10 + (c as int - 'a' as int)] == c; }
  }

  /** Tokens of letters and digits pass exactly with 32 to 512 bytes; a blank or a control character never passes. */
  lemma {:induction false} TokensHaveBounds(value: string)
    ensures (forall c :: c in value ==> 'a' <= c <= 'z' || 'A' <= c <= 'Z' || '0' <= c <= '9' || c == '-' || c == '_') ==>
              (ValidToken(value) <==> 32 <= |value| <= 512)
    ensures (exists c :: c in value && (c == ' ' || c == '\n' || c == '\t' || c as int < 32 || c as int == 127)) ==> !ValidToken(value)
  {
    if ValidToken(value) { assert forall c :: c in value ==> 32 < c as int && c as int != 127; }
  }

  /** Names in printable ASCII pass exactly with 1 to 80 characters, not all of them blank. */
  lemma {:induction false} PlainNamesHaveBounds(value: string)
    requires forall c :: c in value ==> 32 <= c as int < 127
    ensures ValidLabel(value) <==> |value| <= 80 && exists c :: c in value && c != ' '
  {
    PlainUnits(value);
    if c :| c in value && c != ' ' { assert !WhiteSpace(c); }
    if c :| c in value && !WhiteSpace(c) { assert c != ' '; }
  }

  lemma {:induction false} PlainUnits(value: string)
    requires forall c :: c in value ==> c as int < 0x1_0000
    ensures Utf16Units(value) == |value|
  {
    if value != "" {
      assert value[0] in value;
      forall c | c in value[1..] ensures c in value { var i :| 0 <= i < |value[1..]| && value[1..][i] == c; }
      PlainUnits(value[1..]);
    }
  }

  /** A character outside the first plane counts twice. */
  lemma {:induction false} WideCharactersCountTwice(value: string)
    requires forall c :: c in value ==> c as int >= 0x1_0000
    ensures Utf16Units(value) == 2 * |value|
  {
    if value != "" {
      assert value[0] in value;
      forall c | c in value[1..] ensures c in value { var i :| 0 <= i < |value[1..]| && value[1..][i] == c; }
      WideCharactersCountTwice(value[1..]);
    }
  }

  /** Line breaks, control characters and the marks that turn the direction of text never pass. */
  lemma {:induction false} NoControlInNames(value: string, c: char)
    requires c in value
    requires c == '\n' || c == '\r' || c == '\t' || c as int == 127 || c as int == 0x85 || c as int == 0x2028 || c as int == 0x202E || c as int == 0x2066
    ensures !ValidLabel(value)
  {
    assert Unsafe(c);
  }

  // --- Every run ---

  datatype Action =
    | Invites(rotate: Option<string>, now: nat)
    | Pairs(route: string, invitation: string, now: nat, dies: bool)
    | Registers(name: string)
    | Revokes(route: string)
    | Renames(route: string, name: string)

  /** A source of tokens and route ids that never repeats itself. */
  ghost predicate Fresh(tokens: nat -> string, ids: nat -> string) {
    && (forall n :: ValidToken(tokens(n)) && ValidRouteId(ids(n)))
    && (forall m, n :: tokens(m) == tokens(n) ==> m == n)
  }

  ghost predicate Generated(issued: set<string>, tokens: nat -> string, n: nat) {
    forall t :: t in issued ==> exists m :: 0 <= m < n && tokens(m) == t
  }

  method Step(registry: Registry, action: Action, token: string, id: string)
    requires registry.Valid() && ValidToken(token) && token !in registry.issued && ValidRouteId(id)
    modifies registry
    ensures registry.Valid() && registry.NothingRevives() && old(registry.pairings) <= registry.pairings
    ensures registry.issued <= old(registry.issued) + {token}
  {
    match action
    case Invites(rotate, now) => if id !in registry.routes { var r := registry.CreateInvitation(rotate, id, token, now); }
    case Pairs(route, invitation, now, dies) => var r := registry.Pair(route, invitation, token, now, dies);
    case Registers(name) => var r := registry.Register(id, token, name);
    case Revokes(route) => var r := registry.Revoke(route);
    case Renames(route, name) => var r := registry.Rename(route, name);
  }

  /**
   Any run. Whatever token had been issued and had lost its route at its beginning is dead for good:
   a stale session never becomes current again.
   */
  method Play(registry: Registry, actions: seq<Action>, tokens: nat -> string, ids: nat -> string, start: nat)
    requires registry.Valid() && Fresh(tokens, ids) && Generated(registry.issued, tokens, start)
    modifies registry
    ensures registry.Valid() && registry.NothingRevives() && old(registry.pairings) <= registry.pairings
    ensures forall s: Session :: s.token in old(registry.issued) && !old(registry.Held(s.token)) ==> !registry.IsCurrent(s)
  {
    for n := 0 to |actions|
      invariant registry.Valid() && registry.NothingRevives() && old(registry.pairings) <= registry.pairings
      invariant Generated(registry.issued, tokens, start + n)
    {
      ghost var before := registry.issued;
      assert tokens(start + n) !in before;
      Step(registry, actions[n], tokens(start + n), ids(start + n));
      StillGenerated(before, registry.issued, tokens, start + n);
    }
    forall s: Session | s.token in old(registry.issued) && !old(registry.Held(s.token)) ensures !registry.IsCurrent(s) {
      UnheldIsStale(registry, s);
    }
  }

  /** A session current before holds the token its route answered to. */
  lemma {:induction false} CurrentIsHolder(registry: Registry, session: Session)
    requires registry.Valid() && registry.IsCurrent(session)
    ensures session.route in registry.routes && session.token == registry.holders[session.route] && session.token in registry.issued
  {
  }

  /** A revoked route's sessions stay stale whatever happens afterwards, even if the same route id is granted again. */
  method RevokedForGood(registry: Registry, route: string, actions: seq<Action>, tokens: nat -> string,
          ids: nat -> string, start: nat)
    requires registry.Valid() && ValidRouteId(route) && Fresh(tokens, ids) && Generated(registry.issued, tokens, start)
    modifies registry
    ensures registry.Valid()
    ensures forall s: Session :: s.route == route && old(registry.IsCurrent(s)) ==> !registry.IsCurrent(s)
  {
    forall s: Session | s.route == route && registry.IsCurrent(s)
      ensures route in registry.routes && s.token == registry.holders[route] && s.token in registry.issued
    {
      CurrentIsHolder(registry, s);
    }
    var removed := registry.Revoke(route);
    Play(registry, actions, tokens, ids, start);
  }

  /** So do the sessions of a route whose token a pairing has rotated. */
  method RotatedForGood(registry: Registry, route: string, invitation: string, now: nat, actions: seq<Action>,
          tokens: nat -> string, ids: nat -> string, start: nat)
    returns (r: Option<Response>)
    requires registry.Valid() && Fresh(tokens, ids) && Generated(registry.issued, tokens, start)
    modifies registry
    ensures registry.Valid() && (r.Some? <==> ValidRouteId(route) && ValidToken(invitation) && old(registry.Redeemable(route, invitation, now)))
    ensures r.Some? ==> forall s: Session :: s.route == route && old(registry.IsCurrent(s)) ==> !registry.IsCurrent(s)
  {
    forall s: Session | s.route == route && registry.IsCurrent(s)
      ensures route in registry.routes && s.token == registry.holders[route] && s.token in registry.issued
    {
      CurrentIsHolder(registry, s);
    }
    ghost var before := registry.issued;
    assert tokens(start) !in before;
    r := registry.Pair(route, invitation, tokens(start), now, false);
    StillGenerated(before, registry.issued, tokens, start);
    Play(registry, actions, tokens, ids, start + 1);
  }

  lemma {:induction false} StillGenerated(before: set<string>, after: set<string>, tokens: nat -> string, n: nat)
    requires Generated(before, tokens, n) && after <= before + {tokens(n)}
    ensures Generated(after, tokens, n + 1)
  {
    forall t | t in after ensures exists m :: 0 <= m < n + 1 && tokens(m) == t {
      if t in before {
        var m :| 0 <= m < n && tokens(m) == t;
        assert tokens(m) == t;
      } else {
        assert tokens(n) == t;
      }
    }
  }

  /** At most one token authorizes a route. */
  lemma {:induction false} OneTokenPerRoute(registry: Registry, route: string, a: string, b: string)
    requires registry.Valid() && registry.Authorize(route, a).Some? && registry.Authorize(route, b).Some?
    ensures a == b && a == registry.holders[route]
  {
    assert registry.digest(a) == registry.digest(b) == registry.digest(registry.holders[route]);
  }

  /** A token opens one route only. */
  lemma {:induction false} OneRoutePerToken(registry: Registry, a: string, b: string, token: string)
    requires registry.Valid() && registry.Authorize(a, token).Some? && registry.Authorize(b, token).Some?
    ensures a == b
  {
    assert registry.digest(token) == registry.digest(registry.holders[a]) == registry.digest(registry.holders[b]);
  }

  /** A session whose token has lost its route is not current on any route, in any generation. */
  lemma {:induction false} UnheldIsStale(registry: Registry, session: Session)
    requires !registry.Held(session.token)
    ensures !registry.IsCurrent(session)
  {
  }
}
