/**
 The relay's ticket rendezvous: replaceable control connections, phone requests that wait for the
 Companion to attach with their ticket, and the two semaphores. `Relay` changes its tables in place,
 one atomic step per method; the steps are specified on the value of those tables.
 */
module Rendezvous {
  import opened Wrappers

  /** Streams per control connection. */
  const STREAMS: nat := 64
  /** Permits of the whole relay. */
  const CAPACITY: nat := 512

  /** A control connection; `serving` from its registration to the end of its guard. */
  datatype Control = Control(route: string, serving: bool, cancelled: bool, over: bool, free: nat, streams: set<nat>)

  datatype Stage = Waiting | Bridging | Closed

  /** A phone's request: the connection it was opened on, its ticket, and the attachment that reached it. */
  datatype Request = Request(route: string, conn: nat, ticket: nat, stage: Stage, stream: Option<nat>)

  datatype Pending = Pending(route: string, request: nat)

  /** A Companion's attachment that took a ticket out; `over` once its socket was handed on or lost. */
  datatype Attachment = Attachment(route: string, ticket: nat, request: nat, over: bool)

  /** Who holds a permit of the relay. */
  datatype Holder = ControlHold(conn: nat) | RequestHold(request: nat) | AttachHold(attachment: nat) | EnrollHold(socket: nat)

  datatype Delivery = Delivery(ticket: nat, request: nat, attachment: nat)

  datatype State = State(
    upstreams: map<string, nat>,
    controls: map<nat, Control>,
    pending: map<nat, Pending>,
    requests: map<nat, Request>,
    attachments: map<nat, Attachment>,
    enrolling: set<nat>,
    free: nat,
    held: set<Holder>,
    delivered: seq<Delivery>
  )

  const IDLE := State(map[], map[], map[], map[], map[], {}, CAPACITY, {}, [])

  // --- The invariant ---

  predicate Live(s: State, h: Holder) {
    match h
    case ControlHold(c) => c in s.controls && !s.controls[c].over
    case RequestHold(r) => r in s.requests && s.requests[r].stage != Closed
    case AttachHold(a) => a in s.attachments && !s.attachments[a].over
    case EnrollHold(e) => e in s.enrolling
  }

  /** Available and held permits add up, and every live party holds exactly one. */
  ghost predicate PermitsOk(s: State) {
    s.free + |s.held| == CAPACITY && forall h: Holder :: h in s.held <==> Live(s, h)
  }

  predicate Streams(s: State, c: nat, r: nat) {
    r in s.requests && s.requests[r].conn == c && s.requests[r].stage != Closed
  }

  /** The same on one control connection. */
  ghost predicate ControlOk(s: State, c: nat)
    requires c in s.controls
  {
    var x := s.controls[c];
    && x.free + |x.streams| == STREAMS
    && (forall r: nat :: r in x.streams <==> Streams(s, c, r))
    && (x.over ==> !x.serving)
  }

  ghost predicate ControlsOk(s: State) {
    forall c :: c in s.controls ==> ControlOk(s, c)
  }

  /** The upstream of a route serves it; a connection that serves and was not cancelled is its route's upstream. */
  ghost predicate UpstreamsOk(s: State) {
    && (forall route :: route in s.upstreams ==> Serves(s, route))
    && (forall c :: c in s.controls ==> StillRegistered(s, c))
  }

  predicate Serves(s: State, route: string)
    requires route in s.upstreams
  {
    var c := s.upstreams[route];
    c in s.controls && s.controls[c].route == route && s.controls[c].serving
  }

  predicate StillRegistered(s: State, c: nat)
    requires c in s.controls
  {
    var x := s.controls[c];
    x.serving && !x.cancelled ==> x.route in s.upstreams && s.upstreams[x.route] == c
  }

  /** A pending ticket belongs to a request that still waits for it, on the same route. */
  predicate PendingOk(s: State, t: nat)
    requires t in s.pending
  {
    var p := s.pending[t];
    && p.request in s.requests && s.requests[p.request].ticket == t && s.requests[p.request].route == p.route
    && s.requests[p.request].stage == Waiting && s.requests[p.request].stream.None?
  }

  predicate RequestOk(s: State, r: nat)
    requires r in s.requests
  {
    var x := s.requests[r];
    && x.conn in s.controls && s.controls[x.conn].route == x.route
    && (x.stage == Bridging ==> x.stream.Some?)
    && (x.stream.Some? ==> x.stream.value in s.attachments && s.attachments[x.stream.value].request == r && s.attachments[x.stream.value].over)
  }

  predicate AttachmentOk(s: State, a: nat)
    requires a in s.attachments
  {
    var x := s.attachments[a];
    && x.ticket !in s.pending
    && x.request in s.requests && s.requests[x.request].ticket == x.ticket && s.requests[x.request].route == x.route
    && (s.requests[x.request].stream.Some? ==> x.over)
  }

  ghost predicate PendingsOk(s: State) {
    forall t :: t in s.pending ==> PendingOk(s, t)
  }

  ghost predicate RequestsOk(s: State) {
    forall r :: r in s.requests ==> RequestOk(s, r)
  }

  ghost predicate AttachmentsOk(s: State) {
    forall a :: a in s.attachments ==> AttachmentOk(s, a)
  }

  /** A ticket names one request, and is taken out by one attachment. */
  ghost predicate TicketsDistinct(s: State) {
    && (forall r, q {:trigger RequestsApart(s, r, q)} :: r in s.requests && q in s.requests ==> RequestsApart(s, r, q))
    && (forall a, b {:trigger AttachmentsApart(s, a, b)} :: a in s.attachments && b in s.attachments ==> AttachmentsApart(s, a, b))
  }

  predicate RequestsApart(s: State, r: nat, q: nat)
    requires r in s.requests && q in s.requests
  {
    r != q ==> s.requests[r].ticket != s.requests[q].ticket
  }

  predicate AttachmentsApart(s: State, a: nat, b: nat)
    requires a in s.attachments && b in s.attachments
  {
    a != b ==> s.attachments[a].ticket != s.attachments[b].ticket
  }

  predicate DeliveryOk(s: State, d: Delivery) {
    && d.request in s.requests && s.requests[d.request].ticket == d.ticket && s.requests[d.request].stream == Some(d.attachment)
    && d.attachment in s.attachments && s.attachments[d.attachment].route == s.requests[d.request].route
  }

  ghost predicate DeliveriesOk(s: State) {
    && (forall i :: 0 <= i < |s.delivered| ==> DeliveryOk(s, s.delivered[i]))
    && (forall i, j :: 0 <= i < j < |s.delivered| ==> s.delivered[i].ticket != s.delivered[j].ticket)
  }

  ghost predicate Valid(s: State) {
    PermitsOk(s) && ControlsOk(s) && UpstreamsOk(s) && PendingsOk(s) && RequestsOk(s) && AttachmentsOk(s) && TicketsDistinct(s) && DeliveriesOk(s)
  }

  // --- The steps, on values ---

  function Accepted(s: State, c: nat, route: string): (s': State)
    requires s.free > 0
  {
    s.(controls := s.controls[c := Control(route, false, false, false, STREAMS, {})], free := s.free - 1, held := s.held + {ControlHold(c)})
  }

  /** Registration replaces: the former upstream of the route is cancelled, not removed. */
  function Registered(s: State, c: nat): (s': State)
    requires c in s.controls
  {
    var route := s.controls[c].route;
    var controls :=
      if route in s.upstreams && s.upstreams[route] in s.controls
      then s.controls[s.upstreams[route] := s.controls[s.upstreams[route]].(cancelled := true)]
      else s.controls;
    s.(controls := controls[c := s.controls[c].(serving := true)], upstreams := s.upstreams[route := c])
  }

  predicate IsUpstream(s: State, c: nat)
    requires c in s.controls
  {
    s.controls[c].route in s.upstreams && s.upstreams[s.controls[c].route] == c
  }

  /** The end of a control connection: it leaves the table only if the entry is still its own. */
  function Ended(s: State, c: nat): (s': State)
    requires c in s.controls
  {
    var x := s.controls[c];
    s.(upstreams := if IsUpstream(s, c) then s.upstreams - {x.route} else s.upstreams,
       controls := s.controls[c := x.(serving := false, cancelled := true, over := true)],
       free := s.free + 1, held := s.held - {ControlHold(c)})
  }

  function RouteCancelled(s: State, route: string): (s': State) {
    if route in s.upstreams && s.upstreams[route] in s.controls
    then s.(controls := s.controls[s.upstreams[route] := s.controls[s.upstreams[route]].(cancelled := true)])
    else s
  }

  predicate CanOpen(s: State, route: string) {
    s.free > 0 && route in s.upstreams && s.upstreams[route] in s.controls && s.controls[s.upstreams[route]].free > 0
  }

  /** A phone's request takes both permits and files its ticket. */
  function Opened(s: State, r: nat, route: string, ticket: nat): (s': State)
    requires CanOpen(s, route)
  {
    var c := s.upstreams[route];
    var x := s.controls[c];
    s.(controls := s.controls[c := x.(free := x.free - 1, streams := x.streams + {r})],
       pending := s.pending[ticket := Pending(route, r)],
       requests := s.requests[r := Request(route, c, ticket, Waiting, None)],
       free := s.free - 1, held := s.held + {RequestHold(r)})
  }

  predicate CanAttach(s: State, route: string, ticket: nat) {
    s.free > 0 && ticket in s.pending && s.pending[ticket].route == route
  }

  /** An attachment takes the ticket out, only on the ticket's own route. */
  function Attached(s: State, a: nat, route: string, ticket: nat): (s': State)
    requires CanAttach(s, route, ticket)
  {
    s.(attachments := s.attachments[a := Attachment(route, ticket, s.pending[ticket].request, false)],
       pending := s.pending - {ticket},
       free := s.free - 1, held := s.held + {AttachHold(a)})
  }

  /** An attachment without a socket any more: its permit returns, and the ticket it took stays taken. */
  function Lost(s: State, a: nat): (s': State)
    requires a in s.attachments
  {
    s.(attachments := s.attachments[a := s.attachments[a].(over := true)], free := s.free + 1, held := s.held - {AttachHold(a)})
  }

  /** The socket reaches the request if that still waits; otherwise it is dropped. */
  function Handed(s: State, a: nat): (s': State)
    requires a in s.attachments && s.attachments[a].request in s.requests
  {
    var x := s.attachments[a];
    var request := s.requests[x.request];
    var done := Lost(s, a);
    if request.stage == Waiting
    then done.(requests := s.requests[x.request := request.(stream := Some(a))], delivered := s.delivered + [Delivery(x.ticket, x.request, a)])
    else done
  }

  /** A waiting request whose stream arrived starts bridging; its guard has nothing left to remove. */
  function Received(s: State, r: nat): (s': State)
    requires r in s.requests
  {
    s.(requests := s.requests[r := s.requests[r].(stage := Bridging)], pending := s.pending - {s.requests[r].ticket})
  }

  /** A request ends, waiting or bridging: its ticket is removed and both permits return. */
  function Finished(s: State, r: nat): (s': State)
    requires r in s.requests && s.requests[r].conn in s.controls
  {
    var x := s.requests[r];
    var control := s.controls[x.conn];
    s.(requests := s.requests[r := x.(stage := Closed)],
       controls := s.controls[x.conn := control.(free := control.free + 1, streams := control.streams - {r})],
       pending := s.pending - {x.ticket},
       free := s.free + 1, held := s.held - {RequestHold(r)})
  }

  /** An enrollment socket takes a permit of the relay, and gives it back when it closes. */
  function EnrollBegun(s: State, e: nat): (s': State)
    requires s.free > 0
  {
    s.(enrolling := s.enrolling + {e}, free := s.free - 1, held := s.held + {EnrollHold(e)})
  }

  function EnrollEnded(s: State, e: nat): (s': State) {
    s.(enrolling := s.enrolling - {e}, free := s.free + 1, held := s.held - {EnrollHold(e)})
  }

  // --- What a step leaves alone ---

  lemma {:induction false} PermitTaken(s: State, s': State, h: Holder)
    requires PermitsOk(s) && h !in s.held && s.free > 0 && s'.free == s.free - 1 && s'.held == s.held + {h}
    requires forall g: Holder :: Live(s', g) <==> Live(s, g) || g == h
    ensures PermitsOk(s')
  {
  }

  lemma {:induction false} PermitReturned(s: State, s': State, h: Holder)
    requires PermitsOk(s) && h in s.held && s'.free == s.free + 1 && s'.held == s.held - {h}
    requires forall g: Holder :: Live(s', g) <==> Live(s, g) && g != h
    ensures PermitsOk(s')
  {
  }

  lemma {:induction false} PermitsStay(s: State, s': State)
    requires PermitsOk(s) && s'.free == s.free && s'.held == s.held && forall g: Holder :: Live(s', g) <==> Live(s, g)
    ensures PermitsOk(s')
  {
  }

  /** No route of a control connection changed. */
  ghost predicate SameRoutes(s: State, s': State) {
    forall c :: c in s.controls ==> c in s'.controls && s'.controls[c].route == s.controls[c].route
  }

  lemma {:induction false} DistinctStays(s: State, s': State)
    requires TicketsDistinct(s) && s'.requests.Keys == s.requests.Keys && s'.attachments.Keys == s.attachments.Keys
    requires forall r :: r in s.requests ==> s'.requests[r].ticket == s.requests[r].ticket
    requires forall a :: a in s.attachments ==> s'.attachments[a].ticket == s.attachments[a].ticket
    ensures TicketsDistinct(s')
  {
    forall r, q | r in s'.requests && q in s'.requests ensures RequestsApart(s', r, q) { assert RequestsApart(s, r, q); }
    forall a, b | a in s'.attachments && b in s'.attachments ensures AttachmentsApart(s', a, b) { assert AttachmentsApart(s, a, b); }
  }

  /** Control connections come and go; tickets, requests and attachments stay. */
  lemma {:induction false} TicketsStay(s: State, s': State)
    requires PendingsOk(s) && RequestsOk(s) && AttachmentsOk(s) && TicketsDistinct(s) && DeliveriesOk(s) && SameRoutes(s, s')
    requires s'.pending == s.pending && s'.requests == s.requests && s'.attachments == s.attachments && s'.delivered == s.delivered
    ensures PendingsOk(s') && RequestsOk(s') && AttachmentsOk(s') && TicketsDistinct(s') && DeliveriesOk(s')
  {
    forall t | t in s'.pending ensures PendingOk(s', t) { assert PendingOk(s, t); }
    forall r | r in s'.requests ensures RequestOk(s', r) { assert RequestOk(s, r); }
    forall a | a in s'.attachments ensures AttachmentOk(s', a) { assert AttachmentOk(s, a); }
    forall i | 0 <= i < |s'.delivered| ensures DeliveryOk(s', s'.delivered[i]) { assert DeliveryOk(s, s.delivered[i]); }
    DistinctStays(s, s');
  }

  /** What a request keeps for good: its ticket, its route, and the stream once it has one. */
  ghost predicate Kept(s: State, s': State) {
    && (forall r :: r in s.requests ==> KeptRequest(s, s', r))
    && (forall a :: a in s.attachments ==> KeptAttachment(s, s', a))
  }

  predicate KeptRequest(s: State, s': State, r: nat)
    requires r in s.requests
  {
    && r in s'.requests && s'.requests[r].ticket == s.requests[r].ticket && s'.requests[r].route == s.requests[r].route
    && s'.requests[r].conn == s.requests[r].conn
    && (s.requests[r].stream.Some? ==> s'.requests[r].stream == s.requests[r].stream)
  }

  predicate KeptAttachment(s: State, s': State, a: nat)
    requires a in s.attachments
  {
    && a in s'.attachments && s'.attachments[a].route == s.attachments[a].route && s'.attachments[a].request == s.attachments[a].request
    && s'.attachments[a].ticket == s.attachments[a].ticket && (s.attachments[a].over ==> s'.attachments[a].over)
  }

  lemma {:induction false} DeliveriesStay(s: State, s': State)
    requires DeliveriesOk(s) && Kept(s, s') && s'.delivered == s.delivered
    ensures DeliveriesOk(s')
  {
    forall i | 0 <= i < |s'.delivered| ensures DeliveryOk(s', s'.delivered[i]) { DeliveryStays(s, s', s.delivered[i]); }
  }

  lemma {:induction false} DeliveryStays(s: State, s': State, d: Delivery)
    requires DeliveryOk(s, d) && Kept(s, s')
    ensures DeliveryOk(s', d)
  {
    assert KeptRequest(s, s', d.request) && KeptAttachment(s, s', d.attachment);
  }

  ghost predicate SameStreams(s: State, s': State) {
    forall c :: c in s'.controls ==> KeptStreams(s, s', c)
  }

  predicate KeptStreams(s: State, s': State, c: nat)
    requires c in s'.controls
  {
    && c in s.controls && s'.controls[c].free == s.controls[c].free && s'.controls[c].streams == s.controls[c].streams
    && (s'.controls[c].over ==> !s'.controls[c].serving)
  }

  lemma {:induction false} ControlsStay(s: State, s': State)
    requires ControlsOk(s) && SameStreams(s, s') && forall c, r: nat :: Streams(s', c, r) <==> Streams(s, c, r)
    ensures ControlsOk(s')
  {
    forall c | c in s'.controls ensures ControlOk(s', c) {
      assert KeptStreams(s, s', c) && ControlOk(s, c);
    }
  }

  lemma {:induction false} StreamsThemselves(s: State, s': State)
    requires ControlsOk(s) && s'.controls == s.controls
    ensures SameStreams(s, s')
  {
    forall c | c in s'.controls ensures KeptStreams(s, s', c) { assert ControlOk(s, c); }
  }

  lemma {:induction false} UpstreamsStay(s: State, s': State)
    requires UpstreamsOk(s) && SameServing(s, s') && s'.upstreams == s.upstreams
    ensures UpstreamsOk(s')
  {
    forall route | route in s'.upstreams ensures Serves(s', route) { assert Serves(s, route) && KeptServing(s, s', s.upstreams[route]); }
    forall c | c in s'.controls ensures StillRegistered(s', c) { assert KeptServing(s, s', c) && StillRegistered(s, c); }
  }

  ghost predicate SameServing(s: State, s': State) {
    forall c :: c in s.controls || c in s'.controls ==> KeptServing(s, s', c)
  }

  predicate KeptServing(s: State, s': State, c: nat) {
    && c in s.controls && c in s'.controls && s'.controls[c].route == s.controls[c].route
    && s'.controls[c].serving == s.controls[c].serving && s'.controls[c].cancelled == s.controls[c].cancelled
  }

  // --- Control connections keep the invariant ---

  lemma {:induction false} AcceptKeeps(s: State, c: nat, route: string)
    requires Valid(s) && c !in s.controls && s.free > 0
    ensures Valid(Accepted(s, c, route))
  {
    var s' := Accepted(s, c, route);
    assert ControlHold(c) !in s.held;
    PermitTaken(s, s', ControlHold(c));
    AcceptControls(s, c, route);
    TicketsStay(s, s');
  }

  lemma {:induction false} AcceptControls(s: State, c: nat, route: string)
    requires ControlsOk(s) && UpstreamsOk(s) && RequestsOk(s) && c !in s.controls && s.free > 0
    ensures ControlsOk(Accepted(s, c, route)) && UpstreamsOk(Accepted(s, c, route))
  {
    var s' := Accepted(s, c, route);
    forall d | d in s'.controls ensures ControlOk(s', d) && StillRegistered(s', d) {
      if d != c {
        assert ControlOk(s, d) && StillRegistered(s, d);
        assert forall r: nat :: Streams(s', d, r) <==> Streams(s, d, r);
      } else {
        forall r: nat ensures !Streams(s', c, r) { if r in s.requests { assert RequestOk(s, r); } }
      }
    }
    forall x | x in s'.upstreams ensures Serves(s', x) { assert Serves(s, x); }
  }

  lemma {:induction false} RegisterUpstreams(s: State, c: nat)
    requires ControlsOk(s) && UpstreamsOk(s) && c in s.controls && !s.controls[c].serving && !s.controls[c].over
    ensures UpstreamsOk(Registered(s, c)) && SameStreams(s, Registered(s, c))
  {
    var s', route := Registered(s, c), s.controls[c].route;
    assert route in s.upstreams ==> Serves(s, route);
    forall x | x in s'.upstreams ensures Serves(s', x) { assert x != route ==> Serves(s, x); }
    forall d | d in s'.controls ensures StillRegistered(s', d) { assert StillRegistered(s, d); }
    forall d | d in s'.controls ensures KeptStreams(s, s', d) { assert ControlOk(s, d); }
  }

  lemma {:induction false} RegisterKeeps(s: State, c: nat)
    requires Valid(s) && c in s.controls && !s.controls[c].serving && !s.controls[c].over
    ensures Valid(Registered(s, c))
  {
    RegisterPermits(s, c);
    RegisterUpstreams(s, c);
    ControlsStay(s, Registered(s, c));
    TicketsStay(s, Registered(s, c));
  }

  lemma {:induction false} RegisterPermits(s: State, c: nat)
    requires PermitsOk(s) && c in s.controls
    ensures var s' := Registered(s, c);
            PermitsOk(s') && SameRoutes(s, s') && forall d, r: nat :: Streams(s', d, r) <==> Streams(s, d, r)
  {
    PermitsStay(s, Registered(s, c));
  }

  lemma {:induction false} EndUpstreams(s: State, c: nat)
    requires ControlsOk(s) && UpstreamsOk(s) && c in s.controls
    ensures UpstreamsOk(Ended(s, c)) && SameStreams(s, Ended(s, c))
  {
    var s' := Ended(s, c);
    forall x | x in s'.upstreams ensures Serves(s', x) { assert Serves(s, x); }
    forall d | d in s'.controls ensures StillRegistered(s', d) { assert StillRegistered(s, d); }
    forall d | d in s'.controls ensures KeptStreams(s, s', d) { assert ControlOk(s, d); }
  }

  lemma {:induction false} EndKeeps(s: State, c: nat)
    requires Valid(s) && c in s.controls && !s.controls[c].over
    ensures Valid(Ended(s, c))
  {
    var s' := Ended(s, c);
    assert Live(s, ControlHold(c));
    PermitReturned(s, s', ControlHold(c));
    EndUpstreams(s, c);
    ControlsStay(s, s');
    TicketsStay(s, s');
  }

  lemma {:induction false} CancelUpstreams(s: State, route: string)
    requires ControlsOk(s) && UpstreamsOk(s)
    ensures UpstreamsOk(RouteCancelled(s, route)) && SameStreams(s, RouteCancelled(s, route))
  {
    var s' := RouteCancelled(s, route);
    forall x | x in s'.upstreams ensures Serves(s', x) { assert Serves(s, x); }
    forall d | d in s'.controls ensures StillRegistered(s', d) { assert StillRegistered(s, d); }
    forall d | d in s'.controls ensures KeptStreams(s, s', d) { assert ControlOk(s, d); }
  }

  lemma {:induction false} CancelPermits(s: State, route: string)
    requires PermitsOk(s)
    ensures PermitsOk(RouteCancelled(s, route)) && SameRoutes(s, RouteCancelled(s, route))
  {
    PermitsStay(s, RouteCancelled(s, route));
  }

  lemma {:induction false} CancelControls(s: State, route: string)
    requires ControlsOk(s) && UpstreamsOk(s)
    ensures ControlsOk(RouteCancelled(s, route))
  {
    CancelUpstreams(s, route);
    ControlsStay(s, RouteCancelled(s, route));
  }

  lemma {:induction false} CancelKeeps(s: State, route: string)
    requires Valid(s)
    ensures Valid(RouteCancelled(s, route))
  {
    CancelPermits(s, route);
    CancelUpstreams(s, route);
    CancelControls(s, route);
    TicketsStay(s, RouteCancelled(s, route));
  }

  // --- Requests and attachments keep it ---

  /** Tickets and requests are named afresh. */
  predicate NewRequest(s: State, r: nat, ticket: nat) {
    r !in s.requests && ticket !in s.pending && (forall q :: q in s.requests ==> s.requests[q].ticket != ticket)
  }

  lemma {:induction false} OpenTickets(s: State, r: nat, route: string, ticket: nat)
    requires UpstreamsOk(s) && PendingsOk(s) && RequestsOk(s) && CanOpen(s, route) && NewRequest(s, r, ticket)
    ensures PendingsOk(Opened(s, r, route, ticket)) && RequestsOk(Opened(s, r, route, ticket))
  {
    var s' := Opened(s, r, route, ticket);
    assert Serves(s, route);
    forall t | t in s'.pending ensures PendingOk(s', t) { assert t != ticket ==> PendingOk(s, t); }
    forall q | q in s'.requests ensures RequestOk(s', q) { assert q != r ==> RequestOk(s, q); }
  }

  lemma {:induction false} OpenAttachments(s: State, r: nat, route: string, ticket: nat)
    requires AttachmentsOk(s) && TicketsDistinct(s) && DeliveriesOk(s) && CanOpen(s, route) && NewRequest(s, r, ticket)
    ensures var s' := Opened(s, r, route, ticket); AttachmentsOk(s') && TicketsDistinct(s') && DeliveriesOk(s')
  {
    var s' := Opened(s, r, route, ticket);
    forall a | a in s'.attachments ensures AttachmentOk(s', a) { assert AttachmentOk(s, a); }
    DeliveriesStay(s, s');
    OpenDistinct(s, r, route, ticket);
  }

  lemma {:induction false} OpenDistinct(s: State, r: nat, route: string, ticket: nat)
    requires TicketsDistinct(s) && CanOpen(s, route) && NewRequest(s, r, ticket)
    ensures TicketsDistinct(Opened(s, r, route, ticket))
  {
    var s' := Opened(s, r, route, ticket);
    forall p, q | p in s'.requests && q in s'.requests ensures RequestsApart(s', p, q) {
      if p != r && q != r { assert RequestsApart(s, p, q); }
    }
    forall a, b | a in s'.attachments && b in s'.attachments ensures AttachmentsApart(s', a, b) { assert AttachmentsApart(s, a, b); }
  }

  lemma {:induction false} OpenControls(s: State, r: nat, route: string, ticket: nat)
    requires ControlsOk(s) && CanOpen(s, route) && NewRequest(s, r, ticket)
    ensures ControlsOk(Opened(s, r, route, ticket)) && SameServing(s, Opened(s, r, route, ticket))
  {
    var s', c := Opened(s, r, route, ticket), s.upstreams[route];
    assert !Streams(s, c, r);
    assert forall d, q: nat :: Streams(s', d, q) <==> Streams(s, d, q) || (d == c && q == r);
    forall d | d in s'.controls ensures ControlOk(s', d) { assert ControlOk(s, d); }
  }

  lemma {:induction false} OpenPermits(s: State, r: nat, route: string, ticket: nat)
    requires PermitsOk(s) && CanOpen(s, route) && r !in s.requests
    ensures PermitsOk(Opened(s, r, route, ticket))
  {
    assert RequestHold(r) !in s.held;
    PermitTaken(s, Opened(s, r, route, ticket), RequestHold(r));
  }

  lemma {:induction false} OpenKeeps(s: State, r: nat, route: string, ticket: nat)
    requires Valid(s) && CanOpen(s, route) && NewRequest(s, r, ticket)
    ensures Valid(Opened(s, r, route, ticket))
  {
    OpenPermits(s, r, route, ticket);
    OpenControls(s, r, route, ticket);
    UpstreamsStay(s, Opened(s, r, route, ticket));
    OpenTickets(s, r, route, ticket);
    OpenAttachments(s, r, route, ticket);
  }

  lemma {:induction false} AttachTickets(s: State, a: nat, route: string, ticket: nat)
    requires PendingsOk(s) && RequestsOk(s) && TicketsDistinct(s) && CanAttach(s, route, ticket) && a !in s.attachments
    ensures var s' := Attached(s, a, route, ticket); PendingsOk(s') && RequestsOk(s')
  {
    var s' := Attached(s, a, route, ticket);
    forall t | t in s'.pending ensures PendingOk(s', t) { assert PendingOk(s, t); }
    forall q | q in s'.requests ensures RequestOk(s', q) { assert RequestOk(s, q); }
  }

  lemma {:induction false} AttachAttachments(s: State, a: nat, route: string, ticket: nat)
    requires PendingsOk(s) && AttachmentsOk(s) && TicketsDistinct(s) && DeliveriesOk(s) && CanAttach(s, route, ticket) && a !in s.attachments
    ensures var s' := Attached(s, a, route, ticket); AttachmentsOk(s') && TicketsDistinct(s') && DeliveriesOk(s')
  {
    var s' := Attached(s, a, route, ticket);
    assert PendingOk(s, ticket);
    forall b | b in s.attachments ensures s.attachments[b].ticket != ticket { assert AttachmentOk(s, b); }
    forall b | b in s'.attachments ensures AttachmentOk(s', b) { assert b != a ==> AttachmentOk(s, b); }
    DeliveriesStay(s, s');
    forall p, q | p in s'.requests && q in s'.requests ensures RequestsApart(s', p, q) { assert RequestsApart(s, p, q); }
    forall b, c | b in s'.attachments && c in s'.attachments ensures AttachmentsApart(s', b, c) {
      if b != a && c != a { assert AttachmentsApart(s, b, c); }
    }
  }

  lemma {:induction false} AttachPermits(s: State, a: nat, route: string, ticket: nat)
    requires PermitsOk(s) && CanAttach(s, route, ticket) && a !in s.attachments
    ensures PermitsOk(Attached(s, a, route, ticket))
  {
    assert AttachHold(a) !in s.held;
    PermitTaken(s, Attached(s, a, route, ticket), AttachHold(a));
  }

  /** The control connections and the upstream table are untouched, and every stream stays on its connection. */
  lemma {:induction false} ControlsThemselves(s: State, s': State)
    requires ControlsOk(s) && UpstreamsOk(s) && s'.controls == s.controls && s'.upstreams == s.upstreams
    requires forall c, r: nat :: Streams(s', c, r) <==> Streams(s, c, r)
    ensures ControlsOk(s') && UpstreamsOk(s')
  {
    StreamsThemselves(s, s');
    ControlsStay(s, s');
    UpstreamsStay(s, s');
  }

  lemma {:induction false} AttachKeeps(s: State, a: nat, route: string, ticket: nat)
    requires Valid(s) && CanAttach(s, route, ticket) && a !in s.attachments
    ensures Valid(Attached(s, a, route, ticket))
  {
    AttachPermits(s, a, route, ticket);
    ControlsThemselves(s, Attached(s, a, route, ticket));
    AttachTickets(s, a, route, ticket);
    AttachAttachments(s, a, route, ticket);
  }

  lemma {:induction false} HandTickets(s: State, a: nat)
    requires PendingsOk(s) && RequestsOk(s) && AttachmentsOk(s) && TicketsDistinct(s) && a in s.attachments && !s.attachments[a].over
    ensures s.attachments[a].request in s.requests
    ensures PendingsOk(Handed(s, a))
  {
    assert AttachmentOk(s, a);
    var s' := Handed(s, a);
    forall t | t in s'.pending ensures PendingOk(s', t) { assert PendingOk(s, t); }
  }

  lemma {:induction false} HandRequests(s: State, a: nat)
    requires RequestsOk(s) && AttachmentsOk(s) && TicketsDistinct(s) && a in s.attachments && !s.attachments[a].over
    requires s.attachments[a].request in s.requests
    ensures RequestsOk(Handed(s, a)) && Kept(s, Handed(s, a))
  {
    assert AttachmentOk(s, a);
    var s' := Handed(s, a);
    forall q | q in s'.requests ensures RequestOk(s', q) { assert RequestOk(s, q); }
  }

  lemma {:induction false} HandAttachments(s: State, a: nat)
    requires AttachmentsOk(s) && TicketsDistinct(s) && a in s.attachments && !s.attachments[a].over
    ensures s.attachments[a].request in s.requests
    ensures AttachmentsOk(Handed(s, a)) && TicketsDistinct(Handed(s, a))
  {
    assert AttachmentOk(s, a);
    var s' := Handed(s, a);
    forall b | b in s'.attachments ensures AttachmentOk(s', b) {
      assert AttachmentOk(s, b) && AttachmentsApart(s, a, b);
    }
    HandDistinct(s, a);
  }

  lemma {:induction false} HandDistinct(s: State, a: nat)
    requires TicketsDistinct(s) && a in s.attachments && s.attachments[a].request in s.requests
    ensures TicketsDistinct(Handed(s, a))
  {
    DistinctStays(s, Handed(s, a));
  }

  /** A hand-over delivers a ticket that was not delivered before. */
  lemma {:induction false} HandDelivers(s: State, a: nat)
    requires AttachmentsOk(s) && DeliveriesOk(s) && TicketsDistinct(s) && a in s.attachments && !s.attachments[a].over
    requires s.attachments[a].request in s.requests && Kept(s, Handed(s, a))
    ensures DeliveriesOk(Handed(s, a))
  {
    assert AttachmentOk(s, a);
    var s', x := Handed(s, a), s.attachments[a];
    forall i | 0 <= i < |s.delivered| ensures DeliveryOk(s', s.delivered[i]) && s.delivered[i].ticket != x.ticket {
      DeliveryStays(s, s', s.delivered[i]);
      assert RequestsApart(s, s.delivered[i].request, x.request);
    }
    forall i | 0 <= i < |s'.delivered| ensures DeliveryOk(s', s'.delivered[i]) { assert i < |s.delivered| ==> s'.delivered[i] == s.delivered[i]; }
  }

  lemma {:induction false} HandPermits(s: State, a: nat)
    requires PermitsOk(s) && a in s.attachments && !s.attachments[a].over && s.attachments[a].request in s.requests
    ensures PermitsOk(Handed(s, a))
  {
    assert Live(s, AttachHold(a));
    PermitReturned(s, Handed(s, a), AttachHold(a));
  }

  lemma {:induction false} HandControls(s: State, a: nat)
    requires ControlsOk(s) && UpstreamsOk(s) && a in s.attachments && s.attachments[a].request in s.requests
    ensures ControlsOk(Handed(s, a)) && UpstreamsOk(Handed(s, a))
  {
    assert forall c, r: nat :: Streams(Handed(s, a), c, r) <==> Streams(s, c, r);
    ControlsThemselves(s, Handed(s, a));
  }

  lemma {:induction false} HandKeeps(s: State, a: nat)
    requires Valid(s) && a in s.attachments && !s.attachments[a].over
    ensures s.attachments[a].request in s.requests && Valid(Handed(s, a))
  {
    HandTickets(s, a);
    HandRequests(s, a);
    HandAttachments(s, a);
    HandDelivers(s, a);
    HandPermits(s, a);
    HandControls(s, a);
  }

  lemma {:induction false} LoseTickets(s: State, a: nat)
    requires PendingsOk(s) && RequestsOk(s) && AttachmentsOk(s) && a in s.attachments && !s.attachments[a].over
    ensures PendingsOk(Lost(s, a)) && RequestsOk(Lost(s, a)) && AttachmentsOk(Lost(s, a)) && Kept(s, Lost(s, a))
  {
    var s' := Lost(s, a);
    forall t | t in s'.pending ensures PendingOk(s', t) { assert PendingOk(s, t); }
    forall q | q in s'.requests ensures RequestOk(s', q) { assert RequestOk(s, q); }
    forall b | b in s'.attachments ensures AttachmentOk(s', b) { assert AttachmentOk(s, b); }
  }

  lemma {:induction false} LoseKeeps(s: State, a: nat)
    requires Valid(s) && a in s.attachments && !s.attachments[a].over
    ensures Valid(Lost(s, a))
  {
    LoseTickets(s, a);
    LoseDistinct(s, a);
    DeliveriesStay(s, Lost(s, a));
    LosePermits(s, a);
    LoseControls(s, a);
  }

  lemma {:induction false} LoseDistinct(s: State, a: nat)
    requires TicketsDistinct(s) && a in s.attachments
    ensures TicketsDistinct(Lost(s, a))
  {
    DistinctStays(s, Lost(s, a));
  }

  lemma {:induction false} LosePermits(s: State, a: nat)
    requires PermitsOk(s) && a in s.attachments && !s.attachments[a].over
    ensures PermitsOk(Lost(s, a))
  {
    assert Live(s, AttachHold(a));
    PermitReturned(s, Lost(s, a), AttachHold(a));
  }

  lemma {:induction false} LoseControls(s: State, a: nat)
    requires ControlsOk(s) && UpstreamsOk(s) && a in s.attachments
    ensures ControlsOk(Lost(s, a)) && UpstreamsOk(Lost(s, a))
  {
    ControlsThemselves(s, Lost(s, a));
  }

  lemma {:induction false} ReceiveTickets(s: State, r: nat)
    requires PendingsOk(s) && RequestsOk(s) && AttachmentsOk(s) && TicketsDistinct(s) && DeliveriesOk(s)
    requires r in s.requests && s.requests[r].stage == Waiting && s.requests[r].stream.Some?
    ensures var s' := Received(s, r); PendingsOk(s') && RequestsOk(s') && AttachmentsOk(s') && TicketsDistinct(s') && DeliveriesOk(s')
  {
    var s' := Received(s, r);
    forall t | t in s'.pending ensures PendingOk(s', t) { assert PendingOk(s, t); }
    forall q | q in s'.requests ensures RequestOk(s', q) { assert RequestOk(s, q); }
    forall b | b in s'.attachments ensures AttachmentOk(s', b) { assert AttachmentOk(s, b); }
    DistinctStays(s, s');
    DeliveriesStay(s, s');
  }

  lemma {:induction false} ReceiveKeeps(s: State, r: nat)
    requires Valid(s) && r in s.requests && s.requests[r].stage == Waiting && s.requests[r].stream.Some?
    ensures Valid(Received(s, r))
  {
    PermitsStay(s, Received(s, r));
    ControlsThemselves(s, Received(s, r));
    ReceiveTickets(s, r);
  }

  lemma {:induction false} FinishTickets(s: State, r: nat)
    requires PendingsOk(s) && RequestsOk(s) && r in s.requests && s.requests[r].stage != Closed
    ensures s.requests[r].conn in s.controls
    ensures PendingsOk(Finished(s, r)) && RequestsOk(Finished(s, r))
  {
    assert RequestOk(s, r);
    var s' := Finished(s, r);
    forall t | t in s'.pending ensures PendingOk(s', t) { assert PendingOk(s, t); }
    forall q | q in s'.requests ensures RequestOk(s', q) { assert RequestOk(s, q); }
  }

  lemma {:induction false} FinishAttachments(s: State, r: nat)
    requires AttachmentsOk(s) && TicketsDistinct(s) && DeliveriesOk(s) && r in s.requests && s.requests[r].conn in s.controls
    ensures var s' := Finished(s, r); AttachmentsOk(s') && TicketsDistinct(s') && DeliveriesOk(s')
  {
    var s' := Finished(s, r);
    forall b | b in s'.attachments ensures AttachmentOk(s', b) { assert AttachmentOk(s, b); }
    DistinctStays(s, s');
    DeliveriesStay(s, s');
  }

  lemma {:induction false} FinishControls(s: State, r: nat)
    requires ControlsOk(s) && r in s.requests && s.requests[r].stage != Closed && s.requests[r].conn in s.controls
    ensures ControlsOk(Finished(s, r)) && SameServing(s, Finished(s, r))
  {
    var s', c := Finished(s, r), s.requests[r].conn;
    assert Streams(s, c, r);
    forall d | d in s'.controls ensures ControlOk(s', d) {
      assert ControlOk(s, d);
      assert forall q: nat :: Streams(s', d, q) <==> Streams(s, d, q) && q != r;
      assert d != c ==> !Streams(s, d, r);
    }
  }

  lemma {:induction false} FinishKeeps(s: State, r: nat)
    requires Valid(s) && r in s.requests && s.requests[r].stage != Closed
    ensures s.requests[r].conn in s.controls && Valid(Finished(s, r))
  {
    FinishTickets(s, r);
    FinishAttachments(s, r);
    FinishPermits(s, r);
    FinishControls(s, r);
    UpstreamsStay(s, Finished(s, r));
  }

  lemma {:induction false} FinishPermits(s: State, r: nat)
    requires PermitsOk(s) && r in s.requests && s.requests[r].stage != Closed && s.requests[r].conn in s.controls
    ensures PermitsOk(Finished(s, r))
  {
    assert Live(s, RequestHold(r));
    PermitReturned(s, Finished(s, r), RequestHold(r));
  }

  lemma {:induction false} EnrollKeeps(s: State, e: nat)
    requires Valid(s)
    ensures e !in s.enrolling && s.free > 0 ==> Valid(EnrollBegun(s, e))
    ensures e in s.enrolling ==> Valid(EnrollEnded(s, e))
  {
    if e !in s.enrolling && s.free > 0 {
      var s' := EnrollBegun(s, e);
      assert EnrollHold(e) !in s.held;
      PermitTaken(s, s', EnrollHold(e));
      ControlsThemselves(s, s');
      TicketsStay(s, s');
    }
    if e in s.enrolling {
      var s' := EnrollEnded(s, e);
      assert Live(s, EnrollHold(e));
      PermitReturned(s, s', EnrollHold(e));
      ControlsThemselves(s, s');
      TicketsStay(s, s');
    }
  }

  // --- The relay ---

  class Relay {
    var upstreams: map<string, nat>
    var controls: map<nat, Control>
    var pending: map<nat, Pending>
    var requests: map<nat, Request>
    var attachments: map<nat, Attachment>
    var enrolling: set<nat>
    var free: nat
    ghost var held: set<Holder>
    ghost var delivered: seq<Delivery>

    ghost function Now(): (s: State) reads this {
      State(upstreams, controls, pending, requests, attachments, enrolling, free, held, delivered)
    }

    constructor ()
      ensures Now() == IDLE && free == 512 && controls == map[] && requests == map[] && attachments == map[] && upstreams == map[]
    {
      upstreams, controls, pending, requests, attachments, enrolling := map[], map[], map[], map[], map[], {};
      free, held, delivered := CAPACITY, {}, [];
    }

    method AcceptControl(c: nat, route: string) returns (ok: bool)
      requires c !in controls
      modifies this
      ensures (ok <==> old(free) > 0) && Now() == if ok then Accepted(old(Now()), c, route) else old(Now())
      ensures ok ==> controls == old(controls)[c := Control(route, false, false, false, 64, {})] && free == old(free) - 1
      ensures unchanged(`upstreams, `pending, `requests, `attachments, `enrolling, `delivered)
    {
      if free == 0 { return false; }
      free, held := free - 1, held + {ControlHold(c)};
      controls := controls[c := Control(route, false, false, false, STREAMS, {})];
      return true;
    }

    method RegisterControl(c: nat)
      requires c in controls && !controls[c].serving && !controls[c].over
      modifies this
      ensures Now() == Registered(old(Now()), c)
      ensures upstreams == old(upstreams)[old(controls)[c].route := c] && controls.Keys == old(controls).Keys
      ensures controls[c] == old(controls)[c].(serving := true)
      ensures forall d :: d in controls && d != c ==>
                controls[d] == if old(controls)[c].route in old(upstreams) && old(upstreams)[old(controls)[c].route] == d
                               then old(controls)[d].(cancelled := true) else old(controls)[d]
      ensures unchanged(`pending, `requests, `attachments, `enrolling, `free, `delivered)
    {
      var control := controls[c];
      var replaced := if control.route in upstreams then Some(upstreams[control.route]) else None;
      upstreams := upstreams[control.route := c];
      if replaced.Some? && replaced.value in controls {
        controls := controls[replaced.value := controls[replaced.value].(cancelled := true)];
      }
      controls := controls[c := control.(serving := true)];
    }

    method EndControl(c: nat)
      requires c in controls && !controls[c].over
      modifies this
      ensures Now() == Ended(old(Now()), c)
      ensures controls == old(controls)[c := old(controls)[c].(serving := false, cancelled := true, over := true)] && free == old(free) + 1
      ensures forall r :: r in upstreams <==> r in old(upstreams) && !(r == old(controls)[c].route && old(upstreams)[r] == c)
      ensures forall r :: r in upstreams ==> upstreams[r] == old(upstreams)[r]
      ensures unchanged(`pending, `requests, `attachments, `enrolling, `delivered)
    {
      var control := controls[c];
      if control.route in upstreams && upstreams[control.route] == c {
        upstreams := upstreams - {control.route};
      }
      controls := controls[c := control.(serving := false, cancelled := true, over := true)];
      free, held := free + 1, held - {ControlHold(c)};
    }

    method CancelRoute(route: string)
      modifies this
      ensures Now() == RouteCancelled(old(Now()), route) && controls.Keys == old(controls).Keys
      ensures forall d :: d in controls ==>
                controls[d] == if route in old(upstreams) && old(upstreams)[route] == d then old(controls)[d].(cancelled := true) else old(controls)[d]
      ensures unchanged(`upstreams, `pending, `requests, `attachments, `enrolling, `free, `delivered)
    {
      if route in upstreams && upstreams[route] in controls {
        controls := controls[upstreams[route] := controls[upstreams[route]].(cancelled := true)];
      }
    }

    /** A phone asks for a stream; `queueFull` is the control connection's queue refusing the ticket. */
    method Open(r: nat, route: string, ticket: nat, queueFull: bool) returns (ok: bool)
      requires ticket !in pending
      modifies this
      ensures (ok <==> CanOpen(old(Now()), route) && !queueFull)
      ensures Now() == if ok then Opened(old(Now()), r, route, ticket) else old(Now())
      ensures ok <==> (!queueFull && old(free) > 0 && route in old(upstreams) && old(upstreams)[route] in old(controls)
                       && old(controls)[old(upstreams)[route]].free > 0)
      ensures ok ==>
                var c := old(upstreams)[route];
                && requests == old(requests)[r := Request(route, c, ticket, Waiting, None)] && pending == old(pending)[ticket := Pending(route, r)]
                && controls == old(controls)[c := old(controls)[c].(free := old(controls)[c].free - 1, streams := old(controls)[c].streams + {r})]
                && free == old(free) - 1
      ensures unchanged(`upstreams, `attachments, `enrolling, `delivered)
    {
      if free == 0 || route !in upstreams || upstreams[route] !in controls { return false; }
      var c := upstreams[route];
      if controls[c].free == 0 { return false; }
      if queueFull {
        // The ticket was filed before the queue refused it.
        ghost var before := pending;
        pending := pending[ticket := Pending(route, r)];
        pending := pending - {ticket};
        assert pending == before;
        return false;
      }
      free, held := free - 1, held + {RequestHold(r)};
      controls := controls[c := controls[c].(free := controls[c].free - 1, streams := controls[c].streams + {r})];
      pending := pending[ticket := Pending(route, r)];
      requests := requests[r := Request(route, c, ticket, Waiting, None)];
      return true;
    }

    method Attach(a: nat, route: string, ticket: nat) returns (ok: bool)
      requires a !in attachments
      modifies this
      ensures (ok <==> CanAttach(old(Now()), route, ticket))
      ensures Now() == if ok then Attached(old(Now()), a, route, ticket) else old(Now())
      ensures ok <==> old(free) > 0 && ticket in old(pending) && old(pending)[ticket].route == route
      ensures ok ==>
                && attachments == old(attachments)[a := Attachment(route, ticket, old(pending)[ticket].request, false)]
                && pending == old(pending) - {ticket} && free == old(free) - 1
      ensures unchanged(`upstreams, `controls, `requests, `enrolling, `delivered)
    {
      if free == 0 || ticket !in pending || pending[ticket].route != route { return false; }
      free, held := free - 1, held + {AttachHold(a)};
      attachments := attachments[a := Attachment(route, ticket, pending[ticket].request, false)];
      pending := pending - {ticket};
      return true;
    }

    /** The attachment hands its socket over; `ok` if the request still waited for it. */
    method Hand(a: nat) returns (ok: bool)
      requires a in attachments && attachments[a].request in requests
      modifies this
      ensures Now() == Handed(old(Now()), a)
      ensures ok <==> old(requests)[old(attachments)[a].request].stage == Waiting
      ensures ok ==>
                var x := old(attachments)[a];
                && requests == old(requests)[x.request := old(requests)[x.request].(stream := Some(a))]
                && delivered == old(delivered) + [Delivery(x.ticket, x.request, a)]
      ensures !ok ==> requests == old(requests) && delivered == old(delivered)
      ensures attachments == old(attachments)[a := old(attachments)[a].(over := true)] && free == old(free) + 1
      ensures unchanged(`upstreams, `controls, `pending, `enrolling)
    {
      var x := attachments[a];
      attachments := attachments[a := x.(over := true)];
      free, held := free + 1, held - {AttachHold(a)};
      if requests[x.request].stage != Waiting { return false; }
      requests := requests[x.request := requests[x.request].(stream := Some(a))];
      delivered := delivered + [Delivery(x.ticket, x.request, a)];
      return true;
    }

    /** An upgrade that fails, or a socket that closes: nothing is handed over. */
    method Lose(a: nat)
      requires a in attachments
      modifies this
      ensures Now() == Lost(old(Now()), a)
      ensures attachments == old(attachments)[a := old(attachments)[a].(over := true)] && free == old(free) + 1
      ensures unchanged(`upstreams, `controls, `pending, `requests, `enrolling, `delivered)
    {
      attachments := attachments[a := attachments[a].(over := true)];
      free, held := free + 1, held - {AttachHold(a)};
    }

    method Receive(r: nat) returns (ok: bool)
      requires r in requests && requests[r].stage == Waiting
      modifies this
      ensures (ok <==> old(requests)[r].stream.Some?) && Now() == if ok then Received(old(Now()), r) else old(Now())
      ensures ok ==> requests == old(requests)[r := old(requests)[r].(stage := Bridging)] && pending == old(pending) - {old(requests)[r].ticket}
      ensures unchanged(`upstreams, `controls, `attachments, `enrolling, `free, `delivered)
    {
      if requests[r].stream.None? { return false; }
      pending := pending - {requests[r].ticket};
      requests := requests[r := requests[r].(stage := Bridging)];
      return true;
    }

    /** A request that waits is cancelled or times out, or one that bridges ends. */
    method Finish(r: nat)
      requires r in requests && requests[r].conn in controls
      modifies this
      ensures Now() == Finished(old(Now()), r)
      ensures requests == old(requests)[r := old(requests)[r].(stage := Closed)] && pending == old(pending) - {old(requests)[r].ticket}
      ensures var c := old(requests)[r].conn;
        controls == old(controls)[c := old(controls)[c].(free := old(controls)[c].free + 1, streams := old(controls)[c].streams - {r})]
      ensures free == old(free) + 1 && unchanged(`upstreams, `attachments, `enrolling, `delivered)
    {
      var x := requests[r];
      var control := controls[x.conn];
      pending := pending - {x.ticket};
      requests := requests[r := x.(stage := Closed)];
      controls := controls[x.conn := control.(free := control.free + 1, streams := control.streams - {r})];
      free, held := free + 1, held - {RequestHold(r)};
    }

    /** A socket for the open enrollment window, if there is one. */
    method BeginEnrollment(e: nat, windowOpen: bool) returns (ok: bool)
      modifies this
      ensures (ok <==> windowOpen && old(free) > 0) && Now() == if ok then EnrollBegun(old(Now()), e) else old(Now())
      ensures ok ==> enrolling == old(enrolling) + {e} && free == old(free) - 1
      ensures unchanged(`upstreams, `controls, `pending, `requests, `attachments, `delivered)
    {
      if !windowOpen || free == 0 { return false; }
      free, held, enrolling := free - 1, held + {EnrollHold(e)}, enrolling + {e};
      return true;
    }

    method EndEnrollment(e: nat)
      modifies this
      ensures Now() == EnrollEnded(old(Now()), e)
      ensures enrolling == old(enrolling) - {e} && free == old(free) + 1
      ensures unchanged(`upstreams, `controls, `pending, `requests, `attachments, `delivered)
    {
      free, held, enrolling := free + 1, held - {EnrollHold(e)}, enrolling - {e};
    }
  }

  // --- Every run ---

  /** One step of somebody; a step whose guard is not met does nothing. */
  datatype Action =
    | Accepts(c: nat, route: string)
    | Registers(c: nat)
    | Ends(c: nat)
    | Cancels(route: string)
    | Opens(r: nat, route: string, ticket: nat, queueFull: bool)
    | Attaches(a: nat, route: string, ticket: nat)
    | Hands(a: nat)
    | Loses(a: nat)
    | Receives(r: nat)
    | Finishes(r: nat)
    | Enrolls(e: nat, windowOpen: bool)
    | LeavesEnrollment(e: nat)

  predicate CanRegister(s: State, c: nat) {
    c in s.controls && !s.controls[c].serving && !s.controls[c].over
  }

  function Did(s: State, action: Action): (s': State) {
    match action
    case Accepts(c, route) => if c !in s.controls && s.free > 0 then Accepted(s, c, route) else s
    case Registers(c) => if CanRegister(s, c) then Registered(s, c) else s
    case Ends(c) => if c in s.controls && !s.controls[c].over then Ended(s, c) else s
    case Cancels(route) => RouteCancelled(s, route)
    case Opens(r, route, ticket, queueFull) =>
      if NewRequest(s, r, ticket) && CanOpen(s, route) && !queueFull then Opened(s, r, route, ticket) else s
    case Attaches(a, route, ticket) => if a !in s.attachments && CanAttach(s, route, ticket) then Attached(s, a, route, ticket) else s
    case Hands(a) =>
      if a in s.attachments && !s.attachments[a].over && s.attachments[a].request in s.requests then Handed(s, a) else s
    case Loses(a) => if a in s.attachments && !s.attachments[a].over then Lost(s, a) else s
    case Receives(r) =>
      if r in s.requests && s.requests[r].stage == Waiting && s.requests[r].stream.Some? then Received(s, r) else s
    case Finishes(r) =>
      if r in s.requests && s.requests[r].stage != Closed && s.requests[r].conn in s.controls then Finished(s, r) else s
    case Enrolls(e, windowOpen) => if e !in s.enrolling && windowOpen && s.free > 0 then EnrollBegun(s, e) else s
    case LeavesEnrollment(e) => if e in s.enrolling then EnrollEnded(s, e) else s
  }

  function After(s: State, actions: seq<Action>): (s': State) {
    if actions == [] then s else Did(After(s, actions[..|actions| - 1]), actions[|actions| - 1])
  }

  /** Every step keeps the invariant, and what was delivered stays delivered. */
  lemma {:induction false} DidKeeps(s: State, action: Action)
    requires Valid(s)
    ensures Valid(Did(s, action)) && s.delivered <= Did(s, action).delivered
  {
    if action.Accepts? || action.Registers? || action.Ends? || action.Cancels? || action.Enrolls? || action.LeavesEnrollment? {
      DidControlKeeps(s, action);
    } else {
      DidRequestKeeps(s, action);
    }
  }

  lemma {:induction false} DidControlKeeps(s: State, action: Action)
    requires Valid(s)
    requires action.Accepts? || action.Registers? || action.Ends? || action.Cancels? || action.Enrolls? || action.LeavesEnrollment?
    ensures Valid(Did(s, action)) && s.delivered <= Did(s, action).delivered
  {
    match action
    case Accepts(c, route) => if c !in s.controls && s.free > 0 { AcceptKeeps(s, c, route); }
    case Registers(c) => if CanRegister(s, c) { RegisterKeeps(s, c); }
    case Ends(c) => if c in s.controls && !s.controls[c].over { EndKeeps(s, c); }
    case Cancels(route) => CancelKeeps(s, route);
    case Enrolls(e, _) => EnrollKeeps(s, e);
    case LeavesEnrollment(e) => EnrollKeeps(s, e);
  }

  lemma {:induction false} DidRequestKeeps(s: State, action: Action)
    requires Valid(s)
    requires action.Opens? || action.Attaches? || action.Hands? || action.Loses? || action.Receives? || action.Finishes?
    ensures Valid(Did(s, action)) && s.delivered <= Did(s, action).delivered
  {
    if Did(s, action) == s { return; }
    match action
    case Opens(r, route, ticket, _) => OpenKeeps(s, r, route, ticket);
    case Receives(r) => ReceiveKeeps(s, r);
    case Finishes(r) => FinishKeeps(s, r);
    case _ => DidAttachmentKeeps(s, action);
  }

  lemma {:induction false} DidAttachmentKeeps(s: State, action: Action)
    requires Valid(s) && (action.Attaches? || action.Hands? || action.Loses?)
    ensures Valid(Did(s, action)) && s.delivered <= Did(s, action).delivered
  {
    if Did(s, action) == s { return; }
    match action
    case Attaches(a, route, ticket) => AttachKeeps(s, a, route, ticket);
    case Hands(a) => HandKeeps(s, a);
    case Loses(a) => LoseKeeps(s, a);
  }

  /** Whatever the order of the steps, from any valid state on, the invariant holds. */
  lemma {:induction false} AfterIsValid(s: State, actions: seq<Action>)
    requires Valid(s)
    ensures Valid(After(s, actions)) && s.delivered <= After(s, actions).delivered
  {
    if actions != [] {
      AfterIsValid(s, actions[..|actions| - 1]);
      DidKeeps(After(s, actions[..|actions| - 1]), actions[|actions| - 1]);
    }
  }

  method Step(relay: Relay, action: Action)
    requires Valid(relay.Now())
    modifies relay
    ensures relay.Now() == Did(old(relay.Now()), action)
  {
    match action
    case Accepts(_, _) => StepControl(relay, action);
    case Registers(_) => StepControl(relay, action);
    case Ends(_) => StepControl(relay, action);
    case Cancels(_) => StepControl(relay, action);
    case Enrolls(e, windowOpen) => if e !in relay.enrolling { var ok := relay.BeginEnrollment(e, windowOpen); }
    case LeavesEnrollment(e) => if e in relay.enrolling { relay.EndEnrollment(e); }
    case _ => StepRequest(relay, action);
  }

  method StepControl(relay: Relay, action: Action)
    requires action.Accepts? || action.Registers? || action.Ends? || action.Cancels?
    modifies relay
    ensures relay.Now() == Did(old(relay.Now()), action)
  {
    match action
    case Accepts(c, route) => if c !in relay.controls { var ok := relay.AcceptControl(c, route); }
    case Registers(c) => if c in relay.controls && !relay.controls[c].serving && !relay.controls[c].over { relay.RegisterControl(c); }
    case Ends(c) => if c in relay.controls && !relay.controls[c].over { relay.EndControl(c); }
    case Cancels(route) => relay.CancelRoute(route);
  }

  method StepRequest(relay: Relay, action: Action)
    requires action.Opens? || action.Attaches? || action.Hands? || action.Loses? || action.Receives? || action.Finishes?
    requires AttachmentsOk(relay.Now()) && RequestsOk(relay.Now())
    modifies relay
    ensures relay.Now() == Did(old(relay.Now()), action)
  {
    var ok;
    match action
    case Opens(r, route, ticket, queueFull) =>
      if r !in relay.requests && ticket !in relay.pending && forall q :: q in relay.requests ==> relay.requests[q].ticket != ticket {
        ok := relay.Open(r, route, ticket, queueFull);
      }
    case Attaches(a, route, ticket) => if a !in relay.attachments { ok := relay.Attach(a, route, ticket); }
    case Hands(a) =>
      if a in relay.attachments && !relay.attachments[a].over {
        assert AttachmentOk(relay.Now(), a);
        ok := relay.Hand(a);
      }
    case Loses(a) => if a in relay.attachments && !relay.attachments[a].over { relay.Lose(a); }
    case Receives(r) => if r in relay.requests && relay.requests[r].stage == Waiting { ok := relay.Receive(r); }
    case Finishes(r) =>
      if r in relay.requests && relay.requests[r].stage != Closed {
        assert RequestOk(relay.Now(), r);
        relay.Finish(r);
      }
  }

  /** Every run of the relay, from idle on, is the fold of its steps; so it is valid wherever it stops. */
  method Play(actions: seq<Action>) returns (relay: Relay)
    ensures fresh(relay) && relay.Now() == After(IDLE, actions) && Valid(relay.Now())
  {
    relay := new Relay();
    IdleIsValid();
    assert actions[..0] == [];
    for i := 0 to |actions|
      invariant fresh(relay) && relay.Now() == After(IDLE, actions[..i]) && Valid(relay.Now())
    {
      DidKeeps(relay.Now(), actions[i]);
      AfterMore(IDLE, actions, i);
      Step(relay, actions[i]);
    }
    assert actions[..|actions|] == actions;
  }

  lemma {:induction false} AfterMore(s: State, actions: seq<Action>, i: nat)
    requires i < |actions|
    ensures After(s, actions[..i + 1]) == Did(After(s, actions[..i]), actions[i])
  {
    assert actions[..i + 1][..i] == actions[..i];
  }

  lemma {:induction false} IdleIsValid()
    ensures Valid(IDLE)
  {
  }

  // --- What a request gets ---

  /** The fields that an attachment's hand-over leaves alone. */
  predicate OnlyDelivers(s: State, s': State) {
    s'.upstreams == s.upstreams && s'.controls == s.controls && s'.pending == s.pending && s'.enrolling == s.enrolling
  }

  /**
   A live attachment hands its socket to the request it was made for, exactly if that still waits: the
   request then has it, this one delivery is recorded, and the request's next look bridges it. Either
   way the attachment's permit returns.
   */
  lemma {:induction false} HandOver(s: State, a: nat)
    requires Valid(s) && a in s.attachments && !s.attachments[a].over
    ensures s.attachments[a].request in s.requests
    ensures var (x, s') := (s.attachments[a], Did(s, Hands(a)));
            && OnlyDelivers(s, s') && s'.free == s.free + 1 && s'.attachments == s.attachments[a := x.(over := true)]
            && if s.requests[x.request].stage == Waiting then
                 && s'.requests == s.requests[x.request := s.requests[x.request].(stream := Some(a))]
                 && s'.delivered == s.delivered + [Delivery(x.ticket, x.request, a)]
                 && Did(s', Receives(x.request)).requests == s'.requests[x.request := s'.requests[x.request].(stage := Bridging)]
               else s'.requests == s.requests && s'.delivered == s.delivered
  {
    assert AttachmentOk(s, a);
  }

  /** An enrollment socket holds one permit from its beginning to its end, and gets none while no window is open. */
  lemma {:induction false} EnrollingHoldsOne(s: State, e: nat, windowOpen: bool)
    requires e !in s.enrolling
    ensures var begun := Did(s, Enrolls(e, windowOpen));
            var ended := Did(begun, LeavesEnrollment(e));
            if windowOpen && s.free > 0 then
              && begun.enrolling == s.enrolling + {e} && begun.free == s.free - 1
              && ended.enrolling == s.enrolling && ended.free == s.free
            else begun == s
  {
    assert s.enrolling + {e} - {e} == s.enrolling;
  }

  /** An attachment that fails before that delivers nothing, and the request goes on waiting. */
  lemma {:induction false} LostDeliversNothing(s: State, a: nat)
    requires Valid(s) && a in s.attachments && !s.attachments[a].over
    ensures var s' := Did(s, Loses(a));
            && OnlyDelivers(s, s') && s'.free == s.free + 1 && s'.attachments == s.attachments[a := s.attachments[a].(over := true)]
            && s'.requests == s.requests && s'.delivered == s.delivered
  {
  }

  /**
   From any valid state: a Companion connects, a phone asks for a stream, the Companion attaches with
   the ticket, and the phone is bridged to exactly that attachment. It is not bridged before, and when
   both are done every permit is back.
   */
  lemma {:induction false} PhoneReachesCompanion(s: State, c: nat, route: string, r: nat, ticket: nat, a: nat)
    requires Valid(s) && s.free >= 3 && c !in s.controls && NewRequest(s, r, ticket) && a !in s.attachments
    ensures var connected := Did(Did(s, Accepts(c, route)), Registers(c));
            var waiting := Did(connected, Opens(r, route, ticket, false));
            var attached := Did(waiting, Attaches(a, route, ticket));
            var handed := Did(attached, Hands(a));
            var bridged := Did(handed, Receives(r));
            var done := Did(Did(bridged, Finishes(r)), Ends(c));
            && connected.upstreams == s.upstreams[route := c] && connected.free == s.free - 1
            && waiting.requests == s.requests[r := Request(route, c, ticket, Waiting, None)] && waiting.free == s.free - 2
            && waiting.pending == s.pending[ticket := Pending(route, r)]
            && attached.pending == waiting.pending - {ticket} && attached.free == s.free - 3 && Did(attached, Receives(r)) == attached
            && handed.delivered == s.delivered + [Delivery(ticket, r, a)] && handed.free == s.free - 2
            && bridged.requests == s.requests[r := Request(route, c, ticket, Bridging, Some(a))]
            && done.free == s.free && route !in done.upstreams
            && done.requests == s.requests[r := Request(route, c, ticket, Closed, Some(a))] && done.delivered == handed.delivered
  {
    var connected := Did(Did(s, Accepts(c, route)), Registers(c));
    Connected(s, c, route);
    var waiting := Did(connected, Opens(r, route, ticket, false));
    Waits(connected, c, route, r, ticket);
    var attached := Did(waiting, Attaches(a, route, ticket));
    AttachesToIt(waiting, route, r, ticket, a);
    var handed := Did(attached, Hands(a));
    IsHandedIt(attached, route, r, ticket, a);
    IsBridgedThenDone(handed, c, route, r);
    var request := Request(route, c, ticket, Waiting, None);
    PutTwice(s.requests, r, request, request.(stream := Some(a)));
    PutTwice(s.requests, r, request.(stream := Some(a)), Request(route, c, ticket, Bridging, Some(a)));
    PutTwice(s.requests, r, request.(stream := Some(a)), Request(route, c, ticket, Closed, Some(a)));
  }

  lemma {:induction false} PutTwice<K, V>(rows: map<K, V>, k: K, a: V, b: V)
    ensures rows[k := a][k := b] == rows[k := b]
  {
  }

  lemma {:induction false} Waits(s: State, c: nat, route: string, r: nat, ticket: nat)
    requires s.free > 0 && route in s.upstreams && s.upstreams[route] == c && NewRequest(s, r, ticket)
    requires c in s.controls && s.controls[c] == Control(route, true, false, false, 64, {})
    ensures var s' := Did(s, Opens(r, route, ticket, false));
            && s'.upstreams == s.upstreams && s'.free == s.free - 1 && s'.attachments == s.attachments && s'.delivered == s.delivered
            && s'.requests == s.requests[r := Request(route, c, ticket, Waiting, None)] && s'.pending == s.pending[ticket := Pending(route, r)]
            && c in s'.controls && s'.controls[c] == Control(route, true, false, false, 63, {r})
  {
  }

  lemma {:induction false} AttachesToIt(s: State, route: string, r: nat, ticket: nat, a: nat)
    requires s.free > 0 && ticket in s.pending && s.pending[ticket] == Pending(route, r) && a !in s.attachments
    ensures var s' := Did(s, Attaches(a, route, ticket));
            && s'.upstreams == s.upstreams && s'.controls == s.controls && s'.requests == s.requests && s'.delivered == s.delivered
            && s'.free == s.free - 1 && s'.pending == s.pending - {ticket}
            && s'.attachments == s.attachments[a := Attachment(route, ticket, r, false)]
  {
  }

  lemma {:induction false} IsHandedIt(s: State, route: string, r: nat, ticket: nat, a: nat)
    requires a in s.attachments && s.attachments[a] == Attachment(route, ticket, r, false)
    requires r in s.requests && s.requests[r].stage == Waiting && s.requests[r].stream.None?
    ensures Did(s, Receives(r)) == s
    ensures var s' := Did(s, Hands(a));
            && s'.upstreams == s.upstreams && s'.controls == s.controls && s'.pending == s.pending && s'.free == s.free + 1
            && s'.requests == s.requests[r := s.requests[r].(stream := Some(a))] && s'.delivered == s.delivered + [Delivery(ticket, r, a)]
  {
  }

  lemma {:induction false} IsBridgedThenDone(s: State, c: nat, route: string, r: nat)
    requires r in s.requests && s.requests[r].stage == Waiting && s.requests[r].stream.Some? && s.requests[r].conn == c
    requires c in s.controls && !s.controls[c].over && s.controls[c].route == route && route in s.upstreams && s.upstreams[route] == c
    ensures var bridged := Did(s, Receives(r));
            var done := Did(Did(bridged, Finishes(r)), Ends(c));
            && bridged.requests == s.requests[r := s.requests[r].(stage := Bridging)]
            && done.requests == s.requests[r := s.requests[r].(stage := Closed)]
            && done.free == s.free + 2 && route !in done.upstreams && done.delivered == s.delivered
  {
    var bridged := Did(s, Receives(r));
    assert bridged == Received(s, r);
    assert Did(bridged, Finishes(r)) == Finished(bridged, r);
  }

  lemma {:induction false} Connected(s: State, c: nat, route: string)
    requires Valid(s) && s.free > 0 && c !in s.controls
    ensures var s' := Did(Did(s, Accepts(c, route)), Registers(c));
            && s'.upstreams == s.upstreams[route := c] && s'.free == s.free - 1
            && c in s'.controls && s'.controls[c] == Control(route, true, false, false, 64, {})
            && s'.pending == s.pending && s'.requests == s.requests && s'.attachments == s.attachments && s'.delivered == s.delivered
  {
    if route in s.upstreams { assert Serves(s, route); }
  }

  // --- What the invariant promises ---

  /** A control connection that serves its route and was not told to stop. */
  predicate Seated(s: State, c: nat) {
    c in s.controls && s.controls[c].serving && !s.controls[c].cancelled
  }

  /** Such a connection is where its route's requests go. */
  lemma {:induction false} ServingIsReachable(s: State, c: nat)
    requires Valid(s) && Seated(s, c)
    ensures s.controls[c].route in s.upstreams && s.upstreams[s.controls[c].route] == c
  {
    assert StillRegistered(s, c);
  }

  /** What takes a connection's seat: its own end, a cancelled route, or another connection that registers on its route. */
  predicate Unseats(s: State, action: Action, c: nat)
    requires c in s.controls
  {
    match action
    case Ends(d) => d == c
    case Cancels(route) => route == s.controls[c].route
    case Registers(d) => CanRegister(s, d) && s.controls[d].route == s.controls[c].route
    case _ => false
  }

  /** Nothing else does: in particular not the end of the connection it has replaced. */
  lemma {:induction false} SeatedExactly(s: State, action: Action, c: nat)
    requires Valid(s) && Seated(s, c)
    ensures Seated(Did(s, action), c) <==> !Unseats(s, action, c)
    ensures c in Did(s, action).controls && Did(s, action).controls[c].route == s.controls[c].route
  {
    ServingIsReachable(s, c);
    if action.Ends? || action.Cancels? || action.Registers? || action.Accepts? {
      SeatedThrough(s, action, c);
    } else {
      RequestsKeepSeats(s, action, c);
    }
  }

  lemma {:induction false} RequestsKeepSeats(s: State, action: Action, c: nat)
    requires c in s.controls && !action.Ends? && !action.Cancels? && !action.Registers? && !action.Accepts?
    ensures SeatKept(s, Did(s, action), c)
  {
    if !action.Opens? && !action.Finishes? { assert Did(s, action).controls == s.controls; }
  }

  predicate SeatKept(s: State, s': State, c: nat)
    requires c in s.controls
  {
    && c in s'.controls && s'.controls[c].route == s.controls[c].route
    && s'.controls[c].serving == s.controls[c].serving && s'.controls[c].cancelled == s.controls[c].cancelled
  }

  lemma {:induction false} SeatedThrough(s: State, action: Action, c: nat)
    requires ControlsOk(s) && UpstreamsOk(s) && Seated(s, c) && IsUpstream(s, c) && (action.Ends? || action.Cancels? || action.Registers? || action.Accepts?)
    ensures Seated(Did(s, action), c) <==> !Unseats(s, action, c)
    ensures c in Did(s, action).controls && Did(s, action).controls[c].route == s.controls[c].route
  {
    assert ControlOk(s, c);
    match action
    case Cancels(route) => assert route in s.upstreams ==> Serves(s, route);
    case Registers(d) => assert s.controls[c].route in s.upstreams;
    case _ =>
  }

  ghost predicate NeverUnseated(s: State, actions: seq<Action>, c: nat) {
    forall i :: 0 <= i < |actions| ==> var s' := After(s, actions[..i]); c in s'.controls ==> !Unseats(s', actions[i], c)
  }

  /**
   A connection keeps its seat, and its route's requests, over any run in which it does not end, its
   route is not cancelled and nobody registers on its route again, whoever else comes, goes or ends.
   */
  lemma {:induction false} StaysReachable(s: State, actions: seq<Action>, c: nat)
    requires Valid(s) && Seated(s, c) && NeverUnseated(s, actions, c)
    ensures var s' := After(s, actions);
            && Seated(s', c) && s'.controls[c].route == s.controls[c].route
            && s.controls[c].route in s'.upstreams && s'.upstreams[s.controls[c].route] == c
  {
    if actions == [] {
      ServingIsReachable(s, c);
    } else {
      var init, k := actions[..|actions| - 1], |actions| - 1;
      NeverUnseatedBefore(s, actions, c);
      StaysReachable(s, init, c);
      AfterIsValid(s, init);
      assert !Unseats(After(s, actions[..k]), actions[k], c);
      SeatedExactly(After(s, init), actions[k], c);
      AfterIsValid(s, actions);
      ServingIsReachable(After(s, actions), c);
    }
  }

  lemma {:induction false} NeverUnseatedBefore(s: State, actions: seq<Action>, c: nat)
    requires actions != [] && NeverUnseated(s, actions, c)
    ensures NeverUnseated(s, actions[..|actions| - 1], c)
  {
    var init := actions[..|actions| - 1];
    forall i | 0 <= i < |init| ensures var s' := After(s, init[..i]); c in s'.controls ==> !Unseats(s', init[i], c) {
      assert init[..i] == actions[..i] && init[i] == actions[i];
    }
  }

  /** The case the guard is there for: a replaced connection that ends late leaves its successor in place. */
  lemma {:induction false} EndLeavesSuccessor(s: State, c: nat, d: nat)
    requires Valid(s) && CanRegister(s, d) && d != c
    requires !s.controls[d].cancelled
    ensures var s', route := Did(Did(s, Registers(d)), Ends(c)), s.controls[d].route;
            Seated(s', d) && route in s'.upstreams && s'.upstreams[route] == d
  {
    DidKeeps(s, Registers(d));
    SeatedExactly(Did(s, Registers(d)), Ends(c), d);
    DidKeeps(Did(s, Registers(d)), Ends(c));
    ServingIsReachable(Did(Did(s, Registers(d)), Ends(c)), d);
  }

  /** No ticket outlives its request, and a ticket still filed was never delivered. */
  lemma {:induction false} TicketLivesWithRequest(s: State, t: nat)
    requires Valid(s) && t in s.pending
    ensures s.pending[t].request in s.requests && s.requests[s.pending[t].request].stage == Waiting
    ensures forall i :: 0 <= i < |s.delivered| ==> s.delivered[i].ticket != t
  {
    assert PendingOk(s, t);
    forall i | 0 <= i < |s.delivered| ensures s.delivered[i].ticket != t { assert DeliveryOk(s, s.delivered[i]); }
  }

  /** A ticket is delivered at most once, to the request it was made for, by an attachment on that request's route. */
  lemma {:induction false} DeliveredOnce(s: State, i: nat, j: nat)
    requires Valid(s) && i < |s.delivered| && j < |s.delivered|
    ensures s.delivered[i].ticket == s.delivered[j].ticket ==> i == j
    ensures var d := s.delivered[i];
            && d.request in s.requests && s.requests[d.request].ticket == d.ticket
            && d.attachment in s.attachments && s.attachments[d.attachment].route == s.requests[d.request].route
  {
    assert DeliveryOk(s, s.delivered[i]);
  }
}
