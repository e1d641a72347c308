/**
 One sixty-second enrollment window of the relay, under every interleaving of the public exchanges,
 the local terminal, the relay's control connections and the clock. Each method is one atomic step:
 what runs under the candidate lock, or one await-free stretch of an exchange. The `Connecting`
 write is the one phase write outside that lock.
 */
module Enrollment {
  import opened Wrappers

  datatype Phase =
    | Waiting
    | Confirm(candidate: nat, name: string, code: string)
    | Approved
    | Connecting(name: string)
    | Connected(name: string, route: nat)
    | Cancelled
    | Expired
  {
    predicate Finished() { Connected? || Cancelled? || Expired? }
  }

  datatype Candidate = Candidate(id: nat, name: string, approved: bool, route: Option<nat>)

  /** How far one exchange has come; `Over` once its future is dropped. */
  datatype Stage = Greeting | Claimed | Shown | Cleared | Registered | Granted | Stored | Online | Committed | Over

  datatype Exchange = Exchange(stage: Stage, claimed: bool, name: string, route: Option<nat>, committed: bool)

  const NEWCOMER := Exchange(Greeting, false, "", None, false)

  function Rank(stage: Stage): (rank: nat) {
    match stage
    case Greeting => 0
    case Claimed => 1
    case Shown => 2
    case Cleared => 3
    case Registered => 4
    case Granted => 5
    case Stored => 6
    case Online => 7
    case Committed => 8
    case Over => 9
  }

  /** What all windows share: the clock and the registry. */
  class World {
    var now: nat
    /** The routes that the registry holds. */
    var routes: set<nat>
    /** Every route id drawn so far. Ids are random, so none is drawn twice. */
    var issued: set<nat>

    ghost predicate Valid() reads this { routes <= issued }

    constructor (now: nat, routes: set<nat>)
      ensures Valid() && this.now == now && this.routes == routes && issued == routes
    {
      this.now, this.routes, issued := now, routes, routes;
    }
  }

  class Window {
    const world: World
    const deadline: nat
    var phase: Phase
    var stop: bool
    var candidate: Option<Candidate>
    var online: Option<nat>
    /** The public exchanges, by connection. */
    var exchanges: map<nat, Exchange>
    ghost var owner: Option<nat>
    ghost var displayed: set<nat>
    ghost var approvedAt: Option<nat>
    ghost var committedAt: Option<nat>

    predicate IsOpen() reads this, world {
      !stop && world.now < deadline && !phase.Finished()
    }

    ghost function Now(): (v: View) reads this, world {
      View(deadline, world.now, phase, stop, candidate, online, exchanges, world.routes, world.issued, owner, displayed, approvedAt, committedAt)
    }

    /** The route that was registered for the exchange that claimed this window. */
    ghost function Own(): (route: Option<nat>) reads this {
      if owner.Some? && owner.value in exchanges then exchanges[owner.value].route else None
    }

    /** What each exchange may hold, depending on its stage. */
    ghost predicate ExchangeValid(e: nat)
      requires e in exchanges
      reads this, world
    {
      var x := exchanges[e];
      && (x.claimed <==> owner == Some(e))
      && (!x.claimed ==> x.stage in {Greeting, Over} && x.route.None? && !x.committed)
      && (x.claimed ==> candidate.Some? && x.stage != Greeting)
      && (x.claimed && 2 <= Rank(x.stage) < 9 ==> candidate.value.id in displayed)
      && (x.claimed && 3 <= Rank(x.stage) < 9 ==> candidate.value.approved)
      && (Rank(x.stage) < 4 ==> x.route.None?)
      && (4 <= Rank(x.stage) < 9 ==> x.route.Some?)
      && (x.committed ==> x.stage in {Committed, Over} && x.route.Some? && candidate.value.approved)
      && (x.stage == Committed ==> x.committed)
      && (x.committed ==> phase == Connected(x.name, x.route.value) && committedAt.Some?)
      && (x.route.Some? ==>
            x.route.value in world.issued && (x.route.value in world.routes <==> x.stage != Over || x.committed))
    }

    ghost predicate Valid() reads this, world {
      && world.Valid()
      && (owner.Some? <==> candidate.Some?)
      && (owner.Some? ==> owner.value in exchanges)
      && (forall e :: e in exchanges ==> ExchangeValid(e))
      && (candidate.Some? && candidate.value.approved ==>
            candidate.value.id in displayed && approvedAt.Some? && approvedAt.value < deadline)
      && (candidate.Some? && candidate.value.route.Some? ==> exchanges[owner.value].route == candidate.value.route)
      && (phase.Approved? ==> candidate.Some? && candidate.value.approved)
      && (phase.Confirm? ==> candidate.Some? && candidate.value.id == phase.candidate && phase.candidate in displayed)
      && (phase.Connected? ==> owner.Some? && exchanges[owner.value].committed && !stop)
      && (phase.Cancelled? || phase.Expired? ==> stop)
      && (committedAt.Some? ==> committedAt.value < deadline && phase.Connected?)
    }

    lemma {:induction false} OwnsIt()
      requires Valid()
      ensures Now().OwnerOnly() && Now().Own() == Own()
    {
      forall e | e in exchanges && exchanges[e].route.Some? ensures owner == Some(e) && exchanges[e].route.value in world.issued {
        assert ExchangeValid(e);
      }
    }

    constructor (world: World, deadline: nat)
      requires world.Valid()
      ensures Valid() && exchanges == map[] && owner.None? && this.world == world && this.deadline == deadline
    {
      this.world, this.deadline := world, deadline;
      phase, stop, candidate, online, exchanges := Waiting, false, None, None, map[];
      owner, displayed, approvedAt, committedAt := None, {}, None, None;
    }

    // --- The terminal and the clock ---

    method Tick()
      requires Valid()
      modifies world`now
      ensures Valid() && world.now == old(world.now) + 1 && (old(!IsOpen()) ==> !IsOpen())
    {
      world.now := world.now + 1;
    }

    /** Approves only the exact candidate on display, before the deadline. */
    method Approve(id: nat) returns (ok: bool)
      requires Valid()
      modifies this`candidate, this`phase, this`approvedAt
      ensures Valid() && (old(!IsOpen()) ==> !IsOpen())
      ensures ok <==> old(IsOpen()) && old(candidate).Some? && old(candidate).value.id == id && !old(candidate).value.approved && old(phase).Confirm?
      ensures candidate == if ok then Some(old(candidate).value.(approved := true)) else old(candidate)
      ensures phase == (if ok then Approved else old(phase)) && approvedAt == if ok then Some(world.now) else old(approvedAt)
    {
      if candidate.None? { return false; }
      if !IsOpen() || candidate.value.id != id || candidate.value.approved || !phase.Confirm? { return false; }
      candidate := Some(candidate.value.(approved := true));
      phase := Approved;
      approvedAt := Some(world.now);
      return true;
    }

    /** Cancellation and expiry; serialized with the commit by the candidate lock. */
    method Finish(end: Phase)
      requires Valid() && (end.Cancelled? || end.Expired?)
      modifies this`phase, this`stop
      ensures Valid() && !IsOpen()
      ensures phase == if old(phase).Finished() then old(phase) else end
      ensures stop == (old(stop) || !old(phase).Finished())
    {
      if phase.Finished() { return; }
      phase, stop := end, true;
    }

    /** A control connection of `route` came up. `seenOpen` was read before: the window may have closed since. */
    method ConnectedRoute(route: nat, seenOpen: bool)
      requires Valid()
      modifies this`online
      ensures Valid()
      ensures online == if seenOpen && candidate.Some? && candidate.value.route == Some(route) then Some(route) else old(online)
    {
      if seenOpen && candidate.Some? && candidate.value.route == Some(route) {
        online := Some(route);
      }
    }

    // --- The steps of an exchange ---

    method Greet(e: nat)
      requires Valid() && e !in exchanges
      modifies this`exchanges
      ensures Valid() && exchanges == old(exchanges)[e := NEWCOMER]
    {
      exchanges := exchanges[e := NEWCOMER];
      forall f | f in exchanges && f != e ensures ExchangeValid(f) { assert old(ExchangeValid(f)); }
    }

    /** Takes the window's one candidate place. */
    method Claim(e: nat, name: string, id: nat) returns (ok: bool)
      requires Valid() && e in exchanges && exchanges[e].stage == Greeting
      modifies this`candidate, this`owner, this`exchanges
      ensures Valid() && (ok <==> old(IsOpen()) && old(candidate).None?)
      ensures candidate == (if ok then Some(Candidate(id, name, false, None)) else old(candidate)) && owner == if ok then Some(e) else old(owner)
      ensures exchanges == if ok then old(exchanges)[e := Exchange(Claimed, true, name, None, false)] else old(exchanges)
    {
      if !IsOpen() || candidate.Some? { return false; }
      assert ExchangeValid(e);
      candidate := Some(Candidate(id, name, false, None));
      owner := Some(e);
      exchanges := exchanges[e := Exchange(Claimed, true, name, None, false)];
      forall f | f in exchanges && f != e ensures ExchangeValid(f) { assert old(ExchangeValid(f)); }
      return true;
    }

    /** Shows the candidate and its symbols on the terminal. */
    method ShowSymbols(e: nat, code: string) returns (ok: bool)
      requires Valid() && e in exchanges && exchanges[e].stage == Claimed
      modifies this`phase, this`displayed, this`exchanges
      ensures Valid() && (old(!IsOpen()) ==> !IsOpen()) && candidate.Some? && (ok <==> old(IsOpen()))
      ensures phase == if ok then Confirm(candidate.value.id, candidate.value.name, code) else old(phase)
      ensures displayed == if ok then old(displayed) + {candidate.value.id} else old(displayed)
      ensures exchanges == if ok then old(exchanges)[e := old(exchanges)[e].(stage := Shown)] else old(exchanges)
    {
      assert ExchangeValid(e);
      if candidate.None? || !IsOpen() { return false; }
      phase := Confirm(candidate.value.id, candidate.value.name, code);
      displayed := displayed + {candidate.value.id};
      exchanges := exchanges[e := exchanges[e].(stage := Shown)];
      forall f | f in exchanges && f != e ensures ExchangeValid(f) { assert old(ExchangeValid(f)); }
      return true;
    }

    /** The exchange watches the phase until it reads `Approved`. */
    method SeeApproved(e: nat) returns (ok: bool)
      requires Valid() && e in exchanges && exchanges[e].stage == Shown
      modifies this`exchanges
      ensures Valid() && candidate.Some? && (ok <==> phase.Approved?)
      ensures exchanges == if ok then old(exchanges)[e := old(exchanges)[e].(stage := Cleared, name := candidate.value.name)] else old(exchanges)
    {
      assert ExchangeValid(e);
      if !phase.Approved? { return false; }
      exchanges := exchanges[e := exchanges[e].(stage := Cleared, name := candidate.value.name)];
      forall f | f in exchanges && f != e ensures ExchangeValid(f) { assert old(ExchangeValid(f)); }
      return true;
    }

    /** The registry grants a new route, guarded by `UncommittedRoute` from here on. */
    method Register(e: nat, route: nat)
      requires Valid() && e in exchanges && exchanges[e].stage == Cleared && route !in world.issued
      modifies world`routes, world`issued, this`exchanges
      ensures Valid() && world.routes == old(world.routes) + {route} && world.issued == old(world.issued) + {route}
      ensures exchanges == old(exchanges)[e := old(exchanges)[e].(stage := Registered, route := Some(route))]
    {
      world.routes, world.issued := world.routes + {route}, world.issued + {route};
      exchanges := exchanges[e := exchanges[e].(stage := Registered, route := Some(route))];
      forall f | f in exchanges && f != e ensures ExchangeValid(f) { assert old(ExchangeValid(f)); }
    }

    method SetRoute(e: nat)
      requires Valid() && e in exchanges && exchanges[e].stage == Registered
      modifies this`candidate, this`exchanges
      ensures Valid() && old(candidate).Some? && candidate == Some(old(candidate).value.(route := old(exchanges)[e].route))
      ensures exchanges == old(exchanges)[e := old(exchanges)[e].(stage := Granted)]
    {
      assert ExchangeValid(e);
      candidate := Some(candidate.value.(route := exchanges[e].route));
      exchanges := exchanges[e := exchanges[e].(stage := Granted)];
      forall f | f in exchanges && f != e ensures ExchangeValid(f) { assert old(ExchangeValid(f)); }
    }

    /** The client stored its credentials: the phase write that no lock guards. */
    method MarkStored(e: nat)
      requires Valid() && e in exchanges && exchanges[e].stage == Granted
      modifies this`phase, this`exchanges
      ensures Valid() && (old(!IsOpen()) ==> !IsOpen()) && phase == Connecting(old(exchanges)[e].name)
      ensures exchanges == old(exchanges)[e := old(exchanges)[e].(stage := Stored)]
    {
      phase := Connecting(exchanges[e].name);
      exchanges := exchanges[e := exchanges[e].(stage := Stored)];
      forall f | f in exchanges && f != e ensures ExchangeValid(f) { assert old(ExchangeValid(f)); }
    }

    method SeeOnline(e: nat) returns (ok: bool)
      requires Valid() && e in exchanges && exchanges[e].stage == Stored
      modifies this`exchanges
      ensures Valid() && (ok <==> online == exchanges[e].route)
      ensures exchanges == if ok then old(exchanges)[e := old(exchanges)[e].(stage := Online)] else old(exchanges)
    {
      if online != exchanges[e].route { return false; }
      exchanges := exchanges[e := exchanges[e].(stage := Online)];
      forall f | f in exchanges && f != e ensures ExchangeValid(f) { assert old(ExchangeValid(f)); }
      return true;
    }

    /** The commit point, under the candidate lock. */
    method Commit(e: nat) returns (ok: bool)
      requires Valid() && e in exchanges && exchanges[e].stage == Online
      modifies this`phase, this`exchanges, this`committedAt
      ensures Valid() && (old(!IsOpen()) ==> !IsOpen()) && (ok <==> old(IsOpen())) && old(exchanges)[e].route.Some?
      ensures phase == if ok then Connected(old(exchanges)[e].name, old(exchanges)[e].route.value) else old(phase)
      ensures committedAt == if ok then Some(world.now) else old(committedAt)
      ensures exchanges == if ok then old(exchanges)[e := old(exchanges)[e].(stage := Committed, committed := true)] else old(exchanges)
    {
      assert ExchangeValid(e);
      if !IsOpen() { return false; }
      var x := exchanges[e];
      exchanges := exchanges[e := x.(stage := Committed, committed := true)];
      phase := Connected(x.name, x.route.value);
      committedAt := Some(world.now);
      forall f | f in exchanges && f != e ensures ExchangeValid(f) { assert old(ExchangeValid(f)); }
      return true;
    }

    /** The exchange's future ends or is dropped, at any stage; the guard revokes an uncommitted route. */
    method Drop(e: nat)
      requires Valid() && e in exchanges && exchanges[e].stage != Over
      modifies world`routes, this`exchanges
      ensures Valid() && exchanges == old(exchanges)[e := old(exchanges)[e].(stage := Over)]
      ensures var x := old(exchanges[e]);
        world.routes == if x.route.Some? && !x.committed then old(world.routes) - {x.route.value} else old(world.routes)
      ensures Now() == old(Now()).Dropped(e)
    {
      var x := exchanges[e];
      assert ExchangeValid(e);
      if x.route.Some? && !x.committed {
        Revoke(e, x.route.value);
      } else {
        Leave(e);
      }
    }

    /** Drop of an exchange that has no route or committed it. */
    method Leave(e: nat)
      requires Valid() && e in exchanges && exchanges[e].stage != Over && (exchanges[e].committed || exchanges[e].route.None?)
      modifies this`exchanges
      ensures Valid() && exchanges == old(exchanges)[e := old(exchanges)[e].(stage := Over)]
    {
      assert ExchangeValid(e);
      exchanges := exchanges[e := exchanges[e].(stage := Over)];
      assert ExchangeValid(e);
      forall f | f in exchanges && f != e ensures ExchangeValid(f) { assert old(ExchangeValid(f)); }
    }

    /** Drop of an uncommitted `UncommittedRoute`. */
    method Revoke(e: nat, route: nat)
      requires Valid() && e in exchanges && exchanges[e].stage != Over && !exchanges[e].committed && exchanges[e].route == Some(route)
      modifies world`routes, this`exchanges
      ensures Valid() && world.routes == old(world.routes) - {route} && exchanges == old(exchanges)[e := old(exchanges)[e].(stage := Over)]
    {
      assert ExchangeValid(e);
      forall f | f in exchanges && f != e ensures exchanges[f].route.None? && !exchanges[f].committed { assert ExchangeValid(f); }
      world.routes := world.routes - {route};
      exchanges := exchanges[e := exchanges[e].(stage := Over)];
      forall f | f in exchanges && f != e ensures ExchangeValid(f) { assert old(ExchangeValid(f)); }
    }

    /** `serve` after an exchange that failed once it had claimed the window. */
    method CancelIfClaimed(e: nat)
      requires Valid() && e in exchanges && exchanges[e].stage == Over
      modifies this`phase, this`stop
      ensures Valid() && (exchanges[e].claimed ==> !IsOpen())
      ensures phase == if exchanges[e].claimed && !old(phase).Finished() then Cancelled else old(phase)
      ensures stop == (old(stop) || (exchanges[e].claimed && !old(phase).Finished()))
    {
      if exchanges[e].claimed { Finish(Cancelled); }
    }
  }

  // --- An orderly pairing ---

  /** The window has time left and one exchange. */
  ghost predicate Alone(window: Window, e: nat, x: Exchange, candidate: Candidate, phase: Phase)
    reads window, window.world
  {
    && window.Valid() && !window.stop && window.world.now < window.deadline
    && window.exchanges == map[e := x] && window.candidate == Some(candidate) && window.phase == phase
  }

  method ShowFirst(window: Window, e: nat, name: string, id: nat, code: string)
    requires window.Valid() && window.exchanges == map[] && window.candidate.None? && window.phase == Waiting
    requires !window.stop && window.world.now < window.deadline
    modifies window
    ensures Alone(window, e, Exchange(Shown, true, name, None, false), Candidate(id, name, false, None), Confirm(id, name, code))
    ensures window.displayed == old(window.displayed) + {id} && window.committedAt == old(window.committedAt)
  {
    window.Greet(e);
    var claimed := window.Claim(e, name, id);
    var shown := window.ShowSymbols(e, code);
  }

  method GrantApproved(window: Window, e: nat, name: string, id: nat, code: string, route: nat)
    requires Alone(window, e, Exchange(Shown, true, name, None, false), Candidate(id, name, false, None), Confirm(id, name, code))
    requires route !in window.world.issued
    modifies window, window.world
    ensures Alone(window, e, Exchange(Granted, true, name, Some(route), false), Candidate(id, name, true, Some(route)), Approved)
    ensures window.displayed == old(window.displayed) && window.world.now == old(window.world.now)
    ensures window.world.routes == old(window.world.routes) + {route}
  {
    var approved := window.Approve(id);
    var seen := window.SeeApproved(e);
    window.Register(e, route);
    window.SetRoute(e);
  }

  method CommitOnline(window: Window, e: nat, name: string, id: nat, route: nat)
    requires Alone(window, e, Exchange(Granted, true, name, Some(route), false), Candidate(id, name, true, Some(route)), Approved)
    modifies window
    ensures window.Valid() && window.phase == Connected(name, route) && window.committedAt == Some(window.world.now)
    ensures window.exchanges == map[e := Exchange(Committed, true, name, Some(route), true)]
    ensures window.displayed == old(window.displayed) && !window.IsOpen()
  {
    window.MarkStored(e);
    window.ConnectedRoute(route, true);
    var online := window.SeeOnline(e);
    var committed := window.Commit(e);
  }

  /**
   Nothing stands in its way: whoever is first to a window with time left, is approved as displayed, takes
   a new route and comes online on it, commits that route, and the window closes.
   */
  method Completes(window: Window, e: nat, name: string, id: nat, code: string, route: nat)
    requires window.Valid() && window.exchanges == map[] && window.candidate.None? && window.phase == Waiting
    requires !window.stop && window.world.now < window.deadline && route !in window.world.issued
    modifies window, window.world
    ensures window.Valid() && window.phase == Connected(name, route) && window.committedAt == Some(window.world.now)
    ensures window.exchanges == map[e := Exchange(Committed, true, name, Some(route), true)]
    ensures window.displayed == old(window.displayed) + {id} && window.world.now == old(window.world.now)
    ensures window.world.routes == old(window.world.routes) + {route} && !window.IsOpen()
  {
    ShowFirst(window, e, name, id, code);
    GrantApproved(window, e, name, id, code, route);
    CommitOnline(window, e, name, id, route);
  }

  /** At most one window is open at a time. */
  class Enrollment {
    const world: World
    var active: Option<Window>
    /** Every window ever opened here. */
    ghost var windows: set<Window>

    ghost predicate OneOpen() reads this, windows, world {
      && (active.Some? ==> active.value in windows)
      && (forall w :: w in windows ==> w.world == world && (w.IsOpen() ==> active == Some(w)))
    }

    /** All windows keep their invariants on the one registry, and no two of them hold the same route. */
    ghost predicate Sharing() reads this, windows, world {
      && world.Valid()
      && (forall w :: w in windows ==> w.world == world && w.Valid())
      && (forall v, w :: v in windows && w in windows && v != w && v.Own().Some? ==> v.Own() != w.Own())
    }

    constructor (world: World)
      requires world.Valid()
      ensures OneOpen() && Sharing() && active.None? && windows == {} && this.world == world
    {
      this.world := world;
      active, windows := None, {};
    }

    /** Refuses while a window is open; otherwise a new one replaces it. */
    method Open(duration: nat) returns (window: Option<Window>)
      requires OneOpen() && Sharing()
      modifies this
      ensures OneOpen() && Sharing()
      ensures window.None? <==> old(active.Some? && active.value.IsOpen())
      ensures window.None? ==> active == old(active) && windows == old(windows)
      ensures window.Some? ==> fresh(window.value) && active == window && windows == old(windows) + {window.value}
      ensures window.Some? ==> window.value.deadline == world.now + duration && window.value.exchanges == map[]
    {
      if active.Some? && active.value.IsOpen() { return None; }
      var opening := new Window(world, world.now + duration);
      active, windows := Some(opening), windows + {opening};
      JoinsSharing(opening);
      return active;
    }

    /** A window that holds no route yet joins the others. */
    twostate lemma JoinsSharing(new opening: Window)
      requires old(Sharing()) && windows == old(windows) + {opening} && opening !in old(windows)
      requires opening.world == world && opening.Valid() && opening.owner.None?
      requires unchanged(world) && forall w :: w in old(windows) ==> unchanged(w)
      ensures Sharing()
    {
      forall w | w in old(windows) ensures w.Own() == old(w.Own()) && w.Valid() {
        assert old(w.Valid());
      }
    }

    method Current() returns (window: Option<Window>)
      requires OneOpen()
      ensures window == if active.Some? && active.value.IsOpen() then active else None
      ensures forall w :: w in windows && w.IsOpen() ==> window == Some(w)
    {
      if active.Some? && active.value.IsOpen() { return active; }
      return None;
    }

    /**
     Whatever anybody does to any window, open or closed: still at most one is open, and the others
     keep their routes registered or revoked as they were.
     */
    method StepAny(window: Window, action: Action)
      requires OneOpen() && Sharing() && window in windows
      modifies window, world
      ensures OneOpen() && Sharing() && window.Now() == Did(old(window.Now()), action)
    {
      StepTouchesOwn(window, action);
      StaysSharing(window);
      StaysOneOpen(window);
    }

    twostate lemma StaysOneOpen(window: Window)
      requires old(OneOpen()) && window in windows && windows == old(windows) && active == old(active)
      requires world.now >= old(world.now) && (old(!window.IsOpen()) ==> !window.IsOpen())
      requires forall w :: w in windows && w != window ==> unchanged(w)
      ensures OneOpen()
    {
      forall w | w in windows && w.IsOpen() ensures active == Some(w) {
        assert old(w.IsOpen());
      }
    }

    twostate lemma StaysSharing(window: Window)
      requires old(Sharing()) && window in windows && windows == old(windows)
      requires window.Valid() && old(world.issued) <= world.issued
      requires window.Own() == old(window.Own()) || (window.Own().Some? && window.Own().value !in old(world.issued))
      requires forall w :: w in windows && w != window ==> unchanged(w)
      requires forall r :: r in old(world.issued) && old(window.Own()) != Some(r) ==> (r in world.routes <==> r in old(world.routes))
      ensures Sharing()
    {
      OthersStayValid(window);
      forall w | w in windows && w != window ensures w.Own() == old(w.Own()) && (w.Own().Some? ==> w.Own().value in old(world.issued)) {
        OwnIssued(w);
      }
    }

    twostate lemma OwnIssued(w: Window)
      requires old(w.Valid()) && unchanged(w)
      ensures w.Own() == old(w.Own()) && (w.Own().Some? ==> w.Own().value in old(w.world.issued))
    {
      if w.owner.Some? { assert old(w.ExchangeValid(w.owner.value)); }
    }

    twostate lemma OthersStayValid(window: Window)
      requires old(Sharing()) && window in windows && windows == old(windows)
      requires world.Valid() && old(world.issued) <= world.issued
      requires forall w :: w in windows && w != window ==> unchanged(w)
      requires forall r :: r in old(world.issued) && old(window.Own()) != Some(r) ==> (r in world.routes <==> r in old(world.routes))
      ensures forall w :: w in windows && w != window ==> w.Valid()
    {
      forall w | w in windows && w != window ensures w.Valid() {
        forall e | e in w.exchanges ensures w.ExchangeValid(e) {
          assert old(w.ExchangeValid(e));
        }
      }
    }

    /** Time passes for all windows alike. */
    method Pass()
      requires OneOpen() && Sharing()
      modifies world`now
      ensures OneOpen() && Sharing() && world.now == old(world.now) + 1
    {
      world.now := world.now + 1;
      forall w | w in windows ensures w.Valid() {
        forall e | e in w.exchanges ensures w.ExchangeValid(e) {
          assert old(w.ExchangeValid(e));
        }
      }
    }
  }

  // --- Every interleaving ---

  /** One step of somebody; a step whose guard is not met does nothing. */
  datatype Action =
    | ClockTick
    | TerminalApproves(id: nat)
    | TerminalCancels
    | TimerExpires
    | RouteConnects(route: nat, seenOpen: bool)
    | Greets(e: nat)
    | Claims(e: nat, name: string, id: nat)
    | Shows(e: nat, code: string)
    | Reads(e: nat)
    | Registers(e: nat, route: nat)
    | SetsRoute(e: nat)
    | Stores(e: nat)
    | ReadsOnline(e: nat)
    | Commits(e: nat)
    | Drops(e: nat)
    | Cancels(e: nat)

  predicate At(window: Window, e: nat, stage: Stage) reads window {
    e in window.exchanges && window.exchanges[e].stage == stage
  }

  /** Everything a window remembers. */
  datatype View = View(
    deadline: nat,
    now: nat,
    phase: Phase,
    stop: bool,
    candidate: Option<Candidate>,
    online: Option<nat>,
    exchanges: map<nat, Exchange>,
    routes: set<nat>,
    issued: set<nat>,
    owner: Option<nat>,
    displayed: set<nat>,
    approvedAt: Option<nat>,
    committedAt: Option<nat>
  ) {
    predicate IsOpen() { !stop && now < deadline && !phase.Finished() }

    predicate At(e: nat, stage: Stage) { e in exchanges && exchanges[e].stage == stage }

    function Own(): (route: Option<nat>) {
      if owner.Some? && owner.value in exchanges then exchanges[owner.value].route else None
    }

    /** Only the exchange that claimed the window has a route, and it was issued. */
    predicate OwnerOnly() {
      && routes <= issued
      && (owner.Some? <==> candidate.Some?)
      && (forall e :: e in exchanges && exchanges[e].route.Some? ==> owner == Some(e) && exchanges[e].route.value in issued)
      && (forall e :: e in exchanges && 1 <= Rank(exchanges[e].stage) < 9 ==> owner == Some(e))
    }

    function Moved(e: nat, x: Exchange): (v: View) { this.(exchanges := exchanges[e := x]) }

    function Dropped(e: nat): (v: View)
      requires e in exchanges
    {
      var x := exchanges[e];
      Moved(e, x.(stage := Over)).(routes := if x.route.Some? && !x.committed then routes - {x.route.value} else routes)
    }

    function FinishedAs(end: Phase): (v: View) { if phase.Finished() then this else this.(phase := end, stop := true) }
  }

  /** What a step does to a window, on values. */
  function Did(v: View, action: Action): (v': View) {
    match action
    case ClockTick => v.(now := v.now + 1)
    case TerminalApproves(id) =>
      if v.candidate.Some? && v.candidate.value.id == id && !v.candidate.value.approved && v.IsOpen() && v.phase.Confirm?
      then v.(candidate := Some(v.candidate.value.(approved := true)), phase := Approved, approvedAt := Some(v.now))
      else v
    case TerminalCancels => v.FinishedAs(Cancelled)
    case TimerExpires => if v.now >= v.deadline then v.FinishedAs(Expired) else v
    case RouteConnects(route, seenOpen) =>
      if seenOpen && v.candidate.Some? && v.candidate.value.route == Some(route) then v.(online := Some(route)) else v
    case Cancels(e) => if v.At(e, Over) && v.exchanges[e].claimed then v.FinishedAs(Cancelled) else v
    case _ => Exchanged(v, action)
  }

  /** The steps of an exchange. */
  function Exchanged(v: View, action: Action): (v': View) {
    match action
    case Greets(e) => if e !in v.exchanges then v.Moved(e, NEWCOMER) else v
    case Claims(e, name, id) =>
      if v.At(e, Greeting) && v.IsOpen() && v.candidate.None?
      then v.Moved(e, Exchange(Claimed, true, name, None, false)).(candidate := Some(Candidate(id, name, false, None)), owner := Some(e))
      else v
    case Shows(e, code) =>
      if v.At(e, Claimed) && v.IsOpen() && v.candidate.Some?
      then v.Moved(e, v.exchanges[e].(stage := Shown)).(
        phase := Confirm(v.candidate.value.id, v.candidate.value.name, code), displayed := v.displayed + {v.candidate.value.id})
      else v
    case Reads(e) =>
      if v.At(e, Shown) && v.phase.Approved? && v.candidate.Some?
      then v.Moved(e, v.exchanges[e].(stage := Cleared, name := v.candidate.value.name))
      else v
    case Registers(e, route) =>
      if v.At(e, Cleared) && route !in v.issued
      then v.Moved(e, v.exchanges[e].(stage := Registered, route := Some(route))).(routes := v.routes + {route}, issued := v.issued + {route})
      else v
    case SetsRoute(e) =>
      if v.At(e, Registered) && v.candidate.Some?
      then v.Moved(e, v.exchanges[e].(stage := Granted)).(candidate := Some(v.candidate.value.(route := v.exchanges[e].route)))
      else v
    case Stores(e) =>
      if v.At(e, Granted) then v.Moved(e, v.exchanges[e].(stage := Stored)).(phase := Connecting(v.exchanges[e].name)) else v
    case ReadsOnline(e) =>
      if v.At(e, Stored) && v.online == v.exchanges[e].route then v.Moved(e, v.exchanges[e].(stage := Online)) else v
    case Commits(e) =>
      if v.At(e, Online) && v.IsOpen() && v.exchanges[e].route.Some?
      then v.Moved(e, v.exchanges[e].(stage := Committed, committed := true)).(
        phase := Connected(v.exchanges[e].name, v.exchanges[e].route.value), committedAt := Some(v.now))
      else v
    case Drops(e) =>
      if e in v.exchanges && v.exchanges[e].stage != Over then v.Dropped(e) else v
    case _ => v
  }

  /** A step registers a route that was never issued before, or revokes the window's own; no other route changes. */
  lemma {:induction false} DidTouchesOwn(v: View, action: Action)
    requires v.OwnerOnly()
    ensures TouchesOwn(v, Did(v, action))
  {
    ExchangedTouchesOwn(v, action);
  }

  ghost predicate TouchesOwn(v: View, v': View) {
    && v'.now >= v.now && v'.issued >= v.issued >= v.routes
    && (v'.Own() == v.Own() || (v'.Own().Some? && v'.Own().value in v'.issued - v.issued))
    && (forall r :: r in v.issued && v.Own() != Some(r) ==> (r in v'.routes <==> r in v.routes))
  }

  lemma {:induction false} ExchangedTouchesOwn(v: View, action: Action)
    requires v.OwnerOnly()
    ensures TouchesOwn(v, Exchanged(v, action))
  {
  }

  function After(v: View, actions: seq<Action>): (v': View) {
    if actions == [] then v else Did(After(v, actions[..|actions| - 1]), actions[|actions| - 1])
  }

  method StepGreets(window: Window, e: nat)
    requires window.Valid()
    modifies window, window.world
    ensures window.Valid() && window.Now() == Exchanged(old(window.Now()), Greets(e))
    ensures old(!window.IsOpen()) ==> !window.IsOpen()
  {
    if e !in window.exchanges { window.Greet(e); }
  }

  method StepClaims(window: Window, e: nat, name: string, id: nat)
    requires window.Valid()
    modifies window, window.world
    ensures window.Valid() && window.Now() == Exchanged(old(window.Now()), Claims(e, name, id))
    ensures old(!window.IsOpen()) ==> !window.IsOpen()
  {
    if At(window, e, Greeting) { var ok := window.Claim(e, name, id); }
  }

  method StepShows(window: Window, e: nat, code: string)
    requires window.Valid()
    modifies window, window.world
    ensures window.Valid() && window.Now() == Exchanged(old(window.Now()), Shows(e, code))
    ensures old(!window.IsOpen()) ==> !window.IsOpen()
  {
    if At(window, e, Claimed) { var ok := window.ShowSymbols(e, code); }
  }

  method StepReads(window: Window, e: nat)
    requires window.Valid()
    modifies window, window.world
    ensures window.Valid() && window.Now() == Exchanged(old(window.Now()), Reads(e))
    ensures old(!window.IsOpen()) ==> !window.IsOpen()
  {
    if At(window, e, Shown) { var ok := window.SeeApproved(e); }
  }

  method StepRegisters(window: Window, e: nat, route: nat)
    requires window.Valid()
    modifies window, window.world
    ensures window.Valid() && window.Now() == Exchanged(old(window.Now()), Registers(e, route))
    ensures old(!window.IsOpen()) ==> !window.IsOpen()
  {
    if At(window, e, Cleared) && route !in window.world.issued { window.Register(e, route); }
  }

  method StepSetsRoute(window: Window, e: nat)
    requires window.Valid()
    modifies window, window.world
    ensures window.Valid() && window.Now() == Exchanged(old(window.Now()), SetsRoute(e))
    ensures old(!window.IsOpen()) ==> !window.IsOpen()
  {
    if At(window, e, Registered) { window.SetRoute(e); }
  }

  method StepStores(window: Window, e: nat)
    requires window.Valid()
    modifies window, window.world
    ensures window.Valid() && window.Now() == Exchanged(old(window.Now()), Stores(e))
    ensures old(!window.IsOpen()) ==> !window.IsOpen()
  {
    if At(window, e, Granted) { window.MarkStored(e); }
  }

  method StepReadsOnline(window: Window, e: nat)
    requires window.Valid()
    modifies window, window.world
    ensures window.Valid() && window.Now() == Exchanged(old(window.Now()), ReadsOnline(e))
    ensures old(!window.IsOpen()) ==> !window.IsOpen()
  {
    if At(window, e, Stored) { var ok := window.SeeOnline(e); }
  }

  method StepCommits(window: Window, e: nat)
    requires window.Valid()
    modifies window, window.world
    ensures window.Valid() && window.Now() == Exchanged(old(window.Now()), Commits(e))
    ensures old(!window.IsOpen()) ==> !window.IsOpen()
  {
    if At(window, e, Online) { var ok := window.Commit(e); }
  }

  method StepDrops(window: Window, e: nat)
    requires window.Valid()
    modifies window, window.world
    ensures window.Valid() && window.Now() == Exchanged(old(window.Now()), Drops(e))
    ensures old(!window.IsOpen()) ==> !window.IsOpen()
  {
    if e in window.exchanges && window.exchanges[e].stage != Over { window.Drop(e); }
  }

  method StepTerminalApproves(window: Window, id: nat)
    requires window.Valid()
    modifies window, window.world
    ensures window.Valid() && window.Now() == Did(old(window.Now()), TerminalApproves(id))
    ensures old(!window.IsOpen()) ==> !window.IsOpen()
  {
    var ok := window.Approve(id);
  }

  method StepTimerExpires(window: Window)
    requires window.Valid()
    modifies window, window.world
    ensures window.Valid() && window.Now() == Did(old(window.Now()), TimerExpires)
    ensures old(!window.IsOpen()) ==> !window.IsOpen()
  {
    if window.world.now >= window.deadline { window.Finish(Expired); }
  }

  method StepCancels(window: Window, e: nat)
    requires window.Valid()
    modifies window, window.world
    ensures window.Valid() && window.Now() == Did(old(window.Now()), Cancels(e))
    ensures old(!window.IsOpen()) ==> !window.IsOpen()
  {
    if At(window, e, Over) { window.CancelIfClaimed(e); }
  }

  method StepRouteConnects(window: Window, route: nat, seenOpen: bool)
    requires window.Valid()
    modifies window, window.world
    ensures window.Valid() && window.Now() == Did(old(window.Now()), RouteConnects(route, seenOpen))
    ensures old(!window.IsOpen()) ==> !window.IsOpen()
  {
    window.ConnectedRoute(route, seenOpen);
  }

  method StepClockTick(window: Window)
    requires window.Valid()
    modifies window, window.world
    ensures window.Valid() && window.Now() == Did(old(window.Now()), ClockTick)
    ensures old(!window.IsOpen()) ==> !window.IsOpen()
  {
    window.Tick();
  }

  method StepTerminalCancels(window: Window)
    requires window.Valid()
    modifies window, window.world
    ensures window.Valid() && window.Now() == Did(old(window.Now()), TerminalCancels)
    ensures old(!window.IsOpen()) ==> !window.IsOpen()
  {
    window.Finish(Cancelled);
  }

  method Step(window: Window, action: Action)
    requires window.Valid()
    modifies window, window.world
    ensures window.Valid() && window.Now() == Did(old(window.Now()), action)
    ensures old(!window.IsOpen()) ==> !window.IsOpen()
  {
    match action
    case ClockTick => StepClockTick(window);
    case TerminalApproves(id) => StepTerminalApproves(window, id);
    case TerminalCancels => StepTerminalCancels(window);
    case TimerExpires => StepTimerExpires(window);
    case RouteConnects(route, seenOpen) => StepRouteConnects(window, route, seenOpen);
    case Greets(e) => StepGreets(window, e);
    case Claims(e, name, id) => StepClaims(window, e, name, id);
    case Shows(e, code) => StepShows(window, e, code);
    case Reads(e) => StepReads(window, e);
    case Registers(e, route) => StepRegisters(window, e, route);
    case SetsRoute(e) => StepSetsRoute(window, e);
    case Stores(e) => StepStores(window, e);
    case ReadsOnline(e) => StepReadsOnline(window, e);
    case Commits(e) => StepCommits(window, e);
    case Drops(e) => StepDrops(window, e);
    case Cancels(e) => StepCancels(window, e);
  }

  /** A step registers a route that was never issued before, or revokes the window's own; no other route changes. */
  method StepTouchesOwn(window: Window, action: Action)
    requires window.Valid()
    modifies window, window.world
    ensures window.Valid() && window.Now() == Did(old(window.Now()), action)
    ensures old(!window.IsOpen()) ==> !window.IsOpen()
    ensures window.world.now >= old(window.world.now) && window.world.issued >= old(window.world.issued)
    ensures window.Own() == old(window.Own()) || (window.Own().Some? && window.Own().value !in old(window.world.issued))
    ensures forall r :: r in old(window.world.issued) && old(window.Own()) != Some(r) ==>
      (r in window.world.routes <==> r in old(window.world.routes))
  {
    window.OwnsIt();
    DidTouchesOwn(window.Now(), action);
    Step(window, action);
  }

  /** Whatever the order of the steps: the window is the fold of them, keeps its invariant, and once closed it stays closed. */
  method Play(window: Window, actions: seq<Action>)
    requires window.Valid()
    modifies window, window.world
    ensures window.Valid() && window.Now() == After(old(window.Now()), actions)
    ensures old(!window.IsOpen()) ==> !window.IsOpen()
  {
    assert actions[..0] == [];
    for i := 0 to |actions|
      invariant window.Valid() && window.Now() == After(old(window.Now()), actions[..i])
      invariant old(!window.IsOpen()) ==> !window.IsOpen()
    {
      assert actions[..i + 1][..i] == actions[..i];
      Step(window, actions[i]);
    }
    assert actions[..|actions|] == actions;
  }

  /** Somebody opens a window, time passes, or somebody does something to a window that was opened before. */
  datatype Move = Opens(duration: nat) | Passes | Acts(n: nat, action: Action)

  /**
   Every run of the relay's enrollment over one clock and one registry, with any number of windows,
   closed ones included: each keeps its invariant whatever the others do, only the newest can be open,
   and no route is registered for two of them.
   */
  method Host(world: World, moves: seq<Move>) returns (enrollment: Enrollment, hosted: seq<Window>)
    requires world.Valid()
    modifies world
    ensures fresh(enrollment) && enrollment.OneOpen() && enrollment.world == world && enrollment.windows == (set w | w in hosted)
    ensures forall w :: w in hosted ==> fresh(w) && w.world == world && w.Valid()
    ensures forall k :: 0 <= k < |hosted| - 1 ==> !hosted[k].IsOpen()
    ensures forall j, k :: 0 <= j < k < |hosted| ==> hosted[j] != hosted[k]
    ensures forall j, k :: 0 <= j < k < |hosted| && hosted[j].Own().Some? ==> hosted[j].Own() != hosted[k].Own()
  {
    enrollment := new Enrollment(world);
    hosted := [];
    for i := 0 to |moves|
      invariant fresh(enrollment) && enrollment.world == world && enrollment.windows == (set w | w in hosted)
      invariant enrollment.OneOpen() && enrollment.Sharing()
      invariant forall w :: w in hosted ==> fresh(w)
      invariant forall j, k :: 0 <= j < k < |hosted| ==> hosted[j] != hosted[k]
      invariant enrollment.active == if hosted == [] then None else Some(hosted[|hosted| - 1])
    {
      match moves[i]
      case Opens(duration) =>
        var window := enrollment.Open(duration);
        if window.Some? { hosted := hosted + [window.value]; }
      case Passes =>
        enrollment.Pass();
      case Acts(n, action) =>
        if n < |hosted| {
          assert hosted[n] in hosted;
          enrollment.StepAny(hosted[n], action);
        }
    }
    forall k | 0 <= k < |hosted| - 1 ensures !hosted[k].IsOpen() {
      assert hosted[k] != hosted[|hosted| - 1];
    }
  }

  /** What the invariant promises. Commit and cancellation exclude each other, and only one exchange can commit. */
  lemma {:induction false} CommitExcludesCancel(window: Window, e: nat, f: nat)
    requires window.Valid() && e in window.exchanges && f in window.exchanges && window.exchanges[e].committed
    ensures !window.stop && window.phase == Connected(window.exchanges[e].name, window.exchanges[e].route.value)
    ensures window.exchanges[f].committed ==> e == f
  {
    assert window.ExchangeValid(e) && window.ExchangeValid(f);
  }

  /** A commit was made before the deadline, for the candidate that was displayed and approved before the deadline. */
  lemma {:induction false} CommitWasApproved(window: Window, e: nat)
    requires window.Valid() && e in window.exchanges && window.exchanges[e].committed
    ensures window.candidate.Some? && window.candidate.value.approved && window.candidate.value.id in window.displayed
    ensures window.approvedAt.Some? && window.approvedAt.value < window.deadline
    ensures window.committedAt.Some? && window.committedAt.value < window.deadline
  {
    assert window.ExchangeValid(e);
  }

  /** Once an exchange is over, its route is registered if and only if it committed. */
  lemma {:induction false} OverIsRegisteredIffCommitted(window: Window, e: nat)
    requires window.Valid() && e in window.exchanges && window.exchanges[e].stage == Over && window.exchanges[e].route.Some?
    ensures window.exchanges[e].route.value in window.world.routes <==> window.exchanges[e].committed
  {
    assert window.ExchangeValid(e);
  }
}
