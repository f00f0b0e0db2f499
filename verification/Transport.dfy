// The connection slots of transport.go. For each host there is a channel of tokens, a
// pool of idle connections and perhaps a WP connection; round trips run concurrently,
// each stretch of theirs between two channel operations being one step here.

module Transport {
  import opened Protocol

  type Host = string
  type Trip = nat

  /** A connection, by the number of its dial. */
  type Net = nat

  const DEFAULT_MAX_IDLE := 2

  /** Where a round trip is. `Waiting` and `Dialed` are inside dial and up to the choice
      of the protocol, and hold the transport's lock. */
  datatype Place = Waiting | Dialed | OverHTTP(conn: Net) | OverWP | Returned | Failed

  /** The slots of one host: the two channels, oldest first, the WP connection, and how
      many slots it holds. A slot that no path gives back is `lost`. */
  datatype Slots = Slots(tokens: nat, pool: seq<Net>, wp: bool, held: nat, lost: nat)

  datatype State = State(
    max: nat,
    slots: map<Host, Slots>,
    trips: map<Trip, (Host, Place)>,
    lock: Option<Trip>,
    dialed: seq<Host>)

  /** How a dialed connection turns out: over plain HTTP, as a WP connection, or with an
      error; the last one is an error of NewClientConn, which leaves the lock held. */
  datatype Dialing = Http | Wp | DialError | ClientConnError

  /** How an HTTP exchange ends. */
  datatype Exchange = KeepAlive | Closing | ExchangeError

  datatype Action =
    | Start(trip: Trip, host: Host, secure: bool)
    | TakeToken(trip: Trip)
    | Dial(trip: Trip, outcome: Dialing)
    | Conclude(trip: Trip, exchange: Exchange)

  /** RoundTrip's own default for MaxIdleConnsPerHost. */
  function Begin(maxIdle: nat): State {
    State(if maxIdle == 0 then DEFAULT_MAX_IDLE else maxIdle, map[], map[], None, [])
  }

  function Move(s: State, trip: Trip, host: Host, slots: Slots, place: Place): State {
    s.(slots := s.slots[host := slots], trips := s.trips[trip := (host, place)])
  }

  function Initial(s: State, host: Host): Slots {
    if host in s.slots then s.slots[host] else Slots(s.max, [], false, 0, 0)
  }

  predicate Has(s: State, trip: Trip) {
    trip in s.trips && s.trips[trip].0 in s.slots
  }

  function DoStart(s: State, trip: Trip, host: Host, secure: bool): State {
    var h := Initial(s, host);
    if s.lock.Some? || trip in s.trips then s
    else if h.pool != [] then Move(s, trip, host, h.(pool := h.pool[1..]), OverHTTP(h.pool[0]))
    else if h.wp && secure then Move(s, trip, host, h, OverWP)
    else Move(s, trip, host, h, Waiting).(lock := Some(trip))
  }

  function DoTake(s: State, trip: Trip): State {
    if !Has(s, trip) || !s.trips[trip].1.Waiting? || s.slots[s.trips[trip].0].tokens == 0 then s
    else
      var host := s.trips[trip].0;
      Move(s, trip, host, s.slots[host].(tokens := s.slots[host].tokens - 1), Dialed)
  }

  function DoDial(s: State, trip: Trip, outcome: Dialing): State {
    if !Has(s, trip) || !s.trips[trip].1.Dialed? then s
    else
      var host := s.trips[trip].0;
      var h := s.slots[host];
      match outcome
      case Http => Move(s, trip, host, h, OverHTTP(|s.dialed|)).(lock := None, dialed := s.dialed + [host])
      case Wp => Move(s, trip, host, h.(wp := true, held := h.held + 1), OverWP).(lock := None)
      case DialError => Move(s, trip, host, h.(lost := h.lost + 1), Failed).(lock := None)
      case ClientConnError => Move(s, trip, host, h.(lost := h.lost + 1), Failed)
  }

  function DoConclude(s: State, trip: Trip, exchange: Exchange): State {
    if !Has(s, trip) || !s.trips[trip].1.OverHTTP? then s
    else
      var host := s.trips[trip].0;
      var h := s.slots[host];
      match exchange
      case KeepAlive => Move(s, trip, host, h.(pool := h.pool + [s.trips[trip].1.conn]), Returned)
      case Closing => Move(s, trip, host, h.(tokens := h.tokens + 1), Returned)
      case ExchangeError => Move(s, trip, host, h.(lost := h.lost + 1), Failed)
  }

  function Step(s: State, a: Action): State {
    match a
    case Start(trip, host, secure) => DoStart(s, trip, host, secure)
    case TakeToken(trip) => DoTake(s, trip)
    case Dial(trip, outcome) => DoDial(s, trip, outcome)
    case Conclude(trip, exchange) => DoConclude(s, trip, exchange)
  }

  function Run(s: State, actions: seq<Action>): State
    decreases actions
  {
    if actions == [] then s else Run(Step(s, actions[0]), actions[1..])
  }

  // ------------------------------------------------------------------ conservation

  predicate Holds(place: Place) {
    place.Dialed? || place.OverHTTP?
  }

  /** The round trips that hold a slot of the host: dialing, or over HTTP. */
  ghost function Busy(s: State, host: Host): set<Trip> {
    set trip | trip in s.trips && s.trips[trip].0 == host && Holds(s.trips[trip].1)
  }

  /** Every slot of a host is somewhere, and only once. */
  ghost predicate Conserved(s: State, host: Host)
    requires host in s.slots
  {
    var h := s.slots[host];
    h.tokens + |h.pool| + |Busy(s, host)| + h.held + h.lost == s.max
  }

  ghost predicate Inv(s: State) {
    && (forall host :: host in s.slots ==> Conserved(s, host))
    && (forall trip :: trip in s.trips ==> s.trips[trip].0 in s.slots)
  }

  lemma BusyMoves(s: State, trip: Trip, host: Host, slots: Slots, place: Place, other: Host)
    requires trip in s.trips ==> s.trips[trip].0 == host
    ensures var t := Move(s, trip, host, slots, place);
      Busy(t, other) ==
        if other != host then Busy(s, other)
        else if Holds(place) then Busy(s, host) + {trip}
        else Busy(s, host) - {trip}
  {
  }

  function Slotted(h: Slots): nat {
    h.tokens + |h.pool| + h.held + h.lost
  }

  /** Whether a move takes a slot and gives none back, or the other way around. */
  ghost predicate Balanced(s: State, trip: Trip, host: Host, slots: Slots, place: Place) {
    && (trip in s.trips ==> s.trips[trip].0 == host)
    && Slotted(slots) + (if Holds(place) then 1 else 0)
       == Slotted(Initial(s, host)) + if trip in s.trips && Holds(s.trips[trip].1) then 1 else 0
  }

  lemma MoveConserves(s: State, trip: Trip, host: Host, slots: Slots, place: Place)
    requires Balanced(s, trip, host, slots, place)
    requires if host in s.slots then Conserved(s, host) else Busy(s, host) == {}
    ensures Conserved(Move(s, trip, host, slots, place), host)
  {
    hide Busy, Holds;
    BusyMoves(s, trip, host, slots, place, host) by { BalancedMeans(s, trip, host, slots, place); }
    BusyHas(s, trip, host);
    SizeWith(Busy(s, host), trip);
  }

  lemma BusyHas(s: State, trip: Trip, host: Host)
    requires trip in s.trips ==> s.trips[trip].0 == host
    ensures trip in Busy(s, host) <==> trip in s.trips && Holds(s.trips[trip].1)
  {
  }

  lemma SizeWith(trips: set<Trip>, trip: Trip)
    ensures |trips + {trip}| == |trips| + if trip in trips then 0 else 1
    ensures |trips - {trip}| == |trips| - if trip in trips then 1 else 0
  {
    assert trip in trips ==> trips + {trip} == trips;
    assert trip !in trips ==> trips - {trip} == trips;
  }

  /** A balanced move keeps the account of every host. */
  lemma MoveKeepsInv(s: State, trip: Trip, host: Host, slots: Slots, place: Place)
    requires Inv(s) && Balanced(s, trip, host, slots, place)
    ensures Inv(Move(s, trip, host, slots, place))
  {
    hide Busy, Balanced;
    var t := Move(s, trip, host, slots, place);
    if host !in s.slots {
      NoneBusy(s, host);
    }
    MoveConserves(s, trip, host, slots, place);
    forall other | other in t.slots ensures Conserved(t, other) {
      if other != host {
        assert Conserved(s, other);
        BusyMoves(s, trip, host, slots, place, other) by { BalancedMeans(s, trip, host, slots, place); }
      }
    }
  }

  lemma BalancedMeans(s: State, trip: Trip, host: Host, slots: Slots, place: Place)
    requires Balanced(s, trip, host, slots, place)
    ensures trip in s.trips ==> s.trips[trip].0 == host
  {
  }

  lemma NoneBusy(s: State, host: Host)
    requires Inv(s) && host !in s.slots
    ensures Busy(s, host) == {}
  {
  }

  lemma OthersKeepInv(s: State, lock: Option<Trip>, dialed: seq<Host>)
    requires Inv(s)
    ensures Inv(s.(lock := lock, dialed := dialed))
  {
    var t := s.(lock := lock, dialed := dialed);
    forall host | host in t.slots ensures Conserved(t, host) {
      assert Conserved(s, host);
      assert Busy(t, host) == Busy(s, host);
    }
  }

  lemma StepKeepsInv(s: State, a: Action)
    requires Inv(s)
    ensures Inv(Step(s, a))
  {
    hide Inv, Busy;
    match a
    case Start(trip, host, secure) =>
      if s.lock.None? && trip !in s.trips {
        var h := Initial(s, host);
        if h.pool != [] {
          MoveKeepsInv(s, trip, host, h.(pool := h.pool[1..]), OverHTTP(h.pool[0]));
        } else if h.wp && secure {
          MoveKeepsInv(s, trip, host, h, OverWP);
        } else {
          MoveKeepsInv(s, trip, host, h, Waiting);
          OthersKeepInv(Move(s, trip, host, h, Waiting), Some(trip), s.dialed);
        }
      }
    case TakeToken(trip) =>
      if Has(s, trip) && s.trips[trip].1.Waiting? && s.slots[s.trips[trip].0].tokens > 0 {
        var host := s.trips[trip].0;
        MoveKeepsInv(s, trip, host, s.slots[host].(tokens := s.slots[host].tokens - 1), Dialed);
      }
    case Dial(trip, outcome) => DialKeepsInv(s, trip, outcome);
    case Conclude(trip, exchange) =>
      if Has(s, trip) && s.trips[trip].1.OverHTTP? {
        var host := s.trips[trip].0;
        var h := s.slots[host];
        match exchange {
          case KeepAlive => MoveKeepsInv(s, trip, host, h.(pool := h.pool + [s.trips[trip].1.conn]), Returned);
          case Closing => MoveKeepsInv(s, trip, host, h.(tokens := h.tokens + 1), Returned);
          case ExchangeError => MoveKeepsInv(s, trip, host, h.(lost := h.lost + 1), Failed);
        }
      }
  }

  lemma DialKeepsInv(s: State, trip: Trip, outcome: Dialing)
    requires Inv(s)
    ensures Inv(DoDial(s, trip, outcome))
  {
    hide Inv, Busy;
    if Has(s, trip) && s.trips[trip].1.Dialed? {
      var host := s.trips[trip].0;
      var h := s.slots[host];
      var (slots, place) :=
        match outcome
        case Http => (h, OverHTTP(|s.dialed|))
        case Wp => (h.(wp := true, held := h.held + 1), OverWP)
        case _ => (h.(lost := h.lost + 1), Failed);
      MoveKeepsInv(s, trip, host, slots, place);
      var t := DoDial(s, trip, outcome);
      OthersKeepInv(Move(s, trip, host, slots, place), t.lock, t.dialed);
    }
  }

  /** In every run of any number of round trips to any hosts. */
  lemma {:induction false} RunKeepsInv(s: State, actions: seq<Action>)
    requires Inv(s)
    ensures Inv(Run(s, actions))
    decreases actions
  {
    hide Step, Inv;
    if actions != [] {
      StepKeepsInv(s, actions[0]);
      RunKeepsInv(Step(s, actions[0]), actions[1..]);
    }
  }

  lemma BeginInv(maxIdle: nat)
    ensures Inv(Begin(maxIdle))
  {
  }

  /** So neither channel is full when a finished exchange sends on it, and the live
      connections of a host are never more than the limit. */
  lemma SendsNeverBlock(s: State, trip: Trip)
    requires Inv(s) && trip in s.trips && s.trips[trip].1.OverHTTP?
    ensures var h := s.slots[s.trips[trip].0]; |h.pool| < s.max && h.tokens < s.max
  {
    var host := s.trips[trip].0;
    assert Conserved(s, host);
    assert trip in Busy(s, host);
    assert |Busy(s, host)| >= 1 by {
      assert Busy(s, host) != {};
    }
  }

  lemma LiveIsBounded(s: State, host: Host)
    requires Inv(s) && host in s.slots
    ensures var h := s.slots[host]; |h.pool| + |Busy(s, host)| + h.held <= s.max
  {
    assert Conserved(s, host);
  }

  /** Slots are lost for good: a host that has lost all of them has no connection and no
      token, ever after. */
  lemma LostStaysLost(s: State, actions: seq<Action>, host: Host)
    requires Inv(s) && host in s.slots && s.slots[host].lost == s.max
    ensures var t := Run(s, actions);
      host in t.slots && t.slots[host].tokens == 0 && t.slots[host].pool == [] && Busy(t, host) == {}
  {
    LossesGrow(s, actions, host);
    RunKeepsInv(s, actions);
    hide Run;
    assert Conserved(Run(s, actions), host);
  }

  lemma {:induction false} LossesGrow(s: State, actions: seq<Action>, host: Host)
    requires host in s.slots
    ensures var t := Run(s, actions);
      t.max == s.max && host in t.slots && t.slots[host].lost >= s.slots[host].lost
    decreases actions
  {
    if actions != [] {
      LossesGrow(Step(s, actions[0]), actions[1..], host);
    }
  }

  // --------------------------------------------------------------------- the accounts

  /** What a step is to the slots of a host: a token is taken or given back, a slot is lost
      or goes to WP, a connection becomes idle or is used again. */
  datatype Event = Nothing | Takes | Frees | Loses | Joins | Idles(conn: Net) | Reuses(conn: Net)

  /** Read off what happens to the trip: a dial or handshake or exchange that fails loses a
      slot, an exchange ends with its connection kept or closed. */
  function EventOf(s: State, a: Action, host: Host): Event {
    match a
    case Start(trip, other, _) =>
      var t := Step(s, a);
      if other == host && trip !in s.trips && trip in t.trips && t.trips[trip].1.OverHTTP? then
        Reuses(t.trips[trip].1.conn)
      else Nothing
    case TakeToken(trip) =>
      if At(s, trip, host) && s.trips[trip].1.Waiting? && Step(s, a).trips[trip].1.Dialed? then Takes else Nothing
    case Dial(trip, outcome) =>
      if !At(s, trip, host) || !s.trips[trip].1.Dialed? || outcome.Http? then Nothing
      else if outcome.Wp? then Joins
      else Loses
    case Conclude(trip, exchange) =>
      if !At(s, trip, host) || !s.trips[trip].1.OverHTTP? then Nothing
      else
        match exchange
        case KeepAlive => Idles(s.trips[trip].1.conn)
        case Closing => Frees
        case ExchangeError => Loses
  }

  predicate At(s: State, trip: Trip, host: Host) {
    trip in s.trips && s.trips[trip].0 == host && host in s.slots
  }

  function Events(s: State, actions: seq<Action>, host: Host): (es: seq<Event>)
    decreases actions
  {
    if actions == [] then [] else [EventOf(s, actions[0], host)] + Events(Step(s, actions[0]), actions[1..], host)
  }

  function Count(es: seq<Event>, e: Event): nat {
    if es == [] then 0 else (if es[0] == e then 1 else 0) + Count(es[1..], e)
  }

  function Idled(es: seq<Event>): (conns: seq<Net>) {
    if es == [] then [] else (if es[0].Idles? then [es[0].conn] else []) + Idled(es[1..])
  }

  function Reused(es: seq<Event>): (conns: seq<Net>) {
    if es == [] then [] else (if es[0].Reuses? then [es[0].conn] else []) + Reused(es[1..])
  }

  /** The slots of a host after an event of its. */
  ghost predicate Moves(h: Slots, e: Event, g: Slots) {
    && g.lost == h.lost + (if e.Loses? then 1 else 0)
    && g.held == h.held + (if e.Joins? then 1 else 0)
    && g.tokens + (if e.Takes? then 1 else 0) == h.tokens + (if e.Frees? then 1 else 0)
    && h.pool + (if e.Idles? then [e.conn] else []) == (if e.Reuses? then [e.conn] else []) + g.pool
    && (g.wp <==> h.wp || e.Joins?)
  }

  lemma StepMoves(s: State, a: Action, host: Host)
    ensures Moves(Initial(s, host), EventOf(s, a, host), Initial(Step(s, a), host))
    ensures Step(s, a).max == s.max
  {
    hide Busy;
  }

  /** The slots of a host, from the events of a run: `lost` grows by the failed dials,
      handshakes and exchanges, and by them alone; so do the slots of WP by its connections,
      the tokens by those given back less those taken; and the pool is first in first out. */
  lemma {:induction false} Accounts(s: State, actions: seq<Action>, host: Host)
    ensures var h, g, es := Initial(s, host), Initial(Run(s, actions), host), Events(s, actions, host);
      && g.lost == h.lost + Count(es, Loses)
      && g.held == h.held + Count(es, Joins)
      && g.tokens + Count(es, Takes) == h.tokens + Count(es, Frees)
      && h.pool + Idled(es) == Reused(es) + g.pool
      && (g.wp <==> h.wp || Count(es, Joins) > 0)
    decreases actions
  {
    hide Step, Initial, EventOf;
    var h := Initial(s, host);
    if actions == [] {
      assert h.pool + [] == [] + h.pool;
    } else {
      var t := Step(s, actions[0]);
      var e, es := EventOf(s, actions[0], host), Events(t, actions[1..], host);
      StepMoves(s, actions[0], host);
      Accounts(t, actions[1..], host);
      assert ([e] + es)[0] == e && ([e] + es)[1..] == es;
      var mid, g := Initial(t, host), Initial(Run(t, actions[1..]), host);
      PoolJoins(h.pool, if e.Idles? then [e.conn] else [], Idled(es), if e.Reuses? then [e.conn] else [], mid.pool,
                Reused(es), g.pool);
    }
  }

  lemma PoolJoins<T>(h: seq<T>, i: seq<T>, more: seq<T>, r: seq<T>, mid: seq<T>, rs: seq<T>, g: seq<T>)
    requires h + i == r + mid && mid + more == rs + g
    ensures h + (i + more) == (r + rs) + g
  {
    assert h + (i + more) == (h + i) + more == r + (mid + more) == r + (rs + g) == (r + rs) + g;
  }

  /** A trip that asked for plain HTTP never goes over WP, in any run, unless its own dial
      made a WP connection. */
  lemma {:induction false} PlainStaysPlain(s: State, actions: seq<Action>, trip: Trip)
    requires trip in s.trips ==> !s.trips[trip].1.OverWP?
    requires forall i :: 0 <= i < |actions| ==>
      !(actions[i].Start? && actions[i].trip == trip && actions[i].secure) && actions[i] != Dial(trip, Wp)
    ensures var t := Run(s, actions); trip in t.trips ==> !t.trips[trip].1.OverWP?
    decreases actions
  {
    if actions != [] {
      PlainStaysPlain(Step(s, actions[0]), actions[1..], trip);
    }
  }

  /** A trip that is inside dial holds the lock. */
  ghost predicate Locked(s: State) {
    forall trip :: trip in s.trips && (s.trips[trip].1.Waiting? || s.trips[trip].1.Dialed?) ==> s.lock == Some(trip)
  }

  /** A trip over HTTPS to a host that has a WP connection, and no idle one, joins it at
      once, without a dial. */
  lemma SecureJoins(s: State, trip: Trip, host: Host)
    requires s.lock.None? && trip !in s.trips && host in s.slots && s.slots[host].wp && s.slots[host].pool == []
    ensures var t := Step(s, Start(trip, host, true));
      t.trips[trip] == (host, OverWP) && t.lock.None? && t.slots == s.slots
  {
    assert s.slots[host := s.slots[host]] == s.slots;
  }

  /** An error of NewClientConn leaves the lock held: the trip fails, and in no run does any
      other ever start or go on to dial. */
  lemma ErrorLeavesLock(s: State, trip: Trip, actions: seq<Action>)
    requires Locked(s) && Has(s, trip) && s.trips[trip].1.Dialed?
    ensures var t := Run(Step(s, Dial(trip, ClientConnError)), actions);
      && trip in t.trips && t.trips[trip].1.Failed?
      && t.trips.Keys == s.trips.Keys && t.dialed == s.dialed && t.lock == Some(trip)
  {
    var t := Step(s, Dial(trip, ClientConnError));
    HeldForever(t, trip, actions);
    hide Run;
  }

  lemma {:induction false} HeldForever(s: State, trip: Trip, actions: seq<Action>)
    requires s.lock == Some(trip) && trip in s.trips && s.trips[trip].1.Failed?
    requires forall u :: u in s.trips ==> !s.trips[u].1.Waiting? && !s.trips[u].1.Dialed?
    ensures var t := Run(s, actions);
      t.lock == s.lock && t.trips.Keys == s.trips.Keys && t.dialed == s.dialed && t.trips[trip] == s.trips[trip]
    decreases actions
  {
    if actions != [] {
      HeldForever(Step(s, actions[0]), trip, actions[1..]);
    }
  }

  // --------------------------------------------------------------------- starvation

  lemma BeginLocked(maxIdle: nat)
    ensures Locked(Begin(maxIdle))
  {
  }

  lemma StepKeepsLocked(s: State, a: Action)
    requires Locked(s)
    ensures Locked(Step(s, a))
  {
  }

  lemma {:induction false} RunKeepsLocked(s: State, actions: seq<Action>)
    requires Locked(s)
    ensures Locked(Run(s, actions))
    decreases actions
  {
    hide Step, Locked;
    if actions != [] {
      StepKeepsLocked(s, actions[0]);
      RunKeepsLocked(Step(s, actions[0]), actions[1..]);
    }
  }

  /** A trip waits for a token of its host, holding the lock. */
  predicate WaitsFor(s: State, trip: Trip, host: Host) {
    trip in s.trips && s.trips[trip] == (host, Waiting) && s.lock == Some(trip) && host in s.slots
  }

  /** It waits, there is no token, and no exchange is left that could give one back: the
      slots of the host are idle in its pool, held by WP, or lost. */
  ghost predicate Stuck(s: State, trip: Trip, host: Host) {
    WaitsFor(s, trip, host) && s.slots[host].tokens == 0 && Busy(s, host) == {}
  }

  /** An exchange with the host that ends in a close, and so gives its token back. */
  predicate GivesBack(s: State, a: Action, host: Host) {
    a.Conclude? && a.exchange.Closing? && a.trip in s.trips && s.trips[a.trip].0 == host
  }

  lemma StepWaits(s: State, a: Action, trip: Trip, host: Host)
    requires Locked(s) && WaitsFor(s, trip, host) && s.slots[host].tokens == 0 && !GivesBack(s, a, host)
    ensures var t := Step(s, a);
      && Locked(t) && WaitsFor(t, trip, host) && t.slots[host].tokens == 0
      && t.trips.Keys == s.trips.Keys && (forall u :: u in s.trips ==> t.trips[u].0 == s.trips[u].0)
      && Busy(t, host) <= Busy(s, host)
  {
  }

  /** Whatever else happens, and however many exchanges end, no trip starts and the one
      that waits goes on waiting until an exchange with its host ends in a close. */
  lemma {:induction false} WaitsUntilClose(s: State, actions: seq<Action>, trip: Trip, host: Host)
    requires Locked(s) && WaitsFor(s, trip, host) && s.slots[host].tokens == 0
    requires forall i :: 0 <= i < |actions| ==> !GivesBack(s, actions[i], host)
    ensures var t := Run(s, actions);
      && Locked(t) && WaitsFor(t, trip, host) && t.slots[host].tokens == 0
      && t.trips.Keys == s.trips.Keys && (Busy(t, host) == {} ==> Stuck(t, trip, host))
    decreases actions
  {
    hide Step, Busy;
    if actions != [] {
      StepWaits(s, actions[0], trip, host);
      WaitsUntilClose(Step(s, actions[0]), actions[1..], trip, host);
    }
  }

  lemma StepStaysStuck(s: State, a: Action, trip: Trip, host: Host)
    requires Locked(s) && Stuck(s, trip, host)
    ensures var t := Step(s, a); Locked(t) && Stuck(t, trip, host) && t.trips.Keys == s.trips.Keys
  {
    if GivesBack(s, a, host) {
      NotBusy(s, a.trip, host);
    } else {
      StepWaits(s, a, trip, host);
    }
    hide Busy, WaitsFor, Locked;
  }

  lemma NotBusy(s: State, trip: Trip, host: Host)
    requires Busy(s, host) == {} && trip in s.trips && s.trips[trip].0 == host
    ensures !Holds(s.trips[trip].1)
  {
    assert trip !in Busy(s, host);
  }

  /** From there it waits in every run, and no round trip, to any host, ever starts. */
  lemma {:induction false} StuckForever(s: State, actions: seq<Action>, trip: Trip, host: Host)
    requires Locked(s) && Stuck(s, trip, host)
    ensures var t := Run(s, actions); Stuck(t, trip, host) && t.trips.Keys == s.trips.Keys
    decreases actions
  {
    hide Step, Stuck, Locked;
    if actions != [] {
      StepStaysStuck(s, actions[0], trip, host);
      StuckForever(Step(s, actions[0]), actions[1..], trip, host);
    }
  }

  ghost predicate CanGoOn(s: State, trip: Trip) {
    exists actions :: Proceeds(Run(s, actions), trip)
  }

  predicate Proceeds(s: State, trip: Trip) {
    trip in s.trips && !s.trips[trip].1.Waiting?
  }

  /** Exactly: a waiting trip can go on, in some run, if and only if there is a token of its
      host or an exchange with it is under way. */
  lemma WaitsExactly(s: State, trip: Trip, host: Host)
    requires Inv(s) && Locked(s) && WaitsFor(s, trip, host)
    ensures CanGoOn(s, trip) <==> !Stuck(s, trip, host)
  {
    hide Busy, Run, Inv;
    if Stuck(s, trip, host) {
      forall actions ensures !Proceeds(Run(s, actions), trip) {
        StuckForever(s, actions, trip, host);
      }
    } else if s.slots[host].tokens > 0 {
      TakesToken(s, trip, host);
    } else {
      var u :| u in Busy(s, host);
      ClosesThenTakes(s, trip, host, u);
    }
  }

  lemma TakesToken(s: State, trip: Trip, host: Host)
    requires WaitsFor(s, trip, host) && s.slots[host].tokens > 0
    ensures Proceeds(Run(s, [TakeToken(trip)]), trip)
  {
    assert [TakeToken(trip)][1..] == [];
  }

  lemma ClosesThenTakes(s: State, trip: Trip, host: Host, u: Trip)
    requires Locked(s) && WaitsFor(s, trip, host) && u in Busy(s, host)
    ensures Proceeds(Run(s, [Conclude(u, Closing), TakeToken(trip)]), trip)
  {
    var t := Step(s, Conclude(u, Closing));
    TakesToken(t, trip, host);
    hide Proceeds;
    assert [Conclude(u, Closing), TakeToken(trip)][1..] == [TakeToken(trip)];
  }

  lemma RunCons(s: State, a: Action, rest: seq<Action>)
    ensures Run(s, [a] + rest) == Run(Step(s, a), rest)
  {
    assert ([a] + rest)[1..] == rest;
  }

  /** After a trip has taken a token and dialed. */
  function Dialled(s: State, trip: Trip, host: Host, h: Slots): State
    requires h.tokens > 0
  {
    Move(s, trip, host, h.(tokens := h.tokens - 1), OverHTTP(|s.dialed|)).(dialed := s.dialed + [host])
  }

  lemma Dials(s: State, trip: Trip, host: Host, rest: seq<Action>)
    requires s.lock.None? && trip !in s.trips
    requires var h := Initial(s, host); h.pool == [] && !h.wp && h.tokens > 0
    ensures Run(s, [Start(trip, host, false)] + ([TakeToken(trip)] + ([Dial(trip, Http)] + rest)))
         == Run(Dialled(s, trip, host, Initial(s, host)), rest)
  {
    hide Run;
    var a := Step(s, Start(trip, host, false));
    var b := Step(a, TakeToken(trip));
    RunCons(s, Start(trip, host, false), [TakeToken(trip)] + ([Dial(trip, Http)] + rest));
    RunCons(a, TakeToken(trip), [Dial(trip, Http)] + rest);
    RunCons(b, Dial(trip, Http), rest);
    assert Step(b, Dial(trip, Http)) == Dialled(s, trip, host, Initial(s, host));
  }

  /** Two exchanges that keep their connections alive, and a third trip: with the default
      limit that is enough. */
  function Starving(host: Host): seq<Action> {
    [Start(0, host, false)] + ([TakeToken(0)] + ([Dial(0, Http)] +
    ([Start(1, host, false)] + ([TakeToken(1)] + ([Dial(1, Http)] + Idling(host))))))
  }

  function Idling(host: Host): seq<Action> {
    [Start(2, host, false)] + ([Conclude(0, KeepAlive)] + ([Conclude(1, KeepAlive)] + []))
  }

  function OneBusy(host: Host): State {
    State(2, map[host := Slots(1, [], false, 0, 0)], map[0 := (host, OverHTTP(0))], None, [host])
  }

  function TwoBusy(host: Host): State {
    State(2, map[host := Slots(0, [], false, 0, 0)], map[0 := (host, OverHTTP(0)), 1 := (host, OverHTTP(1))], None,
          [host, host])
  }

  function TwoIdle(host: Host): State {
    State(2, map[host := Slots(0, [0, 1], false, 0, 0)],
          map[0 := (host, Returned), 1 := (host, Returned), 2 := (host, Waiting)], Some(2), [host, host])
  }

  lemma DialsTwo(host: Host)
    ensures Run(Begin(0), Starving(host)) == Run(TwoBusy(host), Idling(host))
  {
    hide Run, Idling;
    var second := [Start(1, host, false)] + ([TakeToken(1)] + ([Dial(1, Http)] + Idling(host)));
    Dials(Begin(0), 0, host, second);
    assert OneBusy(host) == Dialled(Begin(0), 0, host, Slots(2, [], false, 0, 0)) by {
      assert OneBusy(host).slots == map[][host := Slots(1, [], false, 0, 0)];
      assert OneBusy(host).trips == map[][0 := (host, OverHTTP(0))];
      assert OneBusy(host).dialed == [] + [host];
    }
    Dials(OneBusy(host), 1, host, Idling(host));
    assert TwoBusy(host) == Dialled(OneBusy(host), 1, host, Slots(1, [], false, 0, 0)) by {
      assert TwoBusy(host).slots == OneBusy(host).slots[host := Slots(0, [], false, 0, 0)];
      assert TwoBusy(host).trips == OneBusy(host).trips[1 := (host, OverHTTP(1))];
      assert TwoBusy(host).dialed == [host] + [host];
    }
  }

  lemma BothIdle(host: Host)
    ensures Run(TwoBusy(host), Idling(host)) == TwoIdle(host)
  {
    hide Run;
    var s := TwoBusy(host);
    var t := Step(s, Start(2, host, false));
    var u := Step(t, Conclude(0, KeepAlive));
    assert Step(u, Conclude(1, KeepAlive)) == TwoIdle(host) by {
      assert TwoIdle(host).trips
          == s.trips[2 := (host, Waiting)][0 := (host, Returned)][1 := (host, Returned)];
      assert u.slots == map[host := Slots(0, [0], false, 0, 0)] by { assert [] + [0] == [0]; }
      assert [0] + [1] == [0, 1];
      assert TwoIdle(host).slots == u.slots[host := Slots(0, [0, 1], false, 0, 0)];
    }
    RunCons(s, Start(2, host, false), [Conclude(0, KeepAlive)] + ([Conclude(1, KeepAlive)] + []));
    RunCons(t, Conclude(0, KeepAlive), [Conclude(1, KeepAlive)] + []);
    RunCons(u, Conclude(1, KeepAlive), []);
    RunNothing(Step(u, Conclude(1, KeepAlive)));
  }

  lemma IdleIsStuck(host: Host)
    ensures Stuck(TwoIdle(host), 2, host)
  {
    assert Busy(TwoIdle(host), host) == {};
  }

  lemma DefaultStarves(host: Host)
    ensures var s := Run(Begin(0), Starving(host));
      Inv(s) && Locked(s) && Stuck(s, 2, host) && s.slots[host].pool == [0, 1]
  {
    hide Run, Inv, Locked, Stuck, Starving, Idling, TwoBusy;
    BeginInv(0);
    RunKeepsInv(Begin(0), Starving(host));
    BeginLocked(0);
    RunKeepsLocked(Begin(0), Starving(host));
    DialsTwo(host);
    BothIdle(host);
    IdleIsStuck(host);
  }

  lemma RunNothing(s: State)
    ensures Run(s, []) == s
  {
  }

  // --------------------------------------------------------------------- exclusion

  /** Connections that are idle or in use belong to their host, and each is idle once or
      in one round trip, never both. */
  ghost predicate Exclusive(s: State) {
    && (forall host, i :: host in s.slots && 0 <= i < |s.slots[host].pool| ==> Belongs(s, s.slots[host].pool[i], host))
    && (forall host, i, j :: host in s.slots && 0 <= i < j < |s.slots[host].pool| ==>
          s.slots[host].pool[i] != s.slots[host].pool[j])
    && (forall trip :: trip in s.trips && s.trips[trip].1.OverHTTP? ==>
          Belongs(s, s.trips[trip].1.conn, s.trips[trip].0) && Unpooled(s, s.trips[trip].1.conn))
    && (forall t, u :: t in s.trips && u in s.trips && t != u && s.trips[t].1.OverHTTP? && s.trips[u].1.OverHTTP? ==>
          s.trips[t].1.conn != s.trips[u].1.conn)
  }

  predicate Belongs(s: State, conn: Net, host: Host) {
    conn < |s.dialed| && s.dialed[conn] == host
  }

  ghost predicate Unpooled(s: State, conn: Net) {
    forall host :: host in s.slots ==> conn !in s.slots[host].pool
  }

  /** A trip that stops or starts without a connection, or drops its own. */
  lemma QuietMove(s: State, trip: Trip, host: Host, slots: Slots, place: Place)
    requires Exclusive(s) && slots.pool == Initial(s, host).pool && !place.OverHTTP?
    ensures Exclusive(Move(s, trip, host, slots, place))
  {
    var t := Move(s, trip, host, slots, place);
    assert forall other | other in t.slots ::
        t.slots[other].pool == if other in s.slots then s.slots[other].pool else [];
    assert forall u | u in t.trips && t.trips[u].1.OverHTTP? :: u != trip && t.trips[u] == s.trips[u];
  }

  lemma PoolToTrip(s: State, trip: Trip, host: Host)
    requires Exclusive(s) && host in s.slots && s.slots[host].pool != [] && trip !in s.trips
    ensures var h := s.slots[host];
      Exclusive(Move(s, trip, host, h.(pool := h.pool[1..]), OverHTTP(h.pool[0])))
  {
    var h := s.slots[host];
    var t := Move(s, trip, host, h.(pool := h.pool[1..]), OverHTTP(h.pool[0]));
    assert Belongs(s, h.pool[0], host);
    forall other | other in t.slots ensures h.pool[0] !in t.slots[other].pool {
      if other != host {
        forall i | 0 <= i < |s.slots[other].pool| ensures s.slots[other].pool[i] != h.pool[0] {
          assert Belongs(s, s.slots[other].pool[i], other);
        }
      } else {
        forall i | 0 <= i < |t.slots[host].pool| ensures t.slots[host].pool[i] != h.pool[0] {
          assert t.slots[host].pool[i] == h.pool[i + 1];
        }
      }
    }
    forall u | u in s.trips && s.trips[u].1.OverHTTP? ensures s.trips[u].1.conn != h.pool[0] {
      assert Unpooled(s, s.trips[u].1.conn);
    }
  }

  lemma TripToPool(s: State, trip: Trip)
    requires Exclusive(s) && Has(s, trip) && s.trips[trip].1.OverHTTP?
    ensures var (host, place) := s.trips[trip];
      var h := s.slots[host];
      Exclusive(Move(s, trip, host, h.(pool := h.pool + [place.conn]), Returned))
  {
    var (host, place) := s.trips[trip];
    var h := s.slots[host];
    var t := Move(s, trip, host, h.(pool := h.pool + [place.conn]), Returned);
    assert Unpooled(s, place.conn) && Belongs(s, place.conn, host);
    forall i | 0 <= i < |h.pool| ensures h.pool[i] != place.conn {
      assert h.pool[i] in h.pool;
    }
    forall u | u in t.trips && t.trips[u].1.OverHTTP? ensures Unpooled(t, t.trips[u].1.conn) {
      assert u != trip && Unpooled(s, s.trips[u].1.conn) && s.trips[u].1.conn != place.conn;
    }
  }

  lemma DialToTrip(s: State, trip: Trip)
    requires Exclusive(s) && Has(s, trip) && s.trips[trip].1.Dialed?
    ensures Exclusive(DoDial(s, trip, Http))
  {
    var host := s.trips[trip].0;
    var t := DoDial(s, trip, Http);
    assert forall other | other in t.slots :: t.slots[other] == s.slots[other];
    assert forall conn, other | Belongs(s, conn, other) :: Belongs(t, conn, other);
    forall other | other in t.slots ensures |s.dialed| !in t.slots[other].pool {
      forall i | 0 <= i < |s.slots[other].pool| ensures s.slots[other].pool[i] != |s.dialed| {
        assert Belongs(s, s.slots[other].pool[i], other);
      }
    }
    forall u | u in s.trips && s.trips[u].1.OverHTTP?
      ensures s.trips[u].1.conn != |s.dialed| && Unpooled(t, s.trips[u].1.conn)
    {
      assert Belongs(s, s.trips[u].1.conn, s.trips[u].0) && Unpooled(s, s.trips[u].1.conn);
    }
  }

  lemma LockKeepsExclusion(s: State, lock: Option<Trip>)
    requires Exclusive(s)
    ensures Exclusive(s.(lock := lock))
  {
    var t := s.(lock := lock);
    assert forall conn, host | Belongs(s, conn, host) :: Belongs(t, conn, host);
    assert forall conn | Unpooled(s, conn) :: Unpooled(t, conn);
  }

  lemma StepKeepsExclusion(s: State, a: Action)
    requires Exclusive(s)
    ensures Exclusive(Step(s, a))
  {
    hide Exclusive;
    match a
    case Start(trip, host, secure) =>
      if s.lock.None? && trip !in s.trips {
        var h := Initial(s, host);
        if h.pool != [] {
          PoolToTrip(s, trip, host);
        } else if h.wp && secure {
          QuietMove(s, trip, host, h, OverWP);
        } else {
          QuietMove(s, trip, host, h, Waiting);
          LockKeepsExclusion(Move(s, trip, host, h, Waiting), Some(trip));
        }
      }
    case TakeToken(trip) =>
      if Has(s, trip) && s.trips[trip].1.Waiting? && s.slots[s.trips[trip].0].tokens > 0 {
        var host := s.trips[trip].0;
        QuietMove(s, trip, host, s.slots[host].(tokens := s.slots[host].tokens - 1), Dialed);
      }
    case Dial(trip, outcome) =>
      if Has(s, trip) && s.trips[trip].1.Dialed? {
        var host := s.trips[trip].0;
        var h := s.slots[host];
        if outcome.Http? {
          DialToTrip(s, trip);
        } else if outcome.Wp? {
          QuietMove(s, trip, host, h.(wp := true, held := h.held + 1), OverWP);
          LockKeepsExclusion(Move(s, trip, host, h.(wp := true, held := h.held + 1), OverWP), None);
        } else {
          QuietMove(s, trip, host, h.(lost := h.lost + 1), Failed);
          LockKeepsExclusion(Move(s, trip, host, h.(lost := h.lost + 1), Failed), None);
        }
      }
    case Conclude(trip, exchange) =>
      if Has(s, trip) && s.trips[trip].1.OverHTTP? {
        var host := s.trips[trip].0;
        var h := s.slots[host];
        match exchange {
          case KeepAlive => TripToPool(s, trip);
          case Closing => QuietMove(s, trip, host, h.(tokens := h.tokens + 1), Returned);
          case ExchangeError => QuietMove(s, trip, host, h.(lost := h.lost + 1), Failed);
        }
      }
  }

  /** In every run, no two round trips ever use one connection at the same time, and no
      round trip uses a connection to another host. */
  lemma {:induction false} NeverShared(s: State, actions: seq<Action>, t: Trip, u: Trip)
    requires Exclusive(s)
    ensures var r := Run(s, actions);
      && Exclusive(r)
      && (t in r.trips && r.trips[t].1.OverHTTP? ==>
            && Belongs(r, r.trips[t].1.conn, r.trips[t].0)
            && (u in r.trips && u != t && r.trips[u].1.OverHTTP? ==> r.trips[t].1.conn != r.trips[u].1.conn))
    decreases actions
  {
    hide Step;
    if actions != [] {
      hide Exclusive;
      StepKeepsExclusion(s, actions[0]);
      NeverShared(Step(s, actions[0]), actions[1..], t, u);
    }
  }

  lemma BeginExclusive(maxIdle: nat)
    ensures Exclusive(Begin(maxIdle))
  {
  }

  // ------------------------------------------------------------------------- object

  /** A Transport: the three maps of a host, its channels being what is in them, and the
      round trips that are under way. */
  class Client {
    const maxIdleConnsPerHost: nat
    var hosts: map<Host, Slots>
    var dials: seq<Host>
    ghost var trips: map<Trip, (Host, Place)>
    ghost var lock: Option<Trip>

    ghost predicate Valid()
      reads this
    {
      Inv(Abs()) && Exclusive(Abs())
    }

    ghost function Abs(): State
      reads this
    {
      State(maxIdleConnsPerHost, hosts, trips, lock, dials)
    }

    constructor (maxIdle: nat)
      ensures Valid() && Abs() == Begin(maxIdle)
    {
      maxIdleConnsPerHost := if maxIdle == 0 then DEFAULT_MAX_IDLE else maxIdle;
      hosts, dials, trips, lock := map[], [], map[], None;
      new;
      BeginInv(maxIdle);
      BeginExclusive(maxIdle);
    }

    /** RoundTrip up to dial: the tokens of a new host, and an idle connection if there
        is one. */
    method Acquire(trip: Trip, host: Host, secure: bool) returns (idle: Option<Net>)
      requires Valid() && lock == None && trip !in trips
      modifies this
      ensures Valid() && Abs() == Step(old(Abs()), Start(trip, host, secure))
      ensures idle == if trips[trip].1.OverHTTP? then Some(trips[trip].1.conn) else None
    {
      hide Inv, Exclusive;
      StepKeepsInv(Abs(), Start(trip, host, secure));
      StepKeepsExclusion(Abs(), Start(trip, host, secure));
      var h := if host in hosts then hosts[host] else Slots(maxIdleConnsPerHost, [], false, 0, 0);
      if h.pool != [] {
        idle := Some(h.pool[0]);
        trips := trips[trip := (host, OverHTTP(h.pool[0]))];
        h := h.(pool := h.pool[1..]);
      } else if h.wp && secure {
        idle := None;
        trips := trips[trip := (host, OverWP)];
      } else {
        idle := None;
        trips, lock := trips[trip := (host, Waiting)], Some(trip);
      }
      hosts := hosts[host := h];
    }

    /** dial, once a slot is available. */
    method Take(trip: Trip, host: Host)
      requires Valid() && trip in trips && trips[trip] == (host, Waiting)
      requires host in hosts && hosts[host].tokens > 0
      modifies this`hosts, this`trips
      ensures Valid() && Abs() == Step(old(Abs()), TakeToken(trip))
    {
      hide Inv, Exclusive;
      StepKeepsInv(Abs(), TakeToken(trip));
      StepKeepsExclusion(Abs(), TakeToken(trip));
      hosts := hosts[host := hosts[host].(tokens := hosts[host].tokens - 1)];
      trips := trips[trip := (host, Dialed)];
    }

    /** The choice of the protocol for a connection that has been dialed, or not. */
    method Negotiate(trip: Trip, host: Host, outcome: Dialing) returns (conn: Option<Net>)
      requires Valid() && trip in trips && trips[trip] == (host, Dialed) && host in hosts
      modifies this
      ensures Valid() && Abs() == Step(old(Abs()), Dial(trip, outcome))
      ensures conn == if outcome == Http then Some(trips[trip].1.conn) else None
    {
      hide Inv, Exclusive;
      StepKeepsInv(Abs(), Dial(trip, outcome));
      StepKeepsExclusion(Abs(), Dial(trip, outcome));
      var h := hosts[host];
      conn := None;
      match outcome {
        case Http =>
          conn := Some(|dials|);
          trips, lock := trips[trip := (host, OverHTTP(|dials|))], None;
          dials := dials + [host];
        case Wp =>
          h := h.(wp := true, held := h.held + 1);
          trips, lock := trips[trip := (host, OverWP)], None;
        case DialError =>
          h := h.(lost := h.lost + 1);
          trips, lock := trips[trip := (host, Failed)], None;
        case ClientConnError =>
          h := h.(lost := h.lost + 1);
          trips := trips[trip := (host, Failed)];
      }
      hosts := hosts[host := h];
    }

    /** The end of doHTTP: the connection goes back to the pool, or its slot is free
        again. Both channels have room, so neither send waits. */
    method Return(trip: Trip, host: Host, conn: Net, exchange: Exchange)
      requires Valid() && trip in trips && trips[trip] == (host, OverHTTP(conn)) && host in hosts
      modifies this`hosts, this`trips
      ensures Valid() && Abs() == Step(old(Abs()), Conclude(trip, exchange))
      ensures |hosts[host].pool| <= maxIdleConnsPerHost && hosts[host].tokens <= maxIdleConnsPerHost
    {
      hide Inv, Exclusive, Busy;
      StepKeepsInv(Abs(), Conclude(trip, exchange));
      StepKeepsExclusion(Abs(), Conclude(trip, exchange));
      SendsNeverBlock(Abs(), trip);
      var h := hosts[host];
      match exchange {
        case KeepAlive =>
          h := h.(pool := h.pool + [conn]);
          trips := trips[trip := (host, Returned)];
        case Closing =>
          h := h.(tokens := h.tokens + 1);
          trips := trips[trip := (host, Returned)];
        case ExchangeError =>
          h := h.(lost := h.lost + 1);
          trips := trips[trip := (host, Failed)];
      }
      hosts := hosts[host := h];
    }
  }
}
