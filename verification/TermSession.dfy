/**
 Terminal sessions: the replay ring, live taps, single-use tickets and the single writer.
 Ids, tickets and the clock are arguments; a character is a code unit.
 */
module TermSession {
  import opened Common

  const RING := 64 * 1024
  const COLS := 120
  const ROWS := 32

  type Id = string
  type Ticket = string
  type Tap = nat

  datatype Size = Size(cols: int, rows: int)

  /** `written` and `resized` are what the PTY has been told. */
  datatype Session = Session(ring: string, alive: bool, writerTicket: Option<Ticket>, size: Size, taps: set<Tap>,
                             written: seq<string>, resized: seq<Size>)

  datatype Grant = Grant(ptyId: Id, expiresAt: int)

  /**
   A session lives in the pool under its creation number, as the closures that hold it do;
   `sessions` says which one an id names now.
   */
  datatype State = State(pool: seq<Session>, sessions: map<Id, nat>, tickets: map<Ticket, Grant>)

  datatype Event =
    | Create(id: Id, ticket: Ticket, now: int)
    | Attach(id: Id, ticket: Ticket, now: int)
    | Redeem(id: Id, ticket: Ticket, now: int)
    | AddTap(id: Id, tap: Tap)
    | DropTap(session: nat, tap: Tap)
    | Write(id: Id, ticket: Ticket, data: string)
    | Resize(id: Id, size: Size)
    | NudgeRepaint(id: Id)
    | Kill(id: Id)
    | Output(session: nat, data: string)
    | Exit(session: nat)

  datatype Reply = Yes | No | Ticketed(ticket: Ticket, buffer: string)

  const EMPTY := State([], map[], map[])

  ghost predicate Inv(s: State) { forall id :: id in s.sessions ==> s.sessions[id] < |s.pool| }

  function Named(s: State, id: Id): Option<nat> {
    if id in s.sessions && s.sessions[id] < |s.pool| then Some(s.sessions[id]) else None
  }

  function Issue(s: State, ttl: int, id: Id, ticket: Ticket, now: int): State {
    s.(tickets := s.tickets[ticket := Grant(id, now + ttl * 1000)])
  }

  predicate Redeems(s: State, id: Id, ticket: Ticket, now: int) {
    ticket in s.tickets && s.tickets[ticket].ptyId == id && s.tickets[ticket].expiresAt >= now
  }

  /** The session an event is about, if there is one. */
  function Target(s: State, e: Event): Option<nat> {
    match e
    case Create(_, _, _) => None
    case Redeem(_, _, _) => None
    case Output(k, _) => if k < |s.pool| then Some(k) else None
    case Exit(k) => if k < |s.pool| then Some(k) else None
    case DropTap(k, _) => if k < |s.pool| then Some(k) else None
    case _ => Named(s, e.id)
  }

  /** What an event does to its session. */
  function Touch(s: Session, e: Event): (Session, Reply) {
    match e
    case Create(_, _, _) => (s, No)
    case Redeem(_, _, _) => (s, No)
    case Attach(_, ticket, _) => (s.(writerTicket := Some(ticket)), Ticketed(ticket, s.ring))
    case AddTap(_, tap) => (s.(taps := s.taps + {tap}), Yes)
    case DropTap(_, tap) => (s.(taps := s.taps - {tap}), Yes)
    case Write(_, ticket, data) =>
      if !s.alive || s.writerTicket != Some(ticket) then (s, No) else (s.(written := s.written + [data]), Yes)
    case Resize(_, size) =>
      if !s.alive || size.cols <= 0 || size.rows <= 0 then (s, No)
      else (s.(size := size, resized := s.resized + [size]), Yes)
    case NudgeRepaint(_) =>
      if !s.alive || s.size.rows <= 1 then (s, No)
      else (s.(resized := s.resized + [Size(s.size.cols, s.size.rows - 1)] + [s.size]), Yes)
    case Kill(_) => (s.(alive := false), Yes)
    case Output(_, data) => (s.(ring := LastN(s.ring + data, RING)), Yes)
    case Exit(_) => (s.(alive := false), Yes)
  }

  function NewSession(ticket: Ticket): Session { Session("", true, Some(ticket), Size(COLS, ROWS), {}, [], []) }

  function OnTarget(s: State, e: Event): (State, Reply) {
    var k := Target(s, e);
    if k.None? then (s, No)
    else
      var (touched, reply) := Touch(s.pool[k.value], e);
      (s.(pool := s.pool[k.value := touched]), reply)
  }

  function Step(ttl: int, s: State, e: Event): (State, Reply) {
    match e
    case Create(id, ticket, now) =>
      var made := State(s.pool + [NewSession(ticket)], s.sessions[id := |s.pool|], s.tickets);
      (Issue(made, ttl, id, ticket, now), Ticketed(ticket, ""))
    case Redeem(id, ticket, now) =>
      (s.(tickets := s.tickets - {ticket}), if Redeems(s, id, ticket, now) then Yes else No)
    case Attach(id, ticket, now) =>
      var (next, reply) := OnTarget(s, e);
      (if reply.Ticketed? then Issue(next, ttl, id, ticket, now) else next, reply)
    case Kill(id) =>
      var (next, reply) := OnTarget(s, e);
      (if reply == Yes then next.(sessions := next.sessions - {id}) else next, reply)
    case _ => OnTarget(s, e)
  }

  /** A session changes only by events about it. */
  lemma StepAt(ttl: int, s: State, e: Event, k: nat)
    requires k < |s.pool|
    ensures var next := Step(ttl, s, e).0;
            && k < |next.pool| && |next.pool| == |s.pool| + (if e.Create? then 1 else 0)
            && next.pool[k] == if Target(s, e) == Some(k) then Touch(s.pool[k], e).0 else s.pool[k]
  {
    hide Touch;
  }

  function Run(ttl: int, history: seq<Event>): State {
    if history == [] then EMPTY else Step(ttl, Run(ttl, Front(history)), Last(history)).0
  }

  function ReplyTo(ttl: int, history: seq<Event>, e: Event): Reply { Step(ttl, Run(ttl, history), e).1 }

  // ---------------------------------------------------------------- what a history says

  function Creates(history: seq<Event>): nat {
    if history == [] then 0 else Creates(Front(history)) + if Last(history).Create? then 1 else 0
  }

  /** The session an id names: the last one created under it, unless killed since. */
  function Resolve(history: seq<Event>, id: Id): Option<nat> {
    if history == [] then None
    else match Last(history)
      case Create(made, _, _) => if made == id then Some(Creates(Front(history))) else Resolve(Front(history), id)
      case Kill(killed) => if killed == id then None else Resolve(Front(history), id)
      case _ => Resolve(Front(history), id)
  }

  /** Whether the last event issues this ticket, and for which session. */
  function IssuesFor(history: seq<Event>): Option<nat>
    requires history != []
  {
    match Last(history)
    case Create(_, _, _) => Some(Creates(Front(history)))
    case Attach(id, _, _) => Resolve(Front(history), id)
    case _ => None
  }

  /** The ticket issued last for a session. */
  function Newest(history: seq<Event>, k: nat): Option<Ticket> {
    if history == [] then None
    else if IssuesFor(history) == Some(k) then Some(Last(history).ticket)
    else Newest(Front(history), k)
  }

  /** Created, and neither exited nor killed since. */
  predicate Alive(history: seq<Event>, k: nat) {
    history != [] &&
    match Last(history)
    case Create(_, _, _) => Creates(Front(history)) == k || Alive(Front(history), k)
    case Exit(j) => j != k && Alive(Front(history), k)
    case Kill(id) => Resolve(Front(history), id) != Some(k) && Alive(Front(history), k)
    case _ => Alive(Front(history), k)
  }

  /** Everything a session's PTY has put out. */
  function Outputs(history: seq<Event>, k: nat): string {
    if history == [] then ""
    else Outputs(Front(history), k) +
         if Last(history).Output? && Last(history).session == k && k < Creates(Front(history)) then Last(history).data else ""
  }

  /** What a ticket is still good for: its last issue, unless presented since. */
  function Outstanding(ttl: int, history: seq<Event>, ticket: Ticket): Option<Grant> {
    if history == [] then None
    else if Last(history).Redeem? && Last(history).ticket == ticket then None
    else if IssuesFor(history).Some? && Last(history).ticket == ticket then
      Some(Grant(Last(history).id, Last(history).now + ttl * 1000))
    else Outstanding(ttl, Front(history), ticket)
  }

  // ---------------------------------------------------------------- the state is what the history says

  lemma {:induction false} PoolReflects(ttl: int, history: seq<Event>)
    ensures Inv(Run(ttl, history)) && |Run(ttl, history).pool| == Creates(history)
  {
    if history == [] {
    } else {
      PoolReflects(ttl, Front(history));
    }
  }

  lemma {:induction false} NamesReflect(ttl: int, history: seq<Event>, id: Id)
    ensures Named(Run(ttl, history), id) == Resolve(history, id)
    ensures Resolve(history, id).Some? ==> Resolve(history, id).value < Creates(history)
  {
    PoolReflects(ttl, history);
    if history != [] {
      NamesReflect(ttl, Front(history), id);
      PoolReflects(ttl, Front(history));
    }
  }

  lemma NameOfLast(ttl: int, history: seq<Event>)
    requires history != [] && (Last(history).Attach? || Last(history).Kill?)
    ensures Named(Run(ttl, Front(history)), Last(history).id) == Resolve(Front(history), Last(history).id)
  {
    NamesReflect(ttl, Front(history), Last(history).id);
  }

  /** One more event, seen from a session that was already there. */
  lemma RunAt(ttl: int, history: seq<Event>, k: nat)
    requires history != [] && k < Creates(Front(history))
    ensures var s := Run(ttl, Front(history));
            var next := Run(ttl, history);
            && k < |s.pool| == Creates(Front(history)) && k < |next.pool| == Creates(history)
            && next.pool[k] == if Target(s, Last(history)) == Some(k) then Touch(s.pool[k], Last(history)).0 else s.pool[k]
  {
    hide Step, Touch, Target;
    PoolReflects(ttl, Front(history));
    PoolReflects(ttl, history);
    StepAt(ttl, Run(ttl, Front(history)), Last(history), k);
  }

  lemma RingStep(ttl: int, s: State, e: Event, k: nat)
    requires k < |s.pool|
    ensures var next := Step(ttl, s, e).0;
            && k < |next.pool|
            && next.pool[k].ring == if e.Output? && e.session == k then LastN(s.pool[k].ring + e.data, RING) else s.pool[k].ring
  {
    StepAt(ttl, s, e, k);
    hide Step, LastN;
  }

  lemma OutputsStep(history: seq<Event>, k: nat)
    requires history != [] && k < Creates(Front(history))
    ensures var before, e := Outputs(Front(history), k), Last(history);
            Outputs(history, k) == if e.Output? && e.session == k then before + e.data else before
  {
    assert Outputs(Front(history), k) + "" == Outputs(Front(history), k);
  }

  /** The ring is the last 65536 characters of everything the session has put out. */
  lemma {:induction false} RingReflects(ttl: int, history: seq<Event>, k: nat)
    requires k < Creates(history)
    ensures |Run(ttl, history).pool| == Creates(history)
    ensures Run(ttl, history).pool[k].ring == LastN(Outputs(history, k), RING)
  {
    PoolReflects(ttl, history);
    PoolReflects(ttl, Front(history));
    if k < Creates(Front(history)) {
      hide Step, LastN, Outputs, Creates;
      RingReflects(ttl, Front(history), k);
      RingStep(ttl, Run(ttl, Front(history)), Last(history), k);
      OutputsStep(history, k);
      if Last(history).Output? {
        LastNExtends(Outputs(Front(history), k), Last(history).data, RING);
      }
    } else {
      NothingBefore(Front(history), k);
    }
  }

  /** So the ring is the end of all output, whole as long as it fits. */
  lemma RingIsTheEnd(ttl: int, history: seq<Event>, k: nat)
    requires k < Creates(history)
    ensures |Run(ttl, history).pool| == Creates(history)
    ensures var ring, all := Run(ttl, history).pool[k].ring, Outputs(history, k);
            |ring| == (if |all| < 65536 then |all| else 65536) && ring == all[|all| - |ring|..]
  {
    hide Run, Outputs;
    RingReflects(ttl, history, k);
    LastNIsTheEnd(Outputs(history, k), RING);
  }

  lemma {:induction false} LifeReflects(ttl: int, history: seq<Event>, k: nat)
    requires k < Creates(history)
    ensures |Run(ttl, history).pool| == Creates(history)
    ensures Run(ttl, history).pool[k].alive == Alive(history, k)
  {
    PoolReflects(ttl, history);
    if k < Creates(Front(history)) {
      hide Step, Run;
      LifeReflects(ttl, Front(history), k);
      RunAt(ttl, history, k);
      if Last(history).Kill? {
        NameOfLast(ttl, history);
      }
    } else {
      PoolReflects(ttl, Front(history));
    }
  }

  lemma {:induction false} WriterReflects(ttl: int, history: seq<Event>, k: nat)
    requires k < Creates(history)
    ensures |Run(ttl, history).pool| == Creates(history)
    ensures Run(ttl, history).pool[k].writerTicket == Newest(history, k)
  {
    PoolReflects(ttl, history);
    if k < Creates(Front(history)) {
      hide Step, Run;
      WriterReflects(ttl, Front(history), k);
      RunAt(ttl, history, k);
      if Last(history).Attach? {
        NameOfLast(ttl, history);
      }
    } else {
      PoolReflects(ttl, Front(history));
    }
  }

  lemma LastNExtends(s: string, data: string, n: nat)
    ensures LastN(LastN(s, n) + data, n) == LastN(s + data, n)
  {
  }

  lemma {:induction false} NothingBefore(history: seq<Event>, k: nat)
    requires Creates(history) <= k
    ensures Outputs(history, k) == ""
  {
    if history == [] {
    } else {
      NothingBefore(Front(history), k);
    }
  }

  function Held(s: State, ticket: Ticket): Option<Grant> {
    if ticket in s.tickets then Some(s.tickets[ticket]) else None
  }

  lemma TicketStep(ttl: int, s: State, e: Event, ticket: Ticket)
    ensures Held(Step(ttl, s, e).0, ticket) ==
            if e.Redeem? && e.ticket == ticket then None
            else if (e.Create? || (e.Attach? && Named(s, e.id).Some?)) && e.ticket == ticket then
              Some(Grant(e.id, e.now + ttl * 1000))
            else Held(s, ticket)
  {
  }

  lemma {:induction false} TicketsReflect(ttl: int, history: seq<Event>, ticket: Ticket)
    ensures Outstanding(ttl, history, ticket) == Held(Run(ttl, history), ticket)
  {
    if history == [] {
    } else {
      TicketsReflect(ttl, Front(history), ticket);
      TicketStep(ttl, Run(ttl, Front(history)), Last(history), ticket);
      if Last(history).Attach? {
        NameOfLast(ttl, history);
      }
      hide Step;
    }
  }

  // ---------------------------------------------------------------- the promises

  /** A write goes through for the ticket issued last, to a live session, and for nothing else. */
  lemma SingleWriter(ttl: int, history: seq<Event>, id: Id, ticket: Ticket, data: string)
    ensures ReplyTo(ttl, history, Write(id, ticket, data)) == Yes <==>
              var k := Resolve(history, id);
              k.Some? && Alive(history, k.value) && Newest(history, k.value) == Some(ticket)
  {
    NamesReflect(ttl, history, id);
    if Resolve(history, id).Some? {
      LifeReflects(ttl, history, Resolve(history, id).value);
      WriterReflects(ttl, history, Resolve(history, id).value);
    }
  }

  predicate Mentions(e: Event, ticket: Ticket) { (e.Create? || e.Attach?) && e.ticket == ticket }

  /** Once another ticket is the newest, the old one cannot write until issued again. */
  lemma {:induction false} TakeoverHolds(ttl: int, history: seq<Event>, later: seq<Event>, k: nat, former: Ticket, id: Id, data: string)
    requires Newest(history, k).Some? && Newest(history, k) != Some(former)
    requires forall e :: e in later ==> !Mentions(e, former)
    ensures Newest(history + later, k) != Some(former)
    ensures Resolve(history + later, id) == Some(k) ==> ReplyTo(ttl, history + later, Write(id, former, data)) == No
  {
    SingleWriter(ttl, history + later, id, former, data);
    if later == [] {
      assert history + later == history;
    } else {
      TakeoverHolds(ttl, history, Front(later), k, former, id, data);
      assert Front(history + later) == history + Front(later);
      assert Last(later) in later;
    }
  }

  /** A ticket redeems exactly for the session it was last issued for, once, before it expires. */
  lemma RedeemsExactly(ttl: int, history: seq<Event>, id: Id, ticket: Ticket, now: int)
    ensures ReplyTo(ttl, history, Redeem(id, ticket, now)) == Yes <==>
              var g := Outstanding(ttl, history, ticket);
              g.Some? && g.value.ptyId == id && now <= g.value.expiresAt
  {
    TicketsReflect(ttl, history, ticket);
  }

  /** A ticket just issued lives for its time to live, in seconds: presented in time it redeems, later it does not. */
  lemma TicketLivesForItsTtl(ttl: int, history: seq<Event>, id: Id, ticket: Ticket, issued: int, now: int)
    ensures ReplyTo(ttl, history + [Create(id, ticket, issued)], Redeem(id, ticket, now)) == Yes <==> now - issued <= 1000 * ttl
  {
    var h := history + [Create(id, ticket, issued)];
    assert Front(h) == history && Last(h) == Create(id, ticket, issued);
    assert Outstanding(ttl, h, ticket) == Some(Grant(id, issued + ttl * 1000));
    RedeemsExactly(ttl, h, id, ticket, now);
  }

  function Issues(history: seq<Event>, ticket: Ticket): nat {
    if history == [] then 0
    else Issues(Front(history), ticket) + if IssuesFor(history).Some? && Last(history).ticket == ticket then 1 else 0
  }

  function Redemptions(ttl: int, history: seq<Event>, ticket: Ticket): nat {
    if history == [] then 0
    else
      var e := Last(history);
      Redemptions(ttl, Front(history), ticket)
        + if e.Redeem? && e.ticket == ticket && ReplyTo(ttl, Front(history), e) == Yes then 1 else 0
  }

  /** A ticket never redeems more often than it was issued: once, from a source that never repeats. */
  lemma {:induction false} RedeemsAtMostOnce(ttl: int, history: seq<Event>, ticket: Ticket)
    ensures Redemptions(ttl, history, ticket) + (if Outstanding(ttl, history, ticket).Some? then 1 else 0) <= Issues(history, ticket)
  {
    if history == [] {
    } else {
      RedeemsAtMostOnce(ttl, Front(history), ticket);
      var e := Last(history);
      if e.Redeem? && e.ticket == ticket {
        RedeemsExactly(ttl, Front(history), e.id, ticket, e.now);
      }
    }
  }

  // ---------------------------------------------------------------- the stream a client sees

  function Emitted(events: seq<Event>, k: nat): string {
    if events == [] then ""
    else Emitted(Front(events), k) + if Last(events).Output? && Last(events).session == k then Last(events).data else ""
  }

  /** What one tap of session `k` hears while `events` follow `history`. */
  function Heard(ttl: int, history: seq<Event>, events: seq<Event>, k: nat, tap: Tap): string {
    if events == [] then ""
    else
      var s := Run(ttl, history + Front(events));
      Heard(ttl, history, Front(events), k, tap) +
      if Last(events).Output? && Last(events).session == k && k < |s.pool| && tap in s.pool[k].taps then Last(events).data else ""
  }

  lemma OutputsNext(history: seq<Event>, e: Event, k: nat)
    ensures Outputs(history + [e], k)
         == Outputs(history, k) + if e.Output? && e.session == k && k < Creates(history) then e.data else ""
    ensures Creates(history + [e]) >= Creates(history)
  {
    assert Front(history + [e]) == history;
  }

  lemma {:induction false} OutputsSplit(history: seq<Event>, events: seq<Event>, k: nat)
    requires k < Creates(history)
    ensures Outputs(history + events, k) == Outputs(history, k) + Emitted(events, k)
    ensures Creates(history + events) >= Creates(history)
  {
    if events == [] {
      assert history + events == history;
      assert Outputs(history, k) + "" == Outputs(history, k);
    } else {
      OutputsSplit(history, Front(events), k);
      OutputsNext(history + Front(events), Last(events), k);
      assert history + events == history + Front(events) + [Last(events)];
      hide Outputs, Creates;
      var said := if Last(events).Output? && Last(events).session == k then Last(events).data else "";
      assert Outputs(history, k) + Emitted(Front(events), k) + said == Outputs(history, k) + (Emitted(Front(events), k) + said);
    }
  }

  /** A tap that stays on hears everything its session puts out, killed or not. */
  lemma {:induction false} HearsEverything(ttl: int, history: seq<Event>, events: seq<Event>, k: nat, tap: Tap)
    requires k < |Run(ttl, history).pool| && tap in Run(ttl, history).pool[k].taps && DropTap(k, tap) !in events
    ensures var s := Run(ttl, history + events); k < |s.pool| && tap in s.pool[k].taps
    ensures Heard(ttl, history, events, k, tap) == Emitted(events, k)
  {
    hide Step, Run, Touch;
    if events == [] {
      assert history + events == history;
    } else {
      assert Last(events) in events;
      assert forall e :: e in Front(events) ==> e in events;
      HearsEverything(ttl, history, Front(events), k, tap);
      assert Front(history + events) == history + Front(events);
      PoolReflects(ttl, history + Front(events));
      RunAt(ttl, history + events, k);
      TapsStay(Run(ttl, history + Front(events)).pool[k], Last(events), tap);
    }
  }

  /** A tap that is off hears nothing until it is added again. */
  lemma {:induction false} OffHearsNothing(ttl: int, history: seq<Event>, events: seq<Event>, k: nat, tap: Tap)
    requires k < |Run(ttl, history).pool| && tap !in Run(ttl, history).pool[k].taps
    requires forall id :: AddTap(id, tap) !in events
    ensures var s := Run(ttl, history + events); k < |s.pool| && tap !in s.pool[k].taps
    ensures Heard(ttl, history, events, k, tap) == ""
  {
    hide Step, Run, Touch, Target;
    if events == [] {
      assert history + events == history;
    } else {
      assert Last(events) in events;
      assert forall e :: e in Front(events) ==> e in events;
      OffHearsNothing(ttl, history, Front(events), k, tap);
      assert Front(history + events) == history + Front(events);
      PoolReflects(ttl, history + Front(events));
      RunAt(ttl, history + events, k);
      TapsStayOff(Run(ttl, history + Front(events)).pool[k], Last(events), tap);
    }
  }

  lemma TapsStayOff(s: Session, e: Event, tap: Tap)
    ensures tap !in s.taps && (e.AddTap? ==> e.tap != tap) ==> tap !in Touch(s, e).0.taps
  {
  }

  /** And dropping a tap turns it off. */
  lemma DropsTheTap(ttl: int, history: seq<Event>, k: nat, tap: Tap)
    requires k < Creates(history)
    ensures var s := Run(ttl, history + [DropTap(k, tap)]); k < |s.pool| && tap !in s.pool[k].taps
  {
    PoolReflects(ttl, history);
    assert Front(history + [DropTap(k, tap)]) == history && Last(history + [DropTap(k, tap)]) == DropTap(k, tap);
    hide Run;
  }

  lemma TapsStay(s: Session, e: Event, tap: Tap)
    ensures tap in s.taps && (e.DropTap? ==> e.tap != tap) ==> tap in Touch(s, e).0.taps
  {
  }

  /**
   The buffer an attach returns, what came out before the tap was added, and what the tap
   then hears are together the end of the session's output, nothing lost or repeated; a tap
   added in the same turn as the attach leaves no gap.
   */
  lemma AttachThenTap(ttl: int, before: seq<Event>, id: Id, ticket: Ticket, now: int,
                      between: seq<Event>, tap: Tap, after: seq<Event>, k: nat)
    requires Resolve(before, id) == Some(k)
    requires Resolve(before + [Attach(id, ticket, now)] + between, id) == Some(k) && DropTap(k, tap) !in after
    ensures var reply := ReplyTo(ttl, before, Attach(id, ticket, now));
            var tapped := before + [Attach(id, ticket, now)] + between + [AddTap(id, tap)];
            && reply.Ticketed? && reply.buffer == LastN(Outputs(before, k), RING)
            && Outputs(tapped + after, k) == Outputs(before, k) + Emitted(between, k) + Heard(ttl, tapped, after, k, tap)
            && (between == [] ==>
                  var seen := reply.buffer + Heard(ttl, tapped, after, k, tap);
                  seen == LastN(Outputs(tapped + after, k), |seen|))
  {
    hide Step, Run, Heard, Emitted, Resolve, Outputs, Creates, LastN;
    var attach := Attach(id, ticket, now);
    AttachReplies(ttl, before, attach, k);
    RingReflects(ttl, before, k);
    OutputsSplit(before, [attach], k);
    QuietlySplits(before, attach, between, AddTap(id, tap), after, k);
    TapIsOn(ttl, before + [attach] + between, id, tap, k);
    HearsEverything(ttl, before + [attach] + between + [AddTap(id, tap)], after, k, tap);
    if between == [] {
      NoEvents(k);
      LastNKeeps(Outputs(before, k), Emitted(after, k), RING);
    }
  }

  /** The output splits at two events that put nothing out themselves. */
  lemma QuietlySplits(before: seq<Event>, first: Event, between: seq<Event>, second: Event, after: seq<Event>, k: nat)
    requires k < Creates(before) && !first.Output? && !second.Output?
    ensures Outputs(before + [first] + between + [second] + after, k) == Outputs(before, k) + Emitted(between, k) + Emitted(after, k)
  {
    OutputsSplit(before, [first], k);
    OutputsSplit(before + [first], between, k);
    OutputsSplit(before + [first] + between, [second], k);
    OutputsSplit(before + [first] + between + [second], after, k);
    QuietEvent(first, k);
    QuietEvent(second, k);
    hide Outputs, Creates, Emitted;
    NothingAdded(Outputs(before, k));
    NothingAdded(Outputs(before, k) + Emitted(between, k));
  }

  lemma NothingAdded(s: string)
    ensures s + "" == s
  {
  }

  lemma NoEvents(k: nat)
    ensures Emitted([], k) == ""
  {
  }

  lemma LastNKeeps(s: string, more: string, n: nat)
    ensures var seen := LastN(s, n) + more; seen == LastN(s + "" + more, |seen|)
  {
  }

  lemma QuietEvent(e: Event, k: nat)
    requires !e.Output?
    ensures Emitted([e], k) == ""
  {
    assert Front([e]) == [];
  }

  lemma AttachReplies(ttl: int, history: seq<Event>, e: Event, k: nat)
    requires e.Attach? && Resolve(history, e.id) == Some(k)
    ensures k < Creates(history) == |Run(ttl, history).pool|
    ensures ReplyTo(ttl, history, e) == Ticketed(e.ticket, Run(ttl, history).pool[k].ring)
  {
    NamesReflect(ttl, history, e.id);
    PoolReflects(ttl, history);
  }

  lemma TapIsOn(ttl: int, history: seq<Event>, id: Id, tap: Tap, k: nat)
    requires Resolve(history, id) == Some(k)
    ensures var s := Run(ttl, history + [AddTap(id, tap)]); k < |s.pool| && tap in s.pool[k].taps
  {
    NamesReflect(ttl, history, id);
    assert Front(history + [AddTap(id, tap)]) == history;
  }

  // ---------------------------------------------------------------- what the terminal is told

  /** An event that a live session `k` is named by, as far as the history before it goes. */
  predicate Reaches(history: seq<Event>, e: Event, k: nat) {
    (e.Write? || e.Resize? || e.NudgeRepaint?) && Resolve(history, e.id) == Some(k) && Alive(history, k)
  }

  /** The data of the accepted writes to session `k`, in order. */
  function Accepted(history: seq<Event>, k: nat): seq<string> {
    if history == [] then []
    else
      var e := Last(history);
      Accepted(Front(history), k) +
      if e.Write? && Reaches(Front(history), e, k) && Newest(Front(history), k) == Some(e.ticket) then [e.data] else []
  }

  /** The last size asked of session `k`, from the one it starts with. */
  function AskedSize(history: seq<Event>, k: nat): Size {
    if history == [] then Size(COLS, ROWS)
    else
      var e := Last(history);
      if e.Resize? && e.size.cols > 0 && e.size.rows > 0 && Reaches(Front(history), e, k) then e.size
      else AskedSize(Front(history), k)
  }

  /** What an event writes and how it leaves the size, from the two facts a session keeps. */
  lemma TouchTells(s: Session, e: Event)
    ensures var t := Touch(s, e).0;
            && t.written == (if e.Write? && s.alive && s.writerTicket == Some(e.ticket) then s.written + [e.data] else s.written)
            && t.size == (if e.Resize? && s.alive && e.size.cols > 0 && e.size.rows > 0 then e.size else s.size)
  {
  }

  lemma TargetIs(ttl: int, history: seq<Event>, e: Event)
    requires e.Write? || e.Resize? || e.NudgeRepaint?
    ensures Target(Run(ttl, history), e) == Resolve(history, e.id)
  {
    NamesReflect(ttl, history, e.id);
  }

  /** Before a session is created nothing reaches it. */
  lemma {:induction false} NothingTold(history: seq<Event>, k: nat)
    requires Creates(history) <= k
    ensures Accepted(history, k) == [] && AskedSize(history, k) == Size(COLS, ROWS) && !Alive(history, k)
  {
    if history == [] {
    } else {
      NothingTold(Front(history), k);
    }
  }

  /** A terminal receives exactly the accepted writes, in order, and is kept at the last size asked. */
  lemma {:induction false} ToldReflects(ttl: int, history: seq<Event>, k: nat)
    requires k < Creates(history)
    ensures |Run(ttl, history).pool| == Creates(history)
    ensures var s := Run(ttl, history).pool[k]; s.written == Accepted(history, k) && s.size == AskedSize(history, k)
  {
    PoolReflects(ttl, history);
    var front, e := Front(history), Last(history);
    if k < Creates(front) {
      hide Step, Run, Touch, Target, Resolve, Alive, Newest;
      ToldReflects(ttl, front, k);
      RunAt(ttl, history, k);
      LifeReflects(ttl, front, k);
      WriterReflects(ttl, front, k);
      TouchTells(Run(ttl, front).pool[k], e);
      if e.Write? || e.Resize? {
        TargetIs(ttl, front, e);
      }
      assert Accepted(front, k) + [] == Accepted(front, k);
    } else {
      PoolReflects(ttl, front);
      NothingTold(front, k);
      assert e.Create?;
    }
  }

  /** Repaint nudges included, the terminal is always left at the tracked size, and never given an empty one. */
  lemma {:induction false} SizeIsTracked(ttl: int, history: seq<Event>, k: nat)
    requires k < |Run(ttl, history).pool|
    ensures var s := Run(ttl, history).pool[k];
            && s.size == (if s.resized == [] then Size(COLS, ROWS) else Last(s.resized))
            && s.size.rows >= 1 && forall i :: 0 <= i < |s.resized| ==> s.resized[i].rows >= 1 && s.resized[i].cols >= 1
  {
    PoolReflects(ttl, history);
    PoolReflects(ttl, Front(history));
    if k < Creates(Front(history)) {
      hide Step, Run;
      SizeIsTracked(ttl, Front(history), k);
      RunAt(ttl, history, k);
    }
  }

  /** The terminal session `k` after one more event that reaches it. */
  lemma OneMoreEvent(ttl: int, history: seq<Event>, e: Event, k: nat)
    requires (e.Resize? || e.NudgeRepaint?) && Resolve(history, e.id) == Some(k)
    ensures k < |Run(ttl, history).pool| && k < |Run(ttl, history + [e]).pool|
    ensures var s := Run(ttl, history).pool[k];
            && Run(ttl, history + [e]).pool[k] == Touch(s, e).0 && ReplyTo(ttl, history, e) == Touch(s, e).1
            && s.alive == Alive(history, k) && s.size == AskedSize(history, k)
  {
    NamesReflect(ttl, history, e.id);
    PoolReflects(ttl, history);
    LifeReflects(ttl, history, k);
    ToldReflects(ttl, history, k);
    assert Front(history + [e]) == history && Last(history + [e]) == e;
    hide Touch, Alive, AskedSize, Resolve;
  }

  /** A resize is accepted exactly by a live session and for a size that is not empty, and the terminal is told that size. */
  lemma ResizesExactly(ttl: int, history: seq<Event>, id: Id, size: Size)
    ensures var k := Resolve(history, id);
            && (ReplyTo(ttl, history, Resize(id, size)) == Yes <==>
                  k.Some? && Alive(history, k.value) && size.cols > 0 && size.rows > 0)
            && (ReplyTo(ttl, history, Resize(id, size)) == Yes ==>
                  && k.value < |Run(ttl, history).pool| && k.value < |Run(ttl, history + [Resize(id, size)]).pool|
                  && Run(ttl, history + [Resize(id, size)]).pool[k.value].resized == Run(ttl, history).pool[k.value].resized + [size])
  {
    var k := Resolve(history, id);
    NamesReflect(ttl, history, id);
    if k.Some? {
      OneMoreEvent(ttl, history, Resize(id, size), k.value);
    }
    hide Run, Resolve, Alive, AskedSize;
  }

  /** A repaint nudge shrinks a live terminal of more than one row by a row, and puts it straight back. */
  lemma NudgesExactly(ttl: int, history: seq<Event>, id: Id)
    ensures var k := Resolve(history, id);
            && (ReplyTo(ttl, history, NudgeRepaint(id)) == Yes <==>
                  k.Some? && Alive(history, k.value) && AskedSize(history, k.value).rows > 1)
            && (ReplyTo(ttl, history, NudgeRepaint(id)) == Yes ==>
                  && k.value < |Run(ttl, history).pool| && k.value < |Run(ttl, history + [NudgeRepaint(id)]).pool|
                  && var size := AskedSize(history, k.value);
                     Run(ttl, history + [NudgeRepaint(id)]).pool[k.value].resized
                     == Run(ttl, history).pool[k.value].resized + [Size(size.cols, size.rows - 1)] + [size])
  {
    var k := Resolve(history, id);
    NamesReflect(ttl, history, id);
    if k.Some? {
      OneMoreEvent(ttl, history, NudgeRepaint(id), k.value);
    }
    hide Run, Resolve, Alive, AskedSize;
  }

  // ---------------------------------------------------------------- the manager

  class TermManager {
    const ticketTtlS: int
    var pool: seq<Session>
    var sessions: map<Id, nat>
    var tickets: map<Ticket, Grant>

    ghost function View(): State
      reads this
    {
      State(pool, sessions, tickets)
    }

    constructor (ticketTtlS: int)
      ensures View() == EMPTY && Inv(View()) && this.ticketTtlS == ticketTtlS
    {
      this.ticketTtlS := ticketTtlS;
      pool, sessions, tickets := [], map[], map[];
    }

    method IssueTicket(id: Id, ticket: Ticket, now: int)
      modifies this`tickets
      ensures View() == Issue(old(View()), ticketTtlS, id, ticket, now)
    {
      tickets := tickets[ticket := Grant(id, now + ticketTtlS * 1000)];
    }

    method Spawn(id: Id, ticket: Ticket, now: int)
      requires Inv(View())
      modifies this
      ensures View() == Step(ticketTtlS, old(View()), Create(id, ticket, now)).0 && Inv(View())
    {
      var session := Session("", true, None, Size(COLS, ROWS), {}, [], []);
      sessions := sessions[id := |pool|];
      pool := pool + [session];
      IssueTicket(id, ticket, now);
      pool := pool[|pool| - 1 := session.(writerTicket := Some(ticket))];
    }

    method Reattach(id: Id, ticket: Ticket, now: int) returns (buffer: Option<string>)
      requires Inv(View())
      modifies this`pool, this`tickets
      ensures Inv(View())
      ensures var (next, reply) := Step(ticketTtlS, old(View()), Attach(id, ticket, now));
              View() == next && buffer == if reply.Ticketed? then Some(reply.buffer) else None
    {
      if id !in sessions { return None; }
      var k := sessions[id];
      IssueTicket(id, ticket, now);
      pool := pool[k := pool[k].(writerTicket := Some(ticket))];
      return Some(pool[k].ring);
    }

    method RedeemTicket(id: Id, ticket: Ticket, now: int) returns (ok: bool)
      modifies this`tickets
      ensures var (next, reply) := Step(ticketTtlS, old(View()), Redeem(id, ticket, now));
              View() == next && ok == (reply == Yes)
    {
      var held := if ticket in tickets then Some(tickets[ticket]) else None;
      tickets := tickets - {ticket};
      if held.None? || held.value.ptyId != id { return false; }
      return held.value.expiresAt >= now;
    }

    method OnData(id: Id, tap: Tap)
      requires Inv(View())
      modifies this`pool
      ensures View() == Step(ticketTtlS, old(View()), AddTap(id, tap)).0 && Inv(View())
    {
      if id !in sessions { return; }
      var k := sessions[id];
      pool := pool[k := pool[k].(taps := pool[k].taps + {tap})];
    }

    method Unsubscribe(k: nat, tap: Tap)
      requires k < |pool| && Inv(View())
      modifies this`pool
      ensures View() == Step(ticketTtlS, old(View()), DropTap(k, tap)).0 && Inv(View())
    {
      pool := pool[k := pool[k].(taps := pool[k].taps - {tap})];
    }

    method WriteTo(id: Id, ticket: Ticket, data: string) returns (ok: bool)
      requires Inv(View())
      modifies this`pool
      ensures Inv(View())
      ensures var (next, reply) := Step(ticketTtlS, old(View()), Write(id, ticket, data));
              View() == next && ok == (reply == Yes)
    {
      if id !in sessions || !pool[sessions[id]].alive { return false; }
      var k := sessions[id];
      if pool[k].writerTicket != Some(ticket) { return false; }
      pool := pool[k := pool[k].(written := pool[k].written + [data])];
      return true;
    }

    method ResizeTo(id: Id, cols: int, rows: int) returns (ok: bool)
      requires Inv(View())
      modifies this`pool
      ensures Inv(View())
      ensures var (next, reply) := Step(ticketTtlS, old(View()), Resize(id, Size(cols, rows)));
              View() == next && ok == (reply == Yes)
    {
      if id !in sessions || !pool[sessions[id]].alive || cols <= 0 || rows <= 0 { return false; }
      var k := sessions[id];
      pool := pool[k := pool[k].(size := Size(cols, rows))];
      pool := pool[k := pool[k].(resized := pool[k].resized + [Size(cols, rows)])];
      return true;
    }

    method Nudge(id: Id) returns (ok: bool)
      requires Inv(View())
      modifies this`pool
      ensures Inv(View())
      ensures var (next, reply) := Step(ticketTtlS, old(View()), NudgeRepaint(id));
              View() == next && ok == (reply == Yes)
    {
      if id !in sessions || !pool[sessions[id]].alive || pool[sessions[id]].size.rows <= 1 { return false; }
      var k := sessions[id];
      pool := pool[k := pool[k].(resized := pool[k].resized + [Size(pool[k].size.cols, pool[k].size.rows - 1)])];
      pool := pool[k := pool[k].(resized := pool[k].resized + [pool[k].size])];
      return true;
    }

    method Reap(id: Id) returns (ok: bool)
      requires Inv(View())
      modifies this`pool, this`sessions
      ensures Inv(View())
      ensures var (next, reply) := Step(ticketTtlS, old(View()), Kill(id)); View() == next && ok == (reply == Yes)
    {
      if id !in sessions { return false; }
      var k := sessions[id];
      pool := pool[k := pool[k].(alive := false)];
      sessions := sessions - {id};
      return true;
    }

    /** The PTY's data callback: the ring first, then every tap. */
    method PtyData(k: nat, data: string) returns (told: set<Tap>)
      requires k < |pool| && Inv(View())
      modifies this`pool
      ensures View() == Step(ticketTtlS, old(View()), Output(k, data)).0 && Inv(View())
      ensures told == old(pool[k].taps)
    {
      var ring := pool[k].ring + data;
      pool := pool[k := pool[k].(ring := if |ring| <= RING then ring else ring[|ring| - RING..])];
      return pool[k].taps;
    }

    method PtyExit(k: nat)
      requires k < |pool| && Inv(View())
      modifies this`pool
      ensures View() == Step(ticketTtlS, old(View()), Exit(k)).0 && Inv(View())
    {
      pool := pool[k := pool[k].(alive := false)];
    }
  }
}
