/** The three backends behind the APN manager (NetworkManager profile,
    ModemManager settings, modem AT port) and the trace of calls made to them.

    Every call is decided by the environment: a call that reports success took
    effect, a call that reports an error may or may not have, and a call issued
    under a dead context has no effect. */
module ApnBackend {
  import opened ApnConfig

  datatype ConnState = ConnState(autoconnect: bool, active: bool)

  /** `registered` means registered or free to register: only AT+COPS=2 clears it. */
  datatype Link = Link(auto: bool, active: bool, registered: bool) {
    predicate Detached() { !auto && !active && !registered }
  }

  datatype Backend = Backend(link: Link, nm: Config, mm: MMSettings, cid: AttachContext, auth: Auth,
                             savedProfile: Config, savedAuto: bool)

  datatype Op =
    | GetState | GetGSM | GetMM | ReadCID
    | SetAutoconnect(on: bool)
    | Disconnect
    | Deregister
    | SetGSM(cfg: Config)
    | SetMM(settings: MMSettings)
    | WriteCID(cid: AttachContext)
    | WriteAuth(auth: Auth)
    | Reattach
    | Connect
    | Commit(auto: bool)
  {
    predicate Reads() { GetState? || GetGSM? || GetMM? || ReadCID? }

    /** An AT+CGDCONT= or AT+CGAUTH= write. */
    predicate WritesModem() { WriteCID? || WriteAuth? }

    predicate WritesCredentials() { SetGSM? || SetMM? || WriteCID? || WriteAuth? }
  }

  datatype Reply = Nothing | SawState(state: ConnState) | SawGSM(cfg: Config) | SawMM(settings: MMSettings) | SawCID(cid: AttachContext)

  /** The context a call runs under: the operation's own, the cleanup context that
      outlives it, a reattach bounded by both, or the short grace period of a commit. */
  datatype Scope = Operation | Cleanup | Reconnect | Grace

  /** One call as it was carried out: under which context, the backend it met (`at`), when,
      whether the operation's own context was already cancelled, what the call reported and
      whether it took effect. */
  datatype Event = Event(op: Op, scope: Scope, reply: Reply, at: Backend, time: nat, cancelled: bool, ok: bool, took: bool)

  /** What the link does on its own. With autoconnect off nothing activates the
      bearer, and with the bearer down as well nothing ends AT+COPS=2. */
  predicate LinkDrift(l: Link, l': Link) {
    && l'.auto == l.auto
    && (!l.auto && l'.active ==> l.active)
    && (!l.auto && !l.active && l'.registered ==> l.registered)
  }

  function LinkAfter(op: Op, l: Link): Link {
    match op
    case SetAutoconnect(on) => l.(auto := on)
    case Disconnect => l.(active := false)
    case Deregister => l.(registered := false)
    case Reattach => l.(registered := true)
    case Connect => l.(active := true, registered := true)
    case Commit(auto) => l.(auto := auto)
    case _ => l
  }

  /** The effect of a call. Activation may rewrite CID1, hence `cid`. */
  function After(op: Op, b: Backend, cid: AttachContext): Backend {
    var b := b.(link := LinkAfter(op, b.link));
    match op
    case SetGSM(c) => b.(nm := c.(auth := ""))
    case SetMM(s) => b.(mm := s)
    case WriteCID(c) => b.(cid := c)
    case WriteAuth(a) => b.(auth := a)
    case Connect => b.(cid := cid)
    case Commit(auto) => b.(savedProfile := b.nm, savedAuto := auto)
    case _ => b
  }

  lemma AfterKeepsContext(op: Op, b: Backend, cid: AttachContext)
    ensures After(op, b, cid) == After(op, b, After(op, b, cid).cid)
  {
  }

  /** What changes between calls. In a steady world nobody else edits the profile,
      and CID1 is only rewritten by an activation, which needs autoconnect. */
  predicate Drift(steady: bool, b: Backend, b': Backend) {
    && LinkDrift(b.link, b'.link)
    && b'.savedProfile == b.savedProfile && b'.savedAuto == b.savedAuto && b'.auth == b.auth
    && (steady ==> b'.nm == b.nm && b'.mm == b.mm && (!b.link.auto ==> b'.cid == b.cid))
  }

  function ReplyOf(op: Op, b: Backend): Reply {
    match op
    case GetState => SawState(ConnState(b.link.auto, b.link.active))
    case GetGSM => SawGSM(b.nm)
    case GetMM => SawMM(b.mm)
    case ReadCID => SawCID(b.cid)
    case _ => Nothing
  }

  class World {
    const steady: bool
    var backend: Backend
    var time: nat
    var operationDone: bool
    var cleanupDone: bool
    ghost var trace: seq<Event>

    constructor (steady: bool, b: Backend)
      ensures this.steady == steady && backend == b && trace == []
    {
      this.steady, backend, time := steady, b, 0;
      operationDone, cleanupDone, trace := false, false, [];
    }

    predicate Dead(scope: Scope)
      reads this
    {
      match scope
      case Operation => operationDone
      case Cleanup => cleanupDone
      case Reconnect => operationDone || cleanupDone
      case Grace => false
    }

    /** A new operation starts with its own contexts. */
    method Begin(done: bool)
      modifies this`operationDone, this`cleanupDone
      ensures operationDone == done && !cleanupDone
    {
      operationDone, cleanupDone := done, false;
    }

    /** One backend call. */
    method Call(op: Op, scope: Scope) returns (ok: bool, reply: Reply, ghost e: Event)
      modifies this
      ensures trace == old(trace) + [e]
      ensures e.op == op && e.scope == scope && e.ok == ok && e.reply == reply
      ensures Drift(steady, old(backend), e.at)
      ensures old(time) <= e.time <= time
      ensures old(operationDone) ==> e.cancelled
      ensures e.cancelled ==> operationDone
      ensures old(cleanupDone) ==> cleanupDone
      ensures e.took && (scope == Operation || scope == Reconnect) ==> !e.cancelled
      ensures ok ==> e.took
      ensures ok ==> reply == ReplyOf(op, e.at)
      ensures backend == if e.took then After(op, e.at, backend.cid) else e.at
    {
      hide *;
      var took;
      ok, took, reply, e := Issue(op, scope);
      if took {
        Perform(op);
      }
      trace := trace + [e];
      Advance();
    }

    /** A call is issued, and its fate decided. */
    method Issue(op: Op, scope: Scope) returns (ok: bool, took: bool, reply: Reply, ghost e: Event)
      modifies this`backend, this`time, this`operationDone, this`cleanupDone
      ensures e == Event(op, scope, reply, backend, time, operationDone, ok, took)
      ensures Drift(steady, old(backend), backend) && old(time) <= time
      ensures old(operationDone) ==> operationDone
      ensures old(cleanupDone) ==> cleanupDone
      ensures took && (scope == Operation || scope == Reconnect) ==> !operationDone
      ensures ok ==> took && reply == ReplyOf(op, backend)
    {
      hide Drift, ReplyOf;
      Wait();
      ok, took := Fate(Dead(scope));
      reply := if ok then ReplyOf(op, backend) else Nothing;
      e := Event(op, scope, reply, backend, time, operationDone, ok, took);
    }

    /** Whether a call reports success, and whether it takes effect. */
    method Fate(dead: bool) returns (ok: bool, took: bool)
      ensures (ok ==> took) && (took ==> !dead)
    {
      ok, took := *, *;
      took := !dead && (took || ok);
      ok := took && ok;
    }

    /** A call takes effect; what an activation makes of CID1 is up to the network. */
    method Perform(op: Op)
      modifies this`backend
      ensures backend == After(op, old(backend), backend.cid)
    {
      var cid: AttachContext := *;
      AfterKeepsContext(op, backend, cid);
      backend := After(op, backend, cid);
    }

    /** Between calls the link drifts, somebody may edit settings, time passes and
        contexts expire. */
    method Wait()
      modifies this`backend, this`time, this`operationDone, this`cleanupDone
      ensures Drift(steady, old(backend), backend) && old(time) <= time
      ensures old(operationDone) ==> operationDone
      ensures old(cleanupDone) ==> cleanupDone
    {
      var b: Backend := *;
      if Drift(steady, backend, b) {
        backend := b;
      }
      Advance();
    }

    method Advance()
      modifies this`time, this`operationDone, this`cleanupDone
      ensures old(time) <= time
      ensures old(operationDone) ==> operationDone
      ensures old(cleanupDone) ==> cleanupDone
    {
      var t: nat, op: bool, cl: bool := *, *, *;
      time, operationDone, cleanupDone := time + t, operationDone || op, cleanupDone || cl;
    }
  }
}
