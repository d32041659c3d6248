/** The durable SMS store: its tables, and its transactions. Each transaction either
    commits as a whole or fails and changes nothing; which of the two is decided by the
    environment, through the parameter `fails`. */
module SmsStore {
  import opened Wrappers
  import opened SmsText
  import opened SmsInbox

  /** What identifies a modem copy; the digest stored in the table is injective on it. */
  datatype Identity = Identity(number: string, text: string, time: string)

  const NO_IDENTITY := Identity("", "", "")

  function IdentityOf(m: Message): Identity {
    Identity(m.number, m.text, m.rawTime)
  }

  datatype Copy = Copy(identity: Identity, entry: Id)

  datatype JobState = Queued | Sending | Sent | Unknown | Expired | Cancelled

  datatype Job = Job(sender: string, destination: string, body: string, segments: nat, state: JobState,
                     createdAt: int, expiresAt: int, budgetDay: Option<int>)

  datatype ForwardJob = ForwardJob(id: Id, to: string, text: string, segments: nat)

  datatype Db = Db(inbox: seq<Row>, copies: map<string, Copy>, jobs: map<Id, Job>, budget: map<int, nat>,
                   destination: string, activatedAt: int)

  datatype Listing = Listing(row: Row, status: Option<JobState>)

  const DAY: int := 24 * 60 * 60 * 1000
  const DAILY_SEGMENTS: nat := 10

  /** The UTC day a time in milliseconds falls in. */
  function DayOf(now: int): int {
    now / DAY
  }

  function Spent(budget: map<int, nat>, day: int): nat {
    if day in budget then budget[day] else 0
  }

  // ----- recording -----

  function RowOf(m: Message, id: Id, now: int): Row {
    Row(id, m.number, m.text, m.stamp, now, false)
  }

  /** A message older than the destination, or of unknown age, is not forwarded. */
  predicate Eligible(m: Message, activatedAt: int) {
    activatedAt == 0 || (m.sourceTime.Some? && m.sourceTime.value >= activatedAt)
  }

  function JobOf(m: Message, destination: string, now: int): Job {
    Job(m.number, destination, Body(m), Segments(Body(m)), Queued, now, now + DAY, None)
  }

  predicate Known(db: Db, m: Message) {
    m.path != "" && m.path in db.copies && db.copies[m.path].identity == IdentityOf(m)
  }

  /** Only jobs of inbox rows and jobs being sent survive. */
  ghost predicate Pruned(jobs: map<Id, Job>, inbox: seq<Row>, jobs': map<Id, Job>) {
    && (forall i :: i in jobs' <==> i in jobs && (i in Ids(inbox) || jobs[i].state == Sending))
    && (forall i :: i in jobs' ==> jobs'[i] == jobs[i])
  }

  ghost predicate Recorded(db: Db, m: Message, now: int, destination: string, activatedAt: int, newId: Id, dialable: string -> bool,
                           db': Db, created: bool, id: Id)
  {
    if Known(db, m) then !created && id == db.copies[m.path].entry && db' == db
    else
      && created && id == newId
      && db'.inbox == Retained(db.inbox + [RowOf(m, newId, now)], now - INBOX_MAX_AGE)
      && Pruned(if Admissible(m, destination, dialable) && Eligible(m, activatedAt)
                then db.jobs[newId := JobOf(m, destination, now)] else db.jobs,
                db'.inbox, db'.jobs)
      && db' == db.(inbox := db'.inbox, jobs := db'.jobs,
                    copies := if m.path != "" then db.copies[m.path := Copy(IdentityOf(m), newId)] else db.copies)
  }

  // ----- reading and deleting -----

  /** What a listing commits before it reads. */
  ghost predicate Aged(db: Db, now: int, db': Db) {
    && db'.inbox == Purge(db.inbox, now - INBOX_MAX_AGE, {})
    && Pruned(db.jobs, db'.inbox, db'.jobs)
    && db' == db.(inbox := db'.inbox, jobs := db'.jobs)
  }

  ghost predicate Listed(db: Db, now: int, db': Db, rows: seq<Listing>) {
    && Aged(db, now, db')
    && |rows| == (if |db'.inbox| <= INBOX_LIMIT then |db'.inbox| else INBOX_LIMIT)
    && (forall i :: 0 <= i < |rows| ==>
          && rows[i].row == NewestFirst(db'.inbox)[i]
          && rows[i].status == if rows[i].row.id in db'.jobs then Some(db'.jobs[rows[i].row.id].state) else None)
  }

  function Without(rows: seq<Row>, id: Id): seq<Row> {
    if rows == [] then []
    else Without(rows[..|rows| - 1], id) + (if rows[|rows| - 1].id == id then [] else [rows[|rows| - 1]])
  }

  predicate Removed(db: Db, id: Id, db': Db) {
    db' == db.(inbox := Without(db.inbox, id), jobs := db.jobs - {id})
  }

  // ----- forwarding -----

  predicate Usable(destination: string, own: string, dialable: string -> bool) {
    destination != OFF && ValidDestination(destination, dialable) && (own == "" || own != destination)
  }

  /** What a reservation first makes of a job: a queued one lapses with its age, with a
      changed destination, or when it would come back to its own sender. */
  function SweptState(j: Job, now: int, destination: string, own: string, usable: bool): JobState {
    if j.state != Queued then j.state
    else if j.expiresAt <= now then Expired
    else if j.destination != destination then Cancelled
    else if usable && own != "" && j.sender == own then Cancelled
    else Queued
  }

  function Swept(jobs: map<Id, Job>, now: int, destination: string, own: string, usable: bool): map<Id, Job> {
    map i | i in jobs && (jobs[i].createdAt >= now - INBOX_MAX_AGE || jobs[i].state == Sending)
      :: jobs[i].(state := SweptState(jobs[i], now, destination, own, usable))
  }

  /** Queue order: by creation, then by id. */
  predicate Before(jobs: map<Id, Job>, a: Id, b: Id)
    requires a in jobs && b in jobs
  {
    jobs[a].createdAt < jobs[b].createdAt || (jobs[a].createdAt == jobs[b].createdAt && a <= b)
  }

  predicate IsFirst(jobs: map<Id, Job>, a: Id) {
    a in jobs && jobs[a].state == Queued && forall b | b in jobs && jobs[b].state == Queued :: Before(jobs, a, b)
  }

  ghost predicate Reserved(db: Db, now: int, destination: string, own: string, dialable: string -> bool, db': Db, r: Option<ForwardJob>) {
    var usable, day := Usable(destination, own, dialable), DayOf(now);
    var swept := Swept(db.jobs, now, destination, own, usable);
    match r
    case None =>
      && db' == db.(jobs := swept)
      && (usable ==> forall i :: IsFirst(swept, i) ==> Spent(db.budget, day) + swept[i].segments > DAILY_SEGMENTS)
    case Some(f) =>
      && usable && IsFirst(swept, f.id) && f.segments == swept[f.id].segments
      && f.to == swept[f.id].destination && f.text == swept[f.id].body
      && Spent(db.budget, day) + f.segments <= DAILY_SEGMENTS
      && db' == db.(jobs := swept[f.id := swept[f.id].(state := Sending, budgetDay := Some(day))],
                    budget := db.budget[day := Spent(db.budget, day) + f.segments])
  }

  function Finished(jobs: map<Id, Job>, id: Id, sent: bool): map<Id, Job> {
    if id in jobs && jobs[id].state == Sending then jobs[id := jobs[id].(state := if sent then Sent else Unknown)] else jobs
  }

  /** After a restart nobody can say whether a job that was being sent got out. */
  function Recovered(jobs: map<Id, Job>): map<Id, Job> {
    map i | i in jobs :: if jobs[i].state == Sending then jobs[i].(state := Unknown) else jobs[i]
  }

  function CancelOthers(jobs: map<Id, Job>, destination: string): map<Id, Job> {
    map i | i in jobs :: if jobs[i].state == Queued && jobs[i].destination != destination then jobs[i].(state := Cancelled) else jobs[i]
  }

  predicate Configured(db: Db, destination: string, now: int, db': Db) {
    && db' == db.(jobs := CancelOthers(db.jobs, destination), destination := destination, activatedAt := db'.activatedAt)
    && db'.activatedAt == if db.destination == destination then db.activatedAt else now / 1000 * 1000
  }

  lemma {:induction false} FirstExists(jobs: map<Id, Job>, ids: set<Id>) returns (a: Id)
    requires ids != {} && ids <= jobs.Keys
    ensures a in ids && forall b | b in ids :: Before(jobs, a, b)
    decreases |ids|
  {
    var x :| x in ids;
    if ids == {x} {
      a := x;
    } else {
      var rest := ids - {x};
      assert rest != {};
      a := FirstExists(jobs, rest);
      assert ids == rest + {x};
      if Before(jobs, x, a) {
        a := x;
      }
    }
  }

  /** Three statements in a row add up to one sweep. */
  lemma LapsesAreSwept(before: map<Id, Job>, kept: map<Id, Job>, due: map<Id, Job>, left: map<Id, Job>, now: int, destination: string)
    requires kept == map i | i in before && (before[i].createdAt >= now - INBOX_MAX_AGE || before[i].state == Sending) :: before[i]
    requires due == map i | i in kept :: if kept[i].state == Queued && kept[i].expiresAt <= now then kept[i].(state := Expired) else kept[i]
    requires left == map i | i in due :: if due[i].state == Queued && due[i].destination != destination then due[i].(state := Cancelled) else due[i]
    ensures left == Swept(before, now, destination, "", false)
  {
    assert left.Keys == kept.Keys == Swept(before, now, destination, "", false).Keys;
    forall i | i in left ensures left[i] == Swept(before, now, destination, "", false)[i] {
      assert due[i] == if before[i].state == Queued && before[i].expiresAt <= now then before[i].(state := Expired) else before[i];
    }
  }

  class Store {
    const dialable: string -> bool
    var inbox: seq<Row>
    var copies: map<string, Copy>
    var jobs: map<Id, Job>
    var budget: map<int, nat>
    var destination: string
    var activatedAt: int

    constructor (dialable: string -> bool)
      ensures this.dialable == dialable && Tables() == Db([], map[], map[], map[], OFF, 0)
    {
      this.dialable := dialable;
      inbox, copies, jobs, budget, destination, activatedAt := [], map[], map[], map[], OFF, 0;
    }

    function Tables(): Db
      reads this
    {
      Db(inbox, copies, jobs, budget, destination, activatedAt)
    }

    /** Commits a message and its modem identity; a copy already recorded is recognised. */
    method Record(m: Message, now: int, destination: string, activatedAt: int, newId: Id, fails: bool) returns (created: bool, id: Id)
      requires Distinct(inbox) && newId !in Ids(inbox) && newId !in jobs
      modifies this
      ensures if fails then Tables() == old(Tables())
              else Recorded(old(Tables()), m, now, destination, activatedAt, newId, dialable, Tables(), created, id)
    {
      hide Body, Segments, ForwardText, Admissible, Purge, Retained, Overflow, Distinct, Eligible;
      created, id := false, newId;
      if fails { return; }
      if m.path != "" && m.path in copies && copies[m.path].identity == IdentityOf(m) {
        id := copies[m.path].entry;
        return;
      }
      created := true;
      inbox := inbox + [RowOf(m, newId, now)];
      if m.path != "" {
        copies := copies[m.path := Copy(IdentityOf(m), newId)];
      }
      var admitted := ForwardText(m, destination, dialable);
      if admitted.Some? && Eligible(m, activatedAt) {
        var (body, segments) := admitted.value;
        jobs := jobs[newId := Job(m.number, destination, body, segments, Queued, now, now + DAY, None)];
      }
      ghost var rows := inbox;
      AppendDistinct(old(inbox), rows[|rows| - 1]);
      inbox := Purge(inbox, now - INBOX_MAX_AGE, Overflow(inbox));
      PurgeIsRetained(rows, now - INBOX_MAX_AGE);
      Prune();
    }

    /** `DELETE FROM forward_jobs WHERE id NOT IN (SELECT id FROM inbox) AND state <> 'sending'`. */
    method Prune()
      modifies this`jobs
      ensures Pruned(old(jobs), inbox, jobs)
    {
      var kept := Ids(inbox);
      jobs := map i | i in jobs && (i in kept || jobs[i].state == Sending) :: jobs[i];
    }

    method ForgetModem(path: string, fails: bool)
      modifies this`copies
      ensures copies == if fails then old(copies) else old(copies) - {path}
    {
      if !fails {
        copies := copies - {path};
      }
    }

    /** The rows newest first, with the state of their forwarding. */
    method List(now: int, fails: bool, queryFails: bool) returns (rows: Option<seq<Listing>>)
      modifies this
      ensures rows.Some? <==> !fails && !queryFails
      ensures if fails then Tables() == old(Tables()) else Aged(old(Tables()), now, Tables())
      ensures rows.Some? ==> Listed(old(Tables()), now, Tables(), rows.value)
    {
      if fails { return None; }
      inbox := Purge(inbox, now - INBOX_MAX_AGE, {});
      Prune();
      // The clean-up is committed; the query after it may fail on its own.
      if queryFails { return None; }
      var listed := [];
      var sorted := NewestFirst(inbox);
      var n := if |sorted| <= INBOX_LIMIT then |sorted| else INBOX_LIMIT;
      for k := 0 to n
        invariant |listed| == k
        invariant forall i :: 0 <= i < k ==>
                    listed[i] == Listing(sorted[i], if sorted[i].id in jobs then Some(jobs[sorted[i].id].state) else None)
      {
        listed := listed + [Listing(sorted[k], if sorted[k].id in jobs then Some(jobs[sorted[k].id].state) else None)];
      }
      rows := Some(listed);
    }

    method Delete(id: Id, fails: bool) returns (found: bool)
      modifies this
      ensures if fails then Tables() == old(Tables()) && !found
              else Removed(old(Tables()), id, Tables()) && found == (id in Ids(old(inbox)))
    {
      found := false;
      if !fails {
        found := id in Ids(inbox);
        inbox, jobs := Without(inbox, id), jobs - {id};
      }
    }

    method RecoverForward(fails: bool)
      modifies this`jobs
      ensures jobs == if fails then old(jobs) else Recovered(old(jobs))
    {
      if !fails {
        jobs := map i | i in jobs :: if jobs[i].state == Sending then jobs[i].(state := Unknown) else jobs[i];
      }
    }

    /** A new destination takes effect now, and cancels what waits for another one. */
    method ConfigureForward(destination: string, now: int, fails: bool) returns (activated: int)
      modifies this`destination, this`activatedAt, this`jobs
      ensures if fails then Tables() == old(Tables())
              else Configured(old(Tables()), destination, now, Tables()) && activated == activatedAt
    {
      activated := 0;
      if fails { return; }
      if this.destination != destination {
        this.destination, activatedAt := destination, now / 1000 * 1000;
      }
      jobs := map i | i in jobs
        :: if jobs[i].state == Queued && jobs[i].destination != destination then jobs[i].(state := Cancelled) else jobs[i];
      activated := activatedAt;
    }

    /** The statements a reservation starts with: what is too old goes, what expired or
        waits for another destination lapses. */
    method Lapse(now: int, destination: string)
      modifies this`jobs
      ensures jobs == Swept(old(jobs), now, destination, "", false)
    {
      hide *;
      ghost var before := jobs;
      jobs := map i | i in jobs && (jobs[i].createdAt >= now - INBOX_MAX_AGE || jobs[i].state == Sending) :: jobs[i];
      ghost var kept := jobs;
      jobs := map i | i in jobs :: if jobs[i].state == Queued && jobs[i].expiresAt <= now then jobs[i].(state := Expired) else jobs[i];
      ghost var due := jobs;
      jobs := map i | i in jobs :: if jobs[i].state == Queued && jobs[i].destination != destination then jobs[i].(state := Cancelled) else jobs[i];
      LapsesAreSwept(before, kept, due, jobs, now, destination);
    }

    /** The same for what would come back to its sender; `usable` says whether the
        destination can be sent to at all. */
    method Sweep(now: int, destination: string, own: string) returns (usable: bool)
      modifies this`jobs
      ensures usable == Usable(destination, own, dialable)
      ensures jobs == Swept(old(jobs), now, destination, own, usable)
    {
      hide ValidDestination;
      Lapse(now, destination);
      usable := !(destination == OFF || !ValidDestination(destination, dialable) || (own != "" && own == destination));
      if usable && own != "" {
        jobs := map i | i in jobs :: if jobs[i].state == Queued && jobs[i].sender == own then jobs[i].(state := Cancelled) else jobs[i];
      }
    }

    /** Commits both the attempt and its charge to the day's budget. */
    method ReserveForward(now: int, destination: string, own: string, fails: bool) returns (r: Option<ForwardJob>)
      modifies this`jobs, this`budget
      ensures if fails then r.None? && Tables() == old(Tables())
              else Reserved(old(Tables()), now, destination, own, dialable, Tables(), r)
    {
      hide Swept, Usable;
      r := None;
      if fails { return; }
      var usable := Sweep(now, destination, own);
      if !usable { return; }
      var day := DayOf(now);
      var spent := Spent(budget, day);
      var queued := set i | i in jobs && jobs[i].state == Queued;
      if queued == {} {
        assert forall i :: IsFirst(jobs, i) ==> i in queued;
        return;
      }
      ghost var a := FirstExists(jobs, queued);
      var first :| first in queued && forall b | b in queued :: Before(jobs, first, b);
      assert IsFirst(jobs, first);
      var job := jobs[first];
      if spent + job.segments > DAILY_SEGMENTS {
        assert forall i :: IsFirst(jobs, i) ==> i in queued && Before(jobs, i, first) && Before(jobs, first, i);
        return;
      }
      r := Some(ForwardJob(first, job.destination, job.body, job.segments));
      jobs := jobs[first := job.(state := Sending, budgetDay := Some(day))];
      budget := budget[day := spent + job.segments];
    }

    method FinishForward(id: Id, sent: bool, fails: bool)
      modifies this`jobs
      ensures jobs == if fails then old(jobs) else Finished(old(jobs), id, sent)
    {
      if !fails && id in jobs && jobs[id].state == Sending {
        jobs := jobs[id := jobs[id].(state := if sent then Sent else Unknown)];
      }
    }
  }
}
