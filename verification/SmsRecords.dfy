/** What the transactions of the store do, field by field: the row and the job of a new
    message, what a reservation lapses and picks, and what the other statements change. */
module SmsRecords {
  import opened Wrappers
  import opened SmsText
  import opened SmsInbox
  import opened SmsStore

  /** What is forwarded: the marker and the sender, the timestamp, and the text. */
  predicate Quotes(body: string, number: string, stamp: string, text: string) {
    body == "[Librescoot SMS]" + " From: " + number + "\n" + stamp + "\n" + text
  }

  predicate IsE164(s: string) {
    && 9 <= |s| <= 16 && s[0] == '+' && s[1] in "123456789"
    && forall i :: 2 <= i < |s| ==> s[i] in "0123456789"
  }

  ghost predicate MentionsMarker(text: string) {
    exists i :: MarkerAt(text, i)
  }

  predicate MarkerAt(text: string, i: int) {
    0 <= i <= |text| - 16 && text[i..i + 16] == "[Librescoot SMS]"
  }

  /** A message may be forwarded: to a valid number that is not its sender, unless it quotes a
      forwarded message, takes more than ten parts, or is older than the setting or of no
      known age. */
  ghost predicate Forwardable(m: Message, destination: string, activatedAt: int, dialable: string -> bool) {
    && IsE164(destination) && dialable(destination) && m.number != destination
    && !MentionsMarker(m.text)
    && Segments("[Librescoot SMS]" + " From: " + m.number + "\n" + m.stamp + "\n" + m.text) <= 10
    && (activatedAt == 0 || (m.sourceTime.Some? && m.sourceTime.value >= activatedAt))
  }

  lemma DigitIs(c: char)
    ensures c in "0123456789" <==> '0' <= c <= '9'
    ensures c in "123456789" <==> '1' <= c <= '9'
  {
    if '0' <= c <= '9' {
      assert "0123456789"[c as int - '0' as int] == c;
      if c != '0' {
        assert "123456789"[c as int - '1' as int] == c;
      }
    }
  }

  lemma E164Is(s: string)
    ensures IsE164(s) <==> E164(s)
    ensures IsE164(s) ==> s != OFF
  {
    forall c: char ensures (c in "0123456789" <==> '0' <= c <= '9') && (c in "123456789" <==> '1' <= c <= '9') {
      DigitIs(c);
    }
  }

  lemma MarkerIs(text: string)
    ensures MentionsMarker(text) <==> Contains(text, MARKER)
  {
    if i: nat :| i <= |text| && OccursAt(text, MARKER, i) {
      assert MarkerAt(text, i);
    }
    if i :| MarkerAt(text, i) {
      assert OccursAt(text, MARKER, i);
    }
  }

  lemma BodyQuotes(m: Message)
    ensures Quotes(Body(m), m.number, m.stamp, m.text)
  {
  }

  lemma ForwardableIs(m: Message, destination: string, activatedAt: int, dialable: string -> bool)
    ensures Forwardable(m, destination, activatedAt, dialable) <==> Admissible(m, destination, dialable) && Eligible(m, activatedAt)
  {
    hide Segments, Contains, MentionsMarker, IsE164, E164;
    E164Is(destination);
    MarkerIs(m.text);
    BodyQuotes(m);
  }

  // ----- recording a message -----

  /** The copy under this path was recorded before. */
  predicate Recognised(db: Db, m: Message) {
    m.path != "" && m.path in db.copies && db.copies[m.path].identity == Identity(m.number, m.text, m.rawTime)
  }

  /** The row and the job a new message gets. A row beyond the hundred newest goes at once,
      and its job with it. */
  ghost predicate StoredAs(db: Db, m: Message, now: int, destination: string, activatedAt: int, id: Id, dialable: string -> bool, db': Db) {
    && (forall r :: r in db'.inbox && r.id == id ==> r == Row(id, m.number, m.text, m.stamp, now, false))
    && (id in Ids(db'.inbox) <==> CountAfter(db.inbox, now) < 100)
    && (id in db'.jobs <==> id in Ids(db'.inbox) && Forwardable(m, destination, activatedAt, dialable))
    && (id in db'.jobs ==> NewJob(db'.jobs[id], m, destination, now))
    && (m.path != "" ==> m.path in db'.copies && db'.copies[m.path] == Copy(Identity(m.number, m.text, m.rawTime), id))
  }

  predicate NewJob(j: Job, m: Message, destination: string, now: int) {
    && j.sender == m.number && j.destination == destination && Quotes(j.body, m.number, m.stamp, m.text)
    && j.segments == Segments(j.body) && j.state == Queued
    && j.createdAt == now && j.expiresAt == now + 86_400_000 && j.budgetDay.None?
  }

  /** What else is in the tables afterwards was there before: other rows that are younger than
      thirty days, their jobs and the jobs being sent, and the copies under other paths. */
  ghost predicate OthersKept(db: Db, m: Message, now: int, id: Id, db': Db) {
    && (forall r :: r in db'.inbox && r.id != id ==> r in db.inbox && r.receivedAt >= now - 2_592_000_000)
    && (forall k :: k in db'.jobs && k != id ==> k in db.jobs && db'.jobs[k] == db.jobs[k] && (k in Ids(db'.inbox) || db.jobs[k].state == Sending))
    && (forall k :: k in db.jobs && k != id && (k in Ids(db'.inbox) || db.jobs[k].state == Sending) ==> k in db'.jobs)
    && (forall p :: p != m.path ==> (p in db'.copies <==> p in db.copies) && (p in db.copies ==> db'.copies[p] == db.copies[p]))
    && db'.budget == db.budget && db'.destination == db.destination && db'.activatedAt == db.activatedAt
  }

  lemma NewRowRank(rows: seq<Row>, row: Row, cutoff: int)
    requires Distinct(rows) && row.id !in Ids(rows) && row.receivedAt >= cutoff
    ensures row.id in Ids(Retained(rows + [row], cutoff)) <==> CountAfter(rows, row.receivedAt) < 100
    ensures forall r :: r in Retained(rows + [row], cutoff) && r.id == row.id ==> r == row
    ensures forall r :: r in Retained(rows + [row], cutoff) && r.id != row.id ==> r in rows && r.receivedAt >= cutoff
  {
    var all := rows + [row];
    AppendDistinct(rows, row);
    RetainedRows(all, |all|, cutoff);
    LastRank(rows, row, |rows|);
    assert rows[..|rows|] == rows && all[|rows|] == row;
    assert Rank(all, |rows|) == CountAfter(rows, row.receivedAt) by { assert !Newer(all, |rows|, |rows|); }
    hide Rank, Newest100, CountAfter, Distinct;
    var kept := Retained(all, cutoff);
    forall r | r in kept ensures if r.id == row.id then r == row && CountAfter(rows, row.receivedAt) < 100 else r in rows && r.receivedAt >= cutoff {
      var j :| 0 <= j < |all| && all[j] == r && Rank(all, j) < INBOX_LIMIT;
      assert j < |rows| ==> r == rows[j] && r.id in Ids(rows);
    }
  }

  /** What a record does. A copy that was recorded before changes nothing. Any other message
      gets a row that holds it, and a job exactly if it may be forwarded. */
  lemma RecordStores(db: Db, m: Message, now: int, destination: string, activatedAt: int, newId: Id, dialable: string -> bool,
                     db': Db, created: bool, id: Id)
    requires Recorded(db, m, now, destination, activatedAt, newId, dialable, db', created, id)
    requires Distinct(db.inbox) && newId !in Ids(db.inbox) && newId !in db.jobs
    ensures created <==> !Recognised(db, m)
    ensures !created ==> db' == db && id == db.copies[m.path].entry
    ensures created ==> id == newId && StoredAs(db, m, now, destination, activatedAt, id, dialable, db') && OthersKept(db, m, now, id, db')
  {
    hide Retained, Admissible, Eligible, Forwardable, Body, Segments, Distinct, CountAfter, Ids;
    if created {
      NewRowRank(db.inbox, RowOf(m, newId, now), now - INBOX_MAX_AGE);
      ForwardableIs(m, destination, activatedAt, dialable);
      BodyQuotes(m);
    }
  }

  // ----- reserving -----

  /** The destination can be sent to by a vehicle with this number, if it is known. */
  predicate Reachable(destination: string, own: string, dialable: string -> bool) {
    IsE164(destination) && dialable(destination) && destination != own
  }

  /** A queued job lapses: it has expired, waits for another destination, or would come back
      to the vehicle that sent it. */
  predicate LapsesTo(j: Job, now: int, destination: string, own: string, dialable: string -> bool, state: JobState) {
    if j.expiresAt <= now then state == Expired
    else if j.destination != destination || (own != "" && j.sender == own && Reachable(destination, own, dialable)) then state == Cancelled
    else state == Queued
  }

  /** What a reservation leaves of the jobs: those younger than thirty days and those being
      sent; of these the queued ones that lapse are marked, and the one it picks is sending. */
  ghost predicate Lapsed(jobs: map<Id, Job>, jobs': map<Id, Job>, now: int, destination: string, own: string, dialable: string -> bool,
                         picked: Option<Id>)
  {
    && (forall k :: k in jobs' <==> k in jobs && (jobs[k].createdAt >= now - 2_592_000_000 || jobs[k].state == Sending))
    && forall k :: k in jobs' ==>
         && jobs'[k] == jobs[k].(state := jobs'[k].state, budgetDay := jobs'[k].budgetDay)
         && if picked == Some(k) then
              LapsesTo(jobs[k], now, destination, own, dialable, Queued) && jobs'[k].state == Sending && jobs'[k].budgetDay == Some(now / 86_400_000)
            else
              && jobs'[k].budgetDay == jobs[k].budgetDay
              && if jobs[k].state == Queued then LapsesTo(jobs[k], now, destination, own, dialable, jobs'[k].state) else jobs'[k].state == jobs[k].state
  }

  /** The job `k` is the oldest queued one, of those created together the one with the
      smallest id. */
  ghost predicate IsNext(jobs: map<Id, Job>, k: Id) {
    && k in jobs
    && forall i :: i in jobs && i != k && jobs[i].state == Queued ==>
         jobs[k].createdAt < jobs[i].createdAt || (jobs[k].createdAt == jobs[i].createdAt && k < i)
  }

  function SpentOn(budget: map<int, nat>, day: int): nat {
    if day in budget then budget[day] else 0
  }

  /** Nothing can be sent now: the destination cannot be reached, or nothing is queued after
      the sweep, or the next job does not fit today's budget of ten segments. */
  ghost predicate NothingToSend(db: Db, now: int, destination: string, own: string, dialable: string -> bool, jobs': map<Id, Job>) {
    || !Reachable(destination, own, dialable)
    || (forall k :: k in jobs' ==> jobs'[k].state != Queued)
    || exists k :: IsNext(jobs', k) && jobs'[k].state == Queued && SpentOn(db.budget, now / 86_400_000) + jobs'[k].segments > 10
  }

  lemma UsableIs(destination: string, own: string, dialable: string -> bool)
    ensures Usable(destination, own, dialable) <==> Reachable(destination, own, dialable)
  {
    E164Is(destination);
    hide IsE164, E164;
    assert IsE164(destination) ==> destination != "" by { NotEmpty(destination); }
  }

  lemma NotEmpty(s: string)
    ensures IsE164(s) ==> s != ""
  {
  }

  lemma SweepLapses(jobs: map<Id, Job>, now: int, destination: string, own: string, dialable: string -> bool)
    ensures Lapsed(jobs, Swept(jobs, now, destination, own, Usable(destination, own, dialable)), now, destination, own, dialable, None)
  {
    UsableIs(destination, own, dialable);
    hide Usable, Reachable;
  }

  /** A reservation marks what lapses, and picks nothing only if nothing can be sent. */
  lemma ReserveNothing(db: Db, now: int, destination: string, own: string, dialable: string -> bool, db': Db)
    requires Reserved(db, now, destination, own, dialable, db', None)
    ensures db' == db.(jobs := db'.jobs) && Lapsed(db.jobs, db'.jobs, now, destination, own, dialable, None)
    ensures NothingToSend(db, now, destination, own, dialable, db'.jobs)
  {
    hide Usable, Reachable, Lapsed;
    UsableIs(destination, own, dialable);
    SweepLapses(db.jobs, now, destination, own, dialable);
    hide Swept;
    var queued := set k | k in db'.jobs && db'.jobs[k].state == Queued;
    if queued != {} {
      var k := FirstExists(db'.jobs, queued);
      assert IsFirst(db'.jobs, k);
      FirstIsNext(db'.jobs, k);
    } else {
      assert forall k :: k in db'.jobs ==> k !in queued;
    }
  }

  lemma FirstIsNext(jobs: map<Id, Job>, k: Id)
    requires IsFirst(jobs, k)
    ensures IsNext(jobs, k)
  {
    forall i | i in jobs && i != k && jobs[i].state == Queued
      ensures jobs[k].createdAt < jobs[i].createdAt || (jobs[k].createdAt == jobs[i].createdAt && k < i)
    {
      assert Before(jobs, k, i);
    }
  }

  /** A reservation that picks a job marks what lapses, picks the next job that does not, to
      a destination that can be reached, and charges it to today's budget of ten segments. */
  lemma ReservePicks(db: Db, now: int, destination: string, own: string, dialable: string -> bool, db': Db, f: ForwardJob)
    requires Reserved(db, now, destination, own, dialable, db', Some(f))
    ensures f.id in db.jobs && f.to == destination && f == ForwardJob(f.id, db.jobs[f.id].destination, db.jobs[f.id].body, db.jobs[f.id].segments)
    ensures Lapsed(db.jobs, db'.jobs, now, destination, own, dialable, Some(f.id))
    ensures IsNext(db'.jobs, f.id) && Reachable(destination, own, dialable)
    ensures var spent := SpentOn(db.budget, now / 86_400_000) + f.segments;
            spent <= 10 && db' == db.(jobs := db'.jobs, budget := db.budget[now / 86_400_000 := spent])
  {
    hide Usable, Reachable, Lapsed;
    UsableIs(destination, own, dialable);
    SweepLapses(db.jobs, now, destination, own, dialable);
    var swept := Swept(db.jobs, now, destination, own, true);
    FirstIsNext(swept, f.id);
    PickedLapses(db.jobs, swept, now, destination, own, dialable, f.id, DayOf(now));
    hide Swept, IsFirst;
  }

  lemma PickedLapses(jobs: map<Id, Job>, swept: map<Id, Job>, now: int, destination: string, own: string, dialable: string -> bool, id: Id, day: int)
    requires Lapsed(jobs, swept, now, destination, own, dialable, None) && id in swept && swept[id].state == Queued && day == now / 86_400_000
    ensures id in jobs && jobs[id].state == Queued && jobs[id].destination == destination == swept[id].destination
    ensures swept[id].body == jobs[id].body && swept[id].segments == jobs[id].segments
    ensures Lapsed(jobs, swept[id := swept[id].(state := Sending, budgetDay := Some(day))], now, destination, own, dialable, Some(id))
  {
    hide Reachable;
    assert jobs[id].state == Queued;
  }

  // ----- the other statements -----

  /** A changed setting takes effect at the whole second, and cancels what waits for another
      destination. */
  lemma SettingWrites(db: Db, destination: string, now: int, db': Db)
    requires Configured(db, destination, now, db')
    ensures db'.destination == destination
    ensures db'.activatedAt == if db.destination == destination then db.activatedAt else now - now % 1000
    ensures db'.jobs.Keys == db.jobs.Keys
    ensures forall k :: k in db.jobs ==>
              db'.jobs[k] == if db.jobs[k].state == Queued && db.jobs[k].destination != destination then db.jobs[k].(state := Cancelled)
                             else db.jobs[k]
    ensures db'.inbox == db.inbox && db'.copies == db.copies && db'.budget == db.budget
  {
  }

  /** The outcome of a hand-over is recorded for the job that is being sent, and a restart
      leaves every such job in doubt. */
  lemma OutcomeIsRecorded(jobs: map<Id, Job>, id: Id, sent: bool)
    ensures Finished(jobs, id, sent).Keys == Recovered(jobs).Keys == jobs.Keys
    ensures forall k :: k in jobs ==>
              && Finished(jobs, id, sent)[k] ==
                   (if k == id && jobs[k].state == Sending then jobs[k].(state := if sent then Sent else Unknown) else jobs[k])
              && Recovered(jobs)[k] == (if jobs[k].state == Sending then jobs[k].(state := Unknown) else jobs[k])
  {
  }

  lemma {:induction false} PurgeKeepsYoung(rows: seq<Row>, cutoff: int)
    ensures forall r :: r in Purge(rows, cutoff, {}) <==> r in rows && r.receivedAt >= cutoff
  {
    if rows != [] {
      PurgeKeepsYoung(rows[..|rows| - 1], cutoff);
      assert rows == rows[..|rows| - 1] + [rows[|rows| - 1]];
    }
  }

  /** What a listing shows: the newest hundred of the rows younger than thirty days, newest
      first, each with the state of its job. */
  lemma ListingShows(db: Db, now: int, db': Db, rows: seq<Listing>)
    requires Listed(db, now, db', rows)
    ensures forall r :: r in db'.inbox <==> r in db.inbox && r.receivedAt >= now - 2_592_000_000
    ensures |rows| == if |db'.inbox| < 100 then |db'.inbox| else 100
    ensures forall i :: 0 <= i < |rows| ==>
              && rows[i].row in db'.inbox
              && rows[i].status == (if rows[i].row.id in db'.jobs then Some(db'.jobs[rows[i].row.id].state) else None)
    ensures forall i, j :: 0 <= i < j < |rows| ==> rows[i].row.receivedAt >= rows[j].row.receivedAt
    ensures forall k :: k in db'.jobs <==> k in db.jobs && (k in Ids(db'.inbox) || db.jobs[k].state == Sending)
    ensures forall k :: k in db'.jobs ==> db'.jobs[k] == db.jobs[k]
  {
    PurgeKeepsYoung(db.inbox, now - INBOX_MAX_AGE);
    NewestFirstSorts(db'.inbox);
    NewestFirstPermutes(db'.inbox);
    hide Purge, NewestFirst, Ids;
  }
}
