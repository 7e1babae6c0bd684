/**
 The delivery queue of email_queue.py and the provider events of webhooks.py. The provider's
 replies, the renderer and the clock of a pass come from outside; every call to the provider
 is recorded in `log`.
 */
module EmailQueue {
  import opened Options
  import opened Text

  const TRANSACTIONAL := 0

  datatype Status =
    | Queued | Sending | Sent | Delivered | Delayed | Bounced | Complained | Failed | Suppressed | Unsubscribed

  datatype Msg = Msg(
    lead: nat, email: string, template: string, dedupe: string, priority: int,
    status: Status, providerId: string, attempts: nat, queuedAt: int, updatedAt: int, sentAt: Option<int>)

  datatype Lead = Lead(email: string, consent: bool, suppressed: bool)

  /** One call to the provider. */
  datatype Attempt = Attempt(row: nat, lead: nat, at: int, ok: bool)

  datatype Mail = Mail(msgs: seq<Msg>, leads: seq<Lead>, log: seq<Attempt>)

  datatype Settings = Settings(daily: int, monthly: int, maxAttempts: nat)

  datatype Reply = Reply(ok: bool, retryable: bool, id: string)

  /** What one pass reads from outside: the clock, the renderer's success and the provider's reply for each row. */
  datatype Outside = Outside(now: int, dayStart: int, monthStart: int, renders: nat -> bool, replies: nat -> Reply)

  datatype Tally = Tally(sent: nat, failed: nat, skippedQuota: nat, skippedSuppressed: nat, processed: nat, today: nat, month: nat)

  // ------------------------------------------------------------- enqueue

  predicate SameKey(m: Msg, lead: nat, template: string, dedupe: string) {
    m.lead == lead && m.template == template && m.dedupe == dedupe
  }

  predicate HasKey(msgs: seq<Msg>, lead: nat, template: string, dedupe: string) {
    exists i | 0 <= i < |msgs| :: SameKey(msgs[i], lead, template, dedupe)
  }

  function Dedupe(key: string, template: string): string {
    if key == "" then template else key
  }

  function EmailOf(leads: seq<Lead>, lead: nat): string {
    if lead < |leads| then leads[lead].email else ""
  }

  function NewMsg(m: Mail, lead: nat, template: string, priority: int, dedupe: string, at: int): Msg {
    Msg(lead, EmailOf(m.leads, lead), template, Dedupe(dedupe, template), priority, Queued, "", 0, at, at, None)
  }

  function Enqueued(m: Mail, lead: nat, template: string, priority: int, dedupe: string, at: int): Mail {
    if HasKey(m.msgs, lead, template, Dedupe(dedupe, template)) then m
    else m.(msgs := m.msgs + [NewMsg(m, lead, template, priority, dedupe, at)])
  }

  // ------------------------------------------------------------- the rows of a pass

  function Pow2(n: nat): (r: nat)
    ensures r >= 1
  {
    if n == 0 then 1 else 2 * Pow2(n - 1)
  }

  /** Seconds to wait after the n-th attempt. */
  function Backoff(n: nat): int {
    if Pow2(n) * 30 < 3600 then Pow2(n) * 30 else 3600
  }

  predicate WithinBackoff(m: Msg, now: int) {
    m.attempts != 0 && now - m.updatedAt < Backoff(m.attempts)
  }

  function CountSince(msgs: seq<Msg>, since: int): nat {
    if msgs == [] then 0
    else
      (if (msgs[0].status == Sent || msgs[0].status == Delivered) && msgs[0].sentAt.Some? && msgs[0].sentAt.value >= since
       then 1 else 0) + CountSince(msgs[1..], since)
  }

  /** Row order of the query: priority, then age, then row. */
  predicate Before(msgs: seq<Msg>, i: nat, j: nat) {
    i < |msgs| && j < |msgs| && (
      || msgs[i].priority < msgs[j].priority
      || (msgs[i].priority == msgs[j].priority && msgs[i].queuedAt < msgs[j].queuedAt)
      || (msgs[i].priority == msgs[j].priority && msgs[i].queuedAt == msgs[j].queuedAt && i <= j))
  }

  predicate Rows(msgs: seq<Msg>, ids: seq<nat>) {
    forall k | 0 <= k < |ids| :: ids[k] < |msgs|
  }

  predicate Distinct(ids: seq<nat>) {
    forall i, j | 0 <= i < j < |ids| :: ids[i] != ids[j]
  }

  predicate Sorted(msgs: seq<Msg>, ids: seq<nat>) {
    forall i, j | 0 <= i < j < |ids| :: Before(msgs, ids[i], ids[j])
  }

  function Insert(msgs: seq<Msg>, i: nat, ids: seq<nat>): (r: seq<nat>)
    requires i < |msgs| && Rows(msgs, ids)
    ensures forall k :: k in r <==> k in ids || k == i
    ensures Rows(msgs, r)
  {
    if ids == [] || Before(msgs, i, ids[0]) then [i] + ids else [ids[0]] + Insert(msgs, i, ids[1..])
  }

  /** The queued rows among the first n, in query order. */
  function QueuedRows(msgs: seq<Msg>, n: nat): (ids: seq<nat>)
    requires n <= |msgs|
    ensures forall i: nat :: i in ids <==> i < n && msgs[i].status == Queued
    ensures Rows(msgs, ids)
  {
    if n == 0 then []
    else if msgs[n - 1].status == Queued then Insert(msgs, n - 1, QueuedRows(msgs, n - 1))
    else QueuedRows(msgs, n - 1)
  }

  function Selected(msgs: seq<Msg>, limit: nat): (ids: seq<nat>)
    ensures Rows(msgs, ids) && forall i | i in ids :: msgs[i].status == Queued
  {
    var ids := QueuedRows(msgs, |msgs|);
    if |ids| <= limit * 3 then ids
    else
      assert forall i | i in ids[..limit * 3] :: i in ids;
      ids[..limit * 3]
  }

  predicate OverQuota(t: Tally, s: Settings) {
    t.today >= s.daily || t.month >= s.monthly
  }

  /** What a pass does with one row it reads. */
  datatype Verdict = Wait | Suppress | Unsubscribe | HoldForQuota | Unrendered | Send

  function Judge(m: Mail, t: Tally, i: nat, out: Outside, s: Settings): Verdict
    requires i < |m.msgs|
  {
    var msg := m.msgs[i];
    if WithinBackoff(msg, out.now) then Wait
    else if msg.lead >= |m.leads| || m.leads[msg.lead].suppressed then Suppress
    else if msg.template != "welcome" && !m.leads[msg.lead].consent then Unsubscribe
    else if OverQuota(t, s) && msg.priority > TRANSACTIONAL then HoldForQuota
    else if !out.renders(i) then Unrendered
    else Send
  }

  function AfterReply(msg: Msg, r: Reply, now: int, s: Settings): Msg {
    var tried := msg.(attempts := msg.attempts + 1, updatedAt := now);
    if r.ok then tried.(status := Sent, providerId := r.id, sentAt := Some(now))
    else if !r.retryable || tried.attempts >= s.maxAttempts then tried.(status := Failed)
    else tried.(status := Queued)
  }

  function MsgAfter(m: Mail, t: Tally, i: nat, out: Outside, s: Settings): Msg
    requires i < |m.msgs|
  {
    var msg := m.msgs[i];
    match Judge(m, t, i, out, s)
    case Wait => msg
    case Suppress => msg.(status := Suppressed, updatedAt := out.now)
    case Unsubscribe => msg.(status := Unsubscribed, updatedAt := out.now)
    case HoldForQuota => msg
    case Unrendered => msg.(status := Failed, updatedAt := out.now)
    case Send => AfterReply(msg, out.replies(i), out.now, s)
  }

  function LogAfter(m: Mail, t: Tally, i: nat, out: Outside, s: Settings): seq<Attempt>
    requires i < |m.msgs|
  {
    if Judge(m, t, i, out, s) == Send then [Attempt(i, m.msgs[i].lead, out.now, out.replies(i).ok)] else []
  }

  function TallyAfter(m: Mail, t: Tally, i: nat, out: Outside, s: Settings): Tally
    requires i < |m.msgs|
  {
    match Judge(m, t, i, out, s)
    case Wait => t
    case Suppress => t.(skippedSuppressed := t.skippedSuppressed + 1)
    case Unsubscribe => t
    case HoldForQuota => t.(skippedQuota := t.skippedQuota + 1)
    case Unrendered => t.(processed := t.processed + 1, failed := t.failed + 1)
    case Send =>
      var tried := t.(processed := t.processed + 1);
      if out.replies(i).ok then tried.(today := t.today + 1, month := t.month + 1, sent := t.sent + 1)
      else if AfterReply(m.msgs[i], out.replies(i), out.now, s).status == Failed then tried.(failed := t.failed + 1)
      else tried
  }

  function MailAfter(m: Mail, t: Tally, i: nat, out: Outside, s: Settings): Mail
    requires i < |m.msgs|
  {
    Mail(m.msgs[i := MsgAfter(m, t, i, out, s)], m.leads, m.log + LogAfter(m, t, i, out, s))
  }

  function Pass(m: Mail, t: Tally, ids: seq<nat>, limit: nat, out: Outside, s: Settings): (r: (Mail, Tally))
    requires Rows(m.msgs, ids)
    ensures |r.0.msgs| == |m.msgs| && r.0.leads == m.leads
    decreases ids
  {
    if ids == [] || t.processed >= limit then (m, t)
    else Pass(MailAfter(m, t, ids[0], out, s), TallyAfter(m, t, ids[0], out, s), ids[1..], limit, out, s)
  }

  function StartTally(m: Mail, out: Outside): Tally {
    Tally(0, 0, 0, 0, 0, CountSince(m.msgs, out.dayStart), CountSince(m.msgs, out.monthStart))
  }

  function Processed(m: Mail, limit: nat, out: Outside, s: Settings): (Mail, Tally) {
    Pass(m, StartTally(m, out), Selected(m.msgs, limit), limit, out, s)
  }

  // ------------------------------------------------------------- provider events

  datatype Kind = SentEvent | DeliveredEvent | DelayedEvent | FailedEvent | BouncedEvent | ComplainedEvent | OtherEvent

  function WithId(msgs: seq<Msg>, id: string): (r: Option<nat>)
    ensures r.Some? ==> r.value < |msgs| && msgs[r.value].providerId == id
    ensures r.None? ==> forall i | 0 <= i < |msgs| :: msgs[i].providerId != id
  {
    if msgs == [] then None
    else if msgs[0].providerId == id then Some(0)
    else
      var rest := WithId(msgs[1..], id);
      assert forall i | 1 <= i < |msgs| :: msgs[i] == msgs[1..][i - 1];
      if rest.Some? then Some(rest.value + 1) else None
  }

  function Addressed(leads: seq<Lead>, email: string): (r: Option<nat>)
    ensures r.Some? ==> r.value < |leads| && leads[r.value].email == email
    ensures r.None? ==> forall i | 0 <= i < |leads| :: leads[i].email != email
  {
    if leads == [] then None
    else if leads[0].email == email then Some(0)
    else
      var rest := Addressed(leads[1..], email);
      assert forall i | 1 <= i < |leads| :: leads[i] == leads[1..][i - 1];
      if rest.Some? then Some(rest.value + 1) else None
  }

  function NewStatus(k: Kind, was: Status): Status {
    match k
    case SentEvent => if was == Delivered then was else Sent
    case DeliveredEvent => Delivered
    case DelayedEvent => Delayed
    case FailedEvent => Failed
    case BouncedEvent => Bounced
    case ComplainedEvent => Complained
    case OtherEvent => was
  }

  function LeadsAfter(leads: seq<Lead>, email: string): (r: seq<Lead>)
    ensures |r| == |leads|
  {
    if email == "" then leads
    else
      var l := Addressed(leads, Lower(email));
      if l.Some? then leads[l.value := leads[l.value].(suppressed := true)] else leads
  }

  function Found(msgs: seq<Msg>, id: string): (r: Option<nat>)
    ensures r.Some? ==> r.value < |msgs| && id != "" && msgs[r.value].providerId == id
  {
    if id == "" then None else WithId(msgs, id)
  }

  function Blamed(msgs: seq<Msg>, id: string, recipient: string): string {
    if recipient != "" then recipient
    else if Found(msgs, id).Some? then msgs[Found(msgs, id).value].email
    else ""
  }

  function MsgsAfter(msgs: seq<Msg>, k: Kind, id: string): (r: seq<Msg>)
    ensures |r| == |msgs|
  {
    var f := Found(msgs, id);
    if f.None? then msgs else msgs[f.value := msgs[f.value].(status := NewStatus(k, msgs[f.value].status))]
  }

  function Handled(m: Mail, k: Kind, id: string, recipient: string): Mail {
    Mail(
      MsgsAfter(m.msgs, k, id),
      if k == BouncedEvent || k == ComplainedEvent then LeadsAfter(m.leads, Blamed(m.msgs, id, recipient)) else m.leads,
      m.log)
  }

  // ------------------------------------------------------------- the code

  class Mailer {
    var msgs: seq<Msg>
    var leads: seq<Lead>
    var log: seq<Attempt>

    function State(): Mail
      reads this
    {
      Mail(msgs, leads, log)
    }

    constructor ()
      ensures State() == Mail([], [], [])
    {
      msgs, leads, log := [], [], [];
    }

    method Enqueue(lead: nat, template: string, priority: int, dedupe: string, at: int) returns (added: bool)
      modifies this`msgs
      ensures State() == Enqueued(old(State()), lead, template, priority, dedupe, at)
      ensures added <==> !HasKey(old(msgs), lead, template, Dedupe(dedupe, template))
    {
      var key := if dedupe == "" then template else dedupe;
      added := !HasKey(msgs, lead, template, key);
      if added {
        msgs := msgs + [Msg(lead, EmailOf(leads, lead), template, key, priority, Queued, "", 0, at, at, None)];
      }
    }

    method ProcessQueue(limit: nat, out: Outside, s: Settings) returns (t: Tally)
      modifies this`msgs, this`log
      ensures (State(), t) == Processed(old(State()), limit, out, s)
    {
      hide Judge, TallyAfter, MsgAfter, LogAfter, QueuedRows;
      t := Tally(0, 0, 0, 0, 0, CountSince(msgs, out.dayStart), CountSince(msgs, out.monthStart));
      var pending := Selected(msgs, limit);
      var i := 0;
      while i < |pending|
        invariant 0 <= i <= |pending| && Rows(msgs, pending)
        invariant Pass(State(), t, pending[i..], limit, out, s) == Processed(old(State()), limit, out, s)
      {
        if t.processed >= limit {
          break;
        }
        assert pending[i..][1..] == pending[i + 1..] && pending[i] in pending;
        t := ProcessRow(pending[i], t, out, s);
        i := i + 1;
      }
    }

    /** The loop body of process_queue. */
    method ProcessRow(i: nat, t0: Tally, out: Outside, s: Settings) returns (t: Tally)
      requires i < |msgs|
      modifies this`msgs, this`log
      ensures State() == MailAfter(old(State()), t0, i, out, s) && t == TallyAfter(old(State()), t0, i, out, s)
    {
      t := t0;
      var msg := msgs[i];
      if WithinBackoff(msg, out.now) {
        return;
      }
      if msg.lead >= |leads| || leads[msg.lead].suppressed {
        msgs := msgs[i := msg.(status := Suppressed, updatedAt := out.now)];
        t := t.(skippedSuppressed := t.skippedSuppressed + 1);
        return;
      }
      if msg.template != "welcome" && !leads[msg.lead].consent {
        msgs := msgs[i := msg.(status := Unsubscribed, updatedAt := out.now)];
        return;
      }
      if t.today >= s.daily || t.month >= s.monthly {
        if msg.priority > TRANSACTIONAL {
          t := t.(skippedQuota := t.skippedQuota + 1);
          return;
        }
      }
      t := t.(processed := t.processed + 1);
      if !out.renders(i) {
        msgs := msgs[i := msg.(status := Failed, updatedAt := out.now)];
        t := t.(failed := t.failed + 1);
        return;
      }
      var r := out.replies(i);
      log := log + [Attempt(i, msg.lead, out.now, r.ok)];
      msg := msg.(status := Sending, attempts := msg.attempts + 1, updatedAt := out.now);
      if r.ok {
        msg := msg.(status := Sent, providerId := r.id, sentAt := Some(out.now));
        t := t.(today := t.today + 1, month := t.month + 1, sent := t.sent + 1);
      } else if !r.retryable || msg.attempts >= s.maxAttempts {
        msg := msg.(status := Failed);
        t := t.(failed := t.failed + 1);
      } else {
        msg := msg.(status := Queued);
      }
      msgs := msgs[i := msg];
    }

    method HandleEvent(k: Kind, id: string, recipient: string) returns (handled: bool)
      modifies this`msgs, this`leads
      ensures State() == Handled(old(State()), k, id, recipient)
      ensures handled <==> k != OtherEvent
    {
      var f := if id == "" then None else WithId(msgs, id);
      ghost var before := msgs;
      var from := if f.Some? then msgs[f.value].email else "";
      if f.Some? {
        var msg := msgs[f.value];
        match k {
          case SentEvent =>
            if msg.status != Delivered {
              msg := msg.(status := Sent);
            }
          case DeliveredEvent => msg := msg.(status := Delivered);
          case DelayedEvent => msg := msg.(status := Delayed);
          case FailedEvent => msg := msg.(status := Failed);
          case BouncedEvent => msg := msg.(status := Bounced);
          case ComplainedEvent => msg := msg.(status := Complained);
          case OtherEvent =>
        }
        msgs := msgs[f.value := msg];
      }
      if k == BouncedEvent || k == ComplainedEvent {
        SuppressRecipient(if recipient != "" then recipient else from);
      }
      handled := k != OtherEvent;
    }

    method SuppressRecipient(email: string)
      modifies this`leads
      ensures leads == LeadsAfter(old(leads), email)
    {
      if email == "" {
        return;
      }
      var l := Addressed(leads, Lower(email));
      if l.Some? && !leads[l.value].suppressed {
        leads := leads[l.value := leads[l.value].(suppressed := true)];
      }
    }
  }

  // ------------------------------------------------------------- the query

  lemma {:induction false} InsertSorts(msgs: seq<Msg>, i: nat, ids: seq<nat>)
    requires i < |msgs| && Rows(msgs, ids) && Sorted(msgs, ids) && Distinct(ids) && i !in ids
    ensures Sorted(msgs, Insert(msgs, i, ids)) && Distinct(Insert(msgs, i, ids))
  {
    var r := Insert(msgs, i, ids);
    if ids == [] || Before(msgs, i, ids[0]) {
      forall a, b | 0 <= a < b < |r| ensures Before(msgs, r[a], r[b]) && r[a] != r[b] {
        assert r[b] == ids[b - 1];
        if a > 0 {
          assert r[a] == ids[a - 1];
        }
      }
    } else {
      var rest := Insert(msgs, i, ids[1..]);
      forall a, b | 0 <= a < b < |ids[1..]| ensures Before(msgs, ids[1..][a], ids[1..][b]) && ids[1..][a] != ids[1..][b] {
        assert ids[1..][a] == ids[a + 1] && ids[1..][b] == ids[b + 1];
      }
      InsertSorts(msgs, i, ids[1..]);
      assert r == [ids[0]] + rest;
      forall k | k in rest ensures Before(msgs, ids[0], k) && k != ids[0] {
        if k in ids[1..] {
          var a :| 0 <= a < |ids[1..]| && ids[1..][a] == k;
          assert ids[a + 1] == k;
        }
      }
      forall a, b | 0 <= a < b < |r| ensures Before(msgs, r[a], r[b]) && r[a] != r[b] {
        assert r[b] == rest[b - 1] && rest[b - 1] in rest;
        if a > 0 {
          assert r[a] == rest[a - 1];
        }
      }
    }
  }

  lemma {:induction false} QueuedSorted(msgs: seq<Msg>, n: nat)
    requires n <= |msgs|
    ensures Sorted(msgs, QueuedRows(msgs, n)) && Distinct(QueuedRows(msgs, n))
  {
    hide Before, Insert;
    if n > 0 {
      QueuedSorted(msgs, n - 1);
      if msgs[n - 1].status == Queued {
        InsertSorts(msgs, n - 1, QueuedRows(msgs, n - 1));
      }
    }
  }

  /** A pass reads queued rows, each once, most urgent first, and skips a queued row only for
      3 * limit rows that come before it. */
  lemma SelectedRows(msgs: seq<Msg>, limit: nat)
    ensures var ids := Selected(msgs, limit);
      && Sorted(msgs, ids) && Distinct(ids)
      && forall i, k | 0 <= i < |msgs| && msgs[i].status == Queued && i !in ids && k in ids ::
           |ids| == limit * 3 && Before(msgs, k, i)
  {
    hide Before;
    QueuedSorted(msgs, |msgs|);
    var all, ids := QueuedRows(msgs, |msgs|), Selected(msgs, limit);
    forall i, k | 0 <= i < |msgs| && msgs[i].status == Queued && i !in ids && k in ids
      ensures |ids| == limit * 3 && Before(msgs, k, i)
    {
      var a :| 0 <= a < |all| && all[a] == i;
      var b :| 0 <= b < |ids| && ids[b] == k;
      assert a >= |ids| && all[b] == k;
    }
  }

  // ------------------------------------------------------------- what every step keeps

  function Attempts(log: seq<Attempt>, i: nat): nat {
    if log == [] then 0 else Attempts(log[..|log| - 1], i) + if log[|log| - 1].row == i then 1 else 0
  }

  function Accepted(log: seq<Attempt>, i: nat): nat {
    if log == [] then 0
    else Accepted(log[..|log| - 1], i) + if log[|log| - 1].row == i && log[|log| - 1].ok then 1 else 0
  }

  function LastAt(log: seq<Attempt>, i: nat): int {
    if log == [] then 0
    else if log[|log| - 1].row == i then log[|log| - 1].at
    else LastAt(log[..|log| - 1], i)
  }

  /** Every retry comes at least the backoff of the attempts made so far after the last of them. */
  ghost predicate Spaced(log: seq<Attempt>) {
    log == [] || (
      var before, a := log[..|log| - 1], log[|log| - 1];
      && Spaced(before)
      && (Attempts(before, a.row) > 0 ==> a.at - LastAt(before, a.row) >= Backoff(Attempts(before, a.row))))
  }

  ghost predicate UniqueKeys(msgs: seq<Msg>) {
    forall i, j | 0 <= i < j < |msgs| :: !SameKey(msgs[i], msgs[j].lead, msgs[j].template, msgs[j].dedupe)
  }

  /** What a row's fields say about the calls made for it. */
  ghost predicate RowKept(msg: Msg, i: nat, log: seq<Attempt>, s: Settings) {
    && msg.attempts == Attempts(log, i) <= s.maxAttempts
    && Accepted(log, i) <= 1
    && (msg.status == Queued ==>
          && msg.providerId == "" && Accepted(log, i) == 0 && msg.attempts < s.maxAttempts
          && (msg.attempts > 0 ==> msg.updatedAt == LastAt(log, i)))
  }

  ghost predicate RowsKept(m: Mail, s: Settings) {
    forall i | 0 <= i < |m.msgs| :: RowKept(m.msgs[i], i, m.log, s)
  }

  ghost predicate Kept(m: Mail, s: Settings) {
    RowsKept(m, s) && UniqueKeys(m.msgs) && Spaced(m.log) && forall a | a in m.log :: a.row < |m.msgs|
  }

  lemma {:induction false} NoCalls(log: seq<Attempt>, i: nat)
    requires forall a | a in log :: a.row != i
    ensures Attempts(log, i) == 0 && Accepted(log, i) == 0
  {
    if log != [] {
      NoCalls(log[..|log| - 1], i);
    }
  }

  lemma CallLogged(log: seq<Attempt>, a: Attempt, i: nat)
    ensures Attempts(log + [a], i) == Attempts(log, i) + if a.row == i then 1 else 0
    ensures Accepted(log + [a], i) == Accepted(log, i) + if a.row == i && a.ok then 1 else 0
    ensures LastAt(log + [a], i) == if a.row == i then a.at else LastAt(log, i)
    ensures Spaced(log + [a])
      <==> Spaced(log) && (Attempts(log, a.row) > 0 ==> a.at - LastAt(log, a.row) >= Backoff(Attempts(log, a.row)))
  {
    assert (log + [a])[..|log|] == log;
  }

  lemma EnqueueKeeps(m: Mail, s: Settings, lead: nat, template: string, priority: int, dedupe: string, at: int)
    requires Kept(m, s) && s.maxAttempts >= 1
    ensures Kept(Enqueued(m, lead, template, priority, dedupe, at), s)
  {
    hide Spaced;
    NoCalls(m.log, |m.msgs|);
  }

  lemma HandleKeeps(m: Mail, s: Settings, k: Kind, id: string, recipient: string)
    requires Kept(m, s)
    ensures Kept(Handled(m, k, id, recipient), s)
  {
    hide Spaced, LeadsAfter, Blamed;
    var f, after := Found(m.msgs, id), MsgsAfter(m.msgs, k, id);
    if f.Some? {
      assert RowKept(m.msgs[f.value], f.value, m.log, s);
    }
    forall i | 0 <= i < |after| ensures RowKept(after[i], i, m.log, s) {
      assert RowKept(m.msgs[i], i, m.log, s);
    }
    forall i, j | 0 <= i < j < |after| ensures !SameKey(after[i], after[j].lead, after[j].template, after[j].dedupe) {
      assert !SameKey(m.msgs[i], m.msgs[j].lead, m.msgs[j].template, m.msgs[j].dedupe);
    }
  }

  lemma RowKeeps(m: Mail, t: Tally, i: nat, out: Outside, s: Settings)
    requires i < |m.msgs| && Kept(m, s) && m.msgs[i].status == Queued
    ensures Kept(MailAfter(m, t, i, out, s), s)
  {
    hide Spaced, Backoff, Attempts, Accepted, LastAt;
    var after := MailAfter(m, t, i, out, s);
    var msg := m.msgs[i];
    assert RowKept(msg, i, m.log, s);
    var a := Attempt(i, msg.lead, out.now, out.replies(i).ok);
    assert after.log == m.log || after.log == m.log + [a];
    forall j | 0 <= j < |after.msgs| ensures RowKept(after.msgs[j], j, after.log, s) {
      CallLogged(m.log, a, j);
      assert RowKept(m.msgs[j], j, m.log, s);
    }
    CallLogged(m.log, a, i);
    assert m.log + [] == m.log;
    forall j, k | 0 <= j < k < |after.msgs|
      ensures !SameKey(after.msgs[j], after.msgs[k].lead, after.msgs[k].template, after.msgs[k].dedupe)
    {
      assert !SameKey(m.msgs[j], m.msgs[k].lead, m.msgs[k].template, m.msgs[k].dedupe);
    }
  }

  ghost predicate AllQueued(msgs: seq<Msg>, ids: seq<nat>) {
    forall k | 0 <= k < |ids| :: ids[k] < |msgs| && msgs[ids[k]].status == Queued
  }

  lemma RestQueued(m: Mail, t: Tally, ids: seq<nat>, out: Outside, s: Settings)
    requires ids != [] && AllQueued(m.msgs, ids) && Distinct(ids)
    ensures AllQueued(MailAfter(m, t, ids[0], out, s).msgs, ids[1..]) && Distinct(ids[1..])
  {
    hide MsgAfter;
    forall k | 0 <= k < |ids[1..]| ensures ids[1..][k] == ids[k + 1] && ids[k + 1] != ids[0] {
    }
  }

  lemma {:induction false} PassKeeps(m: Mail, t: Tally, ids: seq<nat>, limit: nat, out: Outside, s: Settings)
    requires Kept(m, s) && AllQueued(m.msgs, ids) && Distinct(ids)
    ensures Kept(Pass(m, t, ids, limit, out, s).0, s)
    decreases ids
  {
    hide Kept, MailAfter, TallyAfter;
    if ids != [] && t.processed < limit {
      RowKeeps(m, t, ids[0], out, s);
      RestQueued(m, t, ids, out, s);
      PassKeeps(MailAfter(m, t, ids[0], out, s), TallyAfter(m, t, ids[0], out, s), ids[1..], limit, out, s);
    }
  }

  // ------------------------------------------------------------- one pass

  /** The calls one pass makes. */
  function Calls(m: Mail, t: Tally, ids: seq<nat>, limit: nat, out: Outside, s: Settings): seq<Attempt>
    requires Rows(m.msgs, ids)
    decreases ids
  {
    if ids == [] || t.processed >= limit then []
    else
      LogAfter(m, t, ids[0], out, s)
        + Calls(MailAfter(m, t, ids[0], out, s), TallyAfter(m, t, ids[0], out, s), ids[1..], limit, out, s)
  }

  lemma {:induction false} PassLog(m: Mail, t: Tally, ids: seq<nat>, limit: nat, out: Outside, s: Settings)
    requires Rows(m.msgs, ids)
    ensures Pass(m, t, ids, limit, out, s).0.log == m.log + Calls(m, t, ids, limit, out, s)
    decreases ids
  {
    hide LogAfter, TallyAfter, MsgAfter;
    if ids != [] && t.processed < limit {
      PassLog(MailAfter(m, t, ids[0], out, s), TallyAfter(m, t, ids[0], out, s), ids[1..], limit, out, s);
    }
  }

  /** The lead may be written to. */
  predicate Reachable(leads: seq<Lead>, lead: nat, template: string) {
    lead < |leads| && !leads[lead].suppressed && (template == "welcome" || leads[lead].consent)
  }

  ghost predicate AllReachable(calls: seq<Attempt>, m: Mail) {
    forall a | a in calls :: a.row < |m.msgs| && a.lead == m.msgs[a.row].lead && Reachable(m.leads, a.lead, m.msgs[a.row].template)
  }

  lemma {:induction false} CallsReachable(m: Mail, t: Tally, ids: seq<nat>, limit: nat, out: Outside, s: Settings)
    requires Rows(m.msgs, ids)
    ensures AllReachable(Calls(m, t, ids, limit, out, s), m)
    decreases ids
  {
    if ids != [] && t.processed < limit {
      CallsReachable(MailAfter(m, t, ids[0], out, s), TallyAfter(m, t, ids[0], out, s), ids[1..], limit, out, s);
    }
  }

  /** A pass never writes to a suppressed lead, nor without consent except to welcome it. */
  lemma PassRespectsLeads(m: Mail, limit: nat, out: Outside, s: Settings)
    ensures var after := Processed(m, limit, out, s).0;
      && |after.log| >= |m.log| && after.log[..|m.log|] == m.log && after.leads == m.leads
      && AllReachable(after.log[|m.log|..], m)
  {
    hide Calls, Pass;
    var ids, t := Selected(m.msgs, limit), StartTally(m, out);
    PassLog(m, t, ids, limit, out, s);
    CallsReachable(m, t, ids, limit, out, s);
  }

  function UrgentRows(msgs: seq<Msg>): set<nat> {
    set i: nat | i < |msgs| && msgs[i].priority <= TRANSACTIONAL
  }

  /** Accepted sends, of urgent rows or of the others. */
  function Sends(calls: seq<Attempt>, urgent: set<nat>, ofUrgent: bool): nat {
    if calls == [] then 0
    else Sends(calls[1..], urgent, ofUrgent) + if calls[0].ok && (calls[0].row in urgent) == ofUrgent then 1 else 0
  }

  lemma {:induction false} SendsCons(first: seq<Attempt>, rest: seq<Attempt>, urgent: set<nat>, ofUrgent: bool)
    requires |first| <= 1
    ensures Sends(first + rest, urgent, ofUrgent) == Sends(first, urgent, ofUrgent) + Sends(rest, urgent, ofUrgent)
  {
    if first == [] {
      assert first + rest == rest;
    } else {
      assert (first + rest)[1..] == rest && first[1..] == [];
    }
  }

  lemma {:induction false} NoUrgentLeft(m: Mail, t: Tally, ids: seq<nat>, limit: nat, out: Outside, s: Settings)
    requires Rows(m.msgs, ids) && forall k | 0 <= k < |ids| :: m.msgs[ids[k]].priority > TRANSACTIONAL
    ensures Sends(Calls(m, t, ids, limit, out, s), UrgentRows(m.msgs), true) == 0
    decreases ids
  {
    hide TallyAfter;
    if ids != [] && t.processed < limit {
      var after := MailAfter(m, t, ids[0], out, s);
      assert UrgentRows(after.msgs) == UrgentRows(m.msgs);
      NoUrgentLeft(after, TallyAfter(m, t, ids[0], out, s), ids[1..], limit, out, s);
      SendsCons(LogAfter(m, t, ids[0], out, s),
        Calls(after, TallyAfter(m, t, ids[0], out, s), ids[1..], limit, out, s), UrgentRows(m.msgs), true);
    }
  }

  ghost predicate ByPriority(msgs: seq<Msg>, ids: seq<nat>) {
    Rows(msgs, ids) && forall i, j | 0 <= i < j < |ids| :: msgs[ids[i]].priority <= msgs[ids[j]].priority
  }

  lemma RowTally(m: Mail, t: Tally, i: nat, out: Outside, s: Settings)
    requires i < |m.msgs|
    ensures var urgent, t', calls := UrgentRows(m.msgs), TallyAfter(m, t, i, out, s), LogAfter(m, t, i, out, s);
      && |calls| <= 1
      && UrgentRows(MailAfter(m, t, i, out, s).msgs) == urgent
      && t'.today == t.today + Sends(calls, urgent, true) + Sends(calls, urgent, false)
      && t'.month == t.month + Sends(calls, urgent, true) + Sends(calls, urgent, false)
      && (Sends(calls, urgent, false) > 0 ==> m.msgs[i].priority > TRANSACTIONAL && t.today < s.daily && t.month < s.monthly)
      && (m.msgs[i].priority > TRANSACTIONAL ==> Sends(calls, urgent, true) == 0)
  {
  }

  lemma {:induction false} QuotaKept(m: Mail, t: Tally, ids: seq<nat>, limit: nat, out: Outside, s: Settings)
    requires ByPriority(m.msgs, ids)
    ensures var calls := Calls(m, t, ids, limit, out, s);
      var u, v := Sends(calls, UrgentRows(m.msgs), true), Sends(calls, UrgentRows(m.msgs), false);
      v > 0 ==> u + v <= s.daily - t.today && u + v <= s.monthly - t.month
    decreases ids
  {
    hide TallyAfter, LogAfter, MsgAfter, UrgentRows;
    if ids != [] && t.processed < limit {
      var i := ids[0];
      var after, t' := MailAfter(m, t, i, out, s), TallyAfter(m, t, i, out, s);
      var first, rest := LogAfter(m, t, i, out, s), Calls(after, t', ids[1..], limit, out, s);
      RowTally(m, t, i, out, s);
      PriorityKept(m, t, i, out, s);
      forall a, b | 0 <= a < b < |ids[1..]| ensures after.msgs[ids[1..][a]].priority <= after.msgs[ids[1..][b]].priority {
        assert ids[1..][a] == ids[a + 1] && ids[1..][b] == ids[b + 1];
      }
      QuotaKept(after, t', ids[1..], limit, out, s);
      var urgent := UrgentRows(m.msgs);
      SendsCons(first, rest, urgent, true);
      SendsCons(first, rest, urgent, false);
      if m.msgs[i].priority > TRANSACTIONAL {
        forall k | 0 <= k < |ids[1..]| ensures after.msgs[ids[1..][k]].priority > TRANSACTIONAL {
          assert ids[1..][k] == ids[k + 1] && m.msgs[ids[0]].priority <= m.msgs[ids[k + 1]].priority;
        }
        NoUrgentLeft(after, t', ids[1..], limit, out, s);
      }
    }
  }

  lemma PriorityKept(m: Mail, t: Tally, i: nat, out: Outside, s: Settings)
    requires i < |m.msgs|
    ensures var after := MailAfter(m, t, i, out, s).msgs;
      |after| == |m.msgs| && forall k | 0 <= k < |after| :: after[k].priority == m.msgs[k].priority
  {
  }

  /** In one pass the accepted sends of rows that are not transactional number at most what the
      soft limits leave after the mail already sent and the transactional sends of the pass. */
  lemma QuotaRespected(m: Mail, limit: nat, out: Outside, s: Settings)
    ensures var after := Processed(m, limit, out, s).0;
      |after.log| >= |m.log| && (
        var calls := after.log[|m.log|..];
        var urgent, others := Sends(calls, UrgentRows(m.msgs), true), Sends(calls, UrgentRows(m.msgs), false);
        && others <= Left(s.daily - CountSince(m.msgs, out.dayStart) - urgent)
        && others <= Left(s.monthly - CountSince(m.msgs, out.monthStart) - urgent))
  {
    hide Calls, Pass, Sends, Selected, UrgentRows, ByPriority, CountSince;
    var ids, t := Selected(m.msgs, limit), StartTally(m, out);
    PassLog(m, t, ids, limit, out, s);
    SelectedByPriority(m.msgs, limit);
    QuotaKept(m, t, ids, limit, out, s);
  }

  lemma SelectedByPriority(msgs: seq<Msg>, limit: nat)
    ensures ByPriority(msgs, Selected(msgs, limit))
  {
    hide Selected, Before;
    SelectedRows(msgs, limit);
    var ids := Selected(msgs, limit);
    forall i, j | 0 <= i < j < |ids| ensures msgs[ids[i]].priority <= msgs[ids[j]].priority {
      BeforePriority(msgs, ids[i], ids[j]);
    }
  }

  lemma BeforePriority(msgs: seq<Msg>, i: nat, j: nat)
    requires Before(msgs, i, j)
    ensures i < |msgs| && j < |msgs| && msgs[i].priority <= msgs[j].priority
  {
  }

  function Left(n: int): nat {
    if n > 0 then n else 0
  }

  // ------------------------------------------------------------- whole runs

  /** Signup, preference changes and resubscription write a lead; the rest is the code above. */
  datatype Event =
    | Add(lead: nat, template: string, priority: int, dedupe: string, at: int)
    | RunPass(limit: nat, out: Outside)
    | Provider(kind: Kind, id: string, recipient: string)
    | PutLead(lead: nat, value: Lead)

  function Step(m: Mail, e: Event, s: Settings): Mail {
    match e
    case Add(lead, template, priority, dedupe, at) => Enqueued(m, lead, template, priority, dedupe, at)
    case RunPass(limit, out) => Processed(m, limit, out, s).0
    case Provider(kind, id, recipient) => Handled(m, kind, id, recipient)
    case PutLead(lead, value) =>
      if lead < |m.leads| then m.(leads := m.leads[lead := value]) else m.(leads := m.leads + [value])
  }

  function Run(m: Mail, events: seq<Event>, s: Settings): Mail
    decreases events
  {
    if events == [] then m else Run(Step(m, events[0], s), events[1..], s)
  }

  lemma StepKeeps(m: Mail, e: Event, s: Settings)
    requires Kept(m, s) && s.maxAttempts >= 1
    ensures Kept(Step(m, e, s), s)
  {
    match e {
      case Add(lead, template, priority, dedupe, at) => EnqueueKeeps(m, s, lead, template, priority, dedupe, at);
      case RunPass(limit, out) =>
        SelectedRows(m.msgs, limit);
        var ids := Selected(m.msgs, limit);
        assert AllQueued(m.msgs, ids) by {
          assert forall k | 0 <= k < |ids| :: ids[k] in ids;
        }
        PassKeeps(m, StartTally(m, out), ids, limit, out, s);
      case Provider(kind, id, recipient) => HandleKeeps(m, s, kind, id, recipient);
      case PutLead(lead, value) =>
    }
  }

  lemma {:induction false} RunKeeps(m: Mail, events: seq<Event>, s: Settings)
    requires Kept(m, s) && s.maxAttempts >= 1
    ensures Kept(Run(m, events, s), s)
    decreases events
  {
    hide Kept, Step;
    if events != [] {
      StepKeeps(m, events[0], s);
      RunKeeps(Step(m, events[0], s), events[1..], s);
    }
  }

  /** Over any run: the provider accepts each row at most once and is tried at most the maximum
      number of times for it, every retry waits for its backoff, and keys stay unique. */
  lemma EveryRun(events: seq<Event>, s: Settings)
    requires s.maxAttempts >= 1
    ensures var m := Run(Mail([], [], []), events, s);
      && (forall i: nat :: Accepted(m.log, i) <= 1 && Attempts(m.log, i) <= s.maxAttempts)
      && UniqueKeys(m.msgs) && Spaced(m.log)
  {
    RunKeeps(Mail([], [], []), events, s);
    var m := Run(Mail([], [], []), events, s);
    forall i: nat ensures Accepted(m.log, i) <= 1 && Attempts(m.log, i) <= s.maxAttempts {
      if i < |m.msgs| {
        assert RowKept(m.msgs[i], i, m.log, s);
      } else {
        NoCalls(m.log, i);
      }
    }
  }

  /** No event of the run lifts the suppression of the lead. */
  ghost predicate NeverLifted(events: seq<Event>, lead: nat) {
    forall e | e in events && e.PutLead? && e.lead == lead :: e.value.suppressed
  }

  ghost predicate IsSuppressed(m: Mail, lead: nat) {
    lead < |m.leads| && m.leads[lead].suppressed
  }

  lemma StepSilent(m: Mail, e: Event, s: Settings, lead: nat)
    requires IsSuppressed(m, lead) && (e.PutLead? && e.lead == lead ==> e.value.suppressed)
    ensures var m' := Step(m, e, s);
      && IsSuppressed(m', lead)
      && |m'.log| >= |m.log| && m'.log[..|m.log|] == m.log
      && forall a | a in m'.log[|m.log|..] :: a.lead != lead
  {
    if e.RunPass? {
      PassRespectsLeads(m, e.limit, e.out, s);
    }
  }

  /** Once a lead is suppressed nothing more is sent to it until its suppression is lifted. */
  lemma {:induction false} SuppressedStaysSilent(m: Mail, events: seq<Event>, s: Settings, lead: nat)
    requires IsSuppressed(m, lead) && NeverLifted(events, lead)
    ensures var m' := Run(m, events, s);
      && IsSuppressed(m', lead)
      && |m'.log| >= |m.log| && m'.log[..|m.log|] == m.log
      && forall a | a in m'.log[|m.log|..] :: a.lead != lead
    decreases events
  {
    hide Step;
    if events != [] {
      var m1 := Step(m, events[0], s);
      StepSilent(m, events[0], s, lead);
      SuppressedStaysSilent(m1, events[1..], s, lead);
      var m' := Run(m1, events[1..], s);
      assert m'.log[|m.log|..] == m1.log[|m.log|..] + m'.log[|m1.log|..] by {
        assert m'.log == m1.log + m'.log[|m1.log|..];
      }
    }
  }

  lemma {:induction false} PassLeaves(m: Mail, t: Tally, ids: seq<nat>, limit: nat, out: Outside, s: Settings, i: nat)
    requires Rows(m.msgs, ids) && i < |m.msgs| && forall k | 0 <= k < |ids| :: ids[k] != i
    ensures Pass(m, t, ids, limit, out, s).0.msgs[i] == m.msgs[i]
    ensures forall a | a in Calls(m, t, ids, limit, out, s) :: a.row != i
    decreases ids
  {
    hide TallyAfter, MsgAfter;
    if ids != [] && t.processed < limit {
      PassLeaves(MailAfter(m, t, ids[0], out, s), TallyAfter(m, t, ids[0], out, s), ids[1..], limit, out, s, i);
    }
  }

  ghost predicate Closed(m: Mail, i: nat) {
    i < |m.msgs| && m.msgs[i].status != Queued
  }

  lemma StepCloses(m: Mail, e: Event, s: Settings, i: nat)
    requires Closed(m, i)
    ensures var m' := Step(m, e, s);
      && Closed(m', i)
      && |m'.log| >= |m.log| && m'.log[..|m.log|] == m.log
      && forall a | a in m'.log[|m.log|..] :: a.row != i
  {
    if e.RunPass? {
      hide Pass, Calls;
      var ids, t := Selected(m.msgs, e.limit), StartTally(m, e.out);
      assert forall k | 0 <= k < |ids| :: ids[k] in ids;
      PassLeaves(m, t, ids, e.limit, e.out, s, i);
      PassLog(m, t, ids, e.limit, e.out, s);
    }
  }

  /** A row that has left the queue never comes back, whatever the provider reports about it. */
  lemma {:induction false} NeverRequeued(m: Mail, events: seq<Event>, s: Settings, i: nat)
    requires Closed(m, i)
    ensures var m' := Run(m, events, s);
      && Closed(m', i)
      && |m'.log| >= |m.log| && m'.log[..|m.log|] == m.log
      && forall a | a in m'.log[|m.log|..] :: a.row != i
    decreases events
  {
    hide Step;
    if events != [] {
      var m1 := Step(m, events[0], s);
      StepCloses(m, events[0], s, i);
      NeverRequeued(m1, events[1..], s, i);
      var m' := Run(m1, events[1..], s);
      assert m'.log[|m.log|..] == m1.log[|m.log|..] + m'.log[|m1.log|..] by {
        assert m'.log == m1.log + m'.log[|m1.log|..];
      }
    }
  }

  // ------------------------------------------------------------- keys over a run

  /** The rows of a later state carry the keys of the earlier ones. */
  ghost predicate KeysKept(before: seq<Msg>, after: seq<Msg>) {
    && |before| <= |after|
    && forall i | 0 <= i < |before| :: SameKey(after[i], before[i].lead, before[i].template, before[i].dedupe)
  }

  lemma {:induction false} PassKeepsKeys(m: Mail, t: Tally, ids: seq<nat>, limit: nat, out: Outside, s: Settings)
    requires Rows(m.msgs, ids)
    ensures KeysKept(m.msgs, Pass(m, t, ids, limit, out, s).0.msgs)
    decreases ids
  {
    hide TallyAfter, LogAfter;
    if ids != [] && t.processed < limit {
      PassKeepsKeys(MailAfter(m, t, ids[0], out, s), TallyAfter(m, t, ids[0], out, s), ids[1..], limit, out, s);
    }
  }

  lemma StepKeepsKeys(m: Mail, e: Event, s: Settings)
    ensures KeysKept(m.msgs, Step(m, e, s).msgs)
  {
    if e.RunPass? {
      PassKeepsKeys(m, StartTally(m, e.out), Selected(m.msgs, e.limit), e.limit, e.out, s);
    }
  }

  lemma {:induction false} RunKeepsKeys(m: Mail, events: seq<Event>, s: Settings)
    ensures KeysKept(m.msgs, Run(m, events, s).msgs)
    decreases events
  {
    hide Step;
    if events != [] {
      StepKeepsKeys(m, events[0], s);
      RunKeepsKeys(Step(m, events[0], s), events[1..], s);
    }
  }

  /** Once a message is queued, asking for it again at any later time changes nothing, whatever
      became of it meanwhile. */
  lemma EnqueuedOnce(m: Mail, lead: nat, template: string, priority: int, dedupe: string, at: int,
      events: seq<Event>, s: Settings, again: int, later: int)
    ensures var now := Run(Enqueued(m, lead, template, priority, dedupe, at), events, s);
      Enqueued(now, lead, template, again, dedupe, later) == now
  {
    hide Run;
    var queued := Enqueued(m, lead, template, priority, dedupe, at);
    RunKeepsKeys(queued, events, s);
    var now := Run(queued, events, s);
    var i :| 0 <= i < |queued.msgs| && SameKey(queued.msgs[i], lead, template, Dedupe(dedupe, template));
    assert SameKey(now.msgs[i], lead, template, Dedupe(dedupe, template));
  }

  /** A bounce or complaint suppresses the lead whose address the event names, or else the
      address of the message. */
  lemma ComplaintSuppresses(m: Mail, k: Kind, id: string, recipient: string)
    requires k == BouncedEvent || k == ComplainedEvent
    requires Blamed(m.msgs, id, recipient) != ""
    ensures var m' := Handled(m, k, id, recipient);
      var address := Lower(Blamed(m.msgs, id, recipient));
      (exists i | 0 <= i < |m.leads| :: m.leads[i].email == address)
        ==> exists i :: 0 <= i < |m.leads| && m.leads[i].email == address && IsSuppressed(m', i)
  {
  }
}
