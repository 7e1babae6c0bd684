/**
 What becomes of a message the provider turned down, and what an event about a message leaves alone.
 */
module Retries {
  import opened Options
  import opened Text
  import opened EmailQueue

  /** The wait after each attempt: 60, 120, 240, 480, 960 and 1920 seconds, then an hour. */
  lemma Waits(n: nat)
    requires n > 0
    ensures Backoff(n) == if n == 1 then 60 else if n == 2 then 120 else if n == 3 then 240 else if n == 4 then 480
      else if n == 5 then 960 else if n == 6 then 1920 else 3600
  {
    assert Pow2(6) == 64 by {
      assert Pow2(3) == 8;
    }
    assert Pow2(3) == 8;
    if n >= 7 {
      Grows(7, n);
      assert Pow2(7) == 128;
    }
  }

  lemma {:induction false} Grows(a: nat, n: nat)
    requires a <= n
    ensures Pow2(n) >= Pow2(a)
  {
    if a < n {
      Grows(a, n - 1);
    }
  }

  /** A call that fails for good, or for the last time allowed, ends the message; any other failure
      leaves it queued with one more attempt. */
  lemma FailedReply(m: Mail, t: Tally, i: nat, out: Outside, s: Settings)
    requires i < |m.msgs| && Judge(m, t, i, out, s) == Send && !out.replies(i).ok
    ensures var was, now := m.msgs[i], MsgAfter(m, t, i, out, s);
      && now.attempts == was.attempts + 1 && now.updatedAt == out.now && now.sentAt == was.sentAt
      && now.status == if out.replies(i).retryable && was.attempts + 1 < s.maxAttempts then Queued else Failed
  {
  }

  /** A queued row that has waited, of a willing lead and within the limits, is tried again. */
  lemma TriedAgainIff(m: Mail, t: Tally, i: nat, out: Outside, s: Settings)
    requires i < |m.msgs| && m.msgs[i].attempts > 0
    requires m.msgs[i].lead < |m.leads| && !m.leads[m.msgs[i].lead].suppressed && m.leads[m.msgs[i].lead].consent
    requires t.today < s.daily && t.month < s.monthly && out.renders(i)
    ensures Judge(m, t, i, out, s) == Send <==> out.now >= m.msgs[i].updatedAt + Backoff(m.msgs[i].attempts)
  {
  }

  /** A row is given to the provider exactly when its wait is over, its lead is known and not
      suppressed, it is the welcome or the lead consents, both limits leave room or it is
      transactional, and it renders. */
  lemma SendIff(m: Mail, t: Tally, i: nat, out: Outside, s: Settings)
    requires i < |m.msgs|
    ensures var msg := m.msgs[i];
      Judge(m, t, i, out, s) == Send
      <==> (msg.attempts == 0 || out.now >= msg.updatedAt + Backoff(msg.attempts))
           && msg.lead < |m.leads| && !m.leads[msg.lead].suppressed && (msg.template == "welcome" || m.leads[msg.lead].consent)
           && ((t.today < s.daily && t.month < s.monthly) || msg.priority <= 0) && out.renders(i)
  {
  }

  /** Waiting over, lead willing, and it renders. */
  ghost predicate Ready(m: Mail, i: nat, out: Outside)
    requires i < |m.msgs|
  {
    var msg := m.msgs[i];
    && (msg.attempts == 0 || out.now >= msg.updatedAt + Backoff(msg.attempts))
    && msg.lead < |m.leads| && !m.leads[msg.lead].suppressed && (msg.template == "welcome" || m.leads[msg.lead].consent)
    && out.renders(i)
  }

  lemma LogGrows(m: Mail, t: Tally, ids: seq<nat>, limit: nat, out: Outside, s: Settings)
    requires Rows(m.msgs, ids)
    ensures m.log <= Pass(m, t, ids, limit, out, s).0.log
    decreases ids
  {
    hide Judge, MsgAfter, TallyAfter;
    if ids != [] && t.processed < limit {
      LogGrows(MailAfter(m, t, ids[0], out, s), TallyAfter(m, t, ids[0], out, s), ids[1..], limit, out, s);
    }
  }

  /** Whatever comes before it among the rows read, a ready transactional message within the limit of
      the pass is given to the provider: no quota holds it. */
  lemma {:induction false} NoQuotaHolds(m: Mail, t: Tally, ids: seq<nat>, limit: nat, out: Outside, s: Settings, k: nat)
    requires Rows(m.msgs, ids) && Distinct(ids) && k < |ids| && t.processed + k < limit
    requires m.msgs[ids[k]].priority <= 0 && Ready(m, ids[k], out)
    ensures var msg := m.msgs[ids[k]];
      Attempt(ids[k], msg.lead, out.now, out.replies(ids[k]).ok) in Pass(m, t, ids, limit, out, s).0.log
    decreases ids
  {
    hide Judge, MsgAfter, LogAfter, TallyAfter, MailAfter, Ready;
    if k == 0 {
      FirstGoesOut(m, t, ids, limit, out, s);
    } else {
      assert ids[0] != ids[k] && ids[1..][k - 1] == ids[k];
      OthersWait(m, t, ids[0], ids[k], out, s);
      NoQuotaHolds(MailAfter(m, t, ids[0], out, s), TallyAfter(m, t, ids[0], out, s), ids[1..], limit, out, s, k - 1);
    }
  }

  lemma FirstGoesOut(m: Mail, t: Tally, ids: seq<nat>, limit: nat, out: Outside, s: Settings)
    requires Rows(m.msgs, ids) && ids != [] && t.processed < limit
    requires m.msgs[ids[0]].priority <= 0 && Ready(m, ids[0], out)
    ensures Attempt(ids[0], m.msgs[ids[0]].lead, out.now, out.replies(ids[0]).ok) in Pass(m, t, ids, limit, out, s).0.log
  {
    SendIff(m, t, ids[0], out, s);
    hide Judge, MsgAfter, TallyAfter, Ready;
    var m1 := MailAfter(m, t, ids[0], out, s);
    assert m1.log == m.log + [Attempt(ids[0], m.msgs[ids[0]].lead, out.now, out.replies(ids[0]).ok)];
    hide MailAfter, LogAfter;
    LogGrows(m1, TallyAfter(m, t, ids[0], out, s), ids[1..], limit, out, s);
    var log := Pass(m, t, ids, limit, out, s).0.log;
    assert m1.log <= log && log[|m.log|] == m1.log[|m.log|];
  }

  /** Dealing with one row leaves another as it is, and counts at most one more. */
  lemma OthersWait(m: Mail, t: Tally, i: nat, j: nat, out: Outside, s: Settings)
    requires i < |m.msgs| && j < |m.msgs| && i != j
    ensures var m1 := MailAfter(m, t, i, out, s);
      && |m1.msgs| == |m.msgs| && m1.msgs[j] == m.msgs[j] && (Ready(m1, j, out) <==> Ready(m, j, out))
      && TallyAfter(m, t, i, out, s).processed <= t.processed + 1
  {
    hide Judge, MsgAfter, LogAfter;
  }

  /** The same of a whole pass. */
  lemma TransactionalGoesOut(m: Mail, limit: nat, out: Outside, s: Settings, k: nat)
    requires k < limit && k < |Selected(m.msgs, limit)|
    requires m.msgs[Selected(m.msgs, limit)[k]].priority <= 0 && Ready(m, Selected(m.msgs, limit)[k], out)
    ensures var i := Selected(m.msgs, limit)[k];
      Attempt(i, m.msgs[i].lead, out.now, out.replies(i).ok) in Processed(m, limit, out, s).0.log
  {
    hide Selected, Ready, Pass, CountSince, Sorted;
    SelectedRows(m.msgs, limit);
    NoQuotaHolds(m, StartTally(m, out), Selected(m.msgs, limit), limit, out, s, k);
  }

  /** The rows still queued among the first n. */
  ghost function QueuedSet(msgs: seq<Msg>, n: nat): set<nat>
    requires n <= |msgs|
  {
    set i: nat | i < n && msgs[i].status == Queued
  }

  lemma QueuedNext(msgs: seq<Msg>, n: nat)
    requires n < |msgs|
    ensures n !in QueuedSet(msgs, n)
    ensures QueuedSet(msgs, n + 1) == QueuedSet(msgs, n) + if msgs[n].status == Queued then {n} else {}
  {
  }

  lemma {:induction false} QueuedCount(msgs: seq<Msg>, n: nat)
    requires n <= |msgs|
    ensures |QueuedRows(msgs, n)| == |QueuedSet(msgs, n)|
  {
    if n == 0 {
      assert QueuedSet(msgs, 0) == {};
    } else {
      QueuedCount(msgs, n - 1);
      QueuedNext(msgs, n - 1);
      hide QueuedSet, Insert;
      if msgs[n - 1].status == Queued {
        InsertedOne(msgs, n - 1, QueuedRows(msgs, n - 1));
      }
    }
  }

  lemma {:induction false} InsertedOne(msgs: seq<Msg>, i: nat, ids: seq<nat>)
    requires i < |msgs| && Rows(msgs, ids)
    ensures |Insert(msgs, i, ids)| == |ids| + 1
  {
    if ids != [] && !Before(msgs, i, ids[0]) {
      InsertedOne(msgs, i, ids[1..]);
    }
  }

  /** With at most three times the limit queued, a pass reads every queued row. */
  lemma AllRead(msgs: seq<Msg>, limit: nat, i: nat)
    requires i < |msgs| && msgs[i].status == Queued
    requires |QueuedSet(msgs, |msgs|)| <= 3 * limit
    ensures i in Selected(msgs, limit)
  {
    hide QueuedSet;
    QueuedCount(msgs, |msgs|);
  }

  // ------------------------------------------------------------- events

  /** An event that is no bounce and no complaint changes no lead. */
  lemma OtherEventsSpareLeads(m: Mail, k: Kind, id: string, recipient: string)
    requires k != BouncedEvent && k != ComplainedEvent
    ensures Handled(m, k, id, recipient).leads == m.leads
  {
  }

  /** A bounce or complaint suppresses at most one lead, the first with that address, and changes
      nothing else about any. */
  lemma OneLeadSuppressed(m: Mail, k: Kind, id: string, recipient: string, j: nat)
    requires j < |m.leads|
    ensures var before, after := m.leads[j], Handled(m, k, id, recipient).leads;
      && |after| == |m.leads|
      && (after[j] == before
          || (after[j] == before.(suppressed := true) && before.email == Lower(Blamed(m.msgs, id, recipient))
              && (k == BouncedEvent || k == ComplainedEvent)))
  {
  }

  /** An event moves only the status, and only of the message it names: no event names a row
      without a provider id. */
  lemma OneMessageMoved(m: Mail, k: Kind, id: string, recipient: string, j: nat)
    requires j < |m.msgs|
    ensures var before, after := m.msgs[j], Handled(m, k, id, recipient).msgs;
      && |after| == |m.msgs| && after[j].(status := before.status) == before
      && (after[j] != before ==> id != "" && before.providerId == id)
  {
  }

  /** The status an event leaves a message in; a message delivered is not sent again. */
  lemma EventStatus(m: Mail, k: Kind, id: string, recipient: string, j: nat)
    requires j < |m.msgs| && id != "" && m.msgs[j].providerId == id && forall i | 0 <= i < j :: m.msgs[i].providerId != id
    ensures var before, after := m.msgs[j].status, Handled(m, k, id, recipient).msgs[j].status;
      && (k == DeliveredEvent ==> after == Delivered) && (k == DelayedEvent ==> after == Delayed)
      && (k == FailedEvent ==> after == Failed) && (k == BouncedEvent ==> after == Bounced)
      && (k == ComplainedEvent ==> after == Complained) && (k == OtherEvent ==> after == before)
      && (k == SentEvent ==> after == if before == Delivered then Delivered else Sent)
  {
    FirstWithId(m.msgs, id, j);
  }

  lemma {:induction false} FirstWithId(msgs: seq<Msg>, id: string, j: nat)
    requires j < |msgs| && msgs[j].providerId == id && forall i | 0 <= i < j :: msgs[i].providerId != id
    ensures WithId(msgs, id) == Some(j)
  {
    if j > 0 {
      FirstWithId(msgs[1..], id, j - 1);
    }
  }
}
