/**
 The soft limits of email_queue.py over a day and a month: what the count of sent rows misses once
 provider events have moved rows on, and exactly when no later pass can exceed a limit.
 */
module DayQuota {
  import opened Options
  import opened EmailQueue
  import opened Retries

  // ------------------------------------------------------------- what the day's count misses

  /** Calls accepted at or after `since`. */
  function AcceptedSince(log: seq<Attempt>, since: int): nat {
    if log == [] then 0
    else AcceptedSince(log[..|log| - 1], since) + if log[|log| - 1].ok && log[|log| - 1].at >= since then 1 else 0
  }

  predicate SentSince(msg: Msg, since: int) {
    msg.sentAt.Some? && msg.sentAt.value >= since
  }

  /** Rows accepted since then that an event has moved on from Sent and Delivered. */
  function Escaped(msgs: seq<Msg>, since: int): nat {
    if msgs == [] then 0
    else
      (if SentSince(msgs[0], since) && msgs[0].status != Sent && msgs[0].status != Delivered then 1 else 0)
      + Escaped(msgs[1..], since)
  }

  function SentRows(msgs: seq<Msg>, since: int): nat {
    if msgs == [] then 0 else (if SentSince(msgs[0], since) then 1 else 0) + SentRows(msgs[1..], since)
  }

  lemma {:induction false} SentSplit(msgs: seq<Msg>, since: int)
    ensures SentRows(msgs, since) == CountSince(msgs, since) + Escaped(msgs, since)
  {
    if msgs != [] {
      SentSplit(msgs[1..], since);
    }
  }

  lemma {:induction false} SentMoved(msgs: seq<Msg>, i: nat, msg: Msg, since: int)
    requires i < |msgs|
    ensures var one, other := if SentSince(msgs[i], since) then 1 else 0, if SentSince(msg, since) then 1 else 0;
      SentRows(msgs[i := msg], since) - other == SentRows(msgs, since) - one
  {
    var moved := msgs[i := msg];
    if i == 0 {
      assert moved[1..] == msgs[1..];
    } else {
      assert moved[1..] == msgs[1..][i - 1 := msg];
      SentMoved(msgs[1..], i - 1, msg, since);
    }
  }

  lemma {:induction false} SentAdded(msgs: seq<Msg>, msg: Msg, since: int)
    ensures SentRows(msgs + [msg], since) == SentRows(msgs, since) + if SentSince(msg, since) then 1 else 0
  {
    if msgs == [] {
      assert msgs + [msg] == [msg] && [msg][1..] == [];
    } else {
      assert (msgs + [msg])[1..] == msgs[1..] + [msg];
      SentAdded(msgs[1..], msg, since);
    }
  }

  lemma {:induction false} AcceptedAppend(a: seq<Attempt>, b: seq<Attempt>, since: int)
    ensures AcceptedSince(a + b, since) == AcceptedSince(a, since) + AcceptedSince(b, since)
  {
    if b == [] {
      assert a + b == a;
    } else {
      assert (a + b)[..|a + b| - 1] == a + b[..|b| - 1];
      AcceptedAppend(a, b[..|b| - 1], since);
    }
  }

  /** Each accepted call since `since` has its row, and a queued row was never accepted. */
  ghost predicate Dated(m: Mail, since: int) {
    && AcceptedSince(m.log, since) == SentRows(m.msgs, since)
    && forall i | 0 <= i < |m.msgs| && m.msgs[i].status == Queued :: m.msgs[i].sentAt.None?
  }

  lemma RowDated(m: Mail, t: Tally, i: nat, out: Outside, s: Settings, since: int)
    requires i < |m.msgs| && m.msgs[i].status == Queued && Dated(m, since)
    ensures Dated(MailAfter(m, t, i, out, s), since)
  {
    hide Judge, AcceptedSince, SentRows;
    SentMoved(m.msgs, i, MsgAfter(m, t, i, out, s), since);
    AcceptedAppend(m.log, LogAfter(m, t, i, out, s), since);
    OneAccepted(m, t, i, out, s, since);
  }

  lemma OneAccepted(m: Mail, t: Tally, i: nat, out: Outside, s: Settings, since: int)
    requires i < |m.msgs|
    ensures AcceptedSince(LogAfter(m, t, i, out, s), since)
      == if Judge(m, t, i, out, s) == Send && out.replies(i).ok && out.now >= since then 1 else 0
  {
    hide Judge;
    var calls := LogAfter(m, t, i, out, s);
    assert |calls| == 1 ==> calls[..0] == [];
  }

  lemma {:induction false} PassDated(m: Mail, t: Tally, ids: seq<nat>, limit: nat, out: Outside, s: Settings, since: int)
    requires Dated(m, since) && AllQueued(m.msgs, ids) && Distinct(ids)
    ensures Dated(Pass(m, t, ids, limit, out, s).0, since)
    decreases ids
  {
    hide Dated, MailAfter, TallyAfter;
    if ids != [] && t.processed < limit {
      RowDated(m, t, ids[0], out, s, since);
      RestQueued(m, t, ids, out, s);
      PassDated(MailAfter(m, t, ids[0], out, s), TallyAfter(m, t, ids[0], out, s), ids[1..], limit, out, s, since);
    }
  }

  lemma StepDated(m: Mail, e: Event, s: Settings, since: int)
    requires Dated(m, since)
    ensures Dated(Step(m, e, s), since)
  {
    hide AcceptedSince, SentRows;
    match e {
      case Add(lead, template, priority, dedupe, at) =>
        SentAdded(m.msgs, NewMsg(m, lead, template, priority, dedupe, at), since);
      case RunPass(limit, out) =>
        SelectedRows(m.msgs, limit);
        var ids := Selected(m.msgs, limit);
        assert forall k | 0 <= k < |ids| :: ids[k] in ids;
        PassDated(m, StartTally(m, out), ids, limit, out, s, since);
      case Provider(kind, id, recipient) =>
        var f := Found(m.msgs, id);
        if f.Some? {
          SentMoved(m.msgs, f.value, m.msgs[f.value].(status := NewStatus(kind, m.msgs[f.value].status)), since);
        }
      case PutLead(lead, value) =>
    }
  }

  lemma {:induction false} RunDated(m: Mail, events: seq<Event>, s: Settings, since: int)
    requires Dated(m, since)
    ensures Dated(Run(m, events, s), since)
    decreases events
  {
    hide Dated, Step;
    if events != [] {
      StepDated(m, events[0], s, since);
      RunDated(Step(m, events[0], s), events[1..], s, since);
    }
  }

  /** Over any run: the mail accepted since a time is what the soft-limit count finds plus the
      rows that events have moved on. */
  lemma CountMisses(events: seq<Event>, s: Settings, since: int)
    ensures var m := Run(Mail([], [], []), events, s);
      AcceptedSince(m.log, since) == CountSince(m.msgs, since) + Escaped(m.msgs, since)
  {
    hide Run;
    RunDated(Mail([], [], []), events, s, since);
    SentSplit(Run(Mail([], [], []), events, s).msgs, since);
  }

  lemma {:induction false} SendsAccepted(calls: seq<Attempt>, urgent: set<nat>, now: int, since: int)
    requires since <= now && forall a | a in calls :: a.at == now
    ensures AcceptedSince(calls, since) == Sends(calls, urgent, true) + Sends(calls, urgent, false)
  {
    if calls != [] {
      assert calls == [calls[0]] + calls[1..];
      assert [calls[0]][..0] == [] && calls[0] in calls;
      AcceptedAppend([calls[0]], calls[1..], since);
      SendsAccepted(calls[1..], urgent, now, since);
    }
  }

  lemma {:induction false} CallsNow(m: Mail, t: Tally, ids: seq<nat>, limit: nat, out: Outside, s: Settings)
    requires Rows(m.msgs, ids)
    ensures forall a | a in Calls(m, t, ids, limit, out, s) :: a.at == out.now
    decreases ids
  {
    hide TallyAfter, MsgAfter, Judge;
    if ids != [] && t.processed < limit {
      CallsNow(MailAfter(m, t, ids[0], out, s), TallyAfter(m, t, ids[0], out, s), ids[1..], limit, out, s);
    }
  }

  // ------------------------------------------------------------- one pass

  /** What a pass accepts comes on top of what was counted and what had escaped the count; ordinary
      mail is accepted only within the room of both limits. */
  lemma PassTotal(m: Mail, limit: nat, out: Outside, s: Settings, since: int)
    requires Dated(m, since) && since <= out.now
    ensures var log, urgent := Processed(m, limit, out, s).0.log, UrgentRows(m.msgs);
      |log| >= |m.log| && (
        var u, v := Sends(log[|m.log|..], urgent, true), Sends(log[|m.log|..], urgent, false);
        && AcceptedSince(log, since) == CountSince(m.msgs, since) + Escaped(m.msgs, since) + u + v
        && (v > 0 ==> u + v <= Room(s.daily, m.msgs, out.dayStart) && u + v <= Room(s.monthly, m.msgs, out.monthStart)))
  {
    hide Calls, Pass, Sends, Selected, UrgentRows, ByPriority, CountSince, Escaped, AcceptedSince, SentRows;
    var ids, t := Selected(m.msgs, limit), StartTally(m, out);
    var calls := Calls(m, t, ids, limit, out, s);
    PassLog(m, t, ids, limit, out, s);
    assert (m.log + calls)[|m.log|..] == calls;
    SelectedByPriority(m.msgs, limit);
    QuotaKept(m, t, ids, limit, out, s);
    CallsNow(m, t, ids, limit, out, s);
    SendsAccepted(calls, UrgentRows(m.msgs), out.now, since);
    AcceptedAppend(m.log, calls, since);
    SentSplit(m.msgs, since);
  }

  /** What a limit leaves, by the count the code takes. */
  function Room(limit: int, msgs: seq<Msg>, since: int): int {
    limit - CountSince(msgs, since)
  }

  function Min(a: int, b: int): int {
    if a <= b then a else b
  }

  /** The pass accepts mail that is not transactional. */
  ghost predicate AcceptsOrdinary(m: Mail, limit: nat, out: Outside, s: Settings) {
    var log := Processed(m, limit, out, s).0.log;
    |log| >= |m.log| && Sends(log[|m.log|..], UrgentRows(m.msgs), false) > 0
  }

  // ------------------------------------------------------------- further requests

  /** Leads and requests come in; no pass and no provider event. */
  ghost predicate Asking(events: seq<Event>) {
    forall e | e in events :: e.Add? || e.PutLead?
  }

  lemma {:induction false} QueuedUncounted(msgs: seq<Msg>, msg: Msg, since: int)
    requires msg.status == Queued && msg.sentAt.None?
    ensures CountSince(msgs + [msg], since) == CountSince(msgs, since)
    ensures Escaped(msgs + [msg], since) == Escaped(msgs, since)
  {
    if msgs == [] {
      assert msgs + [msg] == [msg] && [msg][1..] == [];
    } else {
      assert (msgs + [msg])[1..] == msgs[1..] + [msg];
      QueuedUncounted(msgs[1..], msg, since);
    }
  }

  lemma {:induction false} AskingKeeps(m: Mail, more: seq<Event>, s: Settings, since: int)
    requires Asking(more)
    ensures var m' := Run(m, more, s);
      && m'.log == m.log && CountSince(m'.msgs, since) == CountSince(m.msgs, since)
      && Escaped(m'.msgs, since) == Escaped(m.msgs, since)
    decreases more
  {
    hide CountSince, Escaped;
    if more != [] {
      var e := more[0];
      assert e in more && forall e | e in more[1..] :: e in more;
      if e.Add? {
        QueuedUncounted(m.msgs, NewMsg(m, e.lead, e.template, e.priority, e.dedupe, e.at), since);
      }
      AskingKeeps(Step(m, e, s), more[1..], s, since);
    }
  }

  // ------------------------------------------------------------- as many requests as there is room

  function Key(n: nat): (k: string)
    ensures |k| == n
  {
    seq(n, _ => 'k')
  }

  const WILLING := Lead("r@example.com", true, false)

  /** k requests for one lead, with keys of length `from` and up. */
  function Asks(lead: nat, from: nat, k: nat): (r: seq<Event>)
    ensures forall e | e in r :: e.Add?
    decreases k
  {
    if k == 0 then [] else [Add(lead, "t", 1, Key(from), 0)] + Asks(lead, from + 1, k - 1)
  }

  function Fresh(lead: nat, from: nat, k: nat): (r: seq<Msg>)
    ensures |r| == k && forall x | x in r :: IsFresh(x, lead)
    decreases k
  {
    if k == 0 then []
    else [Request(lead, from)] + Fresh(lead, from + 1, k - 1)
  }

  predicate IsFresh(msg: Msg, lead: nat) {
    && msg.lead == lead && msg.template == "t" && msg.priority == 1 && msg.status == Queued && msg.attempts == 0
    && msg.sentAt.None?
  }

  predicate ShorterKeys(msgs: seq<Msg>, n: nat) {
    forall i | 0 <= i < |msgs| :: |msgs[i].dedupe| < n
  }

  function Longest(msgs: seq<Msg>): (n: nat)
    ensures n > 0 && ShorterKeys(msgs, n)
  {
    if msgs == [] then 1
    else
      var n := Longest(msgs[1..]);
      assert forall i | 1 <= i < |msgs| :: msgs[i] == msgs[1..][i - 1];
      if |msgs[0].dedupe| < n then n else |msgs[0].dedupe| + 1
  }

  lemma {:induction false} AsksQueue(m: Mail, lead: nat, from: nat, k: nat, s: Settings)
    requires lead < |m.leads| && m.leads[lead] == WILLING && from > 0 && ShorterKeys(m.msgs, from)
    ensures Run(m, Asks(lead, from, k), s) == m.(msgs := m.msgs + Fresh(lead, from, k))
    decreases k
  {
    if k == 0 {
      assert m.msgs + [] == m.msgs;
    } else {
      var e, first := Add(lead, "t", 1, Key(from), 0), Request(lead, from);
      assert Asks(lead, from, k)[0] == e && Asks(lead, from, k)[1..] == Asks(lead, from + 1, k - 1);
      assert Fresh(lead, from, k) == [first] + Fresh(lead, from + 1, k - 1);
      AskQueues(m, lead, from, s);
      hide Step, Fresh, Asks, Key, ShorterKeys;
      AsksQueue(m.(msgs := m.msgs + [first]), lead, from + 1, k - 1, s);
      assert m.msgs + [first] + Fresh(lead, from + 1, k - 1) == m.msgs + ([first] + Fresh(lead, from + 1, k - 1));
    }
  }

  function Request(lead: nat, from: nat): (r: Msg)
    ensures IsFresh(r, lead)
  {
    Msg(lead, WILLING.email, "t", Key(from), 1, Queued, "", 0, 0, 0, None)
  }

  lemma AskQueues(m: Mail, lead: nat, from: nat, s: Settings)
    requires lead < |m.leads| && m.leads[lead] == WILLING && from > 0 && ShorterKeys(m.msgs, from)
    ensures var m1 := m.(msgs := m.msgs + [Request(lead, from)]);
      Step(m, Add(lead, "t", 1, Key(from), 0), s) == m1 && ShorterKeys(m1.msgs, from + 1)
  {
  }

  // ------------------------------------------------------------- a pass that sends the fresh rows

  function CountFrom(ids: seq<nat>, n: nat): nat {
    if ids == [] then 0 else (if ids[0] >= n then 1 else 0) + CountFrom(ids[1..], n)
  }

  lemma {:induction false} CountedIds(ids: seq<nat>, n: nat)
    ensures |set i | i in ids && i >= n| <= CountFrom(ids, n)
  {
    var all := set i | i in ids && i >= n;
    if ids == [] {
      assert all == {};
    } else {
      var rest := set i | i in ids[1..] && i >= n;
      CountedIds(ids[1..], n);
      assert all <= rest + {ids[0]};
      if ids[0] >= n {
        assert all == rest + {ids[0]};
      } else {
        assert all == rest;
      }
    }
  }

  lemma {:induction false} RangeSize(n: nat, k: nat, ids: set<nat>)
    requires forall i | n <= i < n + k :: i in ids
    ensures |ids| >= k
    decreases k
  {
    if k > 0 {
      RangeSize(n, k - 1, ids - {n + k - 1});
    }
  }

  lemma {:induction false} QueuedFew(msgs: seq<Msg>, n: nat)
    requires n <= |msgs|
    ensures |QueuedRows(msgs, n)| <= n
  {
    if n > 0 {
      QueuedFew(msgs, n - 1);
      if msgs[n - 1].status == Queued {
        InsertedOne(msgs, n - 1, QueuedRows(msgs, n - 1));
      }
    }
  }

  /** With a limit of all rows, every queued row is read. */
  lemma AllSelected(msgs: seq<Msg>, n: nat, k: nat)
    requires n + k == |msgs| && forall i | n <= i < n + k :: msgs[i].status == Queued
    ensures |Selected(msgs, |msgs|)| <= |msgs| && CountFrom(Selected(msgs, |msgs|), n) >= k
  {
    hide QueuedRows, CountFrom;
    QueuedFew(msgs, |msgs|);
    var ids := Selected(msgs, |msgs|);
    assert ids == QueuedRows(msgs, |msgs|);
    CountedIds(ids, n);
    RangeSize(n, k, set i | i in ids && i >= n);
  }

  /** Renders the rows from n on only, and accepts what is sent. */
  function Only(n: nat, now: int, day: int, month: int): Outside {
    Outside(now, day, month, (i: nat) => i >= n, (i: nat) => Reply(true, false, "p"))
  }

  /** The rows of `ids` from n on are fresh rows of a willing lead. */
  ghost predicate Sendable(m: Mail, ids: seq<nat>, n: nat, lead: nat) {
    && Rows(m.msgs, ids) && lead < |m.leads| && m.leads[lead] == WILLING && Distinct(ids)
    && forall i | i in ids && i >= n :: IsFresh(m.msgs[i], lead)
  }

  lemma SendableRest(m: Mail, t: Tally, ids: seq<nat>, n: nat, lead: nat, out: Outside, s: Settings)
    requires Sendable(m, ids, n, lead) && ids != []
    ensures Sendable(MailAfter(m, t, ids[0], out, s), ids[1..], n, lead)
    ensures Rows(MailAfter(m, t, ids[0], out, s).msgs, ids[1..])
  {
    hide MsgAfter, LogAfter, IsFresh;
    forall k | 0 <= k < |ids[1..]| ensures ids[1..][k] == ids[k + 1] && ids[k + 1] != ids[0] {
    }
  }

  lemma OldRow(m: Mail, t: Tally, i: nat, n: nat, now: int, day: int, month: int, s: Settings)
    requires i < |m.msgs| && i < n
    ensures var out := Only(n, now, day, month);
      && LogAfter(m, t, i, out, s) == []
      && TallyAfter(m, t, i, out, s).today == t.today && TallyAfter(m, t, i, out, s).month == t.month
      && TallyAfter(m, t, i, out, s).processed <= t.processed + 1
  {
  }

  lemma FreshRow(m: Mail, t: Tally, i: nat, n: nat, lead: nat, now: int, day: int, month: int, s: Settings)
    requires i < |m.msgs| && i >= n && IsFresh(m.msgs[i], lead) && lead < |m.leads| && m.leads[lead] == WILLING
    requires t.today < s.daily && t.month < s.monthly
    ensures var out := Only(n, now, day, month);
      && LogAfter(m, t, i, out, s) == [Attempt(i, lead, now, true)]
      && TallyAfter(m, t, i, out, s).today == t.today + 1 && TallyAfter(m, t, i, out, s).month == t.month + 1
      && TallyAfter(m, t, i, out, s).processed == t.processed + 1
  {
  }

  lemma UrgentKept(m: Mail, t: Tally, i: nat, out: Outside, s: Settings)
    requires i < |m.msgs|
    ensures UrgentRows(MailAfter(m, t, i, out, s).msgs) == UrgentRows(m.msgs)
    ensures m.msgs[i].priority > TRANSACTIONAL ==> i !in UrgentRows(m.msgs)
  {
    RowTally(m, t, i, out, s);
  }

  lemma OneSend(a: Attempt, urgent: set<nat>)
    requires a.ok && a.row !in urgent
    ensures Sends([a], urgent, false) == 1
  {
    assert [a][1..] == [];
  }

  /** The pass accepts every fresh row it reads, until a limit is reached. */
  lemma {:induction false} SendsFresh(m: Mail, t: Tally, ids: seq<nat>, limit: nat, n: nat, lead: nat, now: int, day: int, month: int, s: Settings)
    requires Sendable(m, ids, n, lead) && t.processed + |ids| <= limit
    ensures var calls := Calls(m, t, ids, limit, Only(n, now, day, month), s);
      Sends(calls, UrgentRows(m.msgs), false) >= Min(CountFrom(ids, n), Min(s.daily - t.today, s.monthly - t.month))
    decreases ids
  {
    hide MailAfter, TallyAfter, LogAfter, UrgentRows, Sends, Only, Sendable, IsFresh;
    var out, urgent := Only(n, now, day, month), UrgentRows(m.msgs);
    if ids != [] {
      var i := ids[0];
      assert i < |m.msgs| && lead < |m.leads| && m.leads[lead] == WILLING && (i >= n ==> IsFresh(m.msgs[i], lead)) by {
        SendableFirst(m, ids, n, lead);
      }
      if i < n || (t.today < s.daily && t.month < s.monthly) {
        var after, t' := MailAfter(m, t, i, out, s), TallyAfter(m, t, i, out, s);
        SendableRest(m, t, ids, n, lead, out, s);
        var rest := Calls(after, t', ids[1..], limit, out, s);
        UrgentKept(m, t, i, out, s);
        if i < n {
          OldRow(m, t, i, n, now, day, month, s);
          assert [] + rest == rest;
        } else {
          FreshRow(m, t, i, n, lead, now, day, month, s);
          FreshOrdinary(m.msgs[i], lead);
          OneSend(Attempt(i, lead, now, true), urgent);
          SendsCons([Attempt(i, lead, now, true)], rest, urgent, false);
        }
        SendsFresh(after, t', ids[1..], limit, n, lead, now, day, month, s);
      }
    }
  }

  lemma SendableFirst(m: Mail, ids: seq<nat>, n: nat, lead: nat)
    requires Sendable(m, ids, n, lead) && ids != []
    ensures ids[0] < |m.msgs| && lead < |m.leads| && m.leads[lead] == WILLING
    ensures ids[0] >= n ==> IsFresh(m.msgs[ids[0]], lead)
  {
    hide IsFresh;
    assert ids[0] in ids;
  }

  lemma FreshOrdinary(msg: Msg, lead: nat)
    requires IsFresh(msg, lead)
    ensures msg.priority > TRANSACTIONAL
  {
  }

  // ------------------------------------------------------------- exactly when a limit is kept

  /** Whatever is asked for next, a pass then that accepts ordinary mail ends with at most `cap`
      accepted since `since`. */
  ghost predicate NeverOver(m: Mail, s: Settings, now: int, day: int, month: int, since: int, cap: int) {
    forall more: seq<Event>, limit: nat, out: Outside |
      Asking(more) && out.now == now && out.dayStart == day && out.monthStart == month
      && AcceptsOrdinary(Run(m, more, s), limit, out, s) ::
        AcceptedSince(Processed(Run(m, more, s), limit, out, s).0.log, since) <= cap
  }

  /** While both limits leave room, what escaped the count of one fits into its room beside all
      that the limits still let through. */
  predicate Fits(msgs: seq<Msg>, since: int, room: int, other: int) {
    room > 0 && other > 0 ==> Escaped(msgs, since) + Min(room, other) <= room
  }

  lemma FitsKeeps(m: Mail, more: seq<Event>, limit: nat, out: Outside, s: Settings, since: int, cap: int)
    requires Dated(m, since) && since <= out.now && Asking(more) && AcceptsOrdinary(Run(m, more, s), limit, out, s)
    requires (since == out.dayStart && cap == s.daily) || (since == out.monthStart && cap == s.monthly)
    requires var day, month := Room(s.daily, m.msgs, out.dayStart), Room(s.monthly, m.msgs, out.monthStart);
      Fits(m.msgs, since, Room(cap, m.msgs, since), Min(day, month))
    ensures AcceptedSince(Processed(Run(m, more, s), limit, out, s).0.log, since) <= cap
  {
    hide Run, Processed, Sends, UrgentRows, CountSince, Escaped, AcceptedSince, Dated;
    RunDated(m, more, s, since);
    AskingKeeps(m, more, s, out.dayStart);
    AskingKeeps(m, more, s, out.monthStart);
    PassTotal(Run(m, more, s), limit, out, s, since);
  }

  /** The requests that show the limit broken. */
  function Flood(m: Mail, k: nat): seq<Event> {
    [PutLead(|m.leads|, WILLING)] + Asks(|m.leads|, Longest(m.msgs), k)
  }

  lemma Flooded(m: Mail, k: nat, s: Settings)
    ensures Asking(Flood(m, k))
    ensures Run(m, Flood(m, k), s)
      == Mail(m.msgs + Fresh(|m.leads|, Longest(m.msgs), k), m.leads + [WILLING], m.log)
  {
    var rest := Asks(|m.leads|, Longest(m.msgs), k);
    assert Flood(m, k)[0] == PutLead(|m.leads|, WILLING) && Flood(m, k)[1..] == rest;
    AsksQueue(m.(leads := m.leads + [WILLING]), |m.leads|, Longest(m.msgs), k, s);
  }

  lemma FloodSends(m: Mail, k: nat, now: int, day: int, month: int, s: Settings)
    requires k <= Room(s.daily, m.msgs, day) && k <= Room(s.monthly, m.msgs, month)
    ensures var m1 := Run(m, Flood(m, k), s);
      var log := Processed(m1, |m1.msgs|, Only(|m.msgs|, now, day, month), s).0.log;
      |log| >= |m1.log| && Sends(log[|m1.log|..], UrgentRows(m1.msgs), false) >= k
  {
    hide Run, Calls, Pass, Sends, UrgentRows, CountSince, Escaped, Sendable, CountFrom, Selected, Flood, Asking;
    var m1, lead, n := Run(m, Flood(m, k), s), |m.leads|, |m.msgs|;
    var out := Only(n, now, day, month);
    Flooded(m, k, s);
    AskingKeeps(m, Flood(m, k), s, day);
    AskingKeeps(m, Flood(m, k), s, month);
    FreshLast(m.msgs, lead, Longest(m.msgs), k);
    AllSelected(m1.msgs, n, k);
    var ids, t := Selected(m1.msgs, |m1.msgs|), StartTally(m1, out);
    FloodSendable(m1, m.msgs, lead, Longest(m.msgs), k);
    SendsFresh(m1, t, ids, |m1.msgs|, n, lead, now, day, month, s);
    PassLog(m1, t, ids, |m1.msgs|, out, s);
    var calls := Calls(m1, t, ids, |m1.msgs|, out, s);
    assert (m1.log + calls)[|m1.log|..] == calls;
  }

  lemma FreshLast(msgs: seq<Msg>, lead: nat, from: nat, k: nat)
    ensures forall i | |msgs| <= i < |msgs| + k :: IsFresh((msgs + Fresh(lead, from, k))[i], lead)
    ensures forall i | |msgs| <= i < |msgs| + k :: (msgs + Fresh(lead, from, k))[i].status == Queued
  {
    var rows := Fresh(lead, from, k);
    forall i | |msgs| <= i < |msgs| + k ensures IsFresh((msgs + rows)[i], lead) {
      assert (msgs + rows)[i] == rows[i - |msgs|] && rows[i - |msgs|] in rows;
    }
  }

  lemma FloodSendable(m1: Mail, msgs: seq<Msg>, lead: nat, from: nat, k: nat)
    requires m1.msgs == msgs + Fresh(lead, from, k) && lead < |m1.leads| && m1.leads[lead] == WILLING
    ensures Sendable(m1, Selected(m1.msgs, |m1.msgs|), |msgs|, lead)
  {
    hide Selected, Before;
    FreshLast(msgs, lead, from, k);
    SelectedRows(m1.msgs, |m1.msgs|);
    hide IsFresh;
    var ids := Selected(m1.msgs, |m1.msgs|);
    forall i | i in ids && i >= |msgs| ensures IsFresh(m1.msgs[i], lead) {
      var j :| 0 <= j < |ids| && ids[j] == i;
      assert ids[j] < |m1.msgs|;
    }
  }

  lemma UnfitBreaks(m: Mail, now: int, day: int, month: int, s: Settings, since: int, cap: int)
    requires Dated(m, since) && since <= now
    requires (since == day && cap == s.daily) || (since == month && cap == s.monthly)
    requires var other := Min(Room(s.daily, m.msgs, day), Room(s.monthly, m.msgs, month));
      !Fits(m.msgs, since, Room(cap, m.msgs, since), other)
    ensures !NeverOver(m, s, now, day, month, since, cap)
  {
    hide Run, Processed, Sends, UrgentRows, CountSince, Escaped, AcceptedSince, Dated, Flood, Asking, Only;
    var k := Min(Room(s.daily, m.msgs, day), Room(s.monthly, m.msgs, month));
    var more, out := Flood(m, k), Only(|m.msgs|, now, day, month);
    var m1 := Run(m, more, s);
    OnlyAt(|m.msgs|, now, day, month);
    Flooded(m, k, s);
    FloodSends(m, k, now, day, month, s);
    RunDated(m, more, s, since);
    AskingKeeps(m, more, s, since);
    PassTotal(m1, |m1.msgs|, out, s, since);
    assert AcceptsOrdinary(m1, |m1.msgs|, out, s);
    assert AcceptedSince(Processed(m1, |m1.msgs|, out, s).0.log, since) > cap;
  }

  lemma OnlyAt(n: nat, now: int, day: int, month: int)
    ensures var out := Only(n, now, day, month); out.now == now && out.dayStart == day && out.monthStart == month
  {
  }

  lemma KeptIff(m: Mail, now: int, day: int, month: int, s: Settings, since: int, cap: int)
    requires Dated(m, since) && since <= now
    requires (since == day && cap == s.daily) || (since == month && cap == s.monthly)
    ensures var other := Min(Room(s.daily, m.msgs, day), Room(s.monthly, m.msgs, month));
      NeverOver(m, s, now, day, month, since, cap) <==> Fits(m.msgs, since, Room(cap, m.msgs, since), other)
  {
    hide Run, Processed, CountSince, Escaped, AcceptedSince, Dated, Asking, AcceptsOrdinary, Fits;
    if Fits(m.msgs, since, Room(cap, m.msgs, since), Min(Room(s.daily, m.msgs, day), Room(s.monthly, m.msgs, month))) {
      forall more: seq<Event>, limit: nat, out: Outside |
        Asking(more) && out.now == now && out.dayStart == day && out.monthStart == month
        && AcceptsOrdinary(Run(m, more, s), limit, out, s)
        ensures AcceptedSince(Processed(Run(m, more, s), limit, out, s).0.log, since) <= cap
      {
        FitsKeeps(m, more, limit, out, s, since, cap);
      }
    } else {
      UnfitBreaks(m, now, day, month, s, since, cap);
    }
  }

  lemma RunIsDated(events: seq<Event>, s: Settings, since: int)
    ensures Dated(Run(Mail([], [], []), events, s), since)
  {
    RunDated(Mail([], [], []), events, s, since);
  }

  /**
   The daily limit, after any run: no pass that accepts ordinary mail can end the day over it,
   whatever is asked for meanwhile, if and only if what escaped the day's count fits into the
   day's room beside all that both limits still let through.
   */
  lemma DayKeptIff(events: seq<Event>, s: Settings, now: int, day: int, month: int)
    requires day <= now
    ensures var m := Run(Mail([], [], []), events, s);
      var room, other := Room(s.daily, m.msgs, day), Room(s.monthly, m.msgs, month);
      NeverOver(m, s, now, day, month, day, s.daily) <==>
        (room > 0 && other > 0 ==> Escaped(m.msgs, day) + Min(room, other) <= room)
  {
    hide Run, CountSince, Escaped, Dated, NeverOver;
    RunIsDated(events, s, day);
    KeptIff(Run(Mail([], [], []), events, s), now, day, month, s, day, s.daily);
  }

  /** The monthly limit likewise. */
  lemma MonthKeptIff(events: seq<Event>, s: Settings, now: int, day: int, month: int)
    requires month <= now
    ensures var m := Run(Mail([], [], []), events, s);
      var room, other := Room(s.monthly, m.msgs, month), Room(s.daily, m.msgs, day);
      NeverOver(m, s, now, day, month, month, s.monthly) <==>
        (room > 0 && other > 0 ==> Escaped(m.msgs, month) + Min(room, other) <= room)
  {
    hide Run, CountSince, Escaped, Dated, NeverOver;
    RunIsDated(events, s, month);
    KeptIff(Run(Mail([], [], []), events, s), now, day, month, s, month, s.monthly);
  }

  // ------------------------------------------------------------- a day over its limit

  const READER := Lead("r@example.com", true, false)
  const PASS := Outside(9, 0, 0, (i: nat) => true, (i: nat) => Reply(true, false, "p"))

  function Row(template: string, status: Status): Msg {
    if status == Queued then Msg(0, "r@example.com", template, template, 1, Queued, "", 0, 8, 8, None)
    else Msg(0, "r@example.com", template, template, 1, status, "p", 1, 8, 9, Some(9))
  }

  lemma OneQueued(rows: seq<Msg>, template: string)
    requires |rows| <= 1 && forall r | r in rows :: r.status != Queued
    ensures Selected(rows + [Row(template, Queued)], 1) == [|rows|]
  {
    var all := rows + [Row(template, Queued)];
    assert |rows| == 1 ==> all[0] == rows[0] && QueuedRows(all, 1) == [];
    assert QueuedRows(all, |rows|) == [];
    assert QueuedRows(all, |all|) == [|rows|];
  }

  lemma OnePass(m: Mail, t: Tally, i: nat, out: Outside, s: Settings)
    requires i < |m.msgs| && t.processed == 0
    ensures Pass(m, t, [i], 1, out, s).0 == MailAfter(m, t, i, out, s)
  {
    hide TallyAfter, LogAfter, MsgAfter;
    assert [i][1..] == [];
  }

  /** A pass over one queued row of a willing lead, with the day's count below its limit. */
  lemma OneSent(rows: seq<Msg>, template: string, log: seq<Attempt>, s: Settings)
    requires |rows| <= 1 && forall r | r in rows :: r.status != Queued
    requires CountSince(rows + [Row(template, Queued)], 0) < s.daily && s.daily <= s.monthly
    ensures Processed(Mail(rows + [Row(template, Queued)], [READER], log), 1, PASS, s).0
      == Mail(rows + [Row(template, Sent)], [READER], log + [Attempt(|rows|, 0, 9, true)])
  {
    hide Selected, CountSince, Pass;
    OneQueued(rows, template);
    var m := Mail(rows + [Row(template, Queued)], [READER], log);
    var t := StartTally(m, PASS);
    OnePass(m, t, |rows|, PASS, s);
    assert Judge(m, t, |rows|, PASS, s) == Send;
    assert m.msgs[|rows| := Row(template, Sent)] == rows + [Row(template, Sent)];
  }

  lemma NoneCounted(rows: seq<Msg>)
    requires |rows| <= 2 && forall r | r in rows :: r.status == Queued || r.status == Delayed
    ensures CountSince(rows, 0) == 0
  {
    if |rows| == 2 {
      assert rows[1..][1..] == [];
    }
  }

  /** The provider reports a delay for the first message: the second one goes out over the limit. */
  const DAY := [
    PutLead(0, READER), Add(0, "a", 1, "", 8), RunPass(1, PASS), Provider(DelayedEvent, "p", ""),
    Add(0, "b", 1, "", 8), RunPass(1, PASS)]

  lemma DayUnrolled(m: Mail, s: Settings)
    ensures Run(m, DAY, s)
      == Step(Step(Step(Step(Step(Step(m, DAY[0], s), DAY[1], s), DAY[2], s), DAY[3], s), DAY[4], s), DAY[5], s)
  {
    hide Step;
    RunOne(m, DAY, s);
    RunOne(Step(m, DAY[0], s), DAY[1..], s);
    var m2 := Step(Step(m, DAY[0], s), DAY[1], s);
    assert DAY[1..][1..] == DAY[2..] && DAY[2..][1..] == DAY[3..] && DAY[3..][1..] == DAY[4..] && DAY[4..][1..] == DAY[5..];
    RunOne(m2, DAY[2..], s);
    RunOne(Step(m2, DAY[2], s), DAY[3..], s);
    var m4 := Step(Step(m2, DAY[2], s), DAY[3], s);
    RunOne(m4, DAY[4..], s);
    RunOne(Step(m4, DAY[4], s), DAY[5..], s);
    assert DAY[5..][1..] == [];
  }

  lemma RunOne(m: Mail, events: seq<Event>, s: Settings)
    requires events != []
    ensures Run(m, events, s) == Run(Step(m, events[0], s), events[1..], s)
    ensures forall m' :: Run(m', [], s) == m'
  {
  }

  lemma DelayEscapesQuota(s: Settings)
    requires s.daily == 1 && s.monthly >= 1
    ensures AcceptedSince(Run(Mail([], [], []), DAY, s).log, 0) == 2 > s.daily
  {
    DayUnrolled(Mail([], [], []), s);
    DaySteps(s);
    hide Run, Step;
    var log := [Attempt(0, 0, 9, true), Attempt(1, 0, 9, true)];
    assert log[..1] == [log[0]] && [log[0]][..0] == [];
  }

  const CALL := Attempt(0, 0, 9, true)

  lemma DayBegins(s: Settings)
    ensures Step(Step(Mail([], [], []), DAY[0], s), DAY[1], s) == Mail([Row("a", Queued)], [READER], [])
  {
  }

  lemma DelayReported(s: Settings)
    ensures Step(Mail([Row("a", Sent)], [READER], [CALL]), Provider(DelayedEvent, "p", ""), s)
      == Mail([Row("a", Delayed)], [READER], [CALL])
  {
    assert WithId([Row("a", Sent)], "p") == Some(0);
    assert [Row("a", Sent)][0 := Row("a", Delayed)] == [Row("a", Delayed)];
  }

  lemma NextAsked(s: Settings)
    ensures Step(Mail([Row("a", Delayed)], [READER], [CALL]), Add(0, "b", 1, "", 8), s)
      == Mail([Row("a", Delayed), Row("b", Queued)], [READER], [CALL])
  {
    assert !HasKey([Row("a", Delayed)], 0, "b", "b") by {
      assert Row("a", Delayed).template != "b";
    }
    assert [Row("a", Delayed)] + [Row("b", Queued)] == [Row("a", Delayed), Row("b", Queued)];
  }

  lemma DaySends(rows: seq<Msg>, template: string, log: seq<Attempt>, s: Settings)
    requires s.daily == 1 && s.monthly >= 1 && |rows| <= 1 && forall r | r in rows :: r.status == Delayed
    ensures Step(Mail(rows + [Row(template, Queued)], [READER], log), RunPass(1, PASS), s)
      == Mail(rows + [Row(template, Sent)], [READER], log + [Attempt(|rows|, 0, 9, true)])
  {
    hide Processed, CountSince;
    NoneCounted(rows + [Row(template, Queued)]);
    OneSent(rows, template, log, s);
  }

  lemma DaySteps(s: Settings)
    requires s.daily == 1 && s.monthly >= 1
    ensures var m := Step(Step(Step(Mail([], [], []), DAY[0], s), DAY[1], s), DAY[2], s);
      Step(Step(Step(m, DAY[3], s), DAY[4], s), DAY[5], s).log == [CALL, Attempt(1, 0, 9, true)]
  {
    hide Step, Row;
    DayBegins(s);
    DaySends([], "a", [], s);
    assert [] + [Row("a", Queued)] == [Row("a", Queued)] && [] + [Row("a", Sent)] == [Row("a", Sent)];
    assert [] + [CALL] == [CALL];
    DelayReported(s);
    NextAsked(s);
    SecondSends(s);
  }

  lemma SecondSends(s: Settings)
    requires s.daily == 1 && s.monthly >= 1
    ensures Step(Mail([Row("a", Delayed), Row("b", Queued)], [READER], [CALL]), RunPass(1, PASS), s).log
      == [CALL, Attempt(1, 0, 9, true)]
  {
    assert Row("a", Delayed).status == Delayed;
    hide Step, Row;
    var rows := [Row("a", Delayed)];
    DaySends(rows, "b", [CALL], s);
    assert rows + [Row("b", Queued)] == [Row("a", Delayed), Row("b", Queued)];
  }
}
