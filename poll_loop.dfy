/** What the poll loop of `monitorMessages` (src/puppeteer/puppeteer.service.ts:152-169)
    relays, stated on values. A run is observed as a finite sequence of
    ticks: each tick is how the page evaluation of one iteration ends and
    whether `stop` cleared the flag while that iteration slept. */
module PollLoop {
  import opened Messages
  import opened Extraction
  import opened Dedup

  datatype Tick = Tick(scrape: Result<Dom>, stopRequested: bool)

  /** The effect of some iterations: the events relayed, the seen set after
      them, and the records their filters kept (whose ids the relayed
      messages no longer carry). */
  datatype Step = Step(events: seq<Event>, seen: set<string>, kept: seq<Scraped>)

  /** `new_message` events for `msgs`, in order. */
  function NewMessages(msgs: seq<MonitoredMessage>): (evs: seq<Event>)
    ensures |evs| == |msgs| && forall k :: 0 <= k < |msgs| ==> evs[k] == NewMessage(msgs[k])
  {
    seq(|msgs|, k requires 0 <= k < |msgs| => NewMessage(msgs[k]))
  }

  /** One iteration: a failed evaluation is reported once with code 500 and
      leaves the seen set alone; otherwise the fresh messages are relayed in
      extraction order and every scraped id becomes seen. */
  function Poll(seen: set<string>, target: string, scrape: Result<Dom>): (step: Step)
    ensures seen <= step.seen
    ensures scrape.Err? ==> step.seen == seen && step.kept == [] && |step.events| == 1
  {
    match scrape
    case Err(f) => Step([ErrorEvent(ScrapeErrorCode, ReportText(f))], seen, [])
    case Ok(dom) =>
      var res := Extracted(dom, target);
      Step(NewMessages(Fresh(seen, res)), seen + Ids(res), Kept(seen, res))
  }

  /** The iterations the loop runs on `ticks`, starting with the flag set. */
  function Run(seen: set<string>, target: string, ticks: seq<Tick>): (r: Step)
    ensures seen <= r.seen
    decreases |ticks|
  {
    if ticks == [] then Step([], seen, [])
    else
      var first := Poll(seen, target, ticks[0].scrape);
      if ticks[0].stopRequested then first
      else
        var rest := Run(first.seen, target, ticks[1..]);
        Step(first.events + rest.events, rest.seen, first.kept + rest.kept)
  }

  /** How many iterations the loop runs on `ticks`: up to and including the
      first one during which `stop` cleared the flag, or all of them. A failed
      scrape never ends the loop. */
  function Polls(ticks: seq<Tick>): (n: nat)
    ensures n <= |ticks|
    ensures ticks != [] ==> n > 0
    ensures forall k :: 0 <= k < n - 1 ==> !ticks[k].stopRequested
    ensures n == |ticks| || ticks[n - 1].stopRequested
  {
    if ticks == [] then 0
    else if ticks[0].stopRequested then 1
    else 1 + Polls(ticks[1..])
  }

  /** The loop saw the flag cleared before the ticks ran out. */
  predicate Stopped(ticks: seq<Tick>) {
    Polls(ticks) > 0 && ticks[Polls(ticks) - 1].stopRequested
  }

  /** The events one iteration relays for the batch `scrapeNewMessages`
      returned, or for the error it threw. */
  function Reported(batch: Result<seq<MonitoredMessage>>): seq<Event> {
    match batch
    case Ok(msgs) => NewMessages(msgs)
    case Err(f) => [ErrorEvent(ScrapeErrorCode, ReportText(f))]
  }

  /** `Run` on the ticks from index `i` on, as the loop walks them. */
  function RunFrom(seen: set<string>, target: string, ticks: seq<Tick>, i: nat): Step
    requires i <= |ticks|
    decreases |ticks| - i
  {
    if i == |ticks| then Step([], seen, [])
    else
      var first := Poll(seen, target, ticks[i].scrape);
      if ticks[i].stopRequested then first
      else
        var rest := RunFrom(first.seen, target, ticks, i + 1);
        Step(first.events + rest.events, rest.seen, first.kept + rest.kept)
  }

  /** `Polls` on the ticks from index `i` on. */
  function PollsFrom(ticks: seq<Tick>, i: nat): nat
    requires i <= |ticks|
    decreases |ticks| - i
  {
    if i == |ticks| then 0
    else if ticks[i].stopRequested then 1
    else 1 + PollsFrom(ticks, i + 1)
  }

  /** The indexed view agrees with `Run` and `Polls` on the suffix. */
  lemma {:induction false} RunFromSuffix(seen: set<string>, target: string, ticks: seq<Tick>, i: nat)
    requires i <= |ticks|
    ensures RunFrom(seen, target, ticks, i) == Run(seen, target, ticks[i..])
    ensures PollsFrom(ticks, i) == Polls(ticks[i..])
    decreases |ticks| - i
  {
    if i < |ticks| {
      var rest := ticks[i..];
      assert rest[0] == ticks[i] && rest[1..] == ticks[i + 1..];
      if !ticks[i].stopRequested {
        RunFromSuffix(Poll(seen, target, ticks[i].scrape).seen, target, ticks, i + 1);
      }
    }
  }

  /** The loop of `monitorMessages` after `polls` iterations of `run`, with
      the flag at `live`, the seen set at `seen` and `sent` relayed so far:
      while the flag holds, the rest of the run is the run on the remaining
      ticks; once it is cleared, the run is over. */
  ghost predicate Tracks(target: string, ticks: seq<Tick>, polls: nat, run: Step, live: bool, seen: set<string>, sent: seq<Event>) {
    && polls <= |ticks|
    && (live ==>
          && (forall k :: 0 <= k < polls ==> !ticks[k].stopRequested)
          && run.events == sent + RunFrom(seen, target, ticks, polls).events
          && run.seen == RunFrom(seen, target, ticks, polls).seen
          && Polls(ticks) == polls + PollsFrom(ticks, polls))
    && (!live ==>
          && run.events == sent && run.seen == seen
          && (polls > 0 ==> Polls(ticks) == polls && Stopped(ticks)))
  }

  /** Before the first iteration the whole run lies ahead. */
  lemma TracksStart(target: string, ticks: seq<Tick>, seen: set<string>)
    ensures Tracks(target, ticks, 0, Run(seen, target, ticks), true, seen, [])
  {
    RunFromSuffix(seen, target, ticks, 0);
    assert ticks[0..] == ticks;
  }

  /** An iteration during which `stop` came relays what `Poll` relays and
      ends the run. */
  lemma TracksStop(target: string, ticks: seq<Tick>, polls: nat, run: Step, seen: set<string>, sent: seq<Event>)
    requires polls < |ticks| && ticks[polls].stopRequested && Tracks(target, ticks, polls, run, true, seen, sent)
    ensures var step := Poll(seen, target, ticks[polls].scrape);
            Tracks(target, ticks, polls + 1, run, false, step.seen, sent + step.events)
  {
    assert RunFrom(seen, target, ticks, polls) == Poll(seen, target, ticks[polls].scrape);
    assert PollsFrom(ticks, polls) == 1;
  }

  /** Any other iteration relays what `Poll` relays, takes the seen set
      `Poll` leaves, and leaves the rest of the run ahead. */
  lemma TracksGo(target: string, ticks: seq<Tick>, polls: nat, run: Step, seen: set<string>, sent: seq<Event>)
    requires polls < |ticks| && !ticks[polls].stopRequested && Tracks(target, ticks, polls, run, true, seen, sent)
    ensures var step := Poll(seen, target, ticks[polls].scrape);
            Tracks(target, ticks, polls + 1, run, true, step.seen, sent + step.events)
  {
    var step := Poll(seen, target, ticks[polls].scrape);
    var rest := RunFrom(step.seen, target, ticks, polls + 1);
    assert RunFrom(seen, target, ticks, polls).events == step.events + rest.events;
    assert RunFrom(seen, target, ticks, polls).seen == rest.seen;
    assert PollsFrom(ticks, polls) == 1 + PollsFrom(ticks, polls + 1);
  }

  /** One iteration relays what `Poll` relays, takes the seen set `Poll`
      leaves, and clears the flag exactly when `stop` came during it. */
  lemma TracksStep(target: string, ticks: seq<Tick>, polls: nat, run: Step, seen: set<string>, sent: seq<Event>)
    requires polls < |ticks| && Tracks(target, ticks, polls, run, true, seen, sent)
    ensures var step := Poll(seen, target, ticks[polls].scrape);
            Tracks(target, ticks, polls + 1, run, !ticks[polls].stopRequested, step.seen, sent + step.events)
  {
    if ticks[polls].stopRequested {
      TracksStop(target, ticks, polls, run, seen, sent);
    } else {
      TracksGo(target, ticks, polls, run, seen, sent);
    }
  }

  /** When the loop exits, the run is over: everything it relays has been
      relayed, and the flag is still set exactly when `stop` never came. */
  lemma TracksEnd(target: string, ticks: seq<Tick>, polls: nat, run: Step, live: bool, seen: set<string>, sent: seq<Event>)
    requires Tracks(target, ticks, polls, run, live, seen, sent) && (live ==> polls == |ticks|)
    ensures run.events == sent && run.seen == seen
    ensures live || polls > 0 ==> Polls(ticks) == polls && live == !Stopped(ticks)
  {
    if live {
      assert run.events == sent + [];
    }
  }

  /** The messages among `evs`, in order. */
  function Relayed(evs: seq<Event>): seq<MonitoredMessage> {
    if evs == [] then []
    else (if evs[0].NewMessage? then [evs[0].msg] else []) + Relayed(evs[1..])
  }

  /** How many error events `evs` holds. */
  function ErrorCount(evs: seq<Event>): nat {
    if evs == [] then 0
    else (if evs[0].ErrorEvent? then 1 else 0) + ErrorCount(evs[1..])
  }

  /** How many of `ticks` end in a failed evaluation. */
  function FailedCount(ticks: seq<Tick>): nat {
    if ticks == [] then 0
    else (if ticks[0].scrape.Err? then 1 else 0) + FailedCount(ticks[1..])
  }

  lemma {:induction false} EventsAppend(a: seq<Event>, b: seq<Event>)
    ensures Relayed(a + b) == Relayed(a) + Relayed(b)
    ensures ErrorCount(a + b) == ErrorCount(a) + ErrorCount(b)
  {
    if a != [] {
      assert (a + b)[0] == a[0] && (a + b)[1..] == a[1..] + b;
      EventsAppend(a[1..], b);
    } else {
      assert a + b == b;
    }
  }

  /** Relaying messages relays them and nothing else. */
  lemma {:induction false} NewMessagesOnly(msgs: seq<MonitoredMessage>)
    ensures Relayed(NewMessages(msgs)) == msgs
    ensures ErrorCount(NewMessages(msgs)) == 0
  {
    if msgs != [] {
      NewMessagesOnly(msgs[1..]);
      assert NewMessages(msgs)[1..] == NewMessages(msgs[1..]);
    }
  }

  /** The messages one iteration relays are its kept records without ids. */
  lemma PollMessages(seen: set<string>, target: string, scrape: Result<Dom>)
    ensures Relayed(Poll(seen, target, scrape).events) == Strips(Poll(seen, target, scrape).kept)
    ensures ErrorCount(Poll(seen, target, scrape).events) == if scrape.Err? then 1 else 0
    ensures ErrorsCoded(Poll(seen, target, scrape).events)
  {
    match scrape
    case Err(f) =>
      assert [ErrorEvent(ScrapeErrorCode, ReportText(f))][1..] == [];
    case Ok(dom) =>
      NewMessagesOnly(Fresh(seen, Extracted(dom, target)));
  }

  /** Two batches with distinct ids concatenate to one when every id of the
      first is in `s` and no id of the second is. */
  lemma DistinctConcat(a: seq<Scraped>, b: seq<Scraped>, s: set<string>)
    requires DistinctIds(a) && DistinctIds(b)
    requires forall k :: 0 <= k < |a| ==> a[k].id in s
    requires forall k :: 0 <= k < |b| ==> b[k].id !in s
    ensures DistinctIds(a + b)
  {
    var ab := a + b;
    forall i, j | 0 <= i < j < |ab| ensures ab[i].id != ab[j].id {
      if j < |a| {
        assert ab[i] == a[i] && ab[j] == a[j];
      } else if i >= |a| {
        assert ab[i] == b[i - |a|] && ab[j] == b[j - |a|];
      } else {
        assert ab[i] == a[i] && ab[j] == b[j - |a|];
      }
    }
  }

  /** The messages a run relays are the records its filters kept, stripped
      of their ids, in order. */
  lemma {:induction false} RunRelaysKept(seen: set<string>, target: string, ticks: seq<Tick>)
    ensures Relayed(Run(seen, target, ticks).events) == Strips(Run(seen, target, ticks).kept)
    decreases |ticks|
  {
    if ticks != [] {
      var first := Poll(seen, target, ticks[0].scrape);
      PollMessages(seen, target, ticks[0].scrape);
      if !ticks[0].stopRequested {
        var rest := Run(first.seen, target, ticks[1..]);
        RunRelaysKept(first.seen, target, ticks[1..]);
        EventsAppend(first.events, rest.events);
        StripsAppend(first.kept, rest.kept);
      }
    }
  }

  /** `kept` has pairwise distinct ids, none of them in `before` and all of
      them in `after`. */
  ghost predicate KeptBetween(kept: seq<Scraped>, before: set<string>, after: set<string>) {
    && DistinctIds(kept)
    && forall k :: 0 <= k < |kept| ==> kept[k].id !in before && kept[k].id in after
  }

  /** Two consecutive stretches of iterations keep, together, records with
      distinct ids new to the first stretch. */
  lemma KeptBetweenConcat(a: seq<Scraped>, b: seq<Scraped>, s0: set<string>, s1: set<string>, s2: set<string>)
    requires KeptBetween(a, s0, s1) && KeptBetween(b, s1, s2)
    requires s0 <= s1 <= s2
    ensures KeptBetween(a + b, s0, s2)
  {
    DistinctConcat(a, b, s1);
    var ab := a + b;
    forall k | 0 <= k < |ab| ensures ab[k].id !in s0 && ab[k].id in s2 {
      if k >= |a| {
        assert ab[k] == b[k - |a|];
      } else {
        assert ab[k] == a[k];
      }
    }
  }

  /** At most once per run: the kept records have pairwise distinct ids, none
      of them seen when the run began and all of them seen when it ends. */
  lemma {:induction false} RunAtMostOnce(seen: set<string>, target: string, ticks: seq<Tick>)
    ensures KeptBetween(Run(seen, target, ticks).kept, seen, Run(seen, target, ticks).seen)
    decreases |ticks|
  {
    if ticks != [] {
      var first := Poll(seen, target, ticks[0].scrape);
      FirstPollKept(seen, target, ticks[0].scrape);
      if !ticks[0].stopRequested {
        var rest := Run(first.seen, target, ticks[1..]);
        RunAtMostOnce(first.seen, target, ticks[1..]);
        KeptBetweenConcat(first.kept, rest.kept, seen, first.seen, rest.seen);
      }
    }
  }

  /** One iteration keeps records with distinct ids, none seen before it and
      all seen after it. */
  lemma FirstPollKept(seen: set<string>, target: string, scrape: Result<Dom>)
    ensures seen <= Poll(seen, target, scrape).seen
    ensures KeptBetween(Poll(seen, target, scrape).kept, seen, Poll(seen, target, scrape).seen)
  {
    if scrape.Ok? {
      var res := Extracted(scrape.value, target);
      KeptSound(seen, res);
      var kept := Kept(seen, res);
      forall k | 0 <= k < |kept| ensures kept[k].id in seen + Ids(res) {
        var j :| 0 <= j < |res| && res[j] == kept[k];
        assert res[j] in res;
      }
    }
  }

  /** Every error event among `evs` carries code 500. */
  predicate ErrorsCoded(evs: seq<Event>) {
    forall e :: e in evs && e.ErrorEvent? ==> e.code == ScrapeErrorCode
  }

  /** Per-iteration error isolation over a run: each iteration whose scrape
      failed relays exactly one error event, every error event carries code
      500, and no other iteration relays one. */
  lemma {:induction false} RunErrors(seen: set<string>, target: string, ticks: seq<Tick>)
    ensures ErrorCount(Run(seen, target, ticks).events) == FailedCount(ticks[..Polls(ticks)])
    ensures ErrorsCoded(Run(seen, target, ticks).events)
    decreases |ticks|
  {
    if ticks != [] {
      var first := Poll(seen, target, ticks[0].scrape);
      PollMessages(seen, target, ticks[0].scrape);
      var cut := ticks[..Polls(ticks)];
      assert cut[0] == ticks[0];
      if ticks[0].stopRequested {
        assert cut[1..] == [];
      } else {
        var rest := Run(first.seen, target, ticks[1..]);
        RunErrors(first.seen, target, ticks[1..]);
        EventsAppend(first.events, rest.events);
        assert cut[1..] == ticks[1..][..Polls(ticks[1..])];
      }
    } else {
      assert ticks[..Polls(ticks)] == [];
    }
  }

  /** One iteration relays only messages that name the target as sender. */
  lemma PollOnlyTarget(seen: set<string>, target: string, scrape: Result<Dom>)
    ensures forall k :: 0 <= k < |Poll(seen, target, scrape).events| && Poll(seen, target, scrape).events[k].NewMessage? ==>
              Poll(seen, target, scrape).events[k].msg.from == target
  {
    if scrape.Ok? {
      var res := Extracted(scrape.value, target);
      ExtractedMatches(scrape.value, target);
      KeptSound(seen, res);
      var kept := Kept(seen, res);
      forall k | 0 <= k < |kept| ensures kept[k].from == target {
        var j :| 0 <= j < |res| && res[j] == kept[k];
      }
    }
  }

  /** Only the target is relayed: every message of a run names the target as
      its sender. */
  lemma {:induction false} RunOnlyTarget(seen: set<string>, target: string, ticks: seq<Tick>)
    ensures forall k :: 0 <= k < |Run(seen, target, ticks).events| && Run(seen, target, ticks).events[k].NewMessage? ==>
              Run(seen, target, ticks).events[k].msg.from == target
    decreases |ticks|
  {
    if ticks != [] {
      var first := Poll(seen, target, ticks[0].scrape);
      PollOnlyTarget(seen, target, ticks[0].scrape);
      if !ticks[0].stopRequested {
        var rest := Run(first.seen, target, ticks[1..]);
        RunOnlyTarget(first.seen, target, ticks[1..]);
        var evs := first.events + rest.events;
        forall k | 0 <= k < |evs| && evs[k].NewMessage? ensures evs[k].msg.from == target {
          if k >= |first.events| {
            assert evs[k] == rest.events[k - |first.events|];
          }
        }
      }
    }
  }

  /** Nothing is relayed after a stop: a run depends only on the ticks up to
      and including the iteration during which the flag was cleared. */
  lemma {:induction false} RunStopsAtRequest(seen: set<string>, target: string, ticks: seq<Tick>)
    ensures Run(seen, target, ticks) == Run(seen, target, ticks[..Polls(ticks)])
    decreases |ticks|
  {
    if ticks != [] {
      var cut := ticks[..Polls(ticks)];
      assert cut[0] == ticks[0];
      if !ticks[0].stopRequested {
        var first := Poll(seen, target, ticks[0].scrape);
        RunStopsAtRequest(first.seen, target, ticks[1..]);
        assert cut[1..] == ticks[1..][..Polls(ticks[1..])];
      }
    }
  }

  /** The seen set survives `stop` and `start`, so a message is relayed at
      most once over consecutive runs of the same service too. */
  lemma AtMostOnceAcrossRuns(seen: set<string>, target: string, a: seq<Tick>, b: seq<Tick>)
    ensures DistinctIds(Run(seen, target, a).kept + Run(Run(seen, target, a).seen, target, b).kept)
  {
    var r1 := Run(seen, target, a);
    var r2 := Run(r1.seen, target, b);
    RunAtMostOnce(seen, target, a);
    RunAtMostOnce(r1.seen, target, b);
    DistinctConcat(r1.kept, r2.kept, r1.seen);
  }
}
