/** One run of the monitor (`monitor_once`): read the active monitors, ask
    the model for deals for each row, record the best price and link in the
    row, send an alert when the price is within the row's ceiling, and append
    a run-log entry. The outside world (the model, the Sheets API, the mail
    server, `json.loads`, `float`) is given as an environment, and what the
    run does to it is recorded as a trace of events. */
module MonitorRun {

  import opened Values
  import opened Text
  import opened SheetRows
  import opened DealParser
  import opened BestDeal

  const CompletedStatus: string := "completed"
  const NoActiveStatus: string := "no_active_monitors"
  const NothingToScan: string := "nothing_to_scan"
  const NoteSeparator: string := "; "

  /** The keys `send_email_alert` looks up besides the price and the link. */
  const EmailKeys: seq<string> := ["origin", "destination", "depart", "return", "total_usd"]

  /** The note a row contributes to the run summary. */
  datatype Tag = NoDealsFound | AlertSent | CheckedNoAlert | GptError

  function TagName(t: Tag): string
  {
    match t
    case NoDealsFound => "no_deals_found"
    case AlertSent => "alert_sent"
    case CheckedNoAlert => "checked_no_alert"
    case GptError => "gpt_error"
  }

  /** A call the run makes to the outside world, in the order it is made. */
  datatype Event =
    | CallGpt(row: int)                                   // `call_gpt_web`
    | WriteRow(row: int, price: Json, link: Json)         // `update_monitor_row`
    | SendAlert(row: int, deal: map<string, Json>)        // `send_email_alert`
    | AppendRunLog(status: string, count: int, notes: string)  // `append_run_log`

  /** What the model call gives back: the reply text, or an exception. */
  datatype Reply = Answered(text: string) | Raised

  /** The outside world. The call that is event number `p` of the trace gets
      `reply(p)`, succeeds iff `sheetOk(p)` (a Sheets write) or `smtpOk(p)`
      (sending a mail, including the configuration lookups inside it).
      `loads` is `json.loads` (`None` when it raises) and `toFloat` is
      `float` on a string. */
  datatype Env = Env(
    reply: nat -> Reply,
    sheetOk: nat -> bool,
    smtpOk: nat -> bool,
    loads: string -> Option<Json>,
    toFloat: string -> Option<real>)

  /** How the processing of one row ends: with a note, or with an exception
      that escapes the loop (the recovery write in the handler failed). */
  datatype RowOutcome = Finished(tag: Tag) | Aborted

  datatype RowResult = RowResult(events: seq<Event>, outcome: RowOutcome)

  /** All the keys the alert mail reads are present. */
  predicate EmailReady(deal: map<string, Json>)
  {
    forall k :: k in EmailKeys ==> k in deal
  }

  /** What the loop relies on about the processing of row `m` from position
      `pos`: it calls the model first, writes the row second, then only writes
      rows or sends mail, and it ends the run only after a failed blanking
      write, which is its last event. */
  predicate RowShaped(m: Monitor, env: Env, pos: nat, r: RowResult)
  {
    && 2 <= |r.events|
    && r.events[0] == CallGpt(m.rowNum)
    && r.events[1].WriteRow? && r.events[1].row == m.rowNum
    && (forall k :: 1 <= k < |r.events| ==> r.events[k].WriteRow? || r.events[k].SendAlert?)
    && AbortEnds(m, env, pos, r)
  }

  /** A row that ends the run does so after a failed blanking write, which is
      its last event. */
  predicate AbortEnds(m: Monitor, env: Env, pos: nat, r: RowResult)
  {
    r.outcome.Aborted? ==>
      && r.events != []
      && r.events[|r.events| - 1] == WriteRow(m.rowNum, Blank, Blank)
      && !env.sheetOk(pos + |r.events| - 1)
  }

  /** The exception handler after the events `done` (the model call first):
      the row's price and link are blanked (event number `pos + |done|`) and
      the row is noted `gpt_error`; if that write fails too, the exception
      leaves the run. */
  function Recover(m: Monitor, env: Env, pos: nat, done: seq<Event>): (r: RowResult)
    requires |done| <= 3 && done != [] && done[0] == CallGpt(m.rowNum)
    requires forall k :: 1 <= k < |done| ==> done[k].WriteRow? || done[k].SendAlert?
    requires |done| >= 2 ==> done[1].WriteRow? && done[1].row == m.rowNum
    ensures RowShaped(m, env, pos, r) && |r.events| <= 4
    ensures r.outcome.Aborted? || r.outcome == Finished(GptError)
    ensures r.outcome == Finished(GptError) ==>
      r.events[|r.events| - 1] == WriteRow(m.rowNum, Blank, Blank) && env.sheetOk(pos + |r.events| - 1)
  {
    var write := WriteRow(m.rowNum, Blank, Blank);
    RowResult(done + [write], if env.sheetOk(pos + |done|) then Finished(GptError) else Aborted)
  }

  /** The body of the loop for one monitor row, whose first call is event
      number `pos`. Every exception raised inside the `try` is handled by
      `Recover`. */
  function ProcessRow(m: Monitor, env: Env, pos: nat): (r: RowResult)
    ensures RowShaped(m, env, pos, r) && |r.events| <= 4
    ensures r.outcome == Finished(GptError) ==>
      r.events[|r.events| - 1] == WriteRow(m.rowNum, Blank, Blank) && env.sheetOk(pos + |r.events| - 1)
  {
    match env.reply(pos)
    case Raised => Recover(m, env, pos, [CallGpt(m.rowNum)])
    case Answered(raw) => HandleDeals(m, env, pos, ExtractDeals(raw, env.loads))
  }

  /** The `try` body after the model answered with `deals`. */
  function HandleDeals(m: Monitor, env: Env, pos: nat, deals: Json): (r: RowResult)
    ensures RowShaped(m, env, pos, r) && |r.events| <= 4
    ensures r.outcome == Finished(GptError) ==>
      r.events[|r.events| - 1] == WriteRow(m.rowNum, Blank, Blank) && env.sheetOk(pos + |r.events| - 1)
  {
    var call := [CallGpt(m.rowNum)];
    match SelectBest(deals)
    case NoDeals =>
      var written := call + [WriteRow(m.rowNum, Blank, Blank)];
      if env.sheetOk(pos + 1) then RowResult(written, Finished(NoDealsFound))
      else Recover(m, env, pos, written)
    case Raises => Recover(m, env, pos, call)
    case Best(deal) =>
      if LinkKey !in deal then Recover(m, env, pos, call)
      else HandleBest(m, env, pos, deal)
  }

  /** The `try` body from the row update with the best deal on. */
  function HandleBest(m: Monitor, env: Env, pos: nat, deal: map<string, Json>): (r: RowResult)
    requires PriceKey in deal && LinkKey in deal
    ensures RowShaped(m, env, pos, r) && |r.events| <= 4
    ensures r.outcome == Finished(GptError) ==>
      r.events[|r.events| - 1] == WriteRow(m.rowNum, Blank, Blank) && env.sheetOk(pos + |r.events| - 1)
  {
    var price := deal[PriceKey];
    var written := [CallGpt(m.rowNum), WriteRow(m.rowNum, price, deal[LinkKey])];
    if !env.sheetOk(pos + 1) then Recover(m, env, pos, written)
    else
      match AlertDue(price, CeilingOf(m, env.toFloat))
      case None => Recover(m, env, pos, written)
      case Some(false) => RowResult(written, Finished(CheckedNoAlert))
      case Some(true) =>
        if !EmailReady(deal) then Recover(m, env, pos, written)
        else
          var sent := written + [SendAlert(m.rowNum, deal)];
          if env.smtpOk(pos + 2) then RowResult(sent, Finished(AlertSent))
          else Recover(m, env, pos, sent)
  }

  /** The best deal of the reply at `pos`, when the reply is text and a best
      deal with a booking link is selected from it. */
  predicate LinkedBest(env: Env, pos: nat)
  {
    && env.reply(pos).Answered?
    && SelectBest(ExtractDeals(env.reply(pos).text, env.loads)).Best?
    && LinkKey in SelectBest(ExtractDeals(env.reply(pos).text, env.loads)).deal
  }

  function BestAt(env: Env, pos: nat): (d: map<string, Json>)
    requires LinkedBest(env, pos)
    ensures PriceKey in d && LinkKey in d
  {
    SelectBest(ExtractDeals(env.reply(pos).text, env.loads)).deal
  }

  /** The row's price is within its ceiling: both sides are numbers and the
      price is at most the ceiling (9999 when the cell is empty). */
  predicate WithinCeiling(m: Monitor, env: Env, price: Json)
  {
    && Numeric(price).Some?
    && CeilingOf(m, env.toFloat).Some?
    && Numeric(price).value <= CeilingOf(m, env.toFloat).value
  }

  /** Both sides are numbers and the price is above the ceiling. */
  predicate AboveCeiling(m: Monitor, env: Env, price: Json)
  {
    && Numeric(price).Some?
    && CeilingOf(m, env.toFloat).Some?
    && Numeric(price).value > CeilingOf(m, env.toFloat).value
  }

  /** `no_deals_found` exactly when the reply yields no deals (`[]` or any
      other falsy value) and blanking the row succeeds. */
  lemma NoDealsFoundIff(m: Monitor, env: Env, pos: nat)
    ensures ProcessRow(m, env, pos).outcome == Finished(NoDealsFound) <==>
      && env.reply(pos).Answered?
      && !Truthy(ExtractDeals(env.reply(pos).text, env.loads))
      && env.sheetOk(pos + 1)
    ensures ProcessRow(m, env, pos).outcome == Finished(NoDealsFound) ==>
      ProcessRow(m, env, pos).events == [CallGpt(m.rowNum), WriteRow(m.rowNum, Blank, Blank)]
  {
  }

  /** `alert_sent` exactly when the best deal is within the ceiling, the row
      update succeeds and the mail goes out; the row then holds the best
      price and link and the mail carries the best deal. */
  lemma AlertSentIff(m: Monitor, env: Env, pos: nat)
    ensures ProcessRow(m, env, pos).outcome == Finished(AlertSent) <==>
      && LinkedBest(env, pos)
      && env.sheetOk(pos + 1)
      && WithinCeiling(m, env, BestAt(env, pos)[PriceKey])
      && EmailReady(BestAt(env, pos))
      && env.smtpOk(pos + 2)
    ensures ProcessRow(m, env, pos).outcome == Finished(AlertSent) ==>
      var d := BestAt(env, pos);
      ProcessRow(m, env, pos).events ==
        [CallGpt(m.rowNum), WriteRow(m.rowNum, d[PriceKey], d[LinkKey]), SendAlert(m.rowNum, d)]
  {
  }

  /** `checked_no_alert` exactly when the best deal is above the ceiling and
      the row update succeeds; no mail is sent. */
  lemma CheckedNoAlertIff(m: Monitor, env: Env, pos: nat)
    ensures ProcessRow(m, env, pos).outcome == Finished(CheckedNoAlert) <==>
      && LinkedBest(env, pos)
      && env.sheetOk(pos + 1)
      && AboveCeiling(m, env, BestAt(env, pos)[PriceKey])
    ensures ProcessRow(m, env, pos).outcome == Finished(CheckedNoAlert) ==>
      var d := BestAt(env, pos);
      ProcessRow(m, env, pos).events == [CallGpt(m.rowNum), WriteRow(m.rowNum, d[PriceKey], d[LinkKey])]
  {
  }

  /** Some event of `events` sends a mail. */
  predicate HasAlert(events: seq<Event>)
  {
    exists k :: 0 <= k < |events| && events[k].SendAlert?
  }

  /** The exception handler sends no mail of its own. */
  lemma RecoverAlert(m: Monitor, env: Env, pos: nat, done: seq<Event>)
    requires |done| <= 3 && done != [] && done[0] == CallGpt(m.rowNum)
    requires forall k :: 1 <= k < |done| ==> done[k].WriteRow? || done[k].SendAlert?
    requires |done| >= 2 ==> done[1].WriteRow? && done[1].row == m.rowNum
    ensures HasAlert(Recover(m, env, pos, done).events) <==> HasAlert(done)
  {
    var ev := Recover(m, env, pos, done).events;
    if HasAlert(ev) {
      var k :| 0 <= k < |ev| && ev[k].SendAlert?;
      assert k < |done| && done[k] == ev[k];
    }
    if HasAlert(done) {
      var k :| 0 <= k < |done| && done[k].SendAlert?;
      assert ev[k] == done[k];
    }
  }

  /** From the row update on, a mail is attempted exactly when the update
      succeeds, the price is within the ceiling and the deal has every key
      the mail reads. */
  lemma HandleBestAlert(m: Monitor, env: Env, pos: nat, deal: map<string, Json>)
    requires PriceKey in deal && LinkKey in deal
    ensures HasAlert(HandleBest(m, env, pos, deal).events) <==>
      env.sheetOk(pos + 1) && WithinCeiling(m, env, deal[PriceKey]) && EmailReady(deal)
  {
    var written := [CallGpt(m.rowNum), WriteRow(m.rowNum, deal[PriceKey], deal[LinkKey])];
    assert !HasAlert(written);
    RecoverAlert(m, env, pos, written);
    if env.sheetOk(pos + 1) && WithinCeiling(m, env, deal[PriceKey]) && EmailReady(deal) {
      var sent := written + [SendAlert(m.rowNum, deal)];
      assert sent[2].SendAlert?;
      assert HasAlert(sent);
      RecoverAlert(m, env, pos, sent);
    }
  }

  /** A mail is attempted exactly when the best deal has a link, is
      written to the row, is within the ceiling and has every key the mail
      reads. */
  lemma AlertAttemptIff(m: Monitor, env: Env, pos: nat)
    ensures HasAlert(ProcessRow(m, env, pos).events) <==>
      && LinkedBest(env, pos)
      && env.sheetOk(pos + 1)
      && WithinCeiling(m, env, BestAt(env, pos)[PriceKey])
      && EmailReady(BestAt(env, pos))
  {
    var call := [CallGpt(m.rowNum)];
    assert !HasAlert(call);
    RecoverAlert(m, env, pos, call);
    if env.reply(pos).Answered? {
      var deals := ExtractDeals(env.reply(pos).text, env.loads);
      var written := call + [WriteRow(m.rowNum, Blank, Blank)];
      assert !HasAlert(written);
      RecoverAlert(m, env, pos, written);
      var sel := SelectBest(deals);
      if sel.Best? && LinkKey in sel.deal {
        HandleBestAlert(m, env, pos, sel.deal);
      }
    }
  }

  /** The mail carries the best deal, after the row was updated with it. */
  lemma AlertCarriesBest(m: Monitor, env: Env, pos: nat)
    requires LinkedBest(env, pos) && env.sheetOk(pos + 1)
    requires WithinCeiling(m, env, BestAt(env, pos)[PriceKey]) && EmailReady(BestAt(env, pos))
    ensures var d := BestAt(env, pos);
      ProcessRow(m, env, pos).events[..3] ==
        [CallGpt(m.rowNum), WriteRow(m.rowNum, d[PriceKey], d[LinkKey]), SendAlert(m.rowNum, d)]
  {
  }

  /** The processing of one row, as a function of the row and the position
      of its first call. */
  type RowStep = (Monitor, nat) -> RowResult

  function StepOf(env: Env): RowStep
  {
    (m: Monitor, p: nat) => ProcessRow(m, env, p)
  }

  ghost predicate StepShaped(env: Env, step: RowStep)
  {
    forall m, p :: RowShaped(m, env, p, step(m, p))
  }

  ghost predicate StepAbortEnds(env: Env, step: RowStep)
  {
    forall m, p :: AbortEnds(m, env, p, step(m, p))
  }

  lemma ShapedAbortEnds(env: Env, step: RowStep)
    requires StepShaped(env, step)
    ensures StepAbortEnds(env, step)
  {
    forall m, p ensures AbortEnds(m, env, p, step(m, p)) {
      assert RowShaped(m, env, p, step(m, p));
    }
  }

  lemma ProcessRowShaped(env: Env)
    ensures StepShaped(env, StepOf(env))
  {
    forall m, p ensures RowShaped(m, env, p, StepOf(env)(m, p)) {
      assert StepOf(env)(m, p) == ProcessRow(m, env, p);
    }
  }

  /** The rows that the loop has run, as events and notes, and whether an
      exception left the loop. */
  datatype RowsResult = RowsResult(events: seq<Event>, tags: seq<Tag>, aborted: bool)

  /** The loop over `ms`, whose first call is event number `pos`. */
  function RunRows(ms: seq<Monitor>, step: RowStep, pos: nat): RowsResult
    decreases |ms|
  {
    if ms == [] then RowsResult([], [], false)
    else
      var r := step(ms[0], pos);
      match r.outcome
      case Aborted => RowsResult(r.events, [], true)
      case Finished(t) =>
        var rest := RunRows(ms[1..], step, pos + |r.events|);
        RowsResult(r.events + rest.events, [t] + rest.tags, rest.aborted)
  }

  /** Rows already done, followed by the rest of the loop. */
  function Then(events: seq<Event>, tags: seq<Tag>, rest: RowsResult): RowsResult
  {
    RowsResult(events + rest.events, tags + rest.tags, rest.aborted)
  }

  lemma ThenThen(a: seq<Event>, b: seq<Event>, ta: seq<Tag>, tb: seq<Tag>, rest: RowsResult)
    ensures Then(a, ta, Then(b, tb, rest)) == Then(a + b, ta + tb, rest)
  {
    assert a + (b + rest.events) == (a + b) + rest.events;
    assert ta + (tb + rest.tags) == (ta + tb) + rest.tags;
  }

  /** The row numbers the model is asked about, in order. */
  function CalledRows(events: seq<Event>): seq<int>
  {
    if events == [] then []
    else (if events[0].CallGpt? then [events[0].row] else []) + CalledRows(events[1..])
  }

  /** The rows written at least once. */
  function WrittenRows(events: seq<Event>): set<int>
  {
    if events == [] then {}
    else (if events[0].WriteRow? then {events[0].row} else {}) + WrittenRows(events[1..])
  }

  function RowNums(ms: seq<Monitor>): (rs: seq<int>)
    ensures |rs| == |ms| && forall k :: 0 <= k < |ms| ==> rs[k] == ms[k].rowNum
  {
    if ms == [] then [] else [ms[0].rowNum] + RowNums(ms[1..])
  }

  lemma {:induction false} CalledRowsAppend(a: seq<Event>, b: seq<Event>)
    ensures CalledRows(a + b) == CalledRows(a) + CalledRows(b)
  {
    if a != [] {
      assert (a + b)[1..] == a[1..] + b;
      CalledRowsAppend(a[1..], b);
    } else {
      assert a + b == b;
    }
  }

  lemma {:induction false} WrittenRowsAppend(a: seq<Event>, b: seq<Event>)
    ensures WrittenRows(a + b) == WrittenRows(a) + WrittenRows(b)
  {
    if a != [] {
      assert (a + b)[1..] == a[1..] + b;
      WrittenRowsAppend(a[1..], b);
    } else {
      assert a + b == b;
    }
  }

  /** The events of one row name the model call for that row exactly once,
      and write that row. */
  lemma RowEventsRows(m: Monitor, env: Env, pos: nat, r: RowResult)
    requires RowShaped(m, env, pos, r)
    ensures CalledRows(r.events) == [m.rowNum]
    ensures m.rowNum in WrittenRows(r.events)
  {
    var tail := r.events[1..];
    assert r.events == [r.events[0]] + tail;
    NoCalls(tail);
    assert r.events[1..] == [r.events[1]] + r.events[2..];
  }

  lemma {:induction false} NoCalls(events: seq<Event>)
    requires forall k :: 0 <= k < |events| ==> !events[k].CallGpt?
    ensures CalledRows(events) == []
  {
    if events != [] {
      NoCalls(events[1..]);
    }
  }

  /** The loop runs the rows in order: every row before an abort gets one
      note, and a completed loop has one note per row. */
  lemma {:induction false} RunRowsTags(ms: seq<Monitor>, step: RowStep, pos: nat)
    ensures !RunRows(ms, step, pos).aborted ==> |RunRows(ms, step, pos).tags| == |ms|
    ensures RunRows(ms, step, pos).aborted ==> |RunRows(ms, step, pos).tags| < |ms|
    decreases |ms|
  {
    if ms != [] {
      RunRowsTags(ms[1..], step, pos + |step(ms[0], pos).events|);
    }
  }

  /** The `k`-th note is the outcome of monitor `k`, processed right after
      the events of the monitors before it. */
  lemma {:induction false} RunRowsTagOf(ms: seq<Monitor>, step: RowStep, pos: nat, k: nat)
    requires k < |RunRows(ms, step, pos).tags|
    ensures k < |ms|
    ensures var r := step(ms[k], pos + |RunRows(ms[..k], step, pos).events|);
      r.outcome.Finished? && RunRows(ms, step, pos).tags[k] == r.outcome.tag
    decreases |ms|
  {
    var r := step(ms[0], pos);
    assert r.outcome.Finished?;
    RunRowsNext(ms, step, pos, r, ms[1..]);
    if k == 0 {
      assert ms[..0] == [];
    } else {
      RunRowsTagOf(ms[1..], step, pos + |r.events|, k - 1);
      assert ms[..k][1..] == ms[1..][..k - 1];
      RunRowsNext(ms[..k], step, pos, r, ms[1..][..k - 1]);
      assert ms[1..][k - 1] == ms[k];
    }
  }

  /** The number of rows the loop reached: all of them, or up to and
      including the one whose exception ended the run. */
  function Reached(rr: RowsResult): nat
  {
    |rr.tags| + if rr.aborted then 1 else 0
  }

  /** The model is asked about exactly the reached rows, in order. */
  lemma {:induction false} RunRowsCalls(ms: seq<Monitor>, env: Env, step: RowStep, pos: nat)
    requires StepShaped(env, step)
    ensures Reached(RunRows(ms, step, pos)) <= |ms|
    ensures CalledRows(RunRows(ms, step, pos).events) == RowNums(ms[..Reached(RunRows(ms, step, pos))])
    decreases |ms|
  {
    if ms != [] {
      var r := step(ms[0], pos);
      assert RowShaped(ms[0], env, pos, r);
      RowEventsRows(ms[0], env, pos, r);
      var rr := RunRows(ms, step, pos);
      if r.outcome.Aborted? {
        assert rr.events == r.events && Reached(rr) == 1;
        assert RowNums(ms[..1]) == [ms[0].rowNum];
      } else {
        var rest := RunRows(ms[1..], step, pos + |r.events|);
        RunRowsCalls(ms[1..], env, step, pos + |r.events|);
        assert rr.events == r.events + rest.events && Reached(rr) == 1 + Reached(rest);
        CalledRowsAppend(r.events, rest.events);
        var front := RowNums(ms[..Reached(rr)]);
        var back := [ms[0].rowNum] + RowNums(ms[1..][..Reached(rest)]);
        assert |front| == |back|;
        forall k | 0 <= k < |front| ensures front[k] == back[k] {
          if k > 0 {
            assert ms[..Reached(rr)][k] == ms[1..][..Reached(rest)][k - 1];
          }
        }
      }
    }
  }

  /** Every reached row is written. */
  lemma {:induction false} RunRowsWrites(ms: seq<Monitor>, env: Env, step: RowStep, pos: nat)
    requires StepShaped(env, step)
    ensures forall k :: 0 <= k < Reached(RunRows(ms, step, pos)) && k < |ms| ==>
      ms[k].rowNum in WrittenRows(RunRows(ms, step, pos).events)
    decreases |ms|
  {
    if ms != [] {
      var r := step(ms[0], pos);
      assert RowShaped(ms[0], env, pos, r);
      RowEventsRows(ms[0], env, pos, r);
      if r.outcome.Finished? {
        var rest := RunRows(ms[1..], step, pos + |r.events|);
        RunRowsWrites(ms[1..], env, step, pos + |r.events|);
        WrittenRowsAppend(r.events, rest.events);
        forall k | 1 <= k < 1 + Reached(rest) && k < |ms|
          ensures ms[k].rowNum in WrittenRows(r.events + rest.events)
        {
          assert ms[k] == ms[1..][k - 1];
        }
      }
    }
  }

  /** The loop never appends to the run log. */
  lemma {:induction false} RunRowsNoRunLog(ms: seq<Monitor>, env: Env, step: RowStep, pos: nat)
    requires StepShaped(env, step)
    ensures forall k :: 0 <= k < |RunRows(ms, step, pos).events| ==> !RunRows(ms, step, pos).events[k].AppendRunLog?
    decreases |ms|
  {
    if ms != [] {
      var r := step(ms[0], pos);
      assert RowShaped(ms[0], env, pos, r);
      if r.outcome.Finished? {
        var rest := RunRows(ms[1..], step, pos + |r.events|);
        RunRowsNoRunLog(ms[1..], env, step, pos + |r.events|);
        var ev := r.events + rest.events;
        forall k | 0 <= k < |ev| ensures !ev[k].AppendRunLog? {
          if k >= |r.events| {
            assert ev[k] == rest.events[k - |r.events|];
          }
        }
      }
    }
  }

  /** The loop stops early only when a blanking write fails, which is then
      its last event. */
  lemma {:induction false} RunRowsAbortTail(ms: seq<Monitor>, env: Env, step: RowStep, pos: nat)
    requires StepAbortEnds(env, step)
    ensures RunRows(ms, step, pos).aborted ==>
      var ev := RunRows(ms, step, pos).events;
      && ev != []
      && ev[|ev| - 1].WriteRow? && ev[|ev| - 1].price == Blank && ev[|ev| - 1].link == Blank
      && !env.sheetOk(pos + |ev| - 1)
    decreases |ms|
  {
    if ms != [] {
      var r := step(ms[0], pos);
      assert AbortEnds(ms[0], env, pos, r);
      if r.outcome.Aborted? {
        RunRowsAbort(ms, step, pos, r);
      } else {
        RunRowsNext(ms, step, pos, r, ms[1..]);
        var rest := RunRows(ms[1..], step, pos + |r.events|);
        RunRowsAbortTail(ms[1..], env, step, pos + |r.events|);
        if rest.aborted {
          var ev := r.events + rest.events;
          assert ev[|ev| - 1] == rest.events[|rest.events| - 1];
        }
      }
    }
  }

  /** When every Sheets write succeeds the loop runs all rows. */
  lemma {:induction false} RunRowsNoAbort(ms: seq<Monitor>, env: Env, step: RowStep, pos: nat)
    requires StepShaped(env, step)
    requires forall p :: env.sheetOk(p)
    ensures !RunRows(ms, step, pos).aborted
  {
    ShapedAbortEnds(env, step);
    RunRowsAbortTail(ms, env, step, pos);
  }

  /** `"; ".join(notes_summary)`. */
  function JoinNotes(tags: seq<Tag>): string
  {
    Join(TagNames(tags), NoteSeparator)
  }

  function TagNames(tags: seq<Tag>): (names: seq<string>)
    ensures |names| == |tags| && forall k :: 0 <= k < |tags| ==> names[k] == TagName(tags[k])
  {
    if tags == [] then [] else [TagName(tags[0])] + TagNames(tags[1..])
  }

  /** Reads a run-log summary back into notes. */
  function ParseNotes(notes: string): seq<Option<Tag>>
  {
    var names := Split(notes, NoteSeparator);
    seq(|names|, k requires 0 <= k < |names| => TagOfName(names[k]))
  }

  function TagOfName(name: string): (t: Option<Tag>)
    ensures t.Some? ==> TagName(t.value) == name
  {
    if name == "no_deals_found" then Some(NoDealsFound)
    else if name == "alert_sent" then Some(AlertSent)
    else if name == "checked_no_alert" then Some(CheckedNoAlert)
    else if name == "gpt_error" then Some(GptError)
    else None
  }

  /** The summary written to the run log lists every note, in order: it
      reads back to the notes of the rows. */
  lemma NotesRoundTrip(tags: seq<Tag>)
    requires tags != []
    ensures |ParseNotes(JoinNotes(tags))| == |tags|
    ensures forall k :: 0 <= k < |tags| ==> ParseNotes(JoinNotes(tags))[k] == Some(tags[k])
  {
    var names := TagNames(tags);
    forall k, i | 0 <= k < |names| && 0 <= i < |names[k]| ensures names[k][i] != NoteSeparator[0] {
      TagNameHasNoSemicolon(tags[k]);
    }
    SplitJoin(names, NoteSeparator);
    forall k | 0 <= k < |tags| ensures ParseNotes(JoinNotes(tags))[k] == Some(tags[k]) {
      TagNameRoundTrip(tags[k]);
    }
  }

  lemma TagNameHasNoSemicolon(t: Tag)
    ensures forall i :: 0 <= i < |TagName(t)| ==> TagName(t)[i] != ';'
  {
  }

  lemma TagNameRoundTrip(t: Tag)
    ensures TagOfName(TagName(t)) == Some(t)
  {
    match t
    case NoDealsFound =>
    case AlertSent => assert TagName(t)[0] != "no_deals_found"[0];
    case CheckedNoAlert =>
      assert TagName(t)[0] != "no_deals_found"[0];
      assert TagName(t)[0] != "alert_sent"[0];
    case GptError =>
      assert TagName(t)[0] != "no_deals_found"[0];
      assert TagName(t)[0] != "alert_sent"[0];
      assert TagName(t)[0] != "checked_no_alert"[0];
  }

  /** How the run ends: normally, or with an exception out of
      `monitor_once`. */
  datatype RunEnd = Completed | Crashed

  datatype Run = Run(events: seq<Event>, end: RunEnd)

  /** `monitor_once` over the active monitors `ms`, with the row body
      `step`. */
  function RunOf(ms: seq<Monitor>, env: Env, step: RowStep): (r: Run)
    ensures ms != [] ==> RunRows(ms, step, 0).events <= r.events
    ensures r.end == Completed ==>
      && r.events != []
      && r.events[|r.events| - 1].AppendRunLog?
      && r.events[|r.events| - 1].count == |ms|
      && env.sheetOk(|r.events| - 1)
  {
    if ms == [] then
      Run([AppendRunLog(NoActiveStatus, 0, NothingToScan)], if env.sheetOk(0) then Completed else Crashed)
    else
      var rr := RunRows(ms, step, 0);
      if rr.aborted then Run(rr.events, Crashed)
      else
        var log := AppendRunLog(CompletedStatus, |ms|, JoinNotes(rr.tags));
        Run(rr.events + [log], if env.sheetOk(|rr.events|) then Completed else Crashed)
  }

  /** `monitor_once` over the active monitors `ms`. */
  function MonitorRunSpec(ms: seq<Monitor>, env: Env): (r: Run)
    ensures RunEndsRight(ms, env, r)
  {
    ProcessRowShaped(env);
    RunOfEnds(ms, env, StepOf(env));
    RunOf(ms, env, StepOf(env))
  }

  /** How a run of `monitor_once` over `ms` may end: it completes exactly
      when its last event is a run-log append that succeeded; otherwise the
      last Sheets write failed, and that write is the run-log append or a
      blanking row write; a completed run logged "nothing to scan" for no
      monitors, and otherwise "completed" with one readable note per monitor
      after every monitor was asked about in order. */
  ghost predicate RunEndsRight(ms: seq<Monitor>, env: Env, r: Run)
  {
    && r.events != []
    && var last := r.events[|r.events| - 1];
    && (r.end == Completed <==> last.AppendRunLog? && env.sheetOk(|r.events| - 1))
    && (r.end == Crashed ==>
          && !env.sheetOk(|r.events| - 1)
          && (last.AppendRunLog? || (last.WriteRow? && last.price == Blank)))
    && (r.end == Completed && ms == [] ==>
          r.events == [AppendRunLog(NoActiveStatus, 0, NothingToScan)])
    && (r.end == Completed && ms != [] ==>
          && last.status == CompletedStatus && last.count == |ms|
          && |ParseNotes(last.notes)| == |ms|
          && (forall k :: 0 <= k < |r.events| - 1 ==> !r.events[k].AppendRunLog?)
          && CalledRows(r.events[..|r.events| - 1]) == RowNums(ms))
  }

  /** Any row body of the right shape makes the run end as described. */
  lemma RunOfEnds(ms: seq<Monitor>, env: Env, step: RowStep)
    requires StepShaped(env, step)
    ensures RunEndsRight(ms, env, RunOf(ms, env, step))
  {
    if ms != [] {
      if RunRows(ms, step, 0).aborted {
        CrashedRun(ms, env, step);
      } else {
        CompletedRun(ms, env, step);
        RunLogNotes(ms, env, step);
        var r := RunOf(ms, env, step);
        assert r.events[..|r.events| - 1] == RunRows(ms, step, 0).events;
      }
    }
  }

  /** With no active monitor the run only logs that there was nothing to
      scan. */
  lemma NoMonitorsRun(env: Env)
    ensures MonitorRunSpec([], env).events == [AppendRunLog(NoActiveStatus, 0, NothingToScan)]
  {
  }

  /** A run whose loop went through all monitors logs, as its last and only
      run-log event, "completed" with the number of monitors and one note per
      monitor; every monitor was asked about once, in order, and written. */
  lemma CompletedRun(ms: seq<Monitor>, env: Env, step: RowStep)
    requires StepShaped(env, step)
    requires ms != [] && !RunRows(ms, step, 0).aborted
    ensures var rr := RunRows(ms, step, 0);
      && |rr.tags| == |ms|
      && RunOf(ms, env, step).events == rr.events + [AppendRunLog(CompletedStatus, |ms|, JoinNotes(rr.tags))]
      && (forall k :: 0 <= k < |rr.events| ==> !rr.events[k].AppendRunLog?)
    ensures var rr := RunRows(ms, step, 0);
      && CalledRows(rr.events) == RowNums(ms)
      && (forall k :: 0 <= k < |ms| ==> ms[k].rowNum in WrittenRows(rr.events))
  {
    RunRowsTags(ms, step, 0);
    RunRowsCalls(ms, env, step, 0);
    RunRowsWrites(ms, env, step, 0);
    RunRowsNoRunLog(ms, env, step, 0);
    assert ms[..|ms|] == ms;
  }

  /** A run whose loop was left by an exception crashes without any run-log
      entry, right after a failed blanking write. */
  lemma CrashedRun(ms: seq<Monitor>, env: Env, step: RowStep)
    requires StepShaped(env, step)
    requires ms != [] && RunRows(ms, step, 0).aborted
    ensures var run := RunOf(ms, env, step);
      && run.end == Crashed
      && run.events == RunRows(ms, step, 0).events
      && (forall k :: 0 <= k < |run.events| ==> !run.events[k].AppendRunLog?)
      && run.events != []
      && run.events[|run.events| - 1].WriteRow? && run.events[|run.events| - 1].price == Blank
      && !env.sheetOk(|run.events| - 1)
  {
    RunRowsNoRunLog(ms, env, step, 0);
    ShapedAbortEnds(env, step);
    RunRowsAbortTail(ms, env, step, 0);
  }

  /** Before a crash the model was asked about the reached monitors, in
      order, and each of them was written. */
  lemma CrashedRunReached(ms: seq<Monitor>, env: Env, step: RowStep)
    requires StepShaped(env, step)
    requires ms != [] && RunRows(ms, step, 0).aborted
    ensures var rr := RunRows(ms, step, 0);
      && 1 <= Reached(rr) <= |ms|
      && CalledRows(rr.events) == RowNums(ms[..Reached(rr)])
      && (forall k :: 0 <= k < Reached(rr) ==> ms[k].rowNum in WrittenRows(rr.events))
  {
    RunRowsCalls(ms, env, step, 0);
    RunRowsWrites(ms, env, step, 0);
  }

  /** The run-log summary of a completed loop reads back to one note per
      monitor. */
  lemma RunLogNotes(ms: seq<Monitor>, env: Env, step: RowStep)
    requires ms != [] && !RunRows(ms, step, 0).aborted
    ensures |RunRows(ms, step, 0).tags| == |ms|
    ensures var log := RunOf(ms, env, step).events[|RunOf(ms, env, step).events| - 1];
      && log.AppendRunLog?
      && |ParseNotes(log.notes)| == |ms|
      && forall k :: 0 <= k < |ms| ==> ParseNotes(log.notes)[k] == Some(RunRows(ms, step, 0).tags[k])
  {
    RunRowsTags(ms, step, 0);
    NotesRoundTrip(RunRows(ms, step, 0).tags);
  }

  /** When every Sheets write succeeds, the run goes through all monitors
      and completes. */
  lemma ReliableSheetsComplete(ms: seq<Monitor>, env: Env, step: RowStep)
    requires StepShaped(env, step)
    requires forall p :: env.sheetOk(p)
    ensures RunOf(ms, env, step).end == Completed
    ensures ms != [] ==> !RunRows(ms, step, 0).aborted
  {
    if ms != [] {
      RunRowsNoAbort(ms, env, step, 0);
    }
  }

  /** One turn of the loop that ends the run. */
  lemma RunRowsAbort(ms: seq<Monitor>, step: RowStep, pos: nat, r: RowResult)
    requires ms != [] && r == step(ms[0], pos) && r.outcome.Aborted?
    ensures RunRows(ms, step, pos) == RowsResult(r.events, [], true)
  {
  }

  /** One turn of the loop that notes the row and goes on. */
  lemma RunRowsNext(ms: seq<Monitor>, step: RowStep, pos: nat, r: RowResult, tail: seq<Monitor>)
    requires ms != [] && r == step(ms[0], pos) && r.outcome.Finished?
    requires tail == ms[1..]
    ensures RunRows(ms, step, pos) == Then(r.events, [r.outcome.tag], RunRows(tail, step, pos + |r.events|))
  {
  }

  /** The `for row in monitors` loop with the row body `step`: the events,
      the notes, and whether an exception left the loop. */
  method ScanMonitors(monitors: seq<Monitor>, step: RowStep) returns (trace: seq<Event>, notes: seq<Tag>, aborted: bool)
    ensures RowsResult(trace, notes, aborted) == RunRows(monitors, step, 0)
  {
    trace, notes, aborted := [], [], false;
    var i := 0;
    while i < |monitors|
      invariant 0 <= i <= |monitors|
      invariant RunRows(monitors, step, 0) == Then(trace, notes, RunRows(monitors[i..], step, |trace|))
    {
      var r := step(monitors[i], |trace|);
      assert monitors[i..][0] == monitors[i];
      if r.outcome.Aborted? {
        RunRowsAbort(monitors[i..], step, |trace|, r);
        trace, notes, aborted := trace + r.events, notes, true;
        return;
      }
      assert monitors[i..][1..] == monitors[i + 1..];
      ghost var rest := RunRows(monitors[i + 1..], step, |trace| + |r.events|);
      RunRowsNext(monitors[i..], step, |trace|, r, monitors[i + 1..]);
      ThenThen(trace, r.events, notes, [r.outcome.tag], rest);
      trace := trace + r.events;
      notes := notes + [r.outcome.tag];
      i := i + 1;
    }
    assert monitors[i..] == [];
  }

  /** `monitor_once` after the Sheets read: `values` is the Monitors grid. */
  method MonitorOnce(values: seq<seq<string>>, env: Env) returns (run: Run)
    ensures run == MonitorRunSpec(ActiveMonitors(values), env)
  {
    var monitors := ReadMonitors(values);
    if monitors == [] {
      var log := AppendRunLog(NoActiveStatus, 0, NothingToScan);
      return Run([log], if env.sheetOk(0) then Completed else Crashed);
    }
    var trace, notes, aborted := ScanMonitors(monitors, StepOf(env));
    if aborted {
      return Run(trace, Crashed);
    }
    var log := AppendRunLog(CompletedStatus, |monitors|, JoinNotes(notes));
    run := Run(trace + [log], if env.sheetOk(|trace|) then Completed else Crashed);
  }
}
