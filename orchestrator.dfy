/** The orchestrator's coordination logic: gathering every sportsbook's quotes
    into one insertion-ordered dictionary, and driving the two browser agents
    of an opportunity through the open, fill, verify, place and clear phases.
    A browser agent is abstract: each call it receives is recorded in a trace
    of `AgentCall`s, and what the call returns (a truthy or falsy value, or an
    exception) is an input. Each phase submits the book-1 call and then the
    book-2 call to a thread pool; the order in which the two futures complete
    is an input too, and the proved traces do not depend on it. */
module Orchestrator {
  import opened Models

  // ---------------------------------------------------------------------
  // Aggregating the quotes of every fetcher
  // ---------------------------------------------------------------------

  /** What one fetcher's `fetch_odds` future yields. */
  datatype FetchOutcome = Fetched(odds: seq<GameOdds>) | FetchFailed

  /** The dictionary entry a completed fetch writes: a fetch that raised is
      logged and recorded as an empty list. */
  function Entry(f: (Sportsbook, FetchOutcome)): (e: (Sportsbook, seq<GameOdds>))
    ensures e.0 == f.0
    ensures f.1.FetchFailed? ==> e.1 == []
    ensures f.1.Fetched? ==> e.1 == f.1.odds
  {
    match f.1
    case Fetched(odds) => (f.0, odds)
    case FetchFailed => (f.0, [])
  }

  /** The configured fetchers form a dictionary keyed by sportsbook. */
  predicate DistinctBooks<V>(entries: seq<(Sportsbook, V)>)
  {
    forall i, j :: 0 <= i < j < |entries| ==> entries[i].0 != entries[j].0
  }

  /** `order` lists every index below `n` exactly once: the order in which
      the fetch futures complete. */
  predicate IsPermutation(order: seq<nat>, n: nat)
  {
    && |order| == n
    && (forall k :: 0 <= k < |order| ==> order[k] < n)
    && (forall k, k' :: 0 <= k < k' < |order| ==> order[k] != order[k'])
    && (forall i :: 0 <= i < n ==> i in order)
  }

  /** Fetch every configured sportsbook's quotes. The thread pool is sized by
      the number of fetchers, so with none configured it refuses to start and
      raises ValueError. Otherwise each completed fetch writes one entry, in
      completion order `order`; the result has exactly one entry per
      configured sportsbook, holding its list, or `[]` if its fetch raised. */
  method FetchAllOdds(fetchers: seq<(Sportsbook, FetchOutcome)>, order: seq<nat>)
    returns (r: Result<seq<(Sportsbook, seq<GameOdds>)>>)
    requires DistinctBooks(fetchers)
    requires IsPermutation(order, |fetchers|)
    ensures r.Raised? <==> |fetchers| == 0
    ensures r.Raised? ==> r.exception == ValueError
    ensures r.Ok? ==> |r.value| == |fetchers| && DistinctBooks(r.value)
    ensures r.Ok? ==> forall i :: 0 <= i < |fetchers| ==>
      exists k :: 0 <= k < |r.value| && r.value[k] == Entry(fetchers[i])
    ensures r.Ok? ==> forall k :: 0 <= k < |r.value| ==> r.value[k] == Entry(fetchers[order[k]])
  {
    if |fetchers| == 0 {
      return Raised(ValueError);
    }
    var allOdds: seq<(Sportsbook, seq<GameOdds>)> := [];
    for k := 0 to |order|
      invariant |allOdds| == k
      invariant forall j :: 0 <= j < k ==> allOdds[j] == Entry(fetchers[order[j]])
    {
      var (book, outcome) := fetchers[order[k]];
      match outcome {
        case Fetched(odds) =>
          allOdds := allOdds + [(book, odds)];
        case FetchFailed =>
          allOdds := allOdds + [(book, [])];
      }
    }
    r := Ok(allOdds);
    forall i | 0 <= i < |fetchers|
      ensures exists k :: 0 <= k < |r.value| && r.value[k] == Entry(fetchers[i])
    {
      assert i in order;
      var k :| 0 <= k < |order| && order[k] == i;
      assert r.value[k] == Entry(fetchers[i]);
    }
    forall j, j' | 0 <= j < j' < |allOdds|
      ensures allOdds[j].0 != allOdds[j'].0
    {
      assert allOdds[j].0 == fetchers[order[j]].0 && allOdds[j'].0 == fetchers[order[j']].0;
      if order[j] < order[j'] {
      } else {
        assert order[j'] < order[j];
      }
    }
    assert forall i :: 0 <= i < |fetchers| ==> exists k :: 0 <= k < |r.value| && r.value[k] == Entry(fetchers[i]);
  }

  // ---------------------------------------------------------------------
  // Browser agents and the trace of their calls
  // ---------------------------------------------------------------------

  /** What a browser call does: return a value (truthy or falsy; the shipped
      browsers return `None`, which is falsy) or raise. */
  datatype CallOutcome = Returned(truthy: bool) | Threw

  /** The outcome of each call the coordinator makes on one leg's browser. */
  datatype LegScript = LegScript(
    open: CallOutcome,
    fill: CallOutcome,
    verify: CallOutcome,
    place: CallOutcome,
    clear: CallOutcome)

  datatype Action =
    | OpenUrl(url: string)
    | FillBetslip(amount: real)
    | VerifyOdds(odds: int)
    | PlaceBet
    | ClearBetslip

  /** One call on the browser agent of `book`. */
  datatype AgentCall = AgentCall(book: Sportsbook, action: Action)

  /** Which leg's future completes first, in the fill and the verify phase
      (the only phases whose results are inspected). */
  datatype Completion = Completion(fillLeg2First: bool, verifyLeg2First: bool)

  /** Only a falsy return marks a phase as failed; an exception is logged and
      otherwise ignored. */
  predicate Falsy(o: CallOutcome)
  {
    o == Returned(false)
  }

  /** The two results of a phase, in the order their futures complete. */
  function InCompletionOrder(leg1: CallOutcome, leg2: CallOutcome, leg2First: bool): (r: seq<CallOutcome>)
    ensures multiset(r) == multiset{leg1, leg2}
  {
    if leg2First then [leg2, leg1] else [leg1, leg2]
  }

  /** Fold the results of a phase into the `any_failed` flag: it becomes set
      when some result is falsy and is never cleared. */
  method CollectFailures(anyFailed: bool, results: seq<CallOutcome>) returns (failed: bool)
    ensures failed <==> anyFailed || exists k :: 0 <= k < |results| && Falsy(results[k])
  {
    failed := anyFailed;
    for k := 0 to |results|
      invariant failed <==> anyFailed || exists j :: 0 <= j < k && Falsy(results[j])
    {
      match results[k] {
        case Returned(truthy) =>
          if !truthy {
            failed := true;
          }
        case Threw =>
      }
    }
  }

  /** A phase fails exactly when either leg's result is falsy, whichever
      future completes first. */
  lemma PhaseFails(leg1: CallOutcome, leg2: CallOutcome, leg2First: bool)
    ensures (exists k :: 0 <= k < 2 && Falsy(InCompletionOrder(leg1, leg2, leg2First)[k])) <==> Falsy(leg1) || Falsy(leg2)
  {
    var r := InCompletionOrder(leg1, leg2, leg2First);
    if Falsy(leg1) || Falsy(leg2) {
      assert Falsy(r[0]) || Falsy(r[1]);
    }
  }

  /** One phase: the book-1 call, then the book-2 call. */
  function Both(book1: Sportsbook, a1: Action, book2: Sportsbook, a2: Action): seq<AgentCall>
  {
    [AgentCall(book1, a1), AgentCall(book2, a2)]
  }

  /** Clear the betslip of both legs; the outcomes are only logged. */
  method ClearBetslips(book1: Sportsbook, book2: Sportsbook) returns (calls: seq<AgentCall>)
    ensures |calls| == 2 && forall k :: 0 <= k < 2 ==> calls[k].action == ClearBetslip
    ensures calls[0].book == book1 && calls[1].book == book2
  {
    calls := Both(book1, ClearBetslip, book2, ClearBetslip);
  }

  /** Reference definition of the calls made for one opportunity, given
      the set of sportsbooks that have a browser and what every call
      returns. It takes no completion order. */
  function Protocol(browsers: set<Sportsbook>, opp: ArbitrageOpportunity, s1: LegScript, s2: LegScript): seq<AgentCall>
  {
    if opp.book1 !in browsers || opp.book2 !in browsers then []
    else
      var openCalls := Both(opp.book1, OpenUrl(opp.book1Url), opp.book2, OpenUrl(opp.book2Url));
      var filled := openCalls + Both(opp.book1, FillBetslip(opp.bet1Amount), opp.book2, FillBetslip(opp.bet2Amount));
      var cleared := Both(opp.book1, ClearBetslip, opp.book2, ClearBetslip);
      if Falsy(s1.fill) || Falsy(s2.fill) then filled + cleared
      else
        var verified := filled + Both(opp.book1, VerifyOdds(opp.book1Odds), opp.book2, VerifyOdds(opp.book2Odds));
        if Falsy(s1.verify) || Falsy(s2.verify) then verified + cleared
        else verified + Both(opp.book1, PlaceBet, opp.book2, PlaceBet) + cleared
  }

  /** Drive both browsers through one opportunity. A sportsbook without a
      browser raises KeyError before any call, which is caught and logged.
      The calls made are those of `Protocol`, whatever order the futures of
      each phase complete in. */
  method ExecuteBrowserActions(browsers: set<Sportsbook>, opp: ArbitrageOpportunity,
                               s1: LegScript, s2: LegScript, completion: Completion)
    returns (calls: seq<AgentCall>)
    ensures calls == Protocol(browsers, opp, s1, s2)
  {
    if opp.book1 !in browsers || opp.book2 !in browsers {
      return [];
    }
    // Open both pages; failures are only logged.
    calls := Both(opp.book1, OpenUrl(opp.book1Url), opp.book2, OpenUrl(opp.book2Url));
    // Fill both betslips.
    calls := calls + Both(opp.book1, FillBetslip(opp.bet1Amount), opp.book2, FillBetslip(opp.bet2Amount));
    var anyFailed := CollectFailures(false, InCompletionOrder(s1.fill, s2.fill, completion.fillLeg2First));
    PhaseFails(s1.fill, s2.fill, completion.fillLeg2First);
    if anyFailed {
      var clears := ClearBetslips(opp.book1, opp.book2);
      calls := calls + clears;
      return;
    }
    // Verify both prices.
    calls := calls + Both(opp.book1, VerifyOdds(opp.book1Odds), opp.book2, VerifyOdds(opp.book2Odds));
    anyFailed := CollectFailures(anyFailed, InCompletionOrder(s1.verify, s2.verify, completion.verifyLeg2First));
    PhaseFails(s1.verify, s2.verify, completion.verifyLeg2First);
    if anyFailed {
      var clears := ClearBetslips(opp.book1, opp.book2);
      calls := calls + clears;
      return;
    }
    // Place both bets; their results are only logged.
    calls := calls + Both(opp.book1, PlaceBet, opp.book2, PlaceBet);
    var clears := ClearBetslips(opp.book1, opp.book2);
    calls := calls + clears;
  }

  /** Number of calls in `calls` that perform `a`, on any book. */
  function Occurrences(calls: seq<AgentCall>, a: Action): nat
  {
    if |calls| == 0 then 0
    else (if calls[0].action == a then 1 else 0) + Occurrences(calls[1..], a)
  }

  /** An action missing from two call lists is missing from their
      concatenation. */
  lemma NotCalledAppend(xs: seq<AgentCall>, ys: seq<AgentCall>, a: Action)
    requires !Calls(xs, a) && !Calls(ys, a)
    ensures !Calls(xs + ys, a)
  {
    forall k | 0 <= k < |xs + ys|
      ensures (xs + ys)[k].action != a
    {
      if k >= |xs| {
        assert (xs + ys)[k] == ys[k - |xs|];
      } else {
        assert (xs + ys)[k] == xs[k];
      }
    }
  }

  lemma {:induction false} OccurrencesAppend(xs: seq<AgentCall>, ys: seq<AgentCall>, a: Action)
    ensures Occurrences(xs + ys, a) == Occurrences(xs, a) + Occurrences(ys, a)
  {
    if |xs| > 0 {
      assert (xs + ys)[1..] == xs[1..] + ys;
      OccurrencesAppend(xs[1..], ys, a);
    } else {
      assert xs + ys == ys;
    }
  }

  lemma OccurrencesAbsent(calls: seq<AgentCall>, a: Action)
    ensures Occurrences(calls, a) == 0 <==> forall k :: 0 <= k < |calls| ==> calls[k].action != a
  {
    if |calls| > 0 {
      OccurrencesAbsent(calls[1..], a);
      assert forall k :: 1 <= k < |calls| ==> calls[k] == calls[1..][k - 1];
    }
  }

  predicate Calls(calls: seq<AgentCall>, a: Action)
  {
    exists k :: 0 <= k < |calls| && calls[k].action == a
  }

  predicate Verifies(calls: seq<AgentCall>)
  {
    exists k :: 0 <= k < |calls| && calls[k].action.VerifyOdds?
  }

  /** Without a browser for either book, no agent is called at all. */
  lemma MissingBrowserCallsNothing(browsers: set<Sportsbook>, opp: ArbitrageOpportunity, s1: LegScript, s2: LegScript)
    requires opp.book1 !in browsers || opp.book2 !in browsers
    ensures Protocol(browsers, opp, s1, s2) == []
  {
  }

  /** The open phase never gates: both pages are opened and both betslips
      filled, whatever `open_url` returned or raised. */
  lemma OpenNeverGates(browsers: set<Sportsbook>, opp: ArbitrageOpportunity, s1: LegScript, s2: LegScript)
    requires opp.book1 in browsers && opp.book2 in browsers
    ensures Protocol(browsers, opp, s1, s2)[..4] ==
      [AgentCall(opp.book1, OpenUrl(opp.book1Url)), AgentCall(opp.book2, OpenUrl(opp.book2Url)),
       AgentCall(opp.book1, FillBetslip(opp.bet1Amount)), AgentCall(opp.book2, FillBetslip(opp.bet2Amount))]
    ensures forall o1, o2 :: Protocol(browsers, opp, s1.(open := o1), s2.(open := o2)) == Protocol(browsers, opp, s1, s2)
  {
  }

  /** A falsy fill on either leg rolls back: both legs are cleared, and no
      price is verified and no bet placed on either leg. */
  lemma FillFailureRollsBack(browsers: set<Sportsbook>, opp: ArbitrageOpportunity, s1: LegScript, s2: LegScript)
    requires opp.book1 in browsers && opp.book2 in browsers
    requires Falsy(s1.fill) || Falsy(s2.fill)
    ensures var calls := Protocol(browsers, opp, s1, s2);
      && |calls| == 6
      && calls[4..] == Both(opp.book1, ClearBetslip, opp.book2, ClearBetslip)
      && !Verifies(calls) && !Calls(calls, PlaceBet)
  {
  }

  /** Fills that are not falsy followed by a falsy verify on either leg roll
      back: both legs are cleared and no bet is placed. */
  lemma VerifyFailureRollsBack(browsers: set<Sportsbook>, opp: ArbitrageOpportunity, s1: LegScript, s2: LegScript)
    requires opp.book1 in browsers && opp.book2 in browsers
    requires !Falsy(s1.fill) && !Falsy(s2.fill)
    requires Falsy(s1.verify) || Falsy(s2.verify)
    ensures var calls := Protocol(browsers, opp, s1, s2);
      && |calls| == 8
      && calls[4..6] == Both(opp.book1, VerifyOdds(opp.book1Odds), opp.book2, VerifyOdds(opp.book2Odds))
      && calls[6..] == Both(opp.book1, ClearBetslip, opp.book2, ClearBetslip)
      && !Calls(calls, PlaceBet)
  {
  }

  /** When no fill and no verify is falsy, both bets are placed, whatever
      `place_bet` returns, and then both legs are cleared. */
  lemma SuccessPlacesBoth(browsers: set<Sportsbook>, opp: ArbitrageOpportunity, s1: LegScript, s2: LegScript)
    requires opp.book1 in browsers && opp.book2 in browsers
    requires !Falsy(s1.fill) && !Falsy(s2.fill) && !Falsy(s1.verify) && !Falsy(s2.verify)
    ensures var calls := Protocol(browsers, opp, s1, s2);
      && |calls| == 10
      && calls[6..] == Both(opp.book1, PlaceBet, opp.book2, PlaceBet) + Both(opp.book1, ClearBetslip, opp.book2, ClearBetslip)
  {
  }

  /** A bet is placed only if no fill and no verify returned a falsy value;
      together with `SuccessPlacesBoth`, an if-and-only-if. */
  lemma {:induction false} PlaceOnlyAfterChecks(browsers: set<Sportsbook>, opp: ArbitrageOpportunity, s1: LegScript, s2: LegScript)
    requires Calls(Protocol(browsers, opp, s1, s2), PlaceBet)
    ensures opp.book1 in browsers && opp.book2 in browsers
    ensures !Falsy(s1.fill) && !Falsy(s2.fill) && !Falsy(s1.verify) && !Falsy(s2.verify)
  {
    if opp.book1 !in browsers || opp.book2 !in browsers {
      assert false;
    } else if Falsy(s1.fill) || Falsy(s2.fill) {
      FillFailureRollsBack(browsers, opp, s1, s2);
      assert false;
    } else if Falsy(s1.verify) || Falsy(s2.verify) {
      VerifyFailureRollsBack(browsers, opp, s1, s2);
      assert false;
    }
  }

  /** An exception from a fill or a verify does not gate: the calls are those
      made had the call returned a truthy value. */
  lemma ExceptionsDoNotGate(browsers: set<Sportsbook>, opp: ArbitrageOpportunity, s1: LegScript, s2: LegScript)
    ensures s1.fill == Threw ==> Protocol(browsers, opp, s1, s2) == Protocol(browsers, opp, s1.(fill := Returned(true)), s2)
    ensures s2.fill == Threw ==> Protocol(browsers, opp, s1, s2) == Protocol(browsers, opp, s1, s2.(fill := Returned(true)))
    ensures s1.verify == Threw ==> Protocol(browsers, opp, s1, s2) == Protocol(browsers, opp, s1.(verify := Returned(true)), s2)
    ensures s2.verify == Threw ==> Protocol(browsers, opp, s1, s2) == Protocol(browsers, opp, s1, s2.(verify := Returned(true)))
  {
  }

  /** Once both browsers exist, every path ends with exactly one clearing
      of both betslips: two `clear_betslip` calls, the last two calls. */
  lemma {:induction false} ExactlyTwoClears(browsers: set<Sportsbook>, opp: ArbitrageOpportunity, s1: LegScript, s2: LegScript)
    requires opp.book1 in browsers && opp.book2 in browsers
    ensures var calls := Protocol(browsers, opp, s1, s2);
      && Occurrences(calls, ClearBetslip) == 2
      && calls[|calls| - 2..] == Both(opp.book1, ClearBetslip, opp.book2, ClearBetslip)
  {
    var cleared := Both(opp.book1, ClearBetslip, opp.book2, ClearBetslip);
    var calls := Protocol(browsers, opp, s1, s2);
    var body := calls[..|calls| - 2];
    assert |calls| >= 6 && calls == body + cleared;
    assert forall k :: 0 <= k < |body| ==> body[k].action != ClearBetslip;
    OccurrencesAbsent(body, ClearBetslip);
    OccurrencesAppend(body, cleared, ClearBetslip);
    assert cleared[1..][1..] == [];
    assert Occurrences(cleared[1..], ClearBetslip) == 1;
  }

  /** The shipped browsers return `None` from `verify_odds` and from
      `fill_betslip` (which may also raise when the page lacks the stake box),
      so with one of them on either leg no bet is ever placed. */
  predicate ShippedLeg(s: LegScript)
  {
    (s.fill == Returned(false) || s.fill == Threw) && s.verify == Returned(false) && s.place == Returned(false)
  }

  lemma ShippedBrowsersNeverPlace(browsers: set<Sportsbook>, opp: ArbitrageOpportunity, s1: LegScript, s2: LegScript)
    requires ShippedLeg(s1) || ShippedLeg(s2)
    ensures !Calls(Protocol(browsers, opp, s1, s2), PlaceBet)
  {
    if Calls(Protocol(browsers, opp, s1, s2), PlaceBet) {
      PlaceOnlyAfterChecks(browsers, opp, s1, s2);
    }
  }

  // ---------------------------------------------------------------------
  // Dispatching every opportunity
  // ---------------------------------------------------------------------

  /** Reference definition of the calls made for a list of opportunities:
      with automation disabled the opportunities are only logged; otherwise
      they are executed one after the other, in list order. */
  function Dispatch(enabled: bool, browsers: set<Sportsbook>, opps: seq<ArbitrageOpportunity>,
                    scripts: seq<(LegScript, LegScript)>): seq<AgentCall>
    requires |scripts| == |opps|
  {
    if !enabled || |opps| == 0 then []
    else
      var n := |opps| - 1;
      Dispatch(enabled, browsers, opps[..n], scripts[..n]) + Protocol(browsers, opps[n], scripts[n].0, scripts[n].1)
  }

  /** Handle every detected opportunity in list order. `scripts[i]` and
      `completions[i]` describe the browsers' behaviour for `opps[i]`. */
  method ExecuteArbitrageActions(enabled: bool, browsers: set<Sportsbook>, opps: seq<ArbitrageOpportunity>,
                                 scripts: seq<(LegScript, LegScript)>, completions: seq<Completion>)
    returns (calls: seq<AgentCall>)
    requires |scripts| == |opps| && |completions| == |opps|
    ensures calls == Dispatch(enabled, browsers, opps, scripts)
    ensures !enabled ==> calls == []
  {
    calls := [];
    for i := 0 to |opps|
      invariant calls == Dispatch(enabled, browsers, opps[..i], scripts[..i])
    {
      assert opps[..i + 1][..i] == opps[..i] && scripts[..i + 1][..i] == scripts[..i];
      if enabled {
        var more := ExecuteBrowserActions(browsers, opps[i], scripts[i].0, scripts[i].1, completions[i]);
        calls := calls + more;
      }
    }
    assert opps[..|opps|] == opps && scripts[..|opps|] == scripts;
  }

  /** Opportunities are handled strictly one after the other: the calls for
      the first `i` opportunities all come before those for the rest. */
  lemma {:induction false} DispatchInListOrder(enabled: bool, browsers: set<Sportsbook>, opps: seq<ArbitrageOpportunity>,
                                               scripts: seq<(LegScript, LegScript)>, i: nat)
    requires |scripts| == |opps| && i <= |opps|
    ensures Dispatch(enabled, browsers, opps, scripts)
      == Dispatch(enabled, browsers, opps[..i], scripts[..i]) + Dispatch(enabled, browsers, opps[i..], scripts[i..])
  {
    hide Dispatch;
    if !enabled {
      DispatchTrivial(enabled, browsers, opps, scripts);
      DispatchTrivial(enabled, browsers, opps[..i], scripts[..i]);
      DispatchTrivial(enabled, browsers, opps[i..], scripts[i..]);
    } else if i == |opps| {
      assert opps[..i] == opps && scripts[..i] == scripts;
      DispatchTrivial(enabled, browsers, opps[i..], scripts[i..]);
    } else {
      var n := |opps| - 1;
      DispatchInListOrder(enabled, browsers, opps[..n], scripts[..n], i);
      DispatchSplitStep(browsers, opps, scripts, i);
    }
  }

  /** Nothing is dispatched while execution is disabled or when there is
      nothing to dispatch. */
  lemma DispatchTrivial(enabled: bool, browsers: set<Sportsbook>, opps: seq<ArbitrageOpportunity>,
                        scripts: seq<(LegScript, LegScript)>)
    requires |scripts| == |opps| && (!enabled || |opps| == 0)
    ensures Dispatch(enabled, browsers, opps, scripts) == []
  {
  }

  /** The inductive step of `DispatchInListOrder`: a split of all but the
      last opportunity extends to a split of the whole list. */
  lemma DispatchSplitStep(browsers: set<Sportsbook>, opps: seq<ArbitrageOpportunity>,
                          scripts: seq<(LegScript, LegScript)>, i: nat)
    requires |scripts| == |opps| && i < |opps|
    requires var n := |opps| - 1;
      Dispatch(true, browsers, opps[..n], scripts[..n])
        == Dispatch(true, browsers, opps[..n][..i], scripts[..n][..i]) + Dispatch(true, browsers, opps[..n][i..], scripts[..n][i..])
    ensures Dispatch(true, browsers, opps, scripts)
      == Dispatch(true, browsers, opps[..i], scripts[..i]) + Dispatch(true, browsers, opps[i..], scripts[i..])
  {
    hide Protocol, Dispatch;
    var n := |opps| - 1;
    SplitLast(opps, i);
    SplitLast(scripts, i);
    DispatchLast(browsers, opps, scripts);
    DispatchLast(browsers, opps[i..], scripts[i..]);
    var last := Protocol(browsers, opps[n], scripts[n].0, scripts[n].1);
    var front := Dispatch(true, browsers, opps[..i], scripts[..i]);
    var middle := Dispatch(true, browsers, opps[..n][i..], scripts[..n][i..]);
    assert Dispatch(true, browsers, opps, scripts) == front + middle + last;
    assert Dispatch(true, browsers, opps[i..], scripts[i..]) == middle + last;
    ConcatAssociative(front, middle, last);
  }

  lemma DispatchLast(browsers: set<Sportsbook>, opps: seq<ArbitrageOpportunity>, scripts: seq<(LegScript, LegScript)>)
    requires |scripts| == |opps| > 0
    ensures Dispatch(true, browsers, opps, scripts)
      == Dispatch(true, browsers, opps[..|opps| - 1], scripts[..|opps| - 1])
       + Protocol(browsers, opps[|opps| - 1], scripts[|opps| - 1].0, scripts[|opps| - 1].1)
  {
  }

  lemma ConcatAssociative<T>(a: seq<T>, b: seq<T>, c: seq<T>)
    ensures a + b + c == a + (b + c)
  {
  }

  /** Slicing facts about the last element of a non-empty suffix. */
  lemma SplitLast<T>(s: seq<T>, i: nat)
    requires i < |s|
    ensures s[..|s| - 1][..i] == s[..i]
    ensures |s[i..]| > 0 && s[i..][..|s[i..]| - 1] == s[..|s| - 1][i..] && s[i..][|s[i..]| - 1] == s[|s| - 1]
  {
  }

  /** Number of opportunities whose two books both have a browser. */
  function Served(browsers: set<Sportsbook>, opps: seq<ArbitrageOpportunity>): nat
  {
    if |opps| == 0 then 0
    else
      var n := |opps| - 1;
      Served(browsers, opps[..n]) + (if opps[n].book1 in browsers && opps[n].book2 in browsers then 1 else 0)
  }

  /** With automation enabled, every opportunity whose books have browsers
      leads to exactly two `clear_betslip` calls, and no other does. */
  lemma {:induction false} DispatchClears(browsers: set<Sportsbook>, opps: seq<ArbitrageOpportunity>,
                                          scripts: seq<(LegScript, LegScript)>)
    requires |scripts| == |opps|
    ensures Occurrences(Dispatch(true, browsers, opps, scripts), ClearBetslip) == 2 * Served(browsers, opps)
  {
    if |opps| > 0 {
      var n := |opps| - 1;
      DispatchClears(browsers, opps[..n], scripts[..n]);
      DispatchLast(browsers, opps, scripts);
      hide Protocol, Dispatch;
      OccurrencesAppend(Dispatch(true, browsers, opps[..n], scripts[..n]),
                        Protocol(browsers, opps[n], scripts[n].0, scripts[n].1), ClearBetslip);
      if opps[n].book1 in browsers && opps[n].book2 in browsers {
        ExactlyTwoClears(browsers, opps[n], scripts[n].0, scripts[n].1);
      } else {
        MissingBrowserCallsNothing(browsers, opps[n], scripts[n].0, scripts[n].1);
      }
    }
  }

  /** With the shipped browsers on every opportunity, the bot never places
      a bet, however many opportunities it detects. */
  lemma {:induction false} DispatchNeverPlacesWithShippedBrowsers(enabled: bool, browsers: set<Sportsbook>,
      opps: seq<ArbitrageOpportunity>, scripts: seq<(LegScript, LegScript)>)
    requires |scripts| == |opps|
    requires forall i :: 0 <= i < |scripts| ==> ShippedLeg(scripts[i].0) || ShippedLeg(scripts[i].1)
    ensures !Calls(Dispatch(enabled, browsers, opps, scripts), PlaceBet)
  {
    hide Protocol, Dispatch;
    if enabled && |opps| > 0 {
      var n := |opps| - 1;
      DispatchLast(browsers, opps, scripts);
      DispatchNeverPlacesWithShippedBrowsers(enabled, browsers, opps[..n], scripts[..n]);
      ShippedBrowsersNeverPlace(browsers, opps[n], scripts[n].0, scripts[n].1);
      NotCalledAppend(Dispatch(enabled, browsers, opps[..n], scripts[..n]),
                      Protocol(browsers, opps[n], scripts[n].0, scripts[n].1), PlaceBet);
    } else {
      DispatchTrivial(enabled, browsers, opps, scripts);
    }
  }
}
