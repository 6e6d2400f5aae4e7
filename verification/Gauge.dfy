/** Lock-free gauges (gauge.rs). The statistic set gauge is a system of atomic steps: an observer takes four, the one
    reporter six, and any number of observers may run between any two steps of each other and of the reporter. */
module Gauges {
  import opened Folds
  import opened Options
  import opened StatisticSets
  import opened Types

  // ----- atomic cells

  datatype Cells = Cells(count: int, sum: int, min: int, max: int)

  /** What an observer that has incremented the count does next. */
  datatype Pending = AddSum(v: int) | LowerMin(v: int) | RaiseMax(v: int)

  /** Where the reporter is, with the values it has read so far. */
  datatype Reporter =
    | Idle
    | LoadSum(count: int)
    | TakeMin(count: int, sum: int)
    | TakeMax(count: int, sum: int, min: int)
    | SubtractSum(count: int, sum: int, min: int, max: int)
    | SubtractCount(count: int, min: int, max: int, reportedSum: int)

  datatype World = World(
    cells: Cells, observers: map<nat, Pending>, reporter: Reporter, reports: seq<StatisticSet>)

  datatype Event = Begin(thread: nat, v: int) | Continue(thread: nat) | Report

  const FRESH := Cells(0, 0, I64_MAX, I64_MIN)
  const START := World(FRESH, map[], Idle, [])

  // ----- steps

  /** The first step of observe. A thread that is inside observe does not start another one. */
  function Increment(w: World, thread: nat, v: int): World {
    if thread in w.observers || !IsI64(v) then w else
      w.(cells := w.cells.(count := w.cells.count + 1), observers := w.observers[thread := AddSum(v)])
  }

  /** The other three. */
  function Proceed(w: World, thread: nat): World {
    if thread !in w.observers then w else
      match w.observers[thread]
      case AddSum(v) =>
        w.(cells := w.cells.(sum := w.cells.sum + v), observers := w.observers[thread := LowerMin(v)])
      case LowerMin(v) =>
        w.(cells := w.cells.(min := MinInt(w.cells.min, v)), observers := w.observers[thread := RaiseMax(v)])
      case RaiseMax(v) =>
        w.(cells := w.cells.(max := MaxInt(w.cells.max, v)), observers := w.observers - {thread})
  }

  /** The next step of reset: it reports the values that the subtractions return, but subtracts those it loaded. */
  function Reset(w: World): World {
    match w.reporter
    case Idle => if w.cells.count == 0 then w else w.(reporter := LoadSum(w.cells.count))
    case LoadSum(count) => w.(reporter := TakeMin(count, w.cells.sum))
    case TakeMin(count, sum) =>
      w.(reporter := TakeMax(count, sum, w.cells.min), cells := w.cells.(min := MaxInt(w.cells.min, I64_MAX)))
    case TakeMax(count, sum, min) =>
      w.(reporter := SubtractSum(count, sum, min, w.cells.max), cells := w.cells.(max := MinInt(w.cells.max, I64_MIN)))
    case SubtractSum(count, sum, min, max) =>
      w.(reporter := SubtractCount(count, min, max, w.cells.sum), cells := w.cells.(sum := w.cells.sum - sum))
    case SubtractCount(count, min, max, reportedSum) =>
      w.(reporter := Idle,
         cells := w.cells.(count := w.cells.count - count),
         reports := w.reports + [StatisticSet(min, max, reportedSum, Natural(w.cells.count))])
  }

  /** A count cell never goes below zero; see NeverUnderflows. */
  function Natural(count: int): nat {
    if count < 0 then 0 else count
  }

  function Advance(w: World, e: Event): World {
    match e
    case Begin(thread, v) => Increment(w, thread, v)
    case Continue(thread) => Proceed(w, thread)
    case Report => Reset(w)
  }

  /** Any interleaving of any observers with the reporter. */
  function Run(events: seq<Event>): World {
    Fold(Advance, START, events)
  }

  // ----- what the schedule says

  /** What an event of the schedule contributes, whatever the cells hold. */
  datatype Effect = Counted | Added(v: int) | Lowered(v: int) | Raised(v: int) | Nothing

  function EffectOf(observers: map<nat, Pending>, e: Event): Effect {
    match e
    case Begin(thread, v) => if thread in observers || !IsI64(v) then Nothing else Counted
    case Continue(thread) =>
      if thread !in observers then Nothing else
        (match observers[thread]
         case AddSum(v) => Added(v)
         case LowerMin(v) => Lowered(v)
         case RaiseMax(v) => Raised(v))
    case Report => Nothing
  }

  /** How many increments there were and how much was added, how much of it came since the reporter last loaded the
      cell (open), and how much came between a load and its subtraction (late); the extremes that were written. */
  datatype Ledger = Ledger(
    begun: int, openCount: int, lateCount: int,
    added: int, openSum: int, lateSum: int,
    least: int, greatest: int)

  /** The ledger looks at the event, at who is inside observe, and at where the reporter is; never at a cell. */
  function NextLedger(l: Ledger, observers: map<nat, Pending>, r: Reporter, e: Event): Ledger {
    match EffectOf(observers, e)
    case Counted => l.(begun := l.begun + 1, openCount := l.openCount + 1)
    case Added(v) => l.(added := l.added + v, openSum := l.openSum + v)
    case Lowered(v) => l.(least := MinInt(l.least, v))
    case Raised(v) => l.(greatest := MaxInt(l.greatest, v))
    case Nothing =>
      if !e.Report? then l
      else if r.Idle? then l.(openCount := 0)
      else if r.LoadSum? then l.(openSum := 0)
      else if r.SubtractSum? then l.(lateSum := l.lateSum + l.openSum)
      else if r.SubtractCount? then l.(lateCount := l.lateCount + l.openCount)
      else l
  }

  const EMPTY_BOOKS := Ledger(0, 0, 0, 0, 0, 0, I64_MAX, I64_MIN)

  function Books(events: seq<Event>): Ledger {
    if events == [] then EMPTY_BOOKS else
      var w := Run(events[..|events| - 1]);
      NextLedger(Books(events[..|events| - 1]), w.observers, w.reporter, events[|events| - 1])
  }

  /** Event i increments the count. */
  predicate CountsAt(events: seq<Event>, i: nat) {
    i < |events| && EffectOf(Run(events[..i]).observers, events[i]).Counted?
  }

  predicate IdleAt(events: seq<Event>, k: nat) {
    k <= |events| && Run(events[..k]).reporter.Idle?
  }

  /** Event i increments the count while a reset is between its load and its subtraction, and that reset finishes. */
  ghost predicate LateAt(events: seq<Event>, i: nat) {
    CountsAt(events, i) && !IdleAt(events, i) && exists k: nat :: i < k && IdleAt(events, k)
  }

  /** Event i increments the count while a reset is in progress that does not finish. */
  ghost predicate OpenAt(events: seq<Event>, i: nat) {
    CountsAt(events, i) && forall k: nat :: i <= k <= |events| ==> !IdleAt(events, k)
  }

  // ----- what has been reported

  function ReportedCount(reports: seq<StatisticSet>): int {
    if reports == [] then 0 else ReportedCount(reports[..|reports| - 1]) + reports[|reports| - 1].count
  }

  function ReportedSum(reports: seq<StatisticSet>): int {
    if reports == [] then 0 else ReportedSum(reports[..|reports| - 1]) + reports[|reports| - 1].sum
  }

  function ReportedMin(reports: seq<StatisticSet>): int {
    if reports == [] then I64_MAX else MinInt(ReportedMin(reports[..|reports| - 1]), reports[|reports| - 1].min)
  }

  function ReportedMax(reports: seq<StatisticSet>): int {
    if reports == [] then I64_MIN else MaxInt(ReportedMax(reports[..|reports| - 1]), reports[|reports| - 1].max)
  }

  /** The sum, min and max a reset has taken out of the cells but not delivered yet. */
  function SumInHand(r: Reporter): int {
    if r.SubtractCount? then r.reportedSum else 0
  }

  function MinInHand(r: Reporter): int {
    if r.TakeMax? || r.SubtractSum? || r.SubtractCount? then r.min else I64_MAX
  }

  function MaxInHand(r: Reporter): int {
    if r.SubtractSum? || r.SubtractCount? then r.max else I64_MIN
  }

  // ----- accounting

  predicate CountLaw(w: World, l: Ledger) {
    ReportedCount(w.reports) + w.cells.count == l.begun + l.lateCount
  }

  predicate SumLaw(w: World, l: Ledger) {
    ReportedSum(w.reports) + SumInHand(w.reporter) + w.cells.sum == l.added + l.lateSum
  }

  predicate ExtremesLaw(w: World, l: Ledger) {
    && MinInt(MinInt(ReportedMin(w.reports), MinInHand(w.reporter)), w.cells.min) == l.least
    && MaxInt(MaxInt(ReportedMax(w.reports), MaxInHand(w.reporter)), w.cells.max) == l.greatest
  }

  /** What ties the cells to what the reporter has loaded. */
  predicate Consistent(w: World, l: Ledger) {
    && w.cells.count >= 0 && l.openCount >= 0 && l.lateCount >= 0
    && (!w.reporter.Idle? ==> w.reporter.count > 0 && w.cells.count == w.reporter.count + l.openCount)
    && (w.reporter.TakeMin? || w.reporter.TakeMax? || w.reporter.SubtractSum?
        ==> w.cells.sum == w.reporter.sum + l.openSum)
    && w.cells.min <= I64_MAX && w.cells.max >= I64_MIN
    && (forall t :: t in w.observers ==> IsI64(w.observers[t].v))
  }

  predicate Accounts(w: World, l: Ledger) {
    Consistent(w, l) && CountLaw(w, l) && SumLaw(w, l) && ExtremesLaw(w, l)
  }

  lemma IncrementAccounts(w: World, l: Ledger, thread: nat, v: int)
    requires Accounts(w, l)
    ensures Accounts(Increment(w, thread, v), NextLedger(l, w.observers, w.reporter, Begin(thread, v)))
  {
  }

  lemma ProceedAccounts(w: World, l: Ledger, thread: nat)
    requires Accounts(w, l)
    ensures Accounts(Proceed(w, thread), NextLedger(l, w.observers, w.reporter, Continue(thread)))
  {
    var w' := Proceed(w, thread);
    assert w'.reports == w.reports && w'.reporter == w.reporter;
  }

  lemma ResetAccounts(w: World, l: Ledger)
    requires Accounts(w, l)
    ensures Accounts(Reset(w), NextLedger(l, w.observers, w.reporter, Report))
  {
    ResetConsistent(w, l);
    ResetCounts(w, l);
    ResetExtremes(w, l);
    hide Reset, NextLedger, Consistent, CountLaw, SumLaw, ExtremesLaw;
  }

  lemma ResetConsistent(w: World, l: Ledger)
    requires Consistent(w, l)
    ensures Consistent(Reset(w), NextLedger(l, w.observers, w.reporter, Report))
  {
  }

  lemma ResetReports(w: World)
    ensures var w' := Reset(w);
      w'.reports == w.reports || (w'.reports != [] && w'.reports[..|w'.reports| - 1] == w.reports)
  {
  }

  lemma ResetCounts(w: World, l: Ledger)
    requires Consistent(w, l) && CountLaw(w, l) && SumLaw(w, l)
    ensures var w', l' := Reset(w), NextLedger(l, w.observers, w.reporter, Report);
      CountLaw(w', l') && SumLaw(w', l')
  {
    ResetReports(w);
  }

  lemma ResetExtremes(w: World, l: Ledger)
    requires Consistent(w, l) && ExtremesLaw(w, l)
    ensures ExtremesLaw(Reset(w), NextLedger(l, w.observers, w.reporter, Report))
  {
    ResetReports(w);
  }

  lemma AdvanceAccounts(w: World, l: Ledger, e: Event)
    requires Accounts(w, l)
    ensures Accounts(Advance(w, e), NextLedger(l, w.observers, w.reporter, e))
  {
    hide Accounts, Increment, Proceed, Reset, NextLedger;
    match e {
      case Begin(thread, v) => IncrementAccounts(w, l, thread, v);
      case Continue(thread) => ProceedAccounts(w, l, thread);
      case Report => ResetAccounts(w, l);
    }
  }

  lemma LastStep(events: seq<Event>)
    requires events != []
    ensures var w, e := Run(events[..|events| - 1]), events[|events| - 1];
      && Run(events) == Advance(w, e)
      && Books(events) == NextLedger(Books(events[..|events| - 1]), w.observers, w.reporter, e)
  {
    hide Advance, NextLedger;
  }

  lemma NothingRun()
    ensures Run([]) == START && Books([]) == EMPTY_BOOKS
  {
  }

  lemma StartAccounts()
    ensures Run([]) == START && Accounts(Run([]), Books([]))
  {
    hide *;
    NothingRun();
    StartConsistent();
    StartLaws();
    AllLaws(START, EMPTY_BOOKS);
  }

  lemma StartConsistent()
    ensures Consistent(START, EMPTY_BOOKS)
  {
  }

  lemma StartLaws()
    ensures CountLaw(START, EMPTY_BOOKS) && SumLaw(START, EMPTY_BOOKS) && ExtremesLaw(START, EMPTY_BOOKS)
  {
  }

  lemma AllLaws(w: World, l: Ledger)
    requires Consistent(w, l) && CountLaw(w, l) && SumLaw(w, l) && ExtremesLaw(w, l)
    ensures Accounts(w, l)
  {
  }

  lemma {:induction false} RunAccounts(events: seq<Event>)
    ensures Accounts(Run(events), Books(events))
  {
    hide Accounts, Advance, NextLedger, Run, Books;
    if events == [] {
      StartAccounts();
    } else {
      var front := events[..|events| - 1];
      RunAccounts(front);
      LastStep(events);
      AdvanceAccounts(Run(front), Books(front), events[|events| - 1]);
    }
  }

  // ----- late increments as a condition on the schedule

  lemma PrefixAgrees(events: seq<Event>, i: nat)
    requires events != []
    ensures var front := events[..|events| - 1];
      && (i < |front| ==> CountsAt(events, i) == CountsAt(front, i))
      && (i <= |front| ==> IdleAt(events, i) == IdleAt(front, i))
  {
    var front := events[..|events| - 1];
    if i <= |front| {
      assert events[..i] == front[..i];
    }
  }

  /** How one event moves the open and the late count: an increment opens, a load clears, a subtraction makes late. */
  predicate CountsMove(l: Ledger, l': Ledger, counted: bool, idle: bool, idle': bool) {
    && (counted ==> l'.openCount == l.openCount + 1 && l'.lateCount == l.lateCount && idle' == idle)
    && (!counted && !idle && !idle' ==> l'.openCount == l.openCount && l'.lateCount == l.lateCount)
    && (!idle && idle' ==> l'.lateCount == l.lateCount + l.openCount)
    && (idle ==> l'.lateCount == l.lateCount)
    && (idle && !idle' ==> l'.openCount == 0)
  }

  lemma EventMoves(w: World, l: Ledger, e: Event)
    ensures CountsMove(l, NextLedger(l, w.observers, w.reporter, e), EffectOf(w.observers, e).Counted?,
                       w.reporter.Idle?, Advance(w, e).reporter.Idle?)
  {
  }

  lemma LastEvent(events: seq<Event>)
    requires events != []
    ensures var n := |events| - 1;
      CountsMove(Books(events[..n]), Books(events), CountsAt(events, n), IdleAt(events, n), IdleAt(events, n + 1))
  {
    hide Run, Books, Advance, NextLedger, CountsMove;
    var n := |events| - 1;
    assert events[..n + 1] == events;
    LastStep(events);
    EventMoves(Run(events[..n]), Books(events[..n]), events[n]);
  }

  lemma LedgerIsPositive(events: seq<Event>)
    ensures Books(events).openCount >= 0 && Books(events).lateCount >= 0
  {
    RunAccounts(events);
  }

  /** While a reset is in progress, the open count is not zero exactly when some increment is still open. */
  lemma {:induction false} OpenIncrements(events: seq<Event>)
    requires !IdleAt(events, |events|)
    ensures Books(events).openCount > 0 <==> exists i: nat :: OpenAt(events, i)
  {
    if events == [] {
      assert false;
    } else {
      hide Run, Books, CountsAt, IdleAt;
      var n := |events| - 1;
      var front := events[..n];
      LedgerIsPositive(front);
      LastEvent(events);
      PrefixAgrees(events, n);
      if !IdleAt(events, n) {
        OpenIncrements(front);
      }
      OpenInPrefix(events);
    }
  }

  /** An increment is still open if it was before the last event, or is the last event itself. */
  lemma OpenInPrefix(events: seq<Event>)
    requires events != [] && !IdleAt(events, |events|)
    ensures var n := |events| - 1;
      (exists i: nat :: OpenAt(events, i)) <==>
      !IdleAt(events, n) && (CountsAt(events, n) || exists i: nat :: OpenAt(events[..n], i))
  {
    hide Run;
    var n := |events| - 1;
    var front := events[..n];
    if i: nat :| OpenAt(events, i) {
      assert !IdleAt(events, n);
      if i < n {
        PrefixAgrees(events, i);
        forall k: nat | i <= k <= n ensures !IdleAt(front, k) {
          PrefixAgrees(events, k);
        }
        assert OpenAt(front, i);
      }
    }
    if !IdleAt(events, n) {
      if CountsAt(events, n) {
        assert OpenAt(events, n);
      }
      if i: nat :| OpenAt(front, i) {
        PrefixAgrees(events, i);
        forall k: nat | i <= k <= n + 1 ensures !IdleAt(events, k) {
          PrefixAgrees(events, k);
        }
        assert OpenAt(events, i);
      }
    }
  }

  /** The late count is not zero exactly when some increment came during a reset that has finished. */
  lemma {:induction false} LateIncrements(events: seq<Event>)
    ensures Books(events).lateCount > 0 <==> exists i: nat :: LateAt(events, i)
  {
    if events != [] {
      hide Run, Books, CountsAt, IdleAt;
      var n := |events| - 1;
      var front := events[..n];
      LedgerIsPositive(front);
      LastEvent(events);
      PrefixAgrees(events, n);
      LateIncrements(front);
      if !IdleAt(events, n) {
        OpenIncrements(front);
      }
      LateInPrefix(events);
    }
  }

  /** An increment is late if it was before the last event, or was open and the last event finishes the reset. */
  lemma LateInPrefix(events: seq<Event>)
    requires events != []
    ensures var n := |events| - 1;
      (exists i: nat :: LateAt(events, i)) <==>
      (exists i: nat :: LateAt(events[..n], i))
      || (!IdleAt(events, n) && IdleAt(events, n + 1) && exists i: nat :: OpenAt(events[..n], i))
  {
    var n := |events| - 1;
    var front := events[..n];
    hide CountsAt, IdleAt, LateAt, OpenAt;
    if i: nat :| LateAt(events, i) {
      LateBefore(events, i);
    }
    if i: nat :| LateAt(front, i) {
      LateAfter(events, i);
    }
    if !IdleAt(events, n) && IdleAt(events, n + 1) {
      if i: nat :| OpenAt(front, i) {
        LateAfter(events, i);
      }
    }
  }

  lemma LateBefore(events: seq<Event>, i: nat)
    requires events != [] && LateAt(events, i)
    ensures var n := |events| - 1;
      LateAt(events[..n], i) || (!IdleAt(events, n) && IdleAt(events, n + 1) && OpenAt(events[..n], i))
  {
    var n := |events| - 1;
    var front := events[..n];
    LastEvent(events);
    hide Run, Books, CountsAt;
    var k: nat :| i < k && IdleAt(events, k);
    PrefixAgrees(events, i);
    if k0: nat :| i < k0 <= n && IdleAt(events, k0) {
      PrefixAgrees(events, k0);
      assert LateAt(front, i);
    } else {
      forall m: nat | i <= m <= n ensures !IdleAt(front, m) {
        PrefixAgrees(events, m);
      }
      PrefixAgrees(events, n);
      assert OpenAt(front, i);
    }
  }

  lemma LateAfter(events: seq<Event>, i: nat)
    requires events != []
    requires var n := |events| - 1;
      LateAt(events[..n], i) || (IdleAt(events, n + 1) && OpenAt(events[..n], i))
    ensures LateAt(events, i)
  {
    var front := events[..|events| - 1];
    hide Run, CountsAt;
    PrefixAgrees(events, i);
    if LateAt(front, i) {
      var k: nat :| i < k && IdleAt(front, k);
      PrefixAgrees(events, k);
    } else {
      assert !IdleAt(front, i);
    }
  }

  // ----- the laws

  /** In every interleaving, what was reported and what is left add up to the increments, plus exactly those that
      landed between a reset's load and its subtraction; the count cell never falls below zero. */
  lemma CountsAccounted(events: seq<Event>)
    ensures var w, l := Run(events), Books(events);
      && ReportedCount(w.reports) + w.cells.count == l.begun + l.lateCount
      && w.cells.count >= 0
  {
    RunAccounts(events);
  }

  /** No increment is ever lost, and the total is right exactly when the schedule has no increment between the load and
      the subtraction of a finished reset. */
  lemma CountsExactIffNoneLate(events: seq<Event>)
    ensures var w, l := Run(events), Books(events);
      && ReportedCount(w.reports) + w.cells.count >= l.begun
      && (ReportedCount(w.reports) + w.cells.count == l.begun <==> !exists i: nat :: LateAt(events, i))
  {
    RunAccounts(events);
    LateIncrements(events);
  }

  /** The same law for the sum. */
  lemma SumsAccounted(events: seq<Event>)
    ensures var w, l := Run(events), Books(events);
      ReportedSum(w.reports) + SumInHand(w.reporter) + w.cells.sum == l.added + l.lateSum
  {
    RunAccounts(events);
  }

  /** The least value ever written to the min cell is the least that was reported, is in hand or is left, and likewise
      for the greatest. */
  lemma ExtremesAccounted(events: seq<Event>)
    ensures var w, l := Run(events), Books(events);
      && MinInt(MinInt(ReportedMin(w.reports), MinInHand(w.reporter)), w.cells.min) == l.least
      && MaxInt(MaxInt(ReportedMax(w.reports), MaxInHand(w.reporter)), w.cells.max) == l.greatest
  {
    RunAccounts(events);
  }

  /** Subtracting the loaded count never takes the cell below zero. */
  lemma NeverUnderflows(events: seq<Event>)
    ensures Run(events).reporter.SubtractCount? ==> Run(events).cells.count >= Run(events).reporter.count > 0
  {
    RunAccounts(events);
  }

  /** Two increments, of which the second lands between the load and the subtraction: two are reported, and one is
      left. */
  lemma LateIncrementCountsTwice()
    ensures var w := Run(
              [Begin(0, 7), Continue(0), Continue(0), Continue(0), Report, Begin(1, 7)]
              + [Report, Report, Report, Report, Report]);
      w.reports == [StatisticSet(7, 7, 7, 2)] && w.cells.count == 1
  {
    hide Increment, Proceed, Reset;
    var first := [Begin(0, 7), Continue(0), Continue(0)];
    var second := [Continue(0), Report, Begin(1, 7)];
    var last := [Report, Report, Report, Report, Report];
    assert [Begin(0, 7), Continue(0), Continue(0), Continue(0), Report, Begin(1, 7)] + last == (first + second) + last;
    FoldConcat(Advance, START, first + second, last);
    FoldConcat(Advance, START, first, second);
    AdvanceThrice(START, Begin(0, 7), Continue(0), Continue(0));
    var w := Proceed(Proceed(Increment(START, 0, 7), 0), 0);
    AdvanceThrice(w, Continue(0), Report, Begin(1, 7));
    w := Increment(Reset(Proceed(w, 0)), 1, 7);
    assert last == [Report, Report, Report] + [Report, Report];
    FoldConcat(Advance, w, [Report, Report, Report], [Report, Report]);
    AdvanceThrice(w, Report, Report, Report);
    AdvanceTwice(Reset(Reset(Reset(w))), Report, Report);
    LateIncrementSteps();
  }

  lemma LateIncrementSteps()
    ensures var w := Increment(Reset(Proceed(Proceed(Proceed(Increment(START, 0, 7), 0), 0), 0)), 1, 7);
      var w' := Reset(Reset(Reset(Reset(Reset(w)))));
      w'.reports == [StatisticSet(7, 7, 7, 2)] && w'.cells.count == 1
  {
    var w := Increment(Reset(Proceed(Proceed(Proceed(Increment(START, 0, 7), 0), 0), 0)), 1, 7);
    assert w == World(Cells(2, 7, 7, 7), map[1 := AddSum(7)], LoadSum(1), []);
    var w' := Reset(Reset(w));
    assert w'.reporter == TakeMax(1, 7, 7) && w'.cells == Cells(2, 7, I64_MAX, 7);
  }

  // ----- undisturbed operations

  /** The statistics that the cells hold. */
  function Held(c: Cells): StatisticSet {
    StatisticSet(c.min, c.max, c.sum, Natural(c.count))
  }

  lemma AdvanceTwice(w: World, e: Event, f: Event)
    ensures Fold(Advance, w, [e, f]) == Advance(Advance(w, e), f)
  {
    assert [e, f][..1] == [e];
    FoldOne(Advance, w, e);
  }

  lemma AdvanceThrice(w: World, e: Event, f: Event, g: Event)
    ensures Fold(Advance, w, [e, f, g]) == Advance(Advance(Advance(w, e), f), g)
  {
    assert [e, f, g][..2] == [e, f];
    AdvanceTwice(w, e, f);
  }

  lemma RunMore(events: seq<Event>, more: seq<Event>)
    ensures Run(events + more) == Fold(Advance, Run(events), more)
  {
    FoldConcat(Advance, START, events, more);
  }

  /** After any run, an observe that nothing interrupts accumulates its value. */
  lemma UndisturbedObserve(events: seq<Event>, thread: nat, v: int)
    requires thread !in Run(events).observers && IsI64(v)
    ensures var w := Run(events);
      var w' := Run(events + ([Begin(thread, v)] + [Continue(thread), Continue(thread), Continue(thread)]));
      && Held(w'.cells) == Accumulate(Held(w.cells), v)
      && w'.observers == w.observers && w'.reporter == w.reporter && w'.reports == w.reports
  {
    hide Run, Books, Fold;
    var w := Run(events);
    RunAccounts(events);
    RunMore(events, [Begin(thread, v)] + [Continue(thread), Continue(thread), Continue(thread)]);
    FoldConcat(Advance, w, [Begin(thread, v)], [Continue(thread), Continue(thread), Continue(thread)]);
    FoldOne(Advance, w, Begin(thread, v));
    AdvanceThrice(Advance(w, Begin(thread, v)), Continue(thread), Continue(thread), Continue(thread));
  }

  /** After any run, a reset that nothing interrupts reports exactly what the cells hold and leaves them fresh, if there
      was any increment, and otherwise reports nothing and changes nothing. */
  lemma UndisturbedReset(events: seq<Event>)
    requires Run(events).reporter.Idle?
    ensures var w, w' := Run(events), Run(events + ([Report, Report, Report] + [Report, Report, Report]));
      if w.cells.count == 0 then w' == w
      else w'.reports == w.reports + [Held(w.cells)] && w'.cells == FRESH
           && w'.reporter.Idle? && w'.observers == w.observers
  {
    hide Run, Books, Fold, Reset;
    var w := Run(events);
    RunAccounts(events);
    RunMore(events, [Report, Report, Report] + [Report, Report, Report]);
    FoldConcat(Advance, w, [Report, Report, Report], [Report, Report, Report]);
    AdvanceThrice(w, Report, Report, Report);
    AdvanceThrice(Reset(Reset(Reset(w))), Report, Report, Report);
    if w.cells.count == 0 {
      NothingToReset(w);
    } else {
      ResetSteps(w);
    }
  }

  lemma NothingToReset(w: World)
    requires w.reporter.Idle? && w.cells.count == 0
    ensures Reset(w) == w
  {
  }

  lemma ResetSteps(w: World)
    requires w.cells.count > 0 && w.cells.min <= I64_MAX && w.cells.max >= I64_MIN && w.reporter.Idle?
    ensures var w' := Reset(Reset(Reset(Reset(Reset(Reset(w))))));
      && w'.reports == w.reports + [Held(w.cells)] && w'.cells == FRESH
      && w'.reporter.Idle? && w'.observers == w.observers
  {
    var c := w.cells;
    var w3 := Reset(Reset(Reset(w)));
    assert w3.reporter == TakeMax(c.count, c.sum, c.min) && w3.cells == c.(min := I64_MAX);
    var w5 := Reset(Reset(w3));
    assert w5.reporter == SubtractCount(c.count, c.min, c.max, c.sum) && w5.cells == Cells(c.count, 0, I64_MAX, I64_MIN);
  }

  // ----- how a report may be chopped

  function Continues(thread: nat, k: nat): seq<Event> {
    if k == 0 then [] else Continues(thread, k - 1) + [Continue(thread)]
  }

  function Reports(m: nat): seq<Event> {
    if m == 0 then [] else Reports(m - 1) + [Report]
  }

  function Resets(w: World, m: nat): World {
    if m == 0 then w else Reset(Resets(w, m - 1))
  }

  lemma RunOne(events: seq<Event>, e: Event)
    ensures Run(events + [e]) == Advance(Run(events), e)
  {
    hide Advance;
    RunMore(events, [e]);
    FoldOne(Advance, Run(events), e);
  }

  lemma {:induction false} RunReports(events: seq<Event>, m: nat)
    ensures Run(events + Reports(m)) == Resets(Run(events), m)
  {
    hide Reset, Run;
    if m == 0 {
      assert events + [] == events;
    } else {
      RunReports(events, m - 1);
      RunOne(events + Reports(m - 1), Report);
      assert events + Reports(m) == (events + Reports(m - 1)) + [Report];
    }
  }

  /** The cells when an observe has taken its first step and k more: count, sum, min, max, in this order. */
  function Partly(c: Cells, v: int, k: nat): Cells {
    Cells(c.count + 1, if k >= 1 then c.sum + v else c.sum, if k >= 2 then MinInt(c.min, v) else c.min,
          if k >= 3 then MaxInt(c.max, v) else c.max)
  }

  function PendingAfter(observers: map<nat, Pending>, thread: nat, v: int, k: nat): map<nat, Pending> {
    if k == 0 then observers[thread := AddSum(v)]
    else if k == 1 then observers[thread := LowerMin(v)]
    else if k == 2 then observers[thread := RaiseMax(v)]
    else observers
  }

  lemma {:induction false} PartialObserve(events: seq<Event>, thread: nat, v: int, k: nat)
    requires thread !in Run(events).observers && IsI64(v) && k <= 3
    ensures var w := Run(events);
      Run(events + ([Begin(thread, v)] + Continues(thread, k))) ==
      w.(cells := Partly(w.cells, v, k), observers := PendingAfter(w.observers, thread, v, k))
  {
    var w, start := Run(events), [Begin(thread, v)];
    hide Run;
    if k == 0 {
      RunOne(events, Begin(thread, v));
      assert start + [] == start;
    } else {
      PartialObserve(events, thread, v, k - 1);
      var before := events + (start + Continues(thread, k - 1));
      RunOne(before, Continue(thread));
      assert events + (start + Continues(thread, k)) == before + [Continue(thread)];
      NextPartly(w, thread, v, k);
    }
  }

  lemma NextPartly(w: World, thread: nat, v: int, k: nat)
    requires thread !in w.observers && 1 <= k <= 3
    ensures var before := PendingAfter(w.observers, thread, v, k - 1);
      Proceed(w.(cells := Partly(w.cells, v, k - 1), observers := before), thread)
      == w.(cells := Partly(w.cells, v, k), observers := PendingAfter(w.observers, thread, v, k))
  {
    if k == 3 {
      assert w.observers[thread := RaiseMax(v)] - {thread} == w.observers;
    }
  }

  /** A reset that comes after the first step of an observe and k more reports one value more in the count, and the
      value itself in as many of sum, min and max, in this order, as there were steps. */
  lemma ChoppedObserve(events: seq<Event>, thread: nat, v: int, k: nat)
    requires Run(events).reporter.Idle? && thread !in Run(events).observers && IsI64(v) && k <= 3
    ensures var w := Run(events);
      var midway := events + ([Begin(thread, v)] + Continues(thread, k));
      Run(midway + ([Report, Report, Report] + [Report, Report, Report])).reports
      == w.reports + [StatisticSet(if k >= 2 then MinInt(w.cells.min, v) else w.cells.min,
                                   if k >= 3 then MaxInt(w.cells.max, v) else w.cells.max,
                                   if k >= 1 then w.cells.sum + v else w.cells.sum,
                                   Natural(w.cells.count) + 1)]
  {
    hide Run;
    RunAccounts(events);
    PartialObserve(events, thread, v, k);
    UndisturbedReset(events + ([Begin(thread, v)] + Continues(thread, k)));
  }

  /** An observe that falls between the m-th and the next step of a reset is always counted by that report and once more
      by the next one; whether its value is in the sum, the min and the max of this report, of the next one, or for the
      sum of both, depends on how far the reset was. */
  lemma ObserveInsideReset(events: seq<Event>, thread: nat, v: int, m: nat)
    requires Run(events).reporter.Idle? && Run(events).cells.count > 0
    requires thread !in Run(events).observers && IsI64(v) && 1 <= m <= 5
    ensures var w := Run(events);
      var w' := Run(((events + Reports(m)) + ([Begin(thread, v)] + Continues(thread, 3))) + Reports(6 - m));
      && w'.reports == w.reports + [StatisticSet(if m <= 2 then MinInt(w.cells.min, v) else w.cells.min,
                                                 if m <= 3 then MaxInt(w.cells.max, v) else w.cells.max,
                                                 if m <= 4 then w.cells.sum + v else w.cells.sum,
                                                 Natural(w.cells.count) + 1)]
      && w'.cells == Cells(1, if m <= 1 then 0 else v, if m <= 2 then I64_MAX else v, if m <= 3 then I64_MIN else v)
      && w'.reporter.Idle? && w'.observers == w.observers
  {
    hide Run, Resets;
    RunAccounts(events);
    var w := Run(events);
    RunReports(events, m);
    ResetStarted(w, m);
    PartialObserve(events + Reports(m), thread, v, 3);
    var middle := (events + Reports(m)) + ([Begin(thread, v)] + Continues(thread, 3));
    RunReports(middle, 6 - m);
    ResetFinished(w, v, m);
  }

  /** The cells and the reporter in the middle of a reset. */
  function Halfway(w: World, m: nat): World
    requires 1 <= m <= 5
  {
    var c := w.cells;
    w.(cells := Cells(c.count, if m <= 4 then c.sum else 0, if m <= 2 then c.min else I64_MAX,
                      if m <= 3 then c.max else I64_MIN),
       reporter :=
         if m == 1 then LoadSum(c.count)
         else if m == 2 then TakeMin(c.count, c.sum)
         else if m == 3 then TakeMax(c.count, c.sum, c.min)
         else if m == 4 then SubtractSum(c.count, c.sum, c.min, c.max)
         else SubtractCount(c.count, c.min, c.max, c.sum))
  }

  lemma ResetStarted(w: World, m: nat)
    requires w.reporter.Idle? && w.cells.count > 0 && 1 <= m <= 5
    requires w.cells.min <= I64_MAX && w.cells.max >= I64_MIN
    ensures Resets(w, m) == Halfway(w, m)
  {
    if m > 1 {
      ResetStarted(w, m - 1);
    } else {
      assert Resets(w, 0) == w;
    }
  }

  lemma ResetFinished(w: World, v: int, m: nat)
    requires w.cells.count > 0 && 1 <= m <= 5 && IsI64(v)
    requires w.cells.min <= I64_MAX && w.cells.max >= I64_MIN
    ensures var c := w.cells;
      var w' := Resets(Halfway(w, m).(cells := Partly(Halfway(w, m).cells, v, 3)), 6 - m);
      && w'.reports == w.reports + [StatisticSet(if m <= 2 then MinInt(c.min, v) else c.min,
                                                 if m <= 3 then MaxInt(c.max, v) else c.max,
                                                 if m <= 4 then c.sum + v else c.sum, Natural(c.count) + 1)]
      && w'.cells == Cells(1, if m <= 1 then 0 else v, if m <= 2 then I64_MAX else v, if m <= 3 then I64_MIN else v)
      && w'.reporter.Idle? && w'.observers == w.observers
  {
    var start := Halfway(w, m).(cells := Partly(Halfway(w, m).cells, v, 3));
    var w1 := Reset(start);
    assert Resets(start, 1) == w1 by { assert Resets(start, 0) == start; }
    if m <= 4 {
      var w2 := Reset(w1);
      assert Resets(start, 2) == w2;
      if m <= 3 {
        var w3 := Reset(w2);
        assert Resets(start, 3) == w3;
        if m <= 2 {
          var w4 := Reset(w3);
          assert Resets(start, 4) == w4;
          if m == 1 {
            assert Resets(start, 5) == Reset(w4);
          }
        }
      }
    }
  }

  /** The gauge used by one thread at a time; seen is what was observed since the last report. */
  class StatisticSetGauge {
    var count: int
    var sum: int
    var min: int
    var max: int
    ghost var seen: seq<int>

    ghost predicate Valid()
      reads this
    {
      AllI64(seen) && count >= 0 && Held(Cells(count, sum, min, max)) == Stats(seen)
    }

    constructor ()
      ensures Valid() && seen == []
    {
      count, sum, min, max := 0, 0, I64_MAX, I64_MIN;
      seen := [];
      new;
      assert Stats([]) == NO_VALUES;
    }

    method Observe(v: int)
      requires Valid() && IsI64(v)
      modifies this
      ensures Valid() && seen == old(seen) + [v]
    {
      hide Stats;
      count := count + 1;
      sum := sum + v;
      min := MinInt(min, v);
      max := MaxInt(max, v);
      StatsNext(seen, v);
      seen := seen + [v];
    }

    /** Every value appears in exactly one report: this one, if anything was observed since the last. */
    method Reset() returns (report: Option<StatisticSet>)
      requires Valid()
      modifies this
      ensures Valid() && seen == []
      ensures report == if old(seen) == [] then None else Some(Stats(old(seen)))
    {
      StatsDescribe(seen);
      assert Stats([]) == NO_VALUES;
      var loadedCount := count;
      if loadedCount == 0 {
        return None;
      }
      var loadedSum := sum;
      var takenMin := min;
      min := MaxInt(min, I64_MAX);
      var takenMax := max;
      max := MinInt(max, I64_MIN);
      var reportedSum := sum;
      sum := sum - loadedSum;
      var reportedCount := count;
      count := count - loadedCount;
      report := Some(StatisticSet(takenMin, takenMax, reportedSum, reportedCount));
      seen := [];
    }
  }

  // ----- the sum gauge: one atomic step each

  datatype SumEvent = Add(v: int) | Swap

  datatype SumWorld = SumWorld(cell: int, added: int, reports: seq<int>)

  function SumAdvance(w: SumWorld, e: SumEvent): SumWorld {
    match e
    case Add(v) => w.(cell := w.cell + v, added := w.added + v)
    case Swap => w.(cell := 0, reports := if w.cell == 0 then w.reports else w.reports + [w.cell])
  }

  function SumRun(events: seq<SumEvent>): SumWorld {
    Fold(SumAdvance, SumWorld(0, 0, []), events)
  }

  /** What is added in each interval between two swaps. */
  function SinceSwap(events: seq<SumEvent>): int {
    if events == [] || events[|events| - 1].Swap? then 0
    else SinceSwap(events[..|events| - 1]) + events[|events| - 1].v
  }

  /** The interval totals that are not zero, in order. */
  function Intervals(events: seq<SumEvent>): seq<int> {
    if events == [] then [] else
      var front := events[..|events| - 1];
      if events[|events| - 1].Swap? && SinceSwap(front) != 0 then Intervals(front) + [SinceSwap(front)]
      else Intervals(front)
  }

  /** The sum gauge reports each interval exactly, in every interleaving, and what was reported and what is left is
      everything that was added. */
  lemma {:induction false} SumGaugeExact(events: seq<SumEvent>)
    ensures SumRun(events).reports == Intervals(events) && SumRun(events).cell == SinceSwap(events)
    ensures SumOf(SumRun(events).reports) + SumRun(events).cell == SumRun(events).added
  {
    if events == [] {
      assert SumOf([]) == 0;
    } else {
      var front := events[..|events| - 1];
      SumGaugeExact(front);
      var w, w' := SumRun(front), SumRun(events);
      if w'.reports != w.reports {
        assert w'.reports[..|w'.reports| - 1] == w.reports;
      }
    }
  }

  class SumGauge {
    var sum: int
    ghost var seen: seq<int>

    ghost predicate Valid()
      reads this
    {
      sum == SumOf(seen)
    }

    constructor ()
      ensures Valid() && seen == []
    {
      sum, seen := 0, [];
    }

    method Observe(v: int)
      requires Valid()
      modifies this
      ensures Valid() && seen == old(seen) + [v]
    {
      sum := sum + v;
      seen := seen + [v];
      assert seen[..|seen| - 1] == old(seen);
    }

    method Reset() returns (report: Option<int>)
      requires Valid()
      modifies this
      ensures Valid() && seen == []
      ensures report == if SumOf(old(seen)) == 0 then None else Some(SumOf(old(seen)))
    {
      var taken := sum;
      sum := 0;
      seen := [];
      if taken == 0 {
        return None;
      }
      return Some(taken);
    }
  }
}
