/** Counting what a token spends in a period, against a ledger that never forgets. */
module Metering {
  import opened Bytes

  const PERIOD_HOURS := 24
  type Id = seq<int>

  datatype Spent = Spent(period: U64, bytes: U64)

  type Table = map<Id, Spent>

  datatype Answer = Allowed(remaining: nat) | OverQuota(limit: nat, used: nat)

  function Period(hour: U64): (p: U64)
    ensures p <= hour
  {
    hour / PERIOD_HOURS
  }

  // --- the counters ---

  datatype Outcome = Outcome(table: Table, answer: Answer)

  /** The counter a charge starts from: absent or stale counters count nothing. */
  function Entry(table: Table, id: Id, period: U64): (s: Spent)
    ensures s.period == period
  {
    var found := if id in table then table[id] else Spent(0, 0);
    if found.period != period then Spent(period, 0) else found
  }

  function Charged(table: Table, id: Id, limit: U64, bytes: U64, hour: U64): Outcome {
    if limit == 0 then Outcome(table, Allowed(U64_MAX))
    else
      var entry := Entry(table, id, Period(hour));
      var wouldBe := SaturatingAdd(entry.bytes, bytes);
      if wouldBe > limit then Outcome(table[id := entry], OverQuota(limit, entry.bytes))
      else Outcome(table[id := Spent(entry.period, wouldBe)], Allowed(limit - wouldBe))
  }

  function Swept(table: Table, hour: U64): Table {
    map id | id in table && table[id].period == Period(hour) :: table[id]
  }

  class Meter {
    var spent: Table

    constructor ()
      ensures spent == map[]
    {
      spent := map[];
    }

    /** A meter read back from what was saved, if anything was. */
    constructor Load(file: Saved, hour: U64)
      ensures spent == Swept(file.Held(), hour)
    {
      spent := file.Held();
      new;
      var dropped := Sweep(hour);
    }

    method Charge(id: Id, limit: U64, bytes: U64, hour: U64) returns (answer: Answer)
      modifies this
      ensures Outcome(spent, answer) == Charged(old(spent), id, limit, bytes, hour)
    {
      if limit == 0 {
        return Allowed(U64_MAX);
      }
      var period := Period(hour);
      if id !in spent {
        spent := spent[id := Spent(0, 0)];
      }
      if spent[id].period != period {
        spent := spent[id := Spent(period, 0)];
      }
      var wouldBe := SaturatingAdd(spent[id].bytes, bytes);
      if wouldBe > limit {
        return OverQuota(limit, spent[id].bytes);
      }
      spent := spent[id := Spent(spent[id].period, wouldBe)];
      answer := Allowed(limit - wouldBe);
    }

    method Sweep(hour: U64) returns (dropped: nat)
      modifies this
      ensures spent == Swept(old(spent), hour)
      ensures forall id :: id in spent <==>
        id in old(spent) && 24 * old(spent)[id].period <= hour < 24 * old(spent)[id].period + 24
      ensures forall id :: id in spent ==> spent[id] == old(spent)[id]
      ensures dropped == |old(spent)| - |spent|
    {
      var before := |spent|;
      SweptIsPart(spent, hour);
      spent := map id | id in spent && spent[id].period == Period(hour) :: spent[id];
      dropped := before - |spent|;
    }

    method Save() returns (file: Saved)
      ensures file == Snapshot(spent)
    {
      file := Snapshot(spent);
    }
  }

  lemma SweptIsPart(table: Table, hour: U64)
    ensures |Swept(table, hour)| <= |table|
  {
    SmallerKeys(Swept(table, hour).Keys, table.Keys);
    assert |Swept(table, hour).Keys| == |Swept(table, hour)| && |table.Keys| == |table|;
  }

  lemma {:induction false} SmallerKeys(a: set<Id>, b: set<Id>)
    requires a <= b
    ensures |a| <= |b|
    decreases a
  {
    if a != {} {
      var x :| x in a;
      SmallerKeys(a - {x}, b - {x});
    }
  }

  // --- the ledger ---

  datatype Line = Line(id: Id, period: U64, bytes: U64) {
    function Counts(who: Id, when: U64): (n: nat) {
      if id == who && period == when then bytes else 0
    }
  }

  type Ledger = seq<Line>

  /** Everything a token ever spent in one period. */
  function Sum(ledger: Ledger, id: Id, period: U64): nat {
    if ledger == [] then 0
    else Sum(ledger[..|ledger| - 1], id, period) + ledger[|ledger| - 1].Counts(id, period)
  }

  lemma SumAppend(ledger: Ledger, line: Line, id: Id, period: U64)
    ensures Sum(ledger + [line], id, period) ==
      Sum(ledger, id, period) + line.Counts(id, period)
  {
    assert (ledger + [line])[..|ledger|] == ledger;
  }

  datatype Entered = Entered(ledger: Ledger, answer: Answer)

  /** The same question put to the ledger; refusals and unmetered charges leave no line. */
  function Asked(ledger: Ledger, id: Id, limit: U64, bytes: U64, hour: U64): Entered {
    if limit == 0 then Entered(ledger, Allowed(U64_MAX))
    else
      var used := Sum(ledger, id, Period(hour));
      if Saturated(used + bytes) > limit then Entered(ledger, OverQuota(limit, Saturated(used)))
      else Entered(ledger + [Line(id, Period(hour), bytes)], Allowed(limit - Saturated(used + bytes)))
  }

  // --- counters that stand for a ledger ---

  /** In period `p` the counters hold what the ledger adds up to, and neither knows the future. */
  ghost predicate Stands(table: Table, ledger: Ledger, p: U64) {
    (forall id :: Entry(table, id, p).bytes == Saturated(Sum(ledger, id, p))) &&
    (forall id :: id in table ==> table[id].period <= p) &&
    forall i :: 0 <= i < |ledger| ==> ledger[i].period <= p
  }

  lemma NothingStands(p: U64)
    ensures Stands(map[], [], p)
  {
  }

  lemma {:induction false} NothingYet(ledger: Ledger, id: Id, p: U64)
    requires forall i :: 0 <= i < |ledger| ==> ledger[i].period < p
    ensures Sum(ledger, id, p) == 0
  {
    if ledger != [] {
      NothingYet(ledger[..|ledger| - 1], id, p);
    }
  }

  /** Counters stand for their ledger as the clock moves on. */
  lemma StandsLater(table: Table, ledger: Ledger, p: U64, later: U64)
    requires Stands(table, ledger, p) && p <= later
    ensures Stands(table, ledger, later)
  {
    if p < later {
      forall id ensures Entry(table, id, later).bytes == Saturated(Sum(ledger, id, later)) {
        NothingYet(ledger, id, later);
      }
    }
  }

  /** A charge is answered as the ledger answers it, and leaves the two standing together. */
  lemma ChargeStands(table: Table, ledger: Ledger, id: Id, limit: U64, bytes: U64, hour: U64)
    requires Stands(table, ledger, Period(hour))
    ensures var meter, book := Charged(table, id, limit, bytes, hour), Asked(ledger, id, limit, bytes, hour);
      meter.answer == book.answer && Stands(meter.table, book.ledger, Period(hour))
  {
    hide Sum;
    hide Period;
    var p := Period(hour);
    var meter, book := Charged(table, id, limit, bytes, hour), Asked(ledger, id, limit, bytes, hour);
    if limit != 0 {
      assert Entry(table, id, p).bytes == Saturated(Sum(ledger, id, p));
      forall other ensures Entry(meter.table, other, p).bytes == Saturated(Sum(book.ledger, other, p)) {
        assert Entry(table, other, p).bytes == Saturated(Sum(ledger, other, p));
        SumAppend(ledger, Line(id, p, bytes), other, p);
      }
    }
  }

  lemma SweepStands(table: Table, ledger: Ledger, hour: U64)
    requires Stands(table, ledger, Period(hour))
    ensures Stands(Swept(table, hour), ledger, Period(hour))
  {
    var p := Period(hour);
    forall id ensures Entry(Swept(table, hour), id, p).bytes == Saturated(Sum(ledger, id, p)) {
      assert Entry(table, id, p).bytes == Saturated(Sum(ledger, id, p));
    }
  }

  // --- runs ---

  /** What is on disk: nothing before the first save. */
  datatype Saved = Missing | Snapshot(counters: Table) {
    function Held(): Table {
      if Missing? then map[] else counters
    }
  }

  datatype Action = Charge(id: Id, limit: U64, bytes: U64) | Sweep | Save | Restart

  datatype Event = Event(hour: U64, action: Action)

  datatype World = World(table: Table, file: Saved)

  /** The ledger, and the copy of it that a restart goes back to. */
  datatype Book = Book(ledger: Ledger, copy: Ledger)

  function Step(w: World, e: Event): World {
    match e.action
    case Charge(id, limit, bytes) => World(Charged(w.table, id, limit, bytes, e.hour).table, w.file)
    case Sweep => World(Swept(w.table, e.hour), w.file)
    case Save => World(w.table, Snapshot(w.table))
    case Restart => World(Swept(w.file.Held(), e.hour), w.file)
  }

  function StepBook(b: Book, e: Event): Book {
    match e.action
    case Charge(id, limit, bytes) => Book(Asked(b.ledger, id, limit, bytes, e.hour).ledger, b.copy)
    case Sweep => b
    case Save => Book(b.ledger, b.ledger)
    case Restart => Book(b.copy, b.copy)
  }

  function Answers(w: World, events: seq<Event>): (answers: seq<Answer>)
    decreases |events|
  {
    if events == [] then []
    else
      var e := events[0];
      (match e.action
       case Charge(id, limit, bytes) => [Charged(w.table, id, limit, bytes, e.hour).answer]
       case _ => []) + Answers(Step(w, e), events[1..])
  }

  function BookAnswers(b: Book, events: seq<Event>): (answers: seq<Answer>)
    decreases |events|
  {
    if events == [] then []
    else
      var e := events[0];
      (match e.action
       case Charge(id, limit, bytes) => [Asked(b.ledger, id, limit, bytes, e.hour).answer]
       case _ => []) + BookAnswers(StepBook(b, e), events[1..])
  }

  /** A clock that never goes back. */
  ghost predicate Forward(hour: U64, events: seq<Event>)
    decreases |events|
  {
    events == [] || (hour <= events[0].hour && Forward(events[0].hour, events[1..]))
  }

  ghost predicate WorldStands(w: World, b: Book, hour: U64) {
    Stands(w.table, b.ledger, Period(hour)) && Stands(w.file.Held(), b.copy, Period(hour))
  }

  lemma StepStands(w: World, b: Book, hour: U64, e: Event)
    requires WorldStands(w, b, hour) && hour <= e.hour
    ensures WorldStands(Step(w, e), StepBook(b, e), e.hour)
    ensures e.action.Charge? ==>
      Charged(w.table, e.action.id, e.action.limit, e.action.bytes, e.hour).answer ==
      Asked(b.ledger, e.action.id, e.action.limit, e.action.bytes, e.hour).answer
  {
    hide Stands;
    hide Charged;
    hide Asked;
    hide Swept;
    StandsLater(w.table, b.ledger, Period(hour), Period(e.hour));
    StandsLater(w.file.Held(), b.copy, Period(hour), Period(e.hour));
    match e.action
    case Charge(id, limit, bytes) => ChargeStands(w.table, b.ledger, id, limit, bytes, e.hour);
    case Sweep => SweepStands(w.table, b.ledger, e.hour);
    case Save =>
    case Restart => SweepStands(w.file.Held(), b.copy, e.hour);
  }

  /**
   * Whatever order charges, sweeps, saves and restarts come in, every answer is
   * the one the ledger gives: counters forget only what no question asks about.
   */
  lemma {:induction false} MeterIsLedger(w: World, b: Book, hour: U64, events: seq<Event>)
    requires WorldStands(w, b, hour) && Forward(hour, events)
    ensures Answers(w, events) == BookAnswers(b, events)
    decreases |events|
  {
    hide WorldStands;
    hide Charged;
    hide Asked;
    if events != [] {
      StepStands(w, b, hour, events[0]);
      MeterIsLedger(Step(w, events[0]), StepBook(b, events[0]), events[0].hour, events[1..]);
    }
  }

  /** A refused charge leaves no trace in any later answer. */
  lemma RefusalChangesNothing(w: World, b: Book, hour: U64, refused: Event, events: seq<Event>)
    requires WorldStands(w, b, hour) && Forward(hour, [refused] + events)
    requires refused.action.Charge?
    requires Charged(w.table, refused.action.id, refused.action.limit, refused.action.bytes, refused.hour).answer.OverQuota?
    ensures Answers(Step(w, refused), events) == Answers(w, events)
  {
    assert ([refused] + events)[1..] == events;
    StepStands(w, b, hour, refused);
    assert StepBook(b, refused) == b;
    MeterIsLedger(Step(w, refused), b, refused.hour, events);
    ForwardEarlier(hour, refused.hour, events);
    MeterIsLedger(w, b, hour, events);
  }

  lemma ForwardEarlier(earlier: U64, hour: U64, events: seq<Event>)
    requires earlier <= hour && Forward(hour, events)
    ensures Forward(earlier, events)
  {
  }

  // --- a ledger that nothing rolls back ---

  /** Whether an event puts a line in the ledger: a metered charge that is allowed. */
  predicate Enters(w: World, e: Event) {
    match e.action
    case Charge(id, limit, bytes) => limit > 0 && Charged(w.table, id, limit, bytes, e.hour).answer.Allowed?
    case _ => false
  }

  /** Whether everything that counts is on disk after an event, given whether it was before. */
  predicate SavedAfter(w: World, saved: bool, e: Event) {
    e.action.Save? || (saved && !Enters(w, e))
  }

  /** Every restart finds on disk all that was accepted. */
  ghost predicate Orderly(w: World, saved: bool, events: seq<Event>)
    decreases |events|
  {
    events == [] ||
    ((events[0].action.Restart? ==> saved) &&
     Orderly(Step(w, events[0]), SavedAfter(w, saved, events[0]), events[1..]))
  }

  /** The answers of a ledger that sweeps, saves and restarts never touch. */
  function ForeverAnswers(ledger: Ledger, events: seq<Event>): (answers: seq<Answer>)
    decreases |events|
  {
    if events == [] then []
    else
      match events[0].action
      case Charge(id, limit, bytes) =>
        var asked := Asked(ledger, id, limit, bytes, events[0].hour);
        [asked.answer] + ForeverAnswers(asked.ledger, events[1..])
      case _ => ForeverAnswers(ledger, events[1..])
  }

  /** One event of an orderly run: the copy on disk is the ledger whenever it has to be. */
  lemma OrderlyStep(w: World, b: Book, hour: U64, saved: bool, e: Event)
    requires WorldStands(w, b, hour) && hour <= e.hour && (saved ==> b.copy == b.ledger)
    requires e.action.Restart? ==> saved
    ensures SavedAfter(w, saved, e) ==> StepBook(b, e).copy == StepBook(b, e).ledger
    ensures !e.action.Charge? ==> StepBook(b, e).ledger == b.ledger
  {
    hide WorldStands;
    hide Charged;
    if e.action.Charge? {
      StepStands(w, b, hour, e);
    }
  }

  /**
   * As long as every restart finds on disk all that was accepted, the meter
   * answers like a ledger that keeps every accepted charge for ever: sweeping
   * and restarting make no difference to anything.
   */
  lemma {:induction false} MeterNeverForgets(w: World, b: Book, hour: U64, saved: bool, events: seq<Event>)
    requires WorldStands(w, b, hour) && Forward(hour, events) && Orderly(w, saved, events)
    requires saved ==> b.copy == b.ledger
    ensures Answers(w, events) == ForeverAnswers(b.ledger, events)
    decreases |events|
  {
    hide WorldStands;
    hide Charged;
    hide Asked;
    hide SavedAfter;
    if events != [] {
      var e := events[0];
      StepStands(w, b, hour, e);
      OrderlyStep(w, b, hour, saved, e);
      MeterNeverForgets(Step(w, e), StepBook(b, e), e.hour, SavedAfter(w, saved, e), events[1..]);
    }
  }

  /** From a first start, in particular. */
  lemma FirstStartNeverForgets(events: seq<Event>)
    requires Forward(0, events) && Orderly(World(map[], Missing), true, events)
    ensures Answers(World(map[], Missing), events) == ForeverAnswers([], events)
  {
    NothingStands(0);
    MeterNeverForgets(World(map[], Missing), Book([], []), 0, true, events);
  }

  // --- quotas ---

  /** Each metered token keeps one limit, below the largest a counter holds. */
  ghost predicate FixedLimits(limits: map<Id, U64>, events: seq<Event>) {
    forall i :: 0 <= i < |events| && events[i].action.Charge? ==>
      var a := events[i].action;
      a.limit == 0 || (a.id in limits && a.limit == limits[a.id] && a.limit < U64_MAX)
  }

  /** The lines of every metered charge that was allowed, whatever happened to the counters since. */
  function Accepted(w: World, events: seq<Event>): (lines: Ledger)
    decreases |events|
  {
    if events == [] then []
    else
      var e := events[0];
      NewLines(w, e) + Accepted(Step(w, e), events[1..])
  }

  function NewLines(w: World, e: Event): Ledger {
    if Enters(w, e) then [Line(e.action.id, Period(e.hour), e.action.bytes)] else []
  }

  ghost predicate Within(ledger: Ledger, limits: map<Id, U64>) {
    forall id, p :: Sum(ledger, id, p) <= if id in limits then limits[id] else 0
  }

  lemma AskedWithin(ledger: Ledger, limits: map<Id, U64>, id: Id, limit: U64, bytes: U64, hour: U64)
    requires Within(ledger, limits)
    requires limit == 0 || (id in limits && limit == limits[id] && limit < U64_MAX)
    ensures Within(Asked(ledger, id, limit, bytes, hour).ledger, limits)
  {
    var after := Asked(ledger, id, limit, bytes, hour).ledger;
    forall other, p ensures Sum(after, other, p) <= if other in limits then limits[other] else 0 {
      assert Sum(ledger, other, p) <= if other in limits then limits[other] else 0;
      SumAppend(ledger, Line(id, Period(hour), bytes), other, p);
    }
  }

  /** Across orderly restarts, what was accepted before and during the run stays within every limit. */
  lemma {:induction false} QuotaHolds(w: World, b: Book, hour: U64, saved: bool, events: seq<Event>, limits: map<Id, U64>)
    requires WorldStands(w, b, hour) && Forward(hour, events) && Orderly(w, saved, events)
    requires FixedLimits(limits, events) && Within(b.ledger, limits)
    requires saved ==> b.copy == b.ledger
    ensures Within(b.ledger + Accepted(w, events), limits)
    decreases |events|
  {
    hide WorldStands;
    hide Charged;
    hide Within;
    hide SavedAfter;
    if events == [] {
      assert b.ledger + [] == b.ledger;
    } else {
      var e := events[0];
      StepStands(w, b, hour, e);
      OrderlyStep(w, b, hour, saved, e);
      var next := StepBook(b, e);
      LimitsLater(limits, events);
      LedgerGrows(w, b, hour, e);
      if e.action.Charge? {
        AskedWithin(b.ledger, limits, e.action.id, e.action.limit, e.action.bytes, e.hour);
      }
      QuotaHolds(Step(w, e), next, e.hour, SavedAfter(w, saved, e), events[1..], limits);
      assert next.ledger == b.ledger + NewLines(w, e);
      Assoc(b.ledger, NewLines(w, e), Accepted(Step(w, e), events[1..]));
    }
  }

  lemma LedgerGrows(w: World, b: Book, hour: U64, e: Event)
    requires WorldStands(w, b, hour) && hour <= e.hour
    ensures !e.action.Restart? ==>
      StepBook(b, e).ledger == b.ledger + NewLines(w, e)
  {
    hide WorldStands;
    hide Charged;
    StepStands(w, b, hour, e);
    assert b.ledger + [] == b.ledger;
  }

  lemma LimitsLater(limits: map<Id, U64>, events: seq<Event>)
    requires FixedLimits(limits, events) && events != []
    ensures FixedLimits(limits, events[1..])
    ensures events[0].action.Charge? ==>
      var a := events[0].action;
      a.limit == 0 || (a.id in limits && a.limit == limits[a.id] && a.limit < U64_MAX)
  {
    assert events[0].action.Charge? ==> events[0].action.limit == 0 || events[0].action.id in limits;
  }

  /** From a first start, no token is allowed more than its limit on any day. */
  lemma QuotaFromStart(events: seq<Event>, limits: map<Id, U64>, id: Id, p: U64)
    requires Forward(0, events) && Orderly(World(map[], Missing), true, events) && FixedLimits(limits, events)
    ensures Sum(Accepted(World(map[], Missing), events), id, p) <= if id in limits then limits[id] else 0
    ensures SpentBetween(World(map[], Missing), events, id, 24 * p, 24 * p + 24) <= if id in limits then limits[id] else 0
  {
    SpentIsSum(World(map[], Missing), events, id, p);
    var w := World(map[], Missing);
    NothingStands(0);
    QuotaHolds(w, Book([], []), 0, true, events, limits);
    assert [] + Accepted(w, events) == Accepted(w, events);
  }

  // --- days ---

  /** What one token was allowed at hours from `from` on and before `to`. */
  function SpentBetween(w: World, events: seq<Event>, id: Id, from: nat, to: nat): nat
    decreases |events|
  {
    if events == [] then 0
    else
      var e := events[0];
      (if Enters(w, e) && e.action.id == id && from <= e.hour < to then e.action.bytes else 0) +
      SpentBetween(Step(w, e), events[1..], id, from, to)
  }

  lemma {:induction false} SumConcat(a: Ledger, b: Ledger, id: Id, p: U64)
    ensures Sum(a + b, id, p) == Sum(a, id, p) + Sum(b, id, p)
    decreases |b|
  {
    hide *;
    if b == [] {
      NoMoreLines(a, id, p);
    } else {
      var rest, last := b[..|b| - 1], b[|b| - 1];
      LastLine(a, b);
      SumConcat(a, rest, id, p);
      SumAppend(rest, last, id, p);
      SumAppend(a + rest, last, id, p);
    }
  }

  lemma NoMoreLines(a: Ledger, id: Id, p: U64)
    ensures a + [] == a && Sum([], id, p) == 0
  {
  }

  lemma LastLine(a: Ledger, b: Ledger)
    requires b != []
    ensures var rest, last := b[..|b| - 1], b[|b| - 1];
      b == rest + [last] && a + b == (a + rest) + [last]
  {
  }

  lemma {:induction false} SpentIsSum(w: World, events: seq<Event>, id: Id, day: U64)
    ensures SpentBetween(w, events, id, 24 * day, 24 * day + 24) == Sum(Accepted(w, events), id, day)
    decreases |events|
  {
    hide Charged;
    hide Step;
    if events != [] {
      var e := events[0];
      SpentIsSum(Step(w, e), events[1..], id, day);
      SumConcat(NewLines(w, e), Accepted(Step(w, e), events[1..]), id, day);
      if Enters(w, e) {
        SumAppend([], Line(e.action.id, Period(e.hour), e.action.bytes), id, day);
        assert [] + NewLines(w, e) == NewLines(w, e);
      }
    }
  }

  /** The next charge of an orderly run is put to everything the run was allowed. */
  lemma {:induction false} LastAnswer(w: World, b: Book, hour: U64, saved: bool, events: seq<Event>, e: Event)
    requires WorldStands(w, b, hour) && Forward(hour, events + [e]) && Orderly(w, saved, events) && e.action.Charge?
    requires saved ==> b.copy == b.ledger
    ensures Answers(w, events + [e]) == Answers(w, events) +
      [Asked(b.ledger + Accepted(w, events), e.action.id, e.action.limit, e.action.bytes, e.hour).answer]
    decreases |events|
  {
    hide *;
    if events == [] {
      FirstAnswer(w, b, hour, e);
    } else {
      var first, rest := events[0], events[1..];
      OneEvent(w, hour, saved, events, e);
      StepStands(w, b, hour, first);
      OrderlyStep(w, b, hour, saved, first);
      LedgerGrows(w, b, hour, first);
      if first.action.Restart? {
        RestartKeeps(w, b, saved, first);
      }
      LastAnswer(Step(w, first), StepBook(b, first), first.hour, SavedAfter(w, saved, first), rest, e);
      var all := b.ledger + Accepted(w, events);
      Assoc(Replied(w, first), Answers(Step(w, first), rest),
            [Asked(all, e.action.id, e.action.limit, e.action.bytes, e.hour).answer]);
      Assoc(b.ledger, NewLines(w, first), Accepted(Step(w, first), rest));
    }
  }

  lemma FirstAnswer(w: World, b: Book, hour: U64, e: Event)
    requires WorldStands(w, b, hour) && Forward(hour, [] + [e]) && e.action.Charge?
    ensures Answers(w, [] + [e]) == Answers(w, []) +
      [Asked(b.ledger + Accepted(w, []), e.action.id, e.action.limit, e.action.bytes, e.hour).answer]
  {
    hide WorldStands;
    hide Charged;
    hide Asked;
    assert [] + [e] == [e] && [e][1..] == [];
    assert b.ledger + [] == b.ledger;
    StepStands(w, b, hour, e);
  }

  /** What an event is answered with: only charges are. */
  function Replied(w: World, e: Event): seq<Answer> {
    match e.action
    case Charge(id, limit, bytes) => [Charged(w.table, id, limit, bytes, e.hour).answer]
    case _ => []
  }

  /** The first event of a run that ends in `e`. */
  lemma OneEvent(w: World, hour: U64, saved: bool, events: seq<Event>, e: Event)
    requires events != [] && Forward(hour, events + [e]) && Orderly(w, saved, events)
    ensures var first, rest := events[0], events[1..];
      hour <= first.hour && Forward(first.hour, rest + [e]) && (first.action.Restart? ==> saved) &&
      Orderly(Step(w, first), SavedAfter(w, saved, first), rest) &&
      Accepted(w, events) == NewLines(w, first) + Accepted(Step(w, first), rest) &&
      Answers(w, events) == Replied(w, first) + Answers(Step(w, first), rest) &&
      Answers(w, events + [e]) == Replied(w, first) + Answers(Step(w, first), rest + [e])
  {
    hide Charged;
    hide Step;
    hide SavedAfter;
    hide NewLines;
    assert (events + [e])[0] == events[0] && (events + [e])[1..] == events[1..] + [e];
  }

  lemma RestartKeeps(w: World, b: Book, saved: bool, e: Event)
    requires e.action.Restart? && saved && b.copy == b.ledger
    ensures StepBook(b, e).ledger == b.ledger + NewLines(w, e)
  {
    assert b.ledger + [] == b.ledger;
  }

  /**
   * Days are 24 hours from hour zero. From a first start, whatever happened on
   * other days, a charge is allowed exactly if it fits in the limit together with
   * what was allowed on its own day, and is told what that leaves.
   */
  lemma {:induction false} AnsweredByTheDay(events: seq<Event>, e: Event, day: U64)
    requires Forward(0, events + [e]) && Orderly(World(map[], Missing), true, events) && e.action.Charge?
    requires 24 * day <= e.hour < 24 * day + 24
    ensures var first := World(map[], Missing);
      var a := e.action;
      var used := SpentBetween(first, events, a.id, 24 * day, 24 * day + 24);
      Answers(first, events + [e]) == Answers(first, events) + [
        if a.limit == 0 then Allowed(U64_MAX)
        else if Saturated(used + a.bytes) <= a.limit then Allowed(a.limit - Saturated(used + a.bytes))
        else OverQuota(a.limit, Saturated(used))]
  {
    hide Answers;
    hide Accepted;
    hide SpentBetween;
    hide Sum;
    var first := World(map[], Missing);
    NothingStands(0);
    LastAnswer(first, Book([], []), 0, true, events, e);
    SpentIsSum(first, events, e.action.id, day);
    assert [] + Accepted(first, events) == Accepted(first, events);
  }

  function Run(w: World, events: seq<Event>): World
    decreases |events|
  {
    if events == [] then w else Run(Step(w, events[0]), events[1..])
  }

  lemma {:induction false} AnswersAfter(w: World, events: seq<Event>, more: seq<Event>)
    ensures Answers(w, events + more) == Answers(w, events) + Answers(Run(w, events), more)
    decreases |events|
  {
    hide Charged;
    hide Step;
    if events == [] {
      assert events + more == more;
    } else {
      AnswersAfter(Step(w, events[0]), events[1..], more);
      assert (events + more)[1..] == events[1..] + more;
    }
  }

  /** Neither the counters nor the file have anything of day `day` or later. */
  ghost predicate Behind(w: World, day: nat) {
    (forall id :: id in w.table ==> w.table[id].period < day) &&
    forall id :: id in w.file.Held() ==> w.file.Held()[id].period < day
  }

  lemma {:induction false} RunBehind(w: World, events: seq<Event>, day: nat)
    requires Behind(w, day) && forall i :: 0 <= i < |events| ==> events[i].hour < 24 * day
    ensures Behind(Run(w, events), day)
    decreases |events|
  {
    if events != [] {
      StepBehind(w, events[0], day);
      hide Behind;
      hide Step;
      RunBehind(Step(w, events[0]), events[1..], day);
    }
  }

  lemma StepBehind(w: World, e: Event, day: nat)
    requires Behind(w, day) && e.hour < 24 * day
    ensures Behind(Step(w, e), day)
  {
    assert Period(e.hour) < day;
  }

  /** What is left after a charge to a token that has spent `used` so far. */
  function Reply(limit: nat, used: nat, bytes: nat): Answer {
    if used + bytes <= limit then Allowed(limit - (used + bytes)) else OverQuota(limit, used)
  }

  /** A day begins with the whole limit, whatever was spent, saved or lost before it. */
  lemma {:induction false} QuotaRenews(events: seq<Event>, day: nat, e: Event)
    requires forall i :: 0 <= i < |events| ==> events[i].hour < 24 * day
    requires e.hour >= 24 * day && e.action.Charge? && 0 < e.action.limit
    ensures var first := World(map[], Missing);
      Answers(first, events + [e]) == Answers(first, events) + [Reply(e.action.limit, 0, e.action.bytes)]
  {
    var first := World(map[], Missing);
    var w := Run(first, events);
    assert Behind(first, day);
    hide Charged;
    hide Entry;
    hide Reply;
    hide Run;
    hide Behind;
    hide Answers;
    AnswersAfter(first, events, [e]);
    RunBehind(first, events, day);
    NewDay(w, day, e.action.id, e.action.limit, e.action.bytes, e.hour);
    OneAnswer(w, e);
  }

  lemma OneAnswer(w: World, e: Event)
    requires e.action.Charge?
    ensures Answers(w, [e]) == [Charged(w.table, e.action.id, e.action.limit, e.action.bytes, e.hour).answer]
  {
    hide Charged;
    assert [e][1..] == [];
  }

  lemma NewDay(w: World, day: nat, id: Id, limit: U64, bytes: U64, hour: U64)
    requires Behind(w, day) && hour >= 24 * day && limit > 0
    ensures Charged(w.table, id, limit, bytes, hour).answer == Reply(limit, 0, bytes)
    ensures Entry(Charged(w.table, id, limit, bytes, hour).table, id, Period(hour)).bytes == if bytes <= limit then bytes else 0
  {
    assert Period(hour) >= day;
  }

  /** And what is allowed in it counts until it ends. */
  lemma {:induction false} QuotaIsKept(events: seq<Event>, day: nat, a: Event, b: Event)
    requires forall i :: 0 <= i < |events| ==> events[i].hour < 24 * day
    requires 24 * day <= a.hour < 24 * day + 24 && 24 * day <= b.hour < 24 * day + 24
    requires a.action.Charge? && b.action.Charge? && a.action.id == b.action.id
    requires 0 < a.action.limit && 0 < b.action.limit < U64_MAX
    ensures var first := World(map[], Missing);
      var used := if a.action.bytes <= a.action.limit then a.action.bytes else 0;
      Answers(first, events + [a, b]) ==
        Answers(first, events) + [Reply(a.action.limit, 0, a.action.bytes), Reply(b.action.limit, used, b.action.bytes)]
  {
    var first := World(map[], Missing);
    var w := Run(first, events);
    assert Behind(first, day) && Period(a.hour) == Period(b.hour);
    assert Step(w, a).table == Charged(w.table, a.action.id, a.action.limit, a.action.bytes, a.hour).table;
    hide Step;
    hide Charged;
    hide Entry;
    hide Reply;
    hide Run;
    hide Behind;
    hide Answers;
    AnswersAfter(first, events, [a, b]);
    RunBehind(first, events, day);
    NewDay(w, day, a.action.id, a.action.limit, a.action.bytes, a.hour);
    SecondCharge(Step(w, a).table, b.action.id, b.action.limit, b.action.bytes, b.hour);
    TwoAnswers(w, a, b);
  }

  lemma SecondCharge(table: Table, id: Id, limit: U64, bytes: U64, hour: U64)
    requires 0 < limit < U64_MAX
    ensures Charged(table, id, limit, bytes, hour).answer == Reply(limit, Entry(table, id, Period(hour)).bytes, bytes)
  {
  }

  lemma TwoAnswers(w: World, a: Event, b: Event)
    requires a.action.Charge? && b.action.Charge?
    ensures Answers(w, [a, b]) ==
      [Charged(w.table, a.action.id, a.action.limit, a.action.bytes, a.hour).answer,
       Charged(Step(w, a).table, b.action.id, b.action.limit, b.action.bytes, b.hour).answer]
  {
    hide Charged;
    hide Step;
    assert [a, b][1..] == [b] && [b][1..] == [];
    assert Answers(Step(w, a), [b]) == [Charged(Step(w, a).table, b.action.id, b.action.limit, b.action.bytes, b.hour).answer] + [];
  }

  // --- the largest limit ---

  /** The largest limit is no limit: a saturated counter still fits it. */
  lemma LargestLimitNeverRefuses(table: Table, id: Id, bytes: U64, hour: U64)
    ensures Charged(table, id, U64_MAX, bytes, hour).answer.Allowed?
  {
  }

  /** So two halves and a bit are both accepted, and add up to more than the limit. */
  lemma LargestLimitOvershoots(id: Id)
    ensures var half := 0x8000_0000_0000_0000;
      var charge := Event(0, Charge(id, U64_MAX, half));
      Sum(Accepted(World(map[], Missing), [charge, charge]), id, 0) > U64_MAX
  {
    var half: U64 := 0x8000_0000_0000_0000;
    var charge := Event(0, Charge(id, U64_MAX, half));
    var w := World(map[], Missing);
    var line := Line(id, 0, half);
    assert [charge, charge][1..] == [charge] && [charge][1..] == [];
    assert Accepted(Step(w, charge), [charge]) == [line] + [];
    assert Accepted(w, [charge, charge]) == [line] + ([line] + []);
    assert [line] + ([line] + []) == ([] + [line]) + [line];
    SumAppend([] + [line], line, id, 0);
    SumAppend([], line, id, 0);
  }

  /** A restart without a save hands out the allowance again. */
  lemma UnsavedRestartForgets(id: Id, limit: U64)
    requires 0 < limit < U64_MAX
    ensures var charge := Event(0, Charge(id, limit, limit));
      Answers(World(map[], Missing), [charge, Event(0, Restart), charge]) == [Allowed(0), Allowed(0)]
  {
    var charge, restart := Event(0, Charge(id, limit, limit)), Event(0, Restart);
    var w := World(map[], Missing);
    var events := [charge, restart, charge];
    assert events[1..] == [restart, charge] && [restart, charge][1..] == [charge] && [charge][1..] == [];
    var again := Step(Step(w, charge), restart);
    assert again.table == map[];
    assert Answers(again, [charge]) == [Allowed(0)] + [];
    assert Answers(Step(w, charge), [restart, charge]) == [] + Answers(again, [charge]);
  }
}
