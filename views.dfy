/**
 * The logbook list page (filters, filtered totals, all-time and 30-day statistics, the
 * most-flown UAV type), over the stored entries as a sequence.
 */
module Views {
  import opened Wrappers
  import opened Calendar
  import opened Models
  import opened Ordering
  import opened Sequences

  /** What a view call can raise. */
  datatype Error =
    | OverflowError                      // a date before 0001-01-01
    | FieldError(field: string)          // a query names a field the model does not have
    | AttributeError(attribute: string)  // an entry is asked for an attribute it does not have

  // ---- Case-insensitive substring match (`__icontains`) ----

  function LowerChar(c: char): char {
    if 'A' <= c <= 'Z' then (c as int + 32) as char else c
  }

  function Lower(s: string): (r: string)
    ensures |r| == |s|
    ensures forall i :: 0 <= i < |s| ==> r[i] == LowerChar(s[i])
  {
    seq(|s|, i requires 0 <= i < |s| => LowerChar(s[i]))
  }

  /** `needle` occurs in `hay` starting at position `i`. */
  predicate OccursAt(hay: string, needle: string, i: nat) {
    i + |needle| <= |hay| && hay[i..i + |needle|] == needle
  }

  function Contains(hay: string, needle: string): (b: bool)
    ensures b <==> exists i: nat :: OccursAt(hay, needle, i)
    decreases |hay|
  {
    if |needle| > |hay| then false
    else if hay[..|needle|] == needle then
      assert OccursAt(hay, needle, 0);
      true
    else if |hay| == 0 then false
    else
      var b := Contains(hay[1..], needle);
      assert b ==> exists i: nat :: OccursAt(hay, needle, i) by {
        if b {
          var i: nat :| OccursAt(hay[1..], needle, i);
          assert hay[1..][i..i + |needle|] == hay[i + 1..i + 1 + |needle|];
          assert OccursAt(hay, needle, i + 1);
        }
      }
      assert (exists i: nat :: OccursAt(hay, needle, i)) ==> b by {
        if exists i: nat :: OccursAt(hay, needle, i) {
          var i: nat :| OccursAt(hay, needle, i);
          assert i != 0;
          assert hay[1..][i - 1..i - 1 + |needle|] == hay[i..i + |needle|];
          assert OccursAt(hay[1..], needle, i - 1);
        }
      }
      b
  }

  /** SQL `LIKE '%needle%'` without regard to (ASCII) letter case. */
  function ContainsIgnoreCase(hay: string, needle: string): (b: bool)
    ensures b <==> exists i: nat :: OccursAt(Lower(hay), Lower(needle), i)
  {
    Contains(Lower(hay), Lower(needle))
  }

  /** Stored UAV configuration codes matched the way the `uav` parameter matches them. */
  lemma IcontainsExample()
    ensures ContainsIgnoreCase("MULTI", "Multi")
    ensures ContainsIgnoreCase("FIXED", "ix")
    ensures !ContainsIgnoreCase("HELI", "multi")
  {
    assert OccursAt(Lower("MULTI"), Lower("Multi"), 0);
    assert OccursAt(Lower("FIXED"), Lower("ix"), 1);
  }

  // ---- Filtering ----

  /** One `filter(...)` condition on an entry. */
  datatype Condition =
    | OnOrAfter(from: Date)         // date__gte
    | OnOrBefore(until: Date)       // date__lte
    | UavTypeContains(text: string) // uav_type__icontains
    | RoleIs(code: string)          // pilot_role=
    | UavTypeIs(uav: string)        // one group of values("uav_type")

  predicate Holds(c: Condition, e: Entry) {
    match c
    case OnOrAfter(from) => DateLe(from, e.date)
    case OnOrBefore(until) => DateLe(e.date, until)
    case UavTypeContains(text) => ContainsIgnoreCase(e.uavType, text)
    case RoleIs(code) => e.pilotRole == code
    case UavTypeIs(uav) => e.uavType == uav
  }

  /** The entries of `s` that satisfy `c`, in the order of `s`. */
  function Narrow(s: seq<Entry>, c: Condition): seq<Entry> {
    Filter(s, e => Holds(c, e))
  }

  /** Narrowing keeps every copy of an entry that satisfies the condition, and no other entry. */
  lemma NarrowCount(s: seq<Entry>, c: Condition, e: Entry)
    ensures multiset(Narrow(s, c))[e] == if Holds(c, e) then multiset(s)[e] else 0
  {
    FilterCount(s, e => Holds(c, e), e);
  }

  lemma NarrowSubset(s: seq<Entry>, c: Condition)
    ensures multiset(Narrow(s, c)) <= multiset(s)
  {
    FilterSubset(s, e => Holds(c, e));
  }

  lemma AllNarrowsSubset()
    ensures forall s: seq<Entry>, c: Condition :: multiset(Narrow(s, c)) <= multiset(s)
  {
    forall s: seq<Entry>, c: Condition
      ensures multiset(Narrow(s, c)) <= multiset(s)
    {
      NarrowSubset(s, c);
    }
  }

  lemma NarrowAppend(a: seq<Entry>, b: seq<Entry>, c: Condition)
    ensures Narrow(a + b, c) == Narrow(a, c) + Narrow(b, c)
  {
    FilterAppend(a, b, e => Holds(c, e));
  }

  lemma NarrowSingle(x: Entry, c: Condition)
    ensures Narrow([x], c) == if Holds(c, x) then [x] else []
  {
    FilterSingle(x, e => Holds(c, e));
  }

  lemma NarrowKeepsAll(s: seq<Entry>, c: Condition)
    requires forall i :: 0 <= i < |s| ==> Holds(c, s[i])
    ensures Narrow(s, c) == s
  {
    FilterKeepsAll(s, e => Holds(c, e));
  }

  /** The list page's query parameters; `None` stands for a parameter that is absent or empty. */
  datatype Query = Query(start: Option<Date>, end: Option<Date>, uav: Option<string>, role: Option<string>)

  /** A text parameter constrains only when present and not empty. */
  predicate Given(p: Option<string>) {
    p.Some? && p.value != ""
  }

  /** An entry is listed when it satisfies every supplied parameter. */
  predicate Matches(e: Entry, q: Query) {
    (q.start.Some? ==> DateLe(q.start.value, e.date)) &&
    (q.end.Some? ==> DateLe(e.date, q.end.value)) &&
    (Given(q.uav) ==> ContainsIgnoreCase(e.uavType, q.uav.value)) &&
    (Given(q.role) ==> e.pilotRole == q.role.value)
  }

  /** The conditions, applied one after another as the list view chains them. */
  function ApplyFilters(flights: seq<Entry>, q: Query): (r: seq<Entry>)
    ensures multiset(r) <= multiset(flights)
  {
    AllNarrowsSubset();
    var byStart := if q.start.Some? then Narrow(flights, OnOrAfter(q.start.value)) else flights;
    var byEnd := if q.end.Some? then Narrow(byStart, OnOrBefore(q.end.value)) else byStart;
    var byUav := if Given(q.uav) then Narrow(byEnd, UavTypeContains(q.uav.value)) else byEnd;
    var byRole := if Given(q.role) then Narrow(byUav, RoleIs(q.role.value)) else byUav;
    assert multiset(byRole) <= multiset(byUav) <= multiset(byEnd) <= multiset(byStart) <= multiset(flights);
    byRole
  }

  lemma ApplyFiltersAppend(a: seq<Entry>, b: seq<Entry>, q: Query)
    ensures ApplyFilters(a + b, q) == ApplyFilters(a, q) + ApplyFilters(b, q)
  {
    var s1a := if q.start.Some? then Narrow(a, OnOrAfter(q.start.value)) else a;
    var s1b := if q.start.Some? then Narrow(b, OnOrAfter(q.start.value)) else b;
    if q.start.Some? { NarrowAppend(a, b, OnOrAfter(q.start.value)); }
    var s2a := if q.end.Some? then Narrow(s1a, OnOrBefore(q.end.value)) else s1a;
    var s2b := if q.end.Some? then Narrow(s1b, OnOrBefore(q.end.value)) else s1b;
    if q.end.Some? { NarrowAppend(s1a, s1b, OnOrBefore(q.end.value)); }
    var s3a := if Given(q.uav) then Narrow(s2a, UavTypeContains(q.uav.value)) else s2a;
    var s3b := if Given(q.uav) then Narrow(s2b, UavTypeContains(q.uav.value)) else s2b;
    if Given(q.uav) { NarrowAppend(s2a, s2b, UavTypeContains(q.uav.value)); }
    if Given(q.role) { NarrowAppend(s3a, s3b, RoleIs(q.role.value)); }
  }

  /** The entries that match the whole query, selected in one pass. */
  function Matching(s: seq<Entry>, q: Query): seq<Entry> {
    Filter(s, e => Matches(e, q))
  }

  lemma ApplyFiltersSingle(x: Entry, q: Query)
    ensures ApplyFilters([x], q) == if Matches(x, q) then [x] else []
  {
    var none: seq<Entry> := [];
    if q.start.Some? { NarrowSingle(x, OnOrAfter(q.start.value)); }
    var s1 := if q.start.Some? then Narrow([x], OnOrAfter(q.start.value)) else [x];
    if q.end.Some? { NarrowOf(s1, x, OnOrBefore(q.end.value)); }
    var s2 := if q.end.Some? then Narrow(s1, OnOrBefore(q.end.value)) else s1;
    if Given(q.uav) { NarrowOf(s2, x, UavTypeContains(q.uav.value)); }
    var s3 := if Given(q.uav) then Narrow(s2, UavTypeContains(q.uav.value)) else s2;
    if Given(q.role) { NarrowOf(s3, x, RoleIs(q.role.value)); }
  }

  /** Narrowing a sequence that is `[x]` or empty. */
  lemma NarrowOf(s: seq<Entry>, x: Entry, c: Condition)
    requires s == [x] || s == []
    ensures Narrow(s, c) == if s == [x] && Holds(c, x) then [x] else []
  {
    if s == [x] {
      NarrowSingle(x, c);
    }
  }

  /** Chaining the filters one after another selects exactly the entries that match every parameter. */
  lemma {:induction false} FiltersAreConjunction(s: seq<Entry>, q: Query)
    ensures ApplyFilters(s, q) == Matching(s, q)
  {
    if s != [] {
      assert s == [s[0]] + s[1..];
      ApplyFiltersAppend([s[0]], s[1..], q);
      ApplyFiltersSingle(s[0], q);
      FiltersAreConjunction(s[1..], q);
    }
  }

  // ---- Sums of flight time (SQL SUM) ----

  /** SQL addition inside SUM: null values are skipped. */
  function AddTimes(a: Option<nat>, b: Option<nat>): Option<nat> {
    match (a, b)
    case (None, _) => b
    case (Some(x), None) => Some(x)
    case (Some(x), Some(y)) => Some(x + y)
  }

  /** `Sum("flight_time")`: the sum of the non-null flight times, or null when there are none. */
  function SumFlightTime(s: seq<Entry>): (r: Option<nat>)
    ensures r.None? <==> forall i :: 0 <= i < |s| ==> s[i].flightTime.None?
  {
    if s == [] then None else AddTimes(s[0].flightTime, SumFlightTime(s[1..]))
  }

  /** The flight times that are set, in order. */
  function PresentFlightTimes(s: seq<Entry>): seq<nat> {
    if s == [] then []
    else (if s[0].flightTime.Some? then [s[0].flightTime.value] else []) + PresentFlightTimes(s[1..])
  }

  function Total(xs: seq<nat>): nat {
    if xs == [] then 0 else xs[0] + Total(xs[1..])
  }

  lemma {:induction false} TotalAppend(a: seq<nat>, b: seq<nat>)
    ensures Total(a + b) == Total(a) + Total(b)
  {
    if a == [] {
      assert a + b == b;
    } else {
      assert (a + b)[0] == a[0];
      assert (a + b)[1..] == a[1..] + b;
      TotalAppend(a[1..], b);
    }
  }

  /** SUM is the total of the flight times that are set, and null exactly when none is set. */
  lemma {:induction false} SumIsTotalOfPresent(s: seq<Entry>)
    ensures SumFlightTime(s) == if PresentFlightTimes(s) == [] then None else Some(Total(PresentFlightTimes(s)))
  {
    if s != [] {
      SumIsTotalOfPresent(s[1..]);
      var head := if s[0].flightTime.Some? then [s[0].flightTime.value] else [];
      TotalAppend(head, PresentFlightTimes(s[1..]));
    }
  }

  /** A sum over saved entries is at most 1439 minutes per entry. */
  lemma {:induction false} SumBound(s: seq<Entry>)
    requires forall i :: 0 <= i < |s| ==> s[i].Derived()
    ensures SumFlightTime(s).GetOr(0) <= 1439 * |s|
  {
    if s != [] {
      DerivedFlightTimeBound(s[0]);
      SumBound(s[1..]);
    }
  }

  lemma AddTimesSwap(a: Option<nat>, b: Option<nat>, c: Option<nat>)
    ensures AddTimes(a, AddTimes(b, c)) == AddTimes(b, AddTimes(a, c))
  {
  }

  lemma SumCons(x: Entry, s: seq<Entry>)
    ensures SumFlightTime([x] + s) == AddTimes(x.flightTime, SumFlightTime(s))
  {
    assert ([x] + s)[1..] == s;
  }

  lemma {:induction false} SumInsert(e: Entry, s: seq<Entry>, dir: Direction)
    ensures SumFlightTime(Insert(e, s, dir)) == AddTimes(e.flightTime, SumFlightTime(s))
  {
    if s == [] {
    } else if InOrder(e, s[0], dir) {
      SumCons(e, s);
    } else {
      var rest := Insert(e, s[1..], dir);
      calc {
        SumFlightTime(Insert(e, s, dir));
        { assert Insert(e, s, dir) == [s[0]] + rest; }
        SumFlightTime([s[0]] + rest);
        { SumCons(s[0], rest); }
        AddTimes(s[0].flightTime, SumFlightTime(rest));
        { SumInsert(e, s[1..], dir); }
        AddTimes(s[0].flightTime, AddTimes(e.flightTime, SumFlightTime(s[1..])));
        { AddTimesSwap(s[0].flightTime, e.flightTime, SumFlightTime(s[1..])); }
        AddTimes(e.flightTime, AddTimes(s[0].flightTime, SumFlightTime(s[1..])));
      }
    }
  }

  /** A sum does not depend on the order the rows are listed in. */
  lemma {:induction false} SumSorted(s: seq<Entry>, dir: Direction)
    ensures SumFlightTime(SortByDate(s, dir)) == SumFlightTime(s)
  {
    if s != [] {
      SumSorted(s[1..], dir);
      SumInsert(s[0], SortByDate(s[1..], dir), dir);
    }
  }

  // ---- Statistics over the whole collection ----

  const RecentDays: nat := 30

  /** The entries dated on or after `today - 30 days`, with no upper bound. */
  function Recent(all: seq<Entry>, today: Date): (r: seq<Entry>)
    requires Ordinal(today) > RecentDays
    ensures forall e :: multiset(r)[e] == if Ordinal(e.date) >= Ordinal(today) - RecentDays then multiset(all)[e] else 0
  {
    var cutoff := DaysBefore(today, RecentDays);
    forall e: Entry
      ensures multiset(Narrow(all, OnOrAfter(cutoff)))[e] ==
        if Ordinal(e.date) >= Ordinal(today) - RecentDays then multiset(all)[e] else 0
    {
      OrdinalOrder(cutoff, e.date);
      NarrowCount(all, OnOrAfter(cutoff), e);
    }
    Narrow(all, OnOrAfter(cutoff))
  }

  /** An entry is selected exactly when it is in the sequence and satisfies the condition. */
  lemma NarrowMember(s: seq<Entry>, c: Condition, e: Entry)
    ensures e in Narrow(s, c) <==> e in s && Holds(c, e)
  {
    NarrowCount(s, c, e);
    assert e in Narrow(s, c) <==> multiset(Narrow(s, c))[e] > 0;
    assert e in s <==> multiset(s)[e] > 0;
  }

  /** The summed flight time of one UAV type, null when none of its entries has one. */
  function GroupTotal(all: seq<Entry>, uav: string): (r: Option<nat>)
    ensures r.None? <==> forall e :: e in all && e.uavType == uav ==> e.flightTime.None?
    ensures r.Some? ==> r.value == Total(PresentFlightTimes(Narrow(all, UavTypeIs(uav))))
  {
    var group := Narrow(all, UavTypeIs(uav));
    forall e ensures e in group <==> e in all && e.uavType == uav {
      NarrowMember(all, UavTypeIs(uav), e);
    }
    SumIsTotalOfPresent(group);
    SumFlightTime(group)
  }

  /** A group total as the statistics report it: null as 0. */
  function GroupMinutes(all: seq<Entry>, uav: string): nat {
    GroupTotal(all, uav).GetOr(0)
  }

  /** The `uav_type` of every entry, in collection order. */
  function UavTypes(all: seq<Entry>): (types: seq<string>)
    ensures |types| == |all|
    ensures forall i :: 0 <= i < |all| ==> types[i] == all[i].uavType
  {
    seq(|all|, i requires 0 <= i < |all| => all[i].uavType)
  }

  datatype Ranking = Ranking(uav: Option<string>, minutes: nat)

  /** The most flown UAV type and its total, or no type and 0 for an empty logbook. */
  function MostFlown(all: seq<Entry>): (r: Ranking)
    ensures r.uav.None? <==> all == []
    ensures r.uav.None? ==> r.minutes == 0
    ensures r.uav.Some? ==>
      (exists i :: 0 <= i < |all| && all[i].uavType == r.uav.value) &&
      r.minutes == GroupMinutes(all, r.uav.value) &&
      forall i :: 0 <= i < |all| ==> GroupMinutes(all, all[i].uavType) <= r.minutes
  {
    if all == [] then Ranking(None, 0)
    else
      var types := UavTypes(all);
      var uav := ArgMax(types, k => GroupMinutes(all, k));
      Ranking(Some(uav), GroupMinutes(all, uav))
  }

  /** The group of a UAV type that every entry has is the whole logbook. */
  lemma WholeGroup(all: seq<Entry>, uav: string)
    requires forall i :: 0 <= i < |all| ==> all[i].uavType == uav
    ensures Narrow(all, UavTypeIs(uav)) == all
  {
    forall i | 0 <= i < |all|
      ensures Holds(UavTypeIs(uav), all[i])
    {
    }
    NarrowKeepsAll(all, UavTypeIs(uav));
  }

  lemma TypesConstant(all: seq<Entry>, uav: string)
    requires forall i :: 0 <= i < |all| ==> all[i].uavType == uav
    ensures forall i :: 0 <= i < |UavTypes(all)| ==> UavTypes(all)[i] == uav
  {
  }

  /** A logbook that flew one UAV type only ranks that type with the whole logbook's time. */
  lemma MostFlownSingleGroup(all: seq<Entry>, uav: string)
    requires all != []
    requires forall i :: 0 <= i < |all| ==> all[i].uavType == uav
    ensures MostFlown(all).uav == Some(uav)
    ensures MostFlown(all).minutes == SumFlightTime(all).GetOr(0)
  {
    TypesConstant(all, uav);
    ArgMaxConstant(UavTypes(all), k => GroupMinutes(all, k), uav);
    WholeGroup(all, uav);
  }

  datatype Stats = Stats(
    totalFlights: nat,
    recentFlights: nat,
    recentFlightTime: nat,
    mostFlownUav: Option<string>,
    mostFlownUavTime: nat)

  /** What the list page shows. */
  datatype ListView = ListView(
    flights: seq<Entry>,
    totalFlight: Option<nat>,
    stats: Stats,
    roles: seq<(string, string)>)

  /**
   * `flight_list`: the matching entries, newest first, their flight-time total, and statistics
   * over the whole logbook that the filters do not affect. Computing `today - 30 days` raises
   * OverflowError in the first 30 days of year 1.
   */
  function FlightList(all: seq<Entry>, q: Query, today: Date): (r: Result<ListView, Error>)
    ensures r.Failure? <==> Ordinal(today) <= RecentDays
    ensures r.Failure? ==> r.error == OverflowError
    ensures r.Success? ==>
      var v := r.value;
      (forall e :: multiset(v.flights)[e] == if Matches(e, q) then multiset(all)[e] else 0) &&
      SortedByDate(v.flights, Descending) &&
      v.totalFlight == SumFlightTime(v.flights) &&
      (v.totalFlight.None? <==> PresentFlightTimes(v.flights) == []) &&
      v.stats.totalFlights == |all| &&
      v.stats.recentFlights == |Recent(all, today)| &&
      v.stats.recentFlightTime == Total(PresentFlightTimes(Recent(all, today))) &&
      Ranking(v.stats.mostFlownUav, v.stats.mostFlownUavTime) == MostFlown(all) &&
      v.roles == RoleChoices()
  {
    var filtered := ApplyFilters(all, q);
    var flights := SortByDate(filtered, Descending);
    var totalFlight := SumFlightTime(filtered);
    if Ordinal(today) <= RecentDays then Failure(OverflowError)
    else
      var recent := Recent(all, today);
      var ranking := MostFlown(all);
      FiltersAreConjunction(all, q);
      forall e ensures multiset(flights)[e] == if Matches(e, q) then multiset(all)[e] else 0 {
        FilterCount(all, e => Matches(e, q), e);
      }
      SumSorted(filtered, Descending);
      SumIsTotalOfPresent(flights);
      SumIsTotalOfPresent(recent);
      var stats := Stats(|all|, |recent|, SumFlightTime(recent).GetOr(0), ranking.uav, ranking.minutes);
      Success(ListView(flights, totalFlight, stats, RoleChoices()))
  }

  /** The statistics do not depend on the filters. */
  lemma StatsIgnoreFilters(all: seq<Entry>, q1: Query, q2: Query, today: Date)
    requires Ordinal(today) > RecentDays
    ensures FlightList(all, q1, today).Success? && FlightList(all, q2, today).Success?
    ensures FlightList(all, q1, today).value.stats == FlightList(all, q2, today).value.stats
  {
  }

  // ---- The list page as written ----

  /** The fields `flight_list` sums; only the first is a field of the model. */
  const AggregatedFields: seq<string> := ["flight_time", "block_time", "engine_time", "gcs_time"]

  lemma DurationsUndeclared()
    ensures !ModelField("block_time") && !ModelField("engine_time") && !ModelField("gcs_time")
  {
  }

  /** The first name that does not resolve to a field of the model, which Django reports as FieldError. */
  function Unresolved(names: seq<string>): (r: Option<string>)
    ensures r.None? <==> forall i :: 0 <= i < |names| ==> ModelField(names[i])
    ensures r.Some? ==>
      exists k :: 0 <= k < |names| && names[k] == r.value && !ModelField(r.value) &&
        (forall j :: 0 <= j < k ==> ModelField(names[j]))
  {
    if names == [] then None
    else if !ModelField(names[0]) then Some(names[0])
    else
      assert forall k :: 1 <= k < |names| ==> names[1..][k - 1] == names[k];
      Unresolved(names[1..])
  }

  /**
   * `flight_list` as written: the totals name three durations the model does not define, so the
   * call raises FieldError before it reaches the statistics.
   */
  function FlightListAsWritten(all: seq<Entry>, q: Query, today: Date): (r: Result<ListView, Error>)
    ensures Unresolved(AggregatedFields).Some? ==> r == Failure(FieldError(Unresolved(AggregatedFields).value))
    ensures Unresolved(AggregatedFields).None? ==> r == FlightList(all, q, today)
  {
    match Unresolved(AggregatedFields)
    case Some(name) => Failure(FieldError(name))
    case None => FlightList(all, q, today)
  }

  /** Every call of the list page as written fails on `block_time`. */
  lemma FlightListAsWrittenFails(all: seq<Entry>, q: Query, today: Date)
    ensures FlightListAsWritten(all, q, today) == Failure(FieldError("block_time"))
  {
    DurationsUndeclared();
    assert ModelField("flight_time") by {
      assert AttrName(FlightTimeAttr) == "flight_time";
    }
    var r := Unresolved(AggregatedFields);
    assert ModelField(AggregatedFields[0]);
    assert !ModelField(AggregatedFields[1]);
    assert r.Some?;
    var k :| 0 <= k < |AggregatedFields| && AggregatedFields[k] == r.value && !ModelField(r.value) &&
      forall j :: 0 <= j < k ==> ModelField(AggregatedFields[j]);
    assert k <= 1;
    assert k == 1;
  }
}
