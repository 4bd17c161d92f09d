/**
 * `filterDataByDateRange`: narrow a parsed dataset to the records and dates that lie
 * in an inclusive date range, rebuilding the per-type and per-player counters and the
 * total from what is kept and copying every other field through.
 */
module RangeFilter {
  import opened Wrappers
  import opened OrderedMaps
  import opened Aggregates
  import opened Dates
  import PunishmentParser
  import ViolationParser

  /**
   * Lines 192-195 (and 200-203 for keys): the elements whose date passes the
   * range test, in their original order.
   */
  function KeepInRange<X>(xs: seq<X>, dateOf: X -> string, inRange: string -> bool): (r: seq<X>)
    ensures |r| <= |xs|
    ensures forall x :: x in r ==> x in xs && inRange(dateOf(x))
    ensures forall x :: x in xs && inRange(dateOf(x)) ==> x in r
  {
    if xs == [] then []
    else
      var init, last := xs[..|xs| - 1], xs[|xs| - 1];
      assert xs == init + [last];
      KeepInRange(init, dateOf, inRange) + (if inRange(dateOf(last)) then [last] else [])
  }

  /** Filtering a concatenation filters each part: the kept elements keep their order. */
  lemma {:induction false} KeepConcat<X>(a: seq<X>, b: seq<X>, dateOf: X -> string, inRange: string -> bool)
    ensures KeepInRange(a + b, dateOf, inRange) == KeepInRange(a, dateOf, inRange) + KeepInRange(b, dateOf, inRange)
    decreases |b|
  {
    if b == [] {
      assert a + b == a;
    } else {
      var init, last := b[..|b| - 1], b[|b| - 1];
      var tail := if inRange(dateOf(last)) then [last] else [];
      assert (a + b)[..|a + b| - 1] == a + init && (a + b)[|a + b| - 1] == last;
      assert KeepInRange(a + b, dateOf, inRange) == KeepInRange(a + init, dateOf, inRange) + tail;
      KeepConcat(a, init, dateOf, inRange);
      assert KeepInRange(b, dateOf, inRange) == KeepInRange(init, dateOf, inRange) + tail;
    }
  }

  /** Every date the inner range test accepts, the outer one accepts too. */
  ghost predicate Within(inner: string -> bool, outer: string -> bool) {
    forall x :: inner(x) ==> outer(x)
  }

  /** Filtering to a range and then to a range inside it is filtering to the inner range. */
  lemma {:induction false} KeepWithin<X>(xs: seq<X>, dateOf: X -> string,
                                         inner: string -> bool, outer: string -> bool)
    requires Within(inner, outer)
    ensures KeepInRange(KeepInRange(xs, dateOf, outer), dateOf, inner)
         == KeepInRange(xs, dateOf, inner)
    decreases |xs|
  {
    if xs != [] {
      var init, last := xs[..|xs| - 1], xs[|xs| - 1];
      KeepWithin(init, dateOf, inner, outer);
      var once := KeepInRange(init, dateOf, outer);
      var tail := if outer(dateOf(last)) then [last] else [];
      KeepConcat(once, tail, dateOf, inner);
      if tail != [] {
        assert KeepInRange(tail, dateOf, inner) == KeepInRange([], dateOf, inner) + (if inner(dateOf(last)) then [last] else []) by {
          assert tail[..0] == [];
        }
      }
    }
  }

  /** A date key read as its own date. */
  function DateKey(k: string): string { k }

  /** Keeping part of a list without repetitions leaves it without repetitions. */
  lemma {:induction false} KeepDistinct(keys: seq<string>, inRange: string -> bool)
    requires Distinct(keys)
    ensures Distinct(KeepInRange(keys, DateKey, inRange))
    decreases |keys|
  {
    if keys != [] {
      var init, last := keys[..|keys| - 1], keys[|keys| - 1];
      KeepDistinct(init, inRange);
      var kept := KeepInRange(init, DateKey, inRange);
      if inRange(DateKey(last)) {
        assert last !in init && last !in kept;
        var r := kept + [last];
        assert r[..|r| - 1] == kept && r[|r| - 1] == last;
        assert KeepInRange(keys, DateKey, inRange) == r;
      } else {
        assert KeepInRange(keys, DateKey, inRange) == kept;
      }
    }
  }

  /**
   * Lines 199-204: the date counters whose date passes the range test, with their
   * counts unchanged and in their original order.
   */
  function FilterDates(c: Counts, inRange: string -> bool): (r: Counts)
    requires c.Valid()
    ensures r.Valid()
    ensures r.keys == KeepInRange(c.keys, DateKey, inRange)
    ensures forall k :: k in r.vals <==> k in c.vals && inRange(k)
    ensures forall k :: k in r.vals ==> r.vals[k] == c.vals[k]
  {
    KeepDistinct(c.keys, inRange);
    ODict(KeepInRange(c.keys, DateKey, inRange), Restrict(c.vals, inRange))
  }

  /** The entries of `m` whose key passes the range test. */
  function Restrict(m: map<string, nat>, inRange: string -> bool): map<string, nat> {
    map k | k in m && inRange(k) :: m[k]
  }

  /**
   * Lines 189-197: every player stays, in the same order, with the list of their
   * records that pass the range test (possibly none).
   */
  function FilterPlayers<R>(t: ODict<seq<R>>, dateOf: R -> string, inRange: string -> bool): (r: ODict<seq<R>>)
    requires t.Valid()
    ensures r.Valid() && r.keys == t.keys && r.vals.Keys == t.vals.Keys
    ensures forall p :: p in r.vals ==> r.vals[p] == KeepInRange(t.vals[p], dateOf, inRange)
  {
    ODict(t.keys, KeepAll(t.vals, dateOf, inRange))
  }

  /** Each list of `m` filtered to the range. */
  function KeepAll<R>(m: map<string, seq<R>>, dateOf: R -> string, inRange: string -> bool): map<string, seq<R>> {
    map p | p in m :: KeepInRange(m[p], dateOf, inRange)
  }

  /** The records of all the lists, list after list in key order (the order lines 208-213 visit them). */
  function Flatten<R>(keys: seq<string>, vals: map<string, seq<R>>): (r: seq<R>)
    ensures |r| == SumOf(keys, vals, Length)
  {
    if keys == [] then []
    else
      var k := keys[|keys| - 1];
      Flatten(keys[..|keys| - 1], vals) + (if k in vals then vals[k] else [])
  }

  /**
   * Lines 215-218: each player's counter is the length of their list, players in
   * the same order, so the counters add up to the number of records.
   */
  function PlayerCounts<R>(t: ODict<seq<R>>): (r: Counts)
    requires t.Valid()
    ensures r.Valid() && r.keys == t.keys && r.vals.Keys == t.vals.Keys
    ensures forall p :: p in t.vals ==> Get(r, p) == |t.vals[p]|
    ensures Sum(r) == RecordCount(t)
  {
    var r: Counts := ODict(t.keys, map p | p in t.vals :: |t.vals[p]| as nat);
    SumOfAgree(t.keys, r.vals, Itself, t.vals, Length);
    r
  }

  /** The maps the filter reads are well formed. */
  ghost predicate Filterable<R>(a: Aggregate<R>) {
    a.players.Valid() && a.byDate.Valid()
  }

  /**
   * Lines 189-218 on the fields every dataset has: players and their kept records,
   * in-range date counters, the total of the kept date counters, the types of the
   * kept records counted in the order they are visited, and each player's kept count.
   */
  function FilterAggregate<R>(a: Aggregate<R>, kindOf: R -> string, dateOf: R -> string,
                              inRange: string -> bool): (r: Aggregate<R>)
    requires Filterable(a)
    ensures Filterable(r) && r.byType.Valid() && r.byPlayer.Valid()
    ensures r.players.keys == a.players.keys && r.players.vals.Keys == a.players.vals.Keys
    ensures forall p :: p in a.players.vals ==>
      r.players.vals[p] == KeepInRange(a.players.vals[p], dateOf, inRange) &&
      Get(r.byPlayer, p) == |r.players.vals[p]|
    ensures r.byPlayer.keys == r.players.keys && r.byPlayer.vals.Keys == r.players.vals.Keys
    ensures forall k :: k in r.byDate.vals <==> k in a.byDate.vals && inRange(k)
    ensures forall k :: k in r.byDate.vals ==> r.byDate.vals[k] == a.byDate.vals[k]
    ensures r.total == Sum(r.byDate)
    ensures Sum(r.byType) == Sum(r.byPlayer) == RecordCount(r.players)
    ensures forall k :: Get(r.byType, k) == CountKey(Flatten(r.players.keys, r.players.vals), kindOf, k)
  {
    var players := FilterPlayers(a.players, dateOf, inRange);
    var byDate := FilterDates(a.byDate, inRange);
    Aggregate(Sum(byDate), Tally(Flatten(players.keys, players.vals), kindOf), PlayerCounts(players), byDate, players)
  }

  /** Both maps the filter reads in a dataset are well formed. */
  ghost predicate DatasetFilterable(d: Dataset) {
    match d
    case Punishments(p) => Filterable(p.agg)
    case Violations(v) => Filterable(v.agg)
  }

  /** The test of lines 193-194 and 201-202: the date parses and lies in `[start, end]`. */
  function InRangeOf(start: string, end: string): (test: string -> bool)
    ensures forall x :: test(x) == InRange(x, start, end)
  {
    x => InRange(x, start, end)
  }

  /**
   * `filterDataByDateRange`: the dataset with its five filtered fields replaced and
   * everything else copied (lines 230-237). The total is written back under
   * `totalPunishments` only when that field is truthy: a punishment dataset whose
   * total is 0 keeps it and gains a `totalViolations` field holding the new total.
   */
  function FilterByDateRange(d: Dataset, start: string, end: string): (r: Dataset)
    requires DatasetFilterable(d)
    ensures DatasetFilterable(r) && r.Punishments? == d.Punishments?
    ensures d.Punishments? ==>
      var p, q := d.punishments, r.punishments;
      var f := FilterAggregate(p.agg, PunishmentKind, PunishmentDate, InRangeOf(start, end));
      && q.byWorld == p.byWorld
      && q.agg.players == f.players && q.agg.byDate == f.byDate
      && q.agg.byType == f.byType && q.agg.byPlayer == f.byPlayer
      && (p.agg.total != 0 ==> q.agg.total == f.total && q.strayTotalViolations == p.strayTotalViolations)
      && (p.agg.total == 0 ==> q.agg.total == 0 && q.strayTotalViolations == Some(f.total))
    ensures d.Violations? ==>
      var v, w := d.violations, r.violations;
      && w.agg == FilterAggregate(v.agg, ViolationKind, ViolationDate, InRangeOf(start, end))
      && w.byVersion == v.byVersion && w.byPing == v.byPing
  {
    var inRange := InRangeOf(start, end);
    match d
    case Punishments(p) =>
      var f := FilterAggregate(p.agg, PunishmentKind, PunishmentDate, inRange);
      if p.agg.total != 0 then Punishments(p.(agg := f))
      else Punishments(p.(agg := f.(total := 0), strayTotalViolations := Some(f.total)))
    case Violations(v) =>
      Violations(v.(agg := FilterAggregate(v.agg, ViolationKind, ViolationDate, inRange)))
  }

  /** Filtering the date counters to a range and then to a range inside it is filtering to the inner one. */
  lemma FilterDatesWithin(c: Counts, inner: string -> bool, outer: string -> bool)
    requires c.Valid() && Within(inner, outer)
    ensures FilterDates(FilterDates(c, outer), inner) == FilterDates(c, inner)
  {
    KeepWithin(c.keys, DateKey, inner, outer);
    RestrictWithin(c.vals, inner, outer);
    var once := FilterDates(c, outer);
    assert once.vals == Restrict(c.vals, outer);
    assert FilterDates(once, inner).vals == Restrict(once.vals, inner);
  }

  /** The same for the per-player lists. */
  lemma FilterPlayersWithin<R>(t: ODict<seq<R>>, dateOf: R -> string,
                               inner: string -> bool, outer: string -> bool)
    requires t.Valid() && Within(inner, outer)
    ensures FilterPlayers(FilterPlayers(t, dateOf, outer), dateOf, inner)
         == FilterPlayers(t, dateOf, inner)
  {
    KeepAllWithin(t.vals, dateOf, inner, outer);
  }

  /**
   * Narrowing twice is narrowing once to the inner range; in particular filtering
   * again to the same range changes nothing.
   */
  lemma FilterAggregateWithin<R>(a: Aggregate<R>, kindOf: R -> string, dateOf: R -> string,
                                 inner: string -> bool, outer: string -> bool)
    requires Filterable(a) && Within(inner, outer)
    ensures FilterAggregate(FilterAggregate(a, kindOf, dateOf, outer), kindOf, dateOf, inner)
         == FilterAggregate(a, kindOf, dateOf, inner)
  {
    FilterDatesWithin(a.byDate, inner, outer);
    FilterPlayersWithin(a.players, dateOf, inner, outer);
  }

  /**
   * Filtering a dataset again to the same range leaves the five filtered fields as
   * they were. The whole dataset is unchanged too, except for a punishment dataset
   * whose non-zero total the first filter brought to 0: the second filter then finds
   * `totalPunishments` falsy and writes a `totalViolations` field (see
   * `RefilterAddsStrayTotal`).
   */
  lemma FilterIdempotent(d: Dataset, start: string, end: string)
    requires DatasetFilterable(d)
    ensures var once := FilterByDateRange(d, start, end);
      var twice := FilterByDateRange(once, start, end);
      && (d.Punishments? ==> twice.punishments.agg == once.punishments.agg
                             && twice.punishments.byWorld == once.punishments.byWorld)
      && (d.Violations? ==> twice == once)
      && (d.Violations? || d.punishments.agg.total == 0 || once.punishments.agg.total != 0 ==> twice == once)
  {
    var inRange := InRangeOf(start, end);
    match d
    case Punishments(p) =>
      FilterAggregateWithin(p.agg, PunishmentKind, PunishmentDate, inRange, inRange);
      var f := FilterAggregate(p.agg, PunishmentKind, PunishmentDate, inRange);
      assert FilterAggregate(f.(total := 0), PunishmentKind, PunishmentDate, inRange)
          == FilterAggregate(f, PunishmentKind, PunishmentDate, inRange);
    case Violations(v) =>
      FilterAggregateWithin(v.agg, ViolationKind, ViolationDate, inRange, inRange);
  }

  /** A list whose every element passes the range test is kept whole. */
  lemma {:induction false} KeepAllPass<X>(xs: seq<X>, dateOf: X -> string, inRange: string -> bool)
    requires forall i :: 0 <= i < |xs| ==> inRange(dateOf(xs[i]))
    ensures KeepInRange(xs, dateOf, inRange) == xs
    decreases |xs|
  {
    if xs != [] {
      var init, last := xs[..|xs| - 1], xs[|xs| - 1];
      assert KeepInRange(init, dateOf, inRange) == init by {
        forall i | 0 <= i < |init| ensures inRange(dateOf(init[i])) {
          assert init[i] == xs[i];
        }
        KeepAllPass(init, dateOf, inRange);
      }
      KeepLastPasses(xs, dateOf, inRange);
      assert init + [last] == xs;
    }
  }

  /** An element that passes at the end of a list is kept after the rest. */
  lemma KeepLastPasses<X>(xs: seq<X>, dateOf: X -> string, inRange: string -> bool)
    requires xs != [] && inRange(dateOf(xs[|xs| - 1]))
    ensures KeepInRange(xs, dateOf, inRange) == KeepInRange(xs[..|xs| - 1], dateOf, inRange) + [xs[|xs| - 1]]
  {
  }

  /** Filtering to a range and then to a range around it is filtering to the first range. */
  lemma KeepWiden<X>(xs: seq<X>, dateOf: X -> string, inner: string -> bool, outer: string -> bool)
    requires Within(inner, outer)
    ensures KeepInRange(KeepInRange(xs, dateOf, inner), dateOf, outer) == KeepInRange(xs, dateOf, inner)
  {
    var once := KeepInRange(xs, dateOf, inner);
    assert forall i :: 0 <= i < |once| ==> once[i] in once;
    KeepAllPass(once, dateOf, outer);
  }

  /** The same for the date counters. */
  lemma FilterDatesWiden(c: Counts, inner: string -> bool, outer: string -> bool)
    requires c.Valid() && Within(inner, outer)
    ensures FilterDates(FilterDates(c, inner), outer) == FilterDates(c, inner)
  {
    var once := FilterDates(c, inner);
    KeepWiden(c.keys, DateKey, inner, outer);
    MapsEqual(Restrict(once.vals, outer), once.vals);
  }

  /** The same for the per-player lists. */
  lemma FilterPlayersWiden<R>(t: ODict<seq<R>>, dateOf: R -> string, inner: string -> bool, outer: string -> bool)
    requires t.Valid() && Within(inner, outer)
    ensures FilterPlayers(FilterPlayers(t, dateOf, inner), dateOf, outer) == FilterPlayers(t, dateOf, inner)
  {
    var once := FilterPlayers(t, dateOf, inner);
    forall p | p in once.vals ensures KeepInRange(once.vals[p], dateOf, outer) == once.vals[p] {
      KeepWiden(t.vals[p], dateOf, inner, outer);
    }
    MapsEqual(KeepAll(once.vals, dateOf, outer), once.vals);
  }

  /** Re-filtering a filtered aggregate to a range around the first changes nothing. */
  lemma FilterAggregateWiden<R>(a: Aggregate<R>, kindOf: R -> string, dateOf: R -> string,
                                inner: string -> bool, outer: string -> bool)
    requires Filterable(a) && Within(inner, outer)
    ensures FilterAggregate(FilterAggregate(a, kindOf, dateOf, inner), kindOf, dateOf, outer)
         == FilterAggregate(a, kindOf, dateOf, inner)
  {
    FilterDatesWiden(a.byDate, inner, outer);
    FilterPlayersWiden(a.players, dateOf, inner, outer);
  }

  /**
   * Filtering a filtered dataset again to the same or an enclosing range leaves the
   * five filtered fields as they were, and the whole dataset under the same
   * condition as in `FilterIdempotent`.
   */
  lemma FilterWiderRange(d: Dataset, start1: string, end1: string, start2: string, end2: string)
    requires DatasetFilterable(d)
    requires ParseDate(start1).Some? && ParseDate(end1).Some?
    requires ParseDate(start2).Some? && ParseDate(end2).Some?
    requires NotAfter(ParseDate(start2).value, ParseDate(start1).value)
    requires NotAfter(ParseDate(end1).value, ParseDate(end2).value)
    ensures var once := FilterByDateRange(d, start1, end1);
      var twice := FilterByDateRange(once, start2, end2);
      && (d.Punishments? ==> twice.punishments.agg == once.punishments.agg
                             && twice.punishments.byWorld == once.punishments.byWorld)
      && (d.Violations? ==> twice == once)
      && (d.Violations? || d.punishments.agg.total == 0 || once.punishments.agg.total != 0 ==> twice == once)
  {
    RangeWithin(start1, end1, start2, end2);
    assert Within(InRangeOf(start1, end1), InRangeOf(start2, end2));
    if d.Punishments? {
      PunishmentsWiden(d, start1, end1, start2, end2);
    } else {
      ViolationsWiden(d, start1, end1, start2, end2);
    }
  }

  /** `FilterWiderRange` for a punishment dataset, given that the first range lies within the second. */
  lemma PunishmentsWiden(d: Dataset, start1: string, end1: string, start2: string, end2: string)
    requires DatasetFilterable(d) && d.Punishments?
    requires Within(InRangeOf(start1, end1), InRangeOf(start2, end2))
    ensures var once := FilterByDateRange(d, start1, end1);
      var twice := FilterByDateRange(once, start2, end2);
      twice.punishments.agg == once.punishments.agg && twice.punishments.byWorld == once.punishments.byWorld
  {
    var inner, outer := InRangeOf(start1, end1), InRangeOf(start2, end2);
    var a := d.punishments.agg;
    FilterAggregateWiden(a, PunishmentKind, PunishmentDate, inner, outer);
    var f := FilterAggregate(a, PunishmentKind, PunishmentDate, inner);
    assert FilterAggregate(f.(total := 0), PunishmentKind, PunishmentDate, outer)
        == FilterAggregate(f, PunishmentKind, PunishmentDate, outer);
  }

  /** `FilterWiderRange` for a violation dataset, given that the first range lies within the second. */
  lemma ViolationsWiden(d: Dataset, start1: string, end1: string, start2: string, end2: string)
    requires DatasetFilterable(d) && d.Violations?
    requires Within(InRangeOf(start1, end1), InRangeOf(start2, end2))
    ensures var once := FilterByDateRange(d, start1, end1);
      FilterByDateRange(once, start2, end2) == once
  {
    FilterAggregateWiden(d.violations.agg, ViolationKind, ViolationDate, InRangeOf(start1, end1), InRangeOf(start2, end2));
  }

  /**
   * A range that holds every date counted leaves the date counters as they were, and
   * the new total is their sum.
   */
  lemma FilterFullRange<R>(a: Aggregate<R>, kindOf: R -> string, dateOf: R -> string, inRange: string -> bool)
    requires Filterable(a)
    requires forall k :: k in a.byDate.vals ==> inRange(k)
    ensures var f := FilterAggregate(a, kindOf, dateOf, inRange);
      f.byDate == a.byDate && f.total == Sum(a.byDate)
  {
    assert forall i :: 0 <= i < |a.byDate.keys| ==> a.byDate.keys[i] in a.byDate.vals;
    KeepAllPass(a.byDate.keys, DateKey, inRange);
    MapsEqual(Restrict(a.byDate.vals, inRange), a.byDate.vals);
  }

  /**
   * Filtering a dataset to a range that holds every date in it (from its earliest to
   * its latest date, say) gives back its date counters, and the total it writes is
   * their sum.
   */
  lemma FilterFullDateRange(d: Dataset, start: string, end: string)
    requires DatasetFilterable(d)
    requires d.Punishments? ==> forall k :: k in d.punishments.agg.byDate.vals ==> InRange(k, start, end)
    requires d.Violations? ==> forall k :: k in d.violations.agg.byDate.vals ==> InRange(k, start, end)
    ensures var r := FilterByDateRange(d, start, end);
      && (d.Punishments? ==>
            && r.punishments.agg.byDate == d.punishments.agg.byDate
            && (if d.punishments.agg.total != 0 then r.punishments.agg.total
                else r.punishments.strayTotalViolations.value) == Sum(d.punishments.agg.byDate))
      && (d.Violations? ==>
            r.violations.agg.byDate == d.violations.agg.byDate && r.violations.agg.total == Sum(d.violations.agg.byDate))
  {
    match d
    case Punishments(p) =>
      FilterFullRange(p.agg, PunishmentKind, PunishmentDate, InRangeOf(start, end));
    case Violations(v) =>
      FilterFullRange(v.agg, ViolationKind, ViolationDate, InRangeOf(start, end));
  }

  /** One more occurrence of a date is counted after filtering exactly when the date is in range. */
  lemma FilterDatesBump(c: Counts, k: string, inRange: string -> bool)
    requires c.Valid()
    ensures FilterDates(Bump(c, k), inRange)
         == if inRange(k) then Bump(FilterDates(c, inRange), k) else FilterDates(c, inRange)
  {
    var lhs := FilterDates(Bump(c, k), inRange);
    var rhs := if inRange(k) then Bump(FilterDates(c, inRange), k) else FilterDates(c, inRange);
    FilterDatesBumpKeys(c, k, inRange);
    FilterDatesBumpVals(c, k, inRange);
    assert lhs == ODict(rhs.keys, rhs.vals);
  }

  lemma KeepSnoc<X>(xs: seq<X>, x: X, dateOf: X -> string, inRange: string -> bool)
    ensures KeepInRange(xs + [x], dateOf, inRange)
         == KeepInRange(xs, dateOf, inRange) + (if inRange(dateOf(x)) then [x] else [])
  {
    assert (xs + [x])[..|xs|] == xs;
  }

  lemma FilterDatesBumpKeys(c: Counts, k: string, inRange: string -> bool)
    requires c.Valid()
    ensures FilterDates(Bump(c, k), inRange).keys
         == if inRange(k) then Bump(FilterDates(c, inRange), k).keys else FilterDates(c, inRange).keys
  {
    if k !in c.vals {
      KeepSnoc(c.keys, k, DateKey, inRange);
    }
  }

  lemma FilterDatesBumpVals(c: Counts, k: string, inRange: string -> bool)
    requires c.Valid()
    ensures FilterDates(Bump(c, k), inRange).vals
         == if inRange(k) then Bump(FilterDates(c, inRange), k).vals else FilterDates(c, inRange).vals
  {
    var v := Get(c, k) + 1;
    var lhs := FilterDates(Bump(c, k), inRange).vals;
    assert lhs == Restrict(c.vals[k := v], inRange);
    RestrictUpdate(c.vals, k, v, inRange);
    var f := FilterDates(c, inRange);
    assert f.vals == Restrict(c.vals, inRange);
    if inRange(k) {
      BumpFiltered(c, f, k, inRange);
      assert lhs == Bump(f, k).vals;
    } else {
      assert lhs == f.vals;
    }
  }

  lemma BumpFiltered(c: Counts, f: Counts, k: string, inRange: string -> bool)
    requires c.Valid() && f.Valid() && f.vals == Restrict(c.vals, inRange) && inRange(k)
    ensures Bump(f, k).vals == Restrict(c.vals, inRange)[k := Get(c, k) + 1]
  {
    assert Get(f, k) == Get(c, k);
  }

  lemma RestrictUpdate(m: map<string, nat>, k: string, v: nat, inRange: string -> bool)
    ensures Restrict(m[k := v], inRange) == if inRange(k) then Restrict(m, inRange)[k := v] else Restrict(m, inRange)
  {
    var lhs := Restrict(m[k := v], inRange);
    var rhs := if inRange(k) then Restrict(m, inRange)[k := v] else Restrict(m, inRange);
    MapsEqual(lhs, rhs);
  }

  /** Filtering the date counters of some records is counting the dates of the records kept. */
  lemma {:induction false} FilterDatesTally<X>(xs: seq<X>, key: X -> string, inRange: string -> bool)
    ensures FilterDates(Tally(xs, key), inRange) == Tally(KeepInRange(xs, key, inRange), key)
    decreases |xs|
  {
    if xs == [] {
      var e := FilterDates(Tally(xs, key), inRange);
      assert e.keys == [];
      assert e.vals == map[];
    } else {
      var init, last := xs[..|xs| - 1], xs[|xs| - 1];
      var k := key(last);
      var before := Tally(init, key);
      var kept := KeepInRange(init, key, inRange);
      FilterDatesTally(init, key, inRange);
      assert Tally(xs, key) == Bump(before, k);
      FilterDatesBump(before, k, inRange);
      if inRange(k) {
        assert KeepInRange(xs, key, inRange) == kept + [last];
        assert (kept + [last])[..|kept|] == kept;
        assert Tally(kept + [last], key) == Bump(Tally(kept, key), k);
      } else {
        assert KeepInRange(xs, key, inRange) == kept;
      }
    }
  }

  /** A list not yet listed does not change what the listed lists hold, and listing it adds it at the end. */
  lemma {:induction false} FlattenFresh<R>(keys: seq<string>, vals: map<string, seq<R>>, k: string, v: seq<R>)
    requires k !in keys
    ensures Flatten(keys, vals[k := v]) == Flatten(keys, vals)
    ensures Flatten(keys + [k], vals[k := v]) == Flatten(keys, vals) + v
    decreases |keys|
  {
    if keys != [] {
      FlattenFresh(keys[..|keys| - 1], vals, k, v);
    }
    assert (keys + [k])[..|keys|] == keys;
  }

  /** Replacing one listed list swaps its elements for the new ones. */
  lemma {:induction false} FlattenUpdate<R>(keys: seq<string>, vals: map<string, seq<R>>, k: string, v: seq<R>)
    requires Distinct(keys) && k in keys
    ensures multiset(Flatten(keys, vals[k := v])) + multiset(if k in vals then vals[k] else [])
         == multiset(Flatten(keys, vals)) + multiset(v)
    decreases |keys|
  {
    var init, last := keys[..|keys| - 1], keys[|keys| - 1];
    if last == k {
      assert k !in init;
      FlattenFresh(init, vals, k, v);
      var previous := if k in vals then vals[k] else [];
      assert Flatten(keys, vals[k := v]) == Flatten(init, vals) + v;
      assert Flatten(keys, vals) == Flatten(init, vals) + previous;
      assert multiset(Flatten(keys, vals[k := v])) == multiset(Flatten(init, vals)) + multiset(v);
      assert multiset(Flatten(keys, vals)) == multiset(Flatten(init, vals)) + multiset(previous);
      MultisetSwap(multiset(Flatten(init, vals)), multiset(v), multiset(previous));
    } else {
      assert k in init && Distinct(init);
      FlattenUpdate(init, vals, k, v);
      var tail := if last in vals then vals[last] else [];
      assert Flatten(keys, vals[k := v]) == Flatten(init, vals[k := v]) + tail;
      assert Flatten(keys, vals) == Flatten(init, vals) + tail;
      assert multiset(Flatten(keys, vals[k := v])) == multiset(Flatten(init, vals[k := v])) + multiset(tail);
      assert multiset(Flatten(keys, vals)) == multiset(Flatten(init, vals)) + multiset(tail);
      MultisetSwap(multiset(Flatten(init, vals[k := v])), multiset(tail), multiset(if k in vals then vals[k] else []));
      MultisetSwap(multiset(Flatten(init, vals)), multiset(tail), multiset(v));
    }
  }

  /** Filtering after one more record joins a player's list: that list is filtered again, the rest stay. */
  lemma FilterPlayersAppend<R>(t: ODict<seq<R>>, p: string, r: R, dateOf: R -> string, inRange: string -> bool)
    requires t.Valid()
    ensures var f, f' := FilterPlayers(t, dateOf, inRange), FilterPlayers(Append(t, p, r), dateOf, inRange);
      var earlier := if p in t.vals then t.vals[p] else [];
      f'.keys == Append(t, p, r).keys && f'.vals == f.vals[p := KeepInRange(earlier + [r], dateOf, inRange)]
  {
    var earlier := if p in t.vals then t.vals[p] else [];
    assert Append(t, p, r).vals == t.vals[p := earlier + [r]];
    KeepAllUpdate(t.vals, p, earlier + [r], dateOf, inRange);
  }

  /** Replacing one list and then filtering is filtering and then replacing it with its filtered version. */
  lemma KeepAllUpdate<R>(m: map<string, seq<R>>, p: string, v: seq<R>, dateOf: R -> string, inRange: string -> bool)
    ensures KeepAll(m[p := v], dateOf, inRange) == KeepAll(m, dateOf, inRange)[p := KeepInRange(v, dateOf, inRange)]
  {
    MapsEqual(KeepAll(m[p := v], dateOf, inRange), KeepAll(m, dateOf, inRange)[p := KeepInRange(v, dateOf, inRange)]);
  }

  /** Filtering every list to a range and then to a range inside it is filtering to the inner range. */
  lemma KeepAllWithin<R>(m: map<string, seq<R>>, dateOf: R -> string, inner: string -> bool, outer: string -> bool)
    requires Within(inner, outer)
    ensures KeepAll(KeepAll(m, dateOf, outer), dateOf, inner) == KeepAll(m, dateOf, inner)
  {
    forall p | p in m
      ensures KeepInRange(KeepInRange(m[p], dateOf, outer), dateOf, inner) == KeepInRange(m[p], dateOf, inner)
    {
      KeepWithin(m[p], dateOf, inner, outer);
    }
    MapsEqual(KeepAll(KeepAll(m, dateOf, outer), dateOf, inner), KeepAll(m, dateOf, inner));
  }

  /** The same for the date counters: restricting twice is restricting to the inner range. */
  lemma RestrictWithin(m: map<string, nat>, inner: string -> bool, outer: string -> bool)
    requires Within(inner, outer)
    ensures Restrict(Restrict(m, outer), inner) == Restrict(m, inner)
  {
    MapsEqual(Restrict(Restrict(m, outer), inner), Restrict(m, inner));
  }

  lemma MapsEqual<V>(a: map<string, V>, b: map<string, V>)
    requires forall j :: j in a ==> j in b && a[j] == b[j]
    requires forall j :: j in b ==> j in a
    ensures a == b
  {
  }

  lemma MultisetSwap<R>(a: multiset<R>, b: multiset<R>, c: multiset<R>)
    ensures a + b + c == a + c + b
  {
    forall x ensures (a + b + c)[x] == (a + c + b)[x] {
    }
  }

  lemma MultisetCancel<R>(a: multiset<R>, b: multiset<R>, c: multiset<R>, d: multiset<R>)
    requires a + c == b + (c + d)
    ensures a == b + d
  {
    forall x ensures a[x] == (b + d)[x] {
      assert (a + c)[x] == (b + (c + d))[x];
    }
  }

  /**
   * The kept records of all players, taken player by player, are the kept records of
   * the log, in a different order.
   */
  lemma {:induction false} FilteredGroupRecords<R>(g: seq<Incident<R>>, dateOf: R -> string, inRange: string -> bool)
    ensures var t := FilterPlayers(Group(g), dateOf, inRange);
      multiset(Flatten(t.keys, t.vals)) == multiset(KeepInRange(Records(g), dateOf, inRange))
    decreases |g|
  {
    if g != [] {
      var init, p, r := g[..|g| - 1], g[|g| - 1].0, g[|g| - 1].1;
      FilteredGroupRecords(init, dateOf, inRange);
      var before := Group(init);
      assert Group(g) == Append(before, p, r);
      var f, f' := FilterPlayers(before, dateOf, inRange), FilterPlayers(Group(g), dateOf, inRange);
      var earlier := if p in before.vals then before.vals[p] else [];
      var kept := KeepInRange(earlier + [r], dateOf, inRange);
      var added := if inRange(dateOf(r)) then [r] else [];
      assert (earlier + [r])[..|earlier|] == earlier;
      assert kept == KeepInRange(earlier, dateOf, inRange) + added;
      FilterPlayersAppend(before, p, r, dateOf, inRange);
      var before_ := multiset(Flatten(f.keys, f.vals));
      if p in before.vals {
        FlattenUpdate(f.keys, f.vals, p, kept);
        assert f.vals[p] == KeepInRange(earlier, dateOf, inRange);
        assert multiset(kept) == multiset(f.vals[p]) + multiset(added);
        assert f'.keys == f.keys;
        assert Flatten(f'.keys, f'.vals) == Flatten(f.keys, f.vals[p := kept]);
        MultisetCancel(multiset(Flatten(f'.keys, f'.vals)), before_, multiset(f.vals[p]), multiset(added));
      } else {
        assert earlier == [] && p !in f.keys;
        FlattenFresh(f.keys, f.vals, p, kept);
        assert f'.keys == f.keys + [p];
        assert KeepInRange(earlier, dateOf, inRange) == [];
        assert kept == added;
        assert Flatten(f'.keys, f'.vals) == Flatten(f.keys, f.vals) + kept;
      }
      assert Records(g)[..|g| - 1] == Records(init);
      assert KeepInRange(Records(g), dateOf, inRange) == KeepInRange(Records(init), dateOf, inRange) + added;
    }
  }

  /**
   * Filtering what a parser built keeps the counting invariants: the new total is the
   * number of records kept, which is also the sum of the rebuilt type and player
   * counters; the date counters are those of the kept records; the types are counted
   * over the kept records; and each player's list holds that player's kept records in
   * log order.
   */
  lemma FilterParsed<R>(g: seq<Incident<R>>, kindOf: R -> string, dateOf: R -> string, inRange: string -> bool)
    ensures var kept := KeepInRange(Records(g), dateOf, inRange);
      var f := FilterAggregate(Build(g, kindOf, dateOf), kindOf, dateOf, inRange);
      && Consistent(f)
      && f.total == |kept|
      && f.byDate == Tally(kept, dateOf)
      && (forall k :: Get(f.byType, k) == CountKey(kept, kindOf, k))
      && (forall p :: p in f.players.vals ==> f.players.vals[p] == KeepInRange(RecordsOf(g, p), dateOf, inRange))
  {
    var kept := KeepInRange(Records(g), dateOf, inRange);
    var f := FilterAggregate(Build(g, kindOf, dateOf), kindOf, dateOf, inRange);
    FilterDatesTally(Records(g), dateOf, inRange);
    FilteredGroupRecords(g, dateOf, inRange);
    var flat := Flatten(f.players.keys, f.players.vals);
    assert |flat| == |kept| by {
      assert |multiset(flat)| == |multiset(kept)|;
    }
    forall k ensures Get(f.byType, k) == CountKey(kept, kindOf, k) {
      CountKeyPerm(flat, kept, kindOf, k);
    }
    forall p | p in f.players.vals ensures f.players.vals[p] == KeepInRange(RecordsOf(g, p), dateOf, inRange) {
      GroupRecords(g, p);
    }
  }

  /**
   * Filtering a freshly parsed punishment log keeps its counting invariants, the
   * `totalPunishments` quirk notwithstanding: an empty log has nothing to keep.
   */
  lemma FilterParsedPunishments(g: seq<Incident<PunishmentRecord>>, start: string, end: string)
    ensures var r := FilterByDateRange(Punishments(PunishmentParser.FromIncidents(g)), start, end);
      && Consistent(r.punishments.agg)
      && r.punishments.agg.total == |KeepInRange(Records(g), PunishmentDate, InRangeOf(start, end))|
  {
    FilterParsed(g, PunishmentKind, PunishmentDate, InRangeOf(start, end));
  }

  /** The same for a freshly parsed violation log. */
  lemma FilterParsedViolations(g: seq<Incident<ViolationRecord>>, start: string, end: string)
    ensures var r := FilterByDateRange(Violations(ViolationParser.FromIncidents(g)), start, end);
      && Consistent(r.violations.agg)
      && r.violations.agg.total == |KeepInRange(Records(g), ViolationDate, InRangeOf(start, end))|
  {
    FilterParsed(g, ViolationKind, ViolationDate, InRangeOf(start, end));
  }

  /**
   * Line 236 makes refiltering add a field: a parsed punishment log with records,
   * none of them in range, is filtered to a total of 0 with no `totalViolations`
   * field; filtering that again finds the 0 falsy and adds `totalViolations: 0`.
   */
  lemma RefilterAddsStrayTotal(g: seq<Incident<PunishmentRecord>>, start: string, end: string)
    requires g != [] && KeepInRange(Records(g), PunishmentDate, InRangeOf(start, end)) == []
    ensures var once := FilterByDateRange(Punishments(PunishmentParser.FromIncidents(g)), start, end);
      var twice := FilterByDateRange(once, start, end);
      && once.punishments.agg.total == 0 && once.punishments.strayTotalViolations == None
      && twice.punishments.strayTotalViolations == Some(0)
      && twice != once
  {
    var p := PunishmentParser.FromIncidents(g);
    PunishmentParser.FromIncidentsConsistent(g);
    FilterParsedPunishments(g, start, end);
    RefilterToZero(p, start, end);
  }

  /** A non-zero punishment total filtered to 0 keeps its `totalViolations`, and a second filter sets it to 0. */
  lemma RefilterToZero(p: PunishmentData, start: string, end: string)
    requires Filterable(p.agg) && p.agg.total != 0
    requires FilterByDateRange(Punishments(p), start, end).punishments.agg.total == 0
    ensures var once := FilterByDateRange(Punishments(p), start, end);
      var twice := FilterByDateRange(once, start, end);
      && once.punishments.strayTotalViolations == p.strayTotalViolations
      && twice.punishments.strayTotalViolations == Some(0)
  {
    var inRange := InRangeOf(start, end);
    var f := FilterAggregate(p.agg, PunishmentKind, PunishmentDate, inRange);
    FilterAggregateWithin(p.agg, PunishmentKind, PunishmentDate, inRange, inRange);
    assert FilterByDateRange(Punishments(p), start, end) == Punishments(p.(agg := f));
  }

  /**
   * Line 236 on an empty punishment log: `totalPunishments` is 0, hence falsy, so it
   * stays 0 and the filtered total lands in a `totalViolations` field.
   */
  lemma FilterEmptyPunishments(start: string, end: string)
    ensures var r := FilterByDateRange(Punishments(PunishmentParser.FromIncidents([])), start, end);
      r.punishments.agg.total == 0 && r.punishments.strayTotalViolations == Some(0)
  {
    FilterParsed([], PunishmentKind, PunishmentDate, InRangeOf(start, end));
  }
}
