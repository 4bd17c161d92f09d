/**
 * `searchPlayerPunishments` and `searchPlayerViolations`: find one player's list of
 * records in a parsed dataset (the exact name first, then the first name that matches
 * ignoring case) and count that list by type, world or version and date, together with
 * the ten most recent records, latest first.
 */
module PlayerSearch {
  import opened Wrappers
  import opened Strings
  import opened OrderedMaps
  import opened Aggregates
  import PunishmentParser
  import ViolationParser

  /** `keys[i]` is the query up to letter case, and no earlier key is. */
  predicate FirstFolded(keys: seq<string>, query: string, i: nat) {
    i < |keys| && Lower(keys[i]) == Lower(query) &&
    forall j :: 0 <= j < i ==> Lower(keys[j]) != Lower(query)
  }

  /** No key is the query up to letter case. */
  predicate NoneFolded(keys: seq<string>, query: string) {
    forall j :: 0 <= j < |keys| ==> Lower(keys[j]) != Lower(query)
  }

  /** At most one position is the first that matches. */
  lemma FirstFoldedUnique(keys: seq<string>, query: string, i: nat, j: nat)
    requires FirstFolded(keys, query, i) && FirstFolded(keys, query, j)
    ensures i == j
  {
  }

  /**
   * `Object.entries(t).find(([name, _]) => name.toLowerCase() === query.toLowerCase())`:
   * the position, in entry order, of the first key that matches ignoring case.
   */
  function FindFolded(keys: seq<string>, query: string): (r: Option<nat>)
    ensures r.Some? ==> FirstFolded(keys, query, r.value)
    ensures r.None? ==> NoneFolded(keys, query)
  {
    if keys == [] then None
    else if Lower(keys[0]) == Lower(query) then Some(0)
    else
      match FindFolded(keys[1..], query)
      case None =>
        assert forall j :: 1 <= j < |keys| ==> keys[j] == keys[1..][j - 1];
        None
      case Some(i) =>
        assert forall j :: 1 <= j <= i ==> keys[j] == keys[1..][j - 1];
        Some(i + 1)
  }

  /**
   * Lines 127-130 and 159-162: the list stored under the name itself when there is
   * one (an array is truthy even when empty); otherwise the list of the first player,
   * in entry order, whose name is the same ignoring case; otherwise no records.
   */
  function Lookup<R>(t: ODict<seq<R>>, name: string): (rs: seq<R>)
    requires t.Valid()
    ensures name in t.vals ==> rs == t.vals[name]
    ensures forall i: nat :: name !in t.vals && FirstFolded(t.keys, name, i) ==> rs == t.vals[t.keys[i]]
    ensures name !in t.vals && NoneFolded(t.keys, name) ==> rs == []
  {
    if name in t.vals then t.vals[name]
    else
      match FindFolded(t.keys, name)
      case None => []
      case Some(i) =>
        assert forall j: nat :: FirstFolded(t.keys, name, j) ==> j == i by {
          forall j | FirstFolded(t.keys, name, j) ensures j == i {
            FirstFoldedUnique(t.keys, name, i, j);
          }
        }
        t.vals[t.keys[i]]
  }

  /**
   * Two spellings of a name that differ only in letter case find the same list,
   * whether or not one of them is itself a stored name, provided no other casing
   * of the name is stored and the two are not both stored.
   */
  lemma LookupIgnoresCase<R>(t: ODict<seq<R>>, a: string, b: string)
    requires t.Valid() && Lower(a) == Lower(b)
    requires forall k :: k in t.vals && Lower(k) == Lower(a) ==> k == a || k == b
    requires !(a in t.vals && b in t.vals && a != b)
    ensures Lookup(t, a) == Lookup(t, b)
  {
    if a in t.vals && b !in t.vals {
      StoredSpelling(t, a, b);
    } else if b in t.vals && a !in t.vals {
      StoredSpelling(t, b, a);
    } else if a !in t.vals {
      FallbackIgnoresCase(t, a, b);
    }
  }

  /** When only `a` is stored, looking up `b` falls back to `a`'s list. */
  lemma StoredSpelling<R>(t: ODict<seq<R>>, a: string, b: string)
    requires t.Valid() && Lower(a) == Lower(b) && a in t.vals && b !in t.vals
    requires forall k :: k in t.vals && Lower(k) == Lower(a) ==> k == a || k == b
    ensures Lookup(t, b) == t.vals[a]
  {
    var i :| 0 <= i < |t.keys| && t.keys[i] == a;
    assert !NoneFolded(t.keys, b);
    var r := FindFolded(t.keys, b);
    assert t.keys[r.value] in t.vals;
  }

  /** Two spellings that are both unstored fall back to the same list. */
  lemma FallbackIgnoresCase<R>(t: ODict<seq<R>>, a: string, b: string)
    requires t.Valid() && a !in t.vals && b !in t.vals && Lower(a) == Lower(b)
    ensures Lookup(t, a) == Lookup(t, b)
  {
    match FindFolded(t.keys, a)
    case None =>
      assert NoneFolded(t.keys, b);
    case Some(i) =>
      assert FirstFolded(t.keys, b, i);
  }

  /** Hence a punishment search gives the same answer for either spelling. */
  lemma PunishmentSearchIgnoresCase(d: PunishmentData, a: string, b: string)
    requires d.agg.players.Valid() && Lower(a) == Lower(b)
    requires forall k :: k in d.agg.players.vals && Lower(k) == Lower(a) ==> k == a || k == b
    requires !(a in d.agg.players.vals && b in d.agg.players.vals && a != b)
    ensures SearchPlayerPunishments(d, a) == SearchPlayerPunishments(d, b)
  {
    LookupIgnoresCase(d.agg.players, a, b);
  }

  /** And so does a violation search. */
  lemma ViolationSearchIgnoresCase(d: ViolationData, a: string, b: string)
    requires d.agg.players.Valid() && Lower(a) == Lower(b)
    requires forall k :: k in d.agg.players.vals && Lower(k) == Lower(a) ==> k == a || k == b
    requires !(a in d.agg.players.vals && b in d.agg.players.vals && a != b)
    ensures SearchPlayerViolations(d, a) == SearchPlayerViolations(d, b)
  {
    LookupIgnoresCase(d.agg.players, a, b);
  }

  /** `s.reverse()` */
  function Reversed<X>(s: seq<X>): (r: seq<X>)
    ensures |r| == |s|
    ensures forall i :: 0 <= i < |s| ==> r[i] == s[|s| - 1 - i]
  {
    if s == [] then [] else [s[|s| - 1]] + Reversed(s[..|s| - 1])
  }

  /** The list's last ten elements (all of them when there are fewer), last first: `slice(-10).reverse()`. */
  function MostRecent<X>(rs: seq<X>): (r: seq<X>)
    ensures |r| == if |rs| < 10 then |rs| else 10
    ensures forall i :: 0 <= i < |r| ==> r[i] == rs[|rs| - 1 - i]
  {
    var n := if |rs| < 10 then |rs| else 10;
    Reversed(rs[|rs| - n..])
  }

  /** What `searchPlayerPunishments` returns. */
  datatype PunishmentSearch =
    PunishmentSearch(total: nat, byType: Counts, byWorld: Counts, byDate: Counts, recent: seq<PunishmentRecord>)

  /**
   * Lines 125-155: the total is the number of the player's records and the types
   * add up to it; worlds and dates are counted only where they are non-empty (an
   * empty string is falsy), so they add up to at most the total.
   */
  function SearchPlayerPunishments(d: PunishmentData, name: string): (r: PunishmentSearch)
    requires d.agg.players.Valid()
    ensures var rs := Lookup(d.agg.players, name);
      && r.total == |rs|
      && Sum(r.byType) == r.total
      && Sum(r.byWorld) + CountKey(rs, PunishmentWorld, "") == r.total
      && Sum(r.byDate) + CountKey(rs, PunishmentDate, "") == r.total
      && (forall k :: Get(r.byType, k) == CountKey(rs, PunishmentKind, k))
      && (forall k :: k != "" ==> Get(r.byWorld, k) == CountKey(rs, PunishmentWorld, k))
      && (forall k :: k != "" ==> Get(r.byDate, k) == CountKey(rs, PunishmentDate, k))
      && "" !in r.byWorld.vals && "" !in r.byDate.vals
      && r.recent == MostRecent(rs)
  {
    var rs := Lookup(d.agg.players, name);
    PunishmentSearch(|rs|, Tally(rs, PunishmentKind), TallyPresent(rs, PunishmentWorld),
                     TallyPresent(rs, PunishmentDate), MostRecent(rs))
  }

  /** What `searchPlayerViolations` returns. */
  datatype ViolationSearch =
    ViolationSearch(total: nat, byType: Counts, byDate: Counts, byVersion: Counts, recent: seq<ViolationRecord>)

  /**
   * Lines 157-183: the total is the number of the player's records, and types, dates
   * and versions are each counted for every record, so each adds up to the total.
   */
  function SearchPlayerViolations(d: ViolationData, name: string): (r: ViolationSearch)
    requires d.agg.players.Valid()
    ensures var rs := Lookup(d.agg.players, name);
      && r.total == |rs|
      && Sum(r.byType) == r.total && Sum(r.byDate) == r.total && Sum(r.byVersion) == r.total
      && (forall k :: Get(r.byType, k) == CountKey(rs, ViolationKind, k))
      && (forall k :: Get(r.byDate, k) == CountKey(rs, ViolationDate, k))
      && (forall k :: Get(r.byVersion, k) == CountKey(rs, ViolationVersion, k))
      && r.recent == MostRecent(rs)
  {
    var rs := Lookup(d.agg.players, name);
    ViolationSearch(|rs|, Tally(rs, ViolationKind), Tally(rs, ViolationDate),
                    Tally(rs, ViolationVersion), MostRecent(rs))
  }

  /** A counter built from no records is `{}`. */
  lemma TallyNothing<X>(key: X -> string)
    ensures Tally([], key) == Empty() && TallyPresent([], key) == Empty()
  {
  }

  /** An unknown player, in any letter case, gets a total of 0, empty counters and no recent records. */
  lemma PunishmentSearchNotFound(d: PunishmentData, name: string)
    requires d.agg.players.Valid()
    requires name !in d.agg.players.vals && NoneFolded(d.agg.players.keys, name)
    ensures var r := SearchPlayerPunishments(d, name);
      r.total == 0 && r.byType == r.byWorld == r.byDate == Empty() && r.recent == []
  {
    TallyNothing(PunishmentKind);
    TallyNothing(PunishmentWorld);
    TallyNothing(PunishmentDate);
  }

  lemma ViolationSearchNotFound(d: ViolationData, name: string)
    requires d.agg.players.Valid()
    requires name !in d.agg.players.vals && NoneFolded(d.agg.players.keys, name)
    ensures var r := SearchPlayerViolations(d, name);
      r.total == 0 && r.byType == r.byDate == r.byVersion == Empty() && r.recent == []
  {
    TallyNothing(ViolationKind);
    TallyNothing(ViolationDate);
    TallyNothing(ViolationVersion);
  }

  /**
   * Searching a parsed punishment log for a player it names agrees with the log: the
   * total is that player's punishment counter, the types are counted over exactly the
   * player's punishments, and the recent list is their last ten punishments, latest first.
   */
  lemma SearchParsedPunishments(g: seq<Incident<PunishmentRecord>>, name: string)
    requires name in Group(g).vals
    ensures var d := PunishmentParser.FromIncidents(g);
      var r := SearchPlayerPunishments(d, name);
      && r.total == Get(d.agg.byPlayer, name)
      && (forall k :: Get(r.byType, k) == CountKey(RecordsOf(g, name), PunishmentKind, k))
      && r.recent == MostRecent(RecordsOf(g, name))
  {
    GroupRecords(g, name);
    PunishmentParser.FromIncidentsConsistent(g);
  }

  /** The same for a parsed violation log. */
  lemma SearchParsedViolations(g: seq<Incident<ViolationRecord>>, name: string)
    requires name in Group(g).vals
    ensures var d := ViolationParser.FromIncidents(g);
      var r := SearchPlayerViolations(d, name);
      && r.total == Get(d.agg.byPlayer, name)
      && (forall k :: Get(r.byVersion, k) == CountKey(RecordsOf(g, name), ViolationVersion, k))
      && r.recent == MostRecent(RecordsOf(g, name))
  {
    GroupRecords(g, name);
    ViolationParser.FromIncidentsConsistent(g);
  }
}
