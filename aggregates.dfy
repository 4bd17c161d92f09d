/**
 * The records and datasets the parsers produce, and the aggregate a sequence of
 * recognised incidents gives rise to.
 */
module Aggregates {
  import opened Wrappers
  import opened OrderedMaps

  /** `{ type, date, world, uuid }` pushed onto `playerPunishments[player]`. */
  datatype PunishmentRecord = PunishmentRecord(kind: string, date: string, world: string, uuid: string)

  /** `{ date, time, type, vl, ping, version }` pushed onto `playerViolations[player]`. */
  datatype ViolationRecord =
    ViolationRecord(date: string, time: string, kind: string, vl: string, ping: string, version: string)

  function PunishmentKind(r: PunishmentRecord): string { r.kind }
  function PunishmentDate(r: PunishmentRecord): string { r.date }
  function PunishmentWorld(r: PunishmentRecord): string { r.world }
  function ViolationKind(r: ViolationRecord): string { r.kind }
  function ViolationDate(r: ViolationRecord): string { r.date }
  function ViolationVersion(r: ViolationRecord): string { r.version }

  /** One recognised log entry: the player it names and the record made of it. */
  type Incident<R> = (string, R)

  function PlayerOf<R>(i: Incident<R>): string { i.0 }

  /** The records of the incidents, in log order. */
  function Records<R>(g: seq<Incident<R>>): (rs: seq<R>)
    ensures |rs| == |g| && forall i :: 0 <= i < |g| ==> rs[i] == g[i].1
  {
    if g == [] then [] else Records(g[..|g| - 1]) + [g[|g| - 1].1]
  }

  /** The records of the incidents that name player `p`, in log order. */
  function RecordsOf<R>(g: seq<Incident<R>>, p: string): seq<R> {
    if g == [] then []
    else RecordsOf(g[..|g| - 1], p) + (if g[|g| - 1].0 == p then [g[|g| - 1].1] else [])
  }

  lemma {:induction false} RecordsOfCount<R>(g: seq<Incident<R>>, p: string)
    ensures |RecordsOf(g, p)| == CountKey(g, PlayerOf, p)
    decreases |g|
  {
    if g != [] {
      RecordsOfCount(g[..|g| - 1], p);
    }
  }

  /**
   * `playerPunishments` / `playerViolations` as the parsers fill it: one list per
   * player, players listed in order of first appearance (`AppearancesOrder`, the
   * same order the per-player counters get), each list holding exactly that player's
   * records in log order (`GroupRecords`).
   */
  function Group<R>(g: seq<Incident<R>>): (t: ODict<seq<R>>)
    ensures t.Valid()
    ensures RecordCount(t) == |g|
    ensures t.keys == Appearances(g, PlayerOf)
    ensures forall p :: p in t.vals <==> CountKey(g, PlayerOf, p) > 0
  {
    if g == [] then Empty()
    else
      var t := Group(g[..|g| - 1]);
      Append(t, g[|g| - 1].0, g[|g| - 1].1)
  }

  /** Each player's list holds exactly that player's records, in log order. */
  lemma {:induction false} GroupRecords<R>(g: seq<Incident<R>>, p: string)
    requires p in Group(g).vals
    ensures Group(g).vals[p] == RecordsOf(g, p)
    decreases |g|
  {
    var init, x := g[..|g| - 1], g[|g| - 1];
    if p in Group(init).vals {
      GroupRecords(init, p);
    } else {
      assert x.0 == p;
      RecordsOfCount(init, p);
      assert RecordsOf(init, p) == [];
    }
  }

  /** The fields every dataset has, whatever its kind (`total…`, `…ByType`, `…ByPlayer`, `…ByDate`, `player…`). */
  datatype Aggregate<R> =
    Aggregate(total: nat, byType: Counts, byPlayer: Counts, byDate: Counts, players: ODict<seq<R>>)

  /** What the parsers compute from the incidents they recognise, in log order. */
  function Build<R>(g: seq<Incident<R>>, kindOf: R -> string, dateOf: R -> string): Aggregate<R> {
    Aggregate(|g|, Tally(Records(g), kindOf), Tally(g, PlayerOf), Tally(Records(g), dateOf), Group(g))
  }

  /** A counter over the records gains one occurrence of the new record's key. */
  lemma TallyRecordsStep<R>(g: seq<Incident<R>>, x: Incident<R>, key: R -> string)
    ensures Tally(Records(g + [x]), key) == Bump(Tally(Records(g), key), key(x.1))
  {
    assert Records(g + [x])[..|g|] == Records(g);
  }

  /** One more incident bumps each counter once and appends one record. */
  lemma BuildStep<R>(g: seq<Incident<R>>, x: Incident<R>, kindOf: R -> string, dateOf: R -> string)
    ensures var a := Build(g, kindOf, dateOf);
      Build(g + [x], kindOf, dateOf)
      == Aggregate(a.total + 1, Bump(a.byType, kindOf(x.1)), Bump(a.byPlayer, x.0),
                   Bump(a.byDate, dateOf(x.1)), Append(a.players, x.0, x.1))
  {
    assert (g + [x])[..|g|] == g;
    TallyRecordsStep(g, x, kindOf);
    TallyRecordsStep(g, x, dateOf);
  }

  /**
   * The counting invariants of a dataset: the total equals the sum of each
   * breakdown and the number of records, and each player's counter is the length
   * of that player's list, with players listed in the same order in both.
   */
  ghost predicate Consistent<R>(a: Aggregate<R>) {
    && a.byType.Valid() && a.byPlayer.Valid() && a.byDate.Valid() && a.players.Valid()
    && a.total == Sum(a.byType)
    && a.total == Sum(a.byPlayer)
    && a.total == Sum(a.byDate)
    && a.total == RecordCount(a.players)
    && a.byPlayer.keys == a.players.keys
    && forall p :: p in a.players.vals ==> Get(a.byPlayer, p) == |a.players.vals[p]|
  }

  /** Whatever the log, what the parsers build satisfies the counting invariants. */
  lemma BuildConsistent<R>(g: seq<Incident<R>>, kindOf: R -> string, dateOf: R -> string)
    ensures Consistent(Build(g, kindOf, dateOf))
  {
    var a := Build(g, kindOf, dateOf);
    forall p | p in a.players.vals ensures Get(a.byPlayer, p) == |a.players.vals[p]| {
      GroupRecords(g, p);
      RecordsOfCount(g, p);
    }
  }

  /** `parsePunishments` output; `strayTotalViolations` is the key the range filter may add. */
  datatype PunishmentData =
    PunishmentData(agg: Aggregate<PunishmentRecord>, byWorld: Counts, strayTotalViolations: Option<nat>)

  /** `parseViolations` output. */
  datatype ViolationData =
    ViolationData(agg: Aggregate<ViolationRecord>, byVersion: Counts, byPing: Counts)

  /** A dataset of either kind, as the range filter receives it. */
  datatype Dataset = Punishments(punishments: PunishmentData) | Violations(violations: ViolationData)
}
