/**
 * `parsePunishments`: the punishment log is a run of incident blocks, each opened by
 * `--------------[` and a header line `<player> was punished for <type>]-…`, followed
 * by lines that may carry `Date:`, `World:` and `UUID:` fields.
 */
module PunishmentParser {
  import opened Wrappers
  import opened Strings
  import opened OrderedMaps
  import opened Dates
  import opened Aggregates

  /** The text that opens every incident block. */
  const Delimiter: string := "--------------["

  /** `s.trim() === ''` */
  predicate Blank(s: string) {
    Trim(s) == []
  }

  /** `parts.filter(p => p.trim() !== '')`, order kept. */
  function NonBlank(parts: seq<string>): (r: seq<string>)
    ensures |r| <= |parts|
    ensures forall s :: s in r ==> s in parts && !Blank(s)
  {
    if parts == [] then []
    else
      var init, last := NonBlank(parts[..|parts| - 1]), parts[|parts| - 1];
      if !Blank(last) then init + [last] else init
  }

  /** Every non-blank part is kept. */
  lemma {:induction false} NonBlankKeeps(parts: seq<string>, i: nat)
    requires i < |parts| && !Blank(parts[i])
    ensures parts[i] in NonBlank(parts)
    decreases |parts|
  {
    if i < |parts| - 1 {
      NonBlankKeeps(parts[..|parts| - 1], i);
    }
  }

  /** The filter keeps order: the kept parts of `a + b` are those of `a` followed by those of `b`. */
  lemma {:induction false} NonBlankConcat(a: seq<string>, b: seq<string>)
    ensures NonBlank(a + b) == NonBlank(a) + NonBlank(b)
    decreases |b|
  {
    if b == [] {
      assert a + b == a;
    } else {
      var init, last := b[..|b| - 1], b[|b| - 1];
      assert (a + b)[..|a + b| - 1] == a + init && (a + b)[|a + b| - 1] == last;
      NonBlankConcat(a, init);
    }
  }

  /** A single part is kept exactly when it is not blank. */
  lemma NonBlankSingle(p: string)
    ensures NonBlank([p]) == if Blank(p) then [] else [p]
  {
    assert [p][..0] == [];
  }

  /** The incident blocks of a log: the text between delimiters, blank ones dropped. */
  function Segments(content: string): seq<string> {
    NonBlank(Split(content, Delimiter))
  }

  /** The text between the player and the punishment type in a header. */
  const Marker: string := " was punished for "

  /**
   * `/(.*?) was punished for (.*?)\]-/` on text without line terminators: it matches
   * when the first ` was punished for ` is followed somewhere by `]-`; the player is
   * the text before that marker and the type the text up to the first `]-` after it,
   * both trimmed.
   */
  function MatchHeaderIn(c: string): (r: Option<(string, string)>)
    ensures r.Some? ==> Contains(c, Marker)
  {
    match IndexOf(c, Marker)
    case None => None
    case Some(i) =>
      var rest := c[i + |Marker|..];
      match IndexOf(rest, "]-")
      case None => None
      case Some(j) => Some((Trim(c[..i]), Trim(rest[..j])))
  }

  /** The match in the first chunk that has one. */
  function FirstHeader(chunks: seq<string>): Option<(string, string)> {
    if chunks == [] then None
    else match MatchHeaderIn(chunks[0])
      case Some(h) => Some(h)
      case None => FirstHeader(chunks[1..])
  }

  /**
   * `lines[0].match(…)`: `.` matches no line terminator, so a match lies within one
   * stretch of the line between terminators, and the leftmost stretch that matches wins.
   */
  function MatchHeader(line: string): Option<(string, string)> {
    FirstHeader(Stretches(line))
  }

  /**
   * A header written as `<player> was punished for <type>]-<rest>` is recognised with
   * those values (trimmed), whatever follows it, as long as the marker does not occur
   * earlier, the type holds no `]-`, and no line terminator comes before the `]-`.
   */
  lemma HeaderRecognised(line: string, player: string, kind: string, rest: string)
    requires line == player + Marker + kind + "]-" + rest
    requires forall i :: 0 <= i < |player| ==> !OccursAt(player + Marker, Marker, i)
    requires forall i :: 0 <= i < |kind| ==> !OccursAt(kind + "]-", "]-", i)
    requires forall j :: 0 <= j < |player| ==> !IsLineTerminator(player[j])
    requires forall j :: 0 <= j < |kind| ==> !IsLineTerminator(kind[j])
    ensures MatchHeader(line) == Some((Trim(player), Trim(kind)))
  {
    var n := |player| + |Marker| + |kind| + 2;
    var h := UpToBreak(line);
    HeaderUnbroken(line, player, kind, rest, n);
    assert |h| >= n;
    var after := kind + "]-" + h[n..];
    assert h == player + Marker + after;
    MarkerAt(h, player, after);
    assert h[|player| + |Marker|..] == after;
    CloseAt(after, kind, h[n..]);
    assert h[..|player|] == player && after[..|kind|] == kind;
  }

  /** No line terminator occurs before the end of the header's `]-`. */
  lemma HeaderUnbroken(line: string, player: string, kind: string, rest: string, n: nat)
    requires line == player + Marker + kind + "]-" + rest && n == |player| + |Marker| + |kind| + 2
    requires forall j :: 0 <= j < |player| ==> !IsLineTerminator(player[j])
    requires forall j :: 0 <= j < |kind| ==> !IsLineTerminator(kind[j])
    ensures forall j :: 0 <= j < n ==> !IsLineTerminator(line[j])
  {
    forall j | 0 <= j < n ensures !IsLineTerminator(line[j]) {
      if j < |player| {
        assert line[j] == player[j];
      } else if j < |player| + |Marker| {
        assert line[j] == Marker[j - |player|];
      } else if j < |player| + |Marker| + |kind| {
        assert line[j] == kind[j - |player| - |Marker|];
      } else {
        assert line[j] == "]-"[j - |player| - |Marker| - |kind|];
      }
    }
  }

  lemma MarkerAt(line: string, player: string, after: string)
    requires line == player + Marker + after
    requires forall i :: 0 <= i < |player| ==> !OccursAt(player + Marker, Marker, i)
    ensures IndexOf(line, Marker) == Some(|player|)
  {
    var t := player + Marker;
    assert line[|player|..|player| + |Marker|] == Marker;
    assert t == line[..|t|];
    forall j | 0 <= j < |player| ensures !OccursAt(line, Marker, j) {
      assert !OccursAt(player + Marker, Marker, j);
      assert j + |Marker| <= |t| && line[j..j + |Marker|] == t[j..j + |Marker|];
    }
    IndexOfAt(line, Marker, |player|);
  }

  lemma CloseAt(after: string, kind: string, rest: string)
    requires after == kind + "]-" + rest
    requires forall i :: 0 <= i < |kind| ==> !OccursAt(kind + "]-", "]-", i)
    ensures IndexOf(after, "]-") == Some(|kind|)
  {
    var t := kind + "]-";
    assert after[|kind|..|kind| + 2] == "]-";
    assert t == after[..|t|];
    forall j | 0 <= j < |kind| ensures !OccursAt(after, "]-", j) {
      assert !OccursAt(kind + "]-", "]-", j);
      assert j + 2 <= |t| && after[j..j + 2] == t[j..j + 2];
    }
    IndexOfAt(after, "]-", |kind|);
  }

  /** The three optional fields of an incident. */
  datatype Fields = Fields(date: string, world: string, uuid: string)

  /** The three fields a block line can set. */
  datatype FieldName = DateField | WorldField | UuidField

  function FieldOf(f: Fields, name: FieldName): string {
    match name
    case DateField => f.date
    case WorldField => f.world
    case UuidField => f.uuid
  }

  /** Whether `line` sets field `name`: the `if / else if` chain tests `Date:`, then `World:`, then `UUID:`. */
  predicate Sets(line: string, name: FieldName) {
    match name
    case DateField => Contains(line, "Date:")
    case WorldField => !Contains(line, "Date:") && Contains(line, "World:")
    case UuidField => !Contains(line, "Date:") && !Contains(line, "World:") && Contains(line, "UUID:")
  }

  /** `line.split(marker)[1].trim()`: the text after the first marker, up to a second one if any. */
  function ValueAfter(line: string, marker: string): string
    requires marker != [] && Contains(line, marker)
  {
    Trim(Split(line, marker)[1])
  }

  /** One step of `lines.forEach(…)`: at most one field is set, and a bad `Date:` value throws. */
  function ScanLine(f: Fields, line: string): Result<Fields, Failure> {
    if Contains(line, "Date:") then
      var d :- FormatDate(ValueAfter(line, "Date:"));
      Ok(f.(date := d))
    else if Contains(line, "World:") then Ok(f.(world := ValueAfter(line, "World:")))
    else if Contains(line, "UUID:") then Ok(f.(uuid := ValueAfter(line, "UUID:")))
    else Ok(f)
  }

  /** The field scan over all lines of a block, starting from `init`; the first throw ends it. */
  function ScanSpec(lines: seq<string>, init: Fields): Result<Fields, Failure> {
    if lines == [] then Ok(init)
    else
      var f :- ScanSpec(lines[..|lines| - 1], init);
      ScanLine(f, lines[|lines| - 1])
  }

  /** Once a prefix of the lines has thrown, the whole scan throws the same error. */
  lemma {:induction false} ScanFailureSticks(lines: seq<string>, init: Fields, k: nat)
    requires k <= |lines| && ScanSpec(lines[..k], init).Err?
    ensures ScanSpec(lines, init) == ScanSpec(lines[..k], init)
    decreases |lines|
  {
    if k < |lines| {
      var init' := lines[..|lines| - 1];
      assert init'[..k] == lines[..k];
      ScanFailureSticks(init', init, k);
    } else {
      assert lines[..k] == lines;
    }
  }

  /** The value a line that sets field `name` gives it; a bad date throws. */
  function Setting(line: string, name: FieldName): Result<string, Failure>
    requires Sets(line, name)
  {
    match name
    case DateField => FormatDate(ValueAfter(line, "Date:"))
    case WorldField => Ok(ValueAfter(line, "World:"))
    case UuidField => Ok(ValueAfter(line, "UUID:"))
  }

  /** A scanned line sets at most one field, to its `Setting`, and leaves the others alone. */
  lemma ScanLineEffect(f: Fields, line: string, f': Fields, name: FieldName)
    requires ScanLine(f, line) == Ok(f')
    ensures Sets(line, name) ==> Ok(FieldOf(f', name)) == Setting(line, name)
    ensures !Sets(line, name) ==> FieldOf(f', name) == FieldOf(f, name)
  {
  }

  /** A scan that succeeds ended with a successful scan of all but the last line, then a successful last step. */
  lemma ScanStep(lines: seq<string>, init: Fields, f: Fields)
    requires lines != [] && ScanSpec(lines, init) == Ok(f)
    ensures ScanSpec(lines[..|lines| - 1], init).Ok?
    ensures ScanLine(ScanSpec(lines[..|lines| - 1], init).value, lines[|lines| - 1]) == Ok(f)
  {
  }

  /** A field no line sets keeps its initial value (today's date, `Unknown`, or empty). */
  lemma {:induction false} ScanKeepsDefault(lines: seq<string>, init: Fields, f: Fields, name: FieldName)
    requires ScanSpec(lines, init) == Ok(f)
    requires forall j :: 0 <= j < |lines| ==> !Sets(lines[j], name)
    ensures FieldOf(f, name) == FieldOf(init, name)
    decreases |lines|
  {
    if lines != [] {
      var n := |lines| - 1;
      var prefix := lines[..n];
      ScanStep(lines, init, f);
      var f' := ScanSpec(prefix, init).value;
      ScanLineEffect(f', lines[n], f, name);
      assert forall j :: 0 <= j < n ==> prefix[j] == lines[j];
      ScanKeepsDefault(prefix, init, f', name);
    }
  }

  /** A field some line sets ends with the value of the last line that sets it. */
  lemma {:induction false} ScanLastWins(lines: seq<string>, init: Fields, f: Fields, name: FieldName, j: nat)
    requires ScanSpec(lines, init) == Ok(f)
    requires j < |lines| && Sets(lines[j], name)
    requires forall k :: j < k < |lines| ==> !Sets(lines[k], name)
    ensures Ok(FieldOf(f, name)) == Setting(lines[j], name)
    decreases |lines|
  {
    var n := |lines| - 1;
    var prefix := lines[..n];
    ScanStep(lines, init, f);
    var f' := ScanSpec(prefix, init).value;
    ScanLineEffect(f', lines[n], f, name);
    if j < n {
      assert !Sets(lines[n], name);
      LaterLines(lines, j, name);
      ScanLastWins(prefix, init, f', name, j);
    }
  }

  /** The lines after `j` in all but the last line are lines after `j` of the whole. */
  lemma LaterLines(lines: seq<string>, j: nat, name: FieldName)
    requires j < |lines| - 1 && Sets(lines[j], name)
    requires forall k :: j < k < |lines| ==> !Sets(lines[k], name)
    ensures var prefix := lines[..|lines| - 1];
      Sets(prefix[j], name) && forall k :: j < k < |prefix| ==> !Sets(prefix[k], name)
  {
    var prefix := lines[..|lines| - 1];
    assert prefix[j] == lines[j];
    forall k | j < k < |prefix| ensures !Sets(prefix[k], name) {
      assert prefix[k] == lines[k];
    }
  }

  /**
   * The field scan of `parsePunishments` (lines 36-48): the date starts as today's,
   * the world as `Unknown` and the UUID empty, and each line is examined in order.
   */
  method ScanFields(lines: seq<string>, today: string) returns (r: Result<Fields, Failure>)
    ensures r == ScanSpec(lines, Fields(today, "Unknown", ""))
  {
    var date, world, uuid := today, "Unknown", "";
    var i := 0;
    while i < |lines|
      invariant 0 <= i <= |lines|
      invariant ScanSpec(lines[..i], Fields(today, "Unknown", "")) == Ok(Fields(date, world, uuid))
    {
      var line := lines[i];
      assert lines[..i + 1][..i] == lines[..i] && lines[..i + 1][i] == line;
      if Contains(line, "Date:") {
        var d := FormatDate(ValueAfter(line, "Date:"));
        if d.Err? {
          ScanFailureSticks(lines, Fields(today, "Unknown", ""), i + 1);
          return Err(d.error);
        }
        date := d.value;
      } else if Contains(line, "World:") {
        world := ValueAfter(line, "World:");
      } else if Contains(line, "UUID:") {
        uuid := ValueAfter(line, "UUID:");
      }
      i := i + 1;
    }
    assert lines[..i] == lines;
    r := Ok(Fields(date, world, uuid));
  }

  /**
   * What one block contributes: nothing unless, once trimmed, it has at least two
   * lines and its first line matches the header; otherwise one incident for the
   * header's player, with the header's type and the scanned fields.
   */
  function SegmentIncident(segment: string, isoToday: string): Result<Option<Incident<PunishmentRecord>>, Failure> {
    var lines := Split(Trim(segment), "\n");
    if |lines| <= 1 then Ok(None)
    else
      match MatchHeader(lines[0])
      case None => Ok(None)
      case Some((player, kind)) =>
        var today :- FormatDate(isoToday);
        var f :- ScanSpec(lines, Fields(today, "Unknown", ""));
        Ok(Some((player, PunishmentRecord(kind, f.date, f.world, f.uuid))))
  }

  /** The incidents of a sequence of blocks, in order; the first throw ends the parse. */
  function Incidents(segments: seq<string>, isoToday: string): Result<seq<Incident<PunishmentRecord>>, Failure> {
    if segments == [] then Ok([])
    else
      var g :- Incidents(segments[..|segments| - 1], isoToday);
      var x :- SegmentIncident(segments[|segments| - 1], isoToday);
      match x
      case None => Ok(g)
      case Some(i) => Ok(g + [i])
  }

  lemma {:induction false} IncidentsFailureSticks(segments: seq<string>, isoToday: string, k: nat)
    requires k <= |segments| && Incidents(segments[..k], isoToday).Err?
    ensures Incidents(segments, isoToday) == Incidents(segments[..k], isoToday)
    decreases |segments|
  {
    if k < |segments| {
      var init := segments[..|segments| - 1];
      assert init[..k] == segments[..k];
      IncidentsFailureSticks(init, isoToday, k);
    } else {
      assert segments[..k] == segments;
    }
  }

  /** One more block adds its incident, adds nothing, or throws. */
  lemma IncidentsExtend(segments: seq<string>, isoToday: string, g: seq<Incident<PunishmentRecord>>,
                        x: Result<Option<Incident<PunishmentRecord>>, Failure>)
    requires segments != [] && Incidents(segments[..|segments| - 1], isoToday) == Ok(g)
    requires SegmentIncident(segments[|segments| - 1], isoToday) == x
    ensures x.Err? ==> Incidents(segments, isoToday) == Err(x.error)
    ensures x.Ok? && x.value.None? ==> Incidents(segments, isoToday) == Ok(g)
    ensures x.Ok? && x.value.Some? ==> Incidents(segments, isoToday) == Ok(g + [x.value.value])
  {
  }

  /** Each block yields at most one incident. */
  lemma {:induction false} IncidentsAtMostOnePerBlock(segments: seq<string>, isoToday: string)
    requires Incidents(segments, isoToday).Ok?
    ensures |Incidents(segments, isoToday).value| <= |segments|
    decreases |segments|
  {
    if segments != [] {
      IncidentsAtMostOnePerBlock(segments[..|segments| - 1], isoToday);
    }
  }

  /** The dataset the incidents give: every counter tallies them, `playerPunishments` groups them. */
  function FromIncidents(g: seq<Incident<PunishmentRecord>>): PunishmentData {
    PunishmentData(Build(g, PunishmentKind, PunishmentDate), Tally(Records(g), PunishmentWorld), None)
  }

  /** Lines 33-56 for one incident: the counters of its type, player, date and world go up by one and its record joins its player's list. */
  lemma CountIncident(g: seq<Incident<PunishmentRecord>>, player: string, record: PunishmentRecord)
    ensures var d := FromIncidents(g);
      FromIncidents(g + [(player, record)]) ==
      PunishmentData(
        Aggregate(d.agg.total + 1, Bump(d.agg.byType, record.kind), Bump(d.agg.byPlayer, player),
                  Bump(d.agg.byDate, record.date), Append(d.agg.players, player, record)),
        Bump(d.byWorld, record.world), None)
  {
    BuildStep(g, (player, record), PunishmentKind, PunishmentDate);
    TallyRecordsStep(g, (player, record), PunishmentWorld);
  }

  /** The counters of a parsed punishment log agree: each adds up to the total, which is the number of incidents. */
  lemma FromIncidentsConsistent(g: seq<Incident<PunishmentRecord>>)
    ensures Consistent(FromIncidents(g).agg)
    ensures Sum(FromIncidents(g).byWorld) == FromIncidents(g).agg.total == |g|
  {
    BuildConsistent(g, PunishmentKind, PunishmentDate);
  }

  /** A log of a single block that holds no `[` yields that block. */
  lemma OneBlockLog(body: string)
    requires body != [] && !IsSpace(body[0]) && !IsSpace(body[|body| - 1]) && Lacks(body, '[')
    ensures Segments(Delimiter + body + "\n") == [body + "\n"]
  {
    BlockSplit(body);
    BlockNotBlank(body);
    NonBlankPair("", body + "\n");
  }

  /** Cut at the delimiter, a log of one block without `[` is an empty part and the block. */
  lemma BlockSplit(body: string)
    requires Lacks(body, '[')
    ensures Split(Delimiter + body + "\n", Delimiter) == ["", body + "\n"]
  {
    var block := body + "\n";
    LacksConcat(body, "\n", '[');
    LacksPattern(block, Delimiter, |Delimiter| - 1);
    SplitLeading(Delimiter, block);
    assert Delimiter + body + "\n" == Delimiter + block;
  }

  /** A text that starts and ends with a non-space, with a line break after it, is not blank. */
  lemma BlockNotBlank(body: string)
    requires body != [] && !IsSpace(body[0]) && !IsSpace(body[|body| - 1])
    ensures !Blank(body + "\n") && Blank("")
  {
    assert "" + body + "\n" == body + "\n";
    TrimAround("", body, "\n");
  }

  /** `NonBlank` on two parts, the first blank and the second not. */
  lemma NonBlankPair(a: string, b: string)
    requires Blank(a) && !Blank(b)
    ensures NonBlank([a, b]) == [b]
  {
    assert [a, b][..1] == [a] && [a][..0] == [];
  }

  /** Trimmed and cut at line breaks, a block of three lines gives those lines. */
  lemma ThreeLines(h: string, d: string, w: string)
    requires Lacks(h, '\n') && Lacks(d, '\n') && Lacks(w, '\n')
    requires h != [] && !IsSpace(h[0]) && w != [] && !IsSpace(w[|w| - 1])
    ensures Split(Trim(h + "\n" + d + "\n" + w + "\n"), "\n") == [h, d, w]
  {
    TrimBody(h, d, w);
    SplitThree(h, d, w);
  }

  /** Trimming a block of three lines drops only the final line break. */
  lemma TrimBody(h: string, d: string, w: string)
    requires h != [] && !IsSpace(h[0]) && w != [] && !IsSpace(w[|w| - 1])
    ensures Trim(h + "\n" + d + "\n" + w + "\n") == h + "\n" + d + "\n" + w
  {
    var body := h + "\n" + d + "\n" + w;
    assert body[0] == h[0] && body[|body| - 1] == w[|w| - 1];
    assert "" + body + "\n" == h + "\n" + d + "\n" + w + "\n";
    TrimAround("", body, "\n");
  }

  /** Three lines without line breaks, joined by line breaks, split back into those lines. */
  lemma SplitThree(h: string, d: string, w: string)
    requires Lacks(h, '\n') && Lacks(d, '\n') && Lacks(w, '\n')
    ensures Split(h + "\n" + d + "\n" + w, "\n") == [h, d, w]
  {
    assert h + "\n" + d + "\n" + w == h + ['\n'] + (d + ['\n'] + w);
    SplitCharFirst(h, '\n', d + ['\n'] + w);
    SplitCharFirst(d, '\n', w);
    SplitCharNone(w, '\n');
  }

  /** The value after a marker that opens a line and a space, when the rest has no copy of the marker. */
  lemma ValueAfterOpening(line: string, marker: string, value: string, k: nat)
    requires line == marker + " " + value && k < |marker| && Lacks(value, marker[k]) && marker[k] != ' '
    requires value != [] && !IsSpace(value[0]) && !IsSpace(value[|value| - 1])
    ensures Contains(line, marker) && ValueAfter(line, marker) == value
  {
    assert line[..|marker|] == marker;
    IndexOfAt(line, marker, 0);
    var rest := " " + value;
    assert line[|marker|..] == rest;
    LacksConcat(" ", value, marker[k]);
    LacksPattern(rest, marker, k);
    assert Split(line, marker) == ["", rest];
    TrimAround(" ", value, "");
    assert " " + value + "" == rest;
  }

  /** A line holding no `:` sets no field. */
  lemma NoFieldLine(line: string)
    requires Lacks(line, ':')
    ensures !Contains(line, "Date:") && !Contains(line, "World:") && !Contains(line, "UUID:")
  {
    LacksPattern(line, "Date:", 4);
    LacksPattern(line, "World:", 5);
    LacksPattern(line, "UUID:", 4);
  }

  /** A `Date: <date>` line sets the normalised date. */
  lemma DateLineSets(f: Fields, date: string)
    requires Lacks(date, ':') && date != [] && !IsSpace(date[0]) && !IsSpace(date[|date| - 1])
    requires FormatDate(date).Ok?
    ensures ScanLine(f, "Date: " + date) == Ok(f.(date := FormatDate(date).value))
  {
    assert "Date: " + date == "Date:" + " " + date;
    ValueAfterOpening("Date: " + date, "Date:", date, 4);
  }

  /** The only `:` of the opening of a world line is its sixth character, after an `o`. */
  lemma WorldOpening()
    ensures "World: "[1] == 'o' && "World: "[5] == ':'
    ensures forall j :: 0 <= j < |"World: "| && j != 5 ==> "World: "[j] != ':'
  {
  }

  /** A `World: <world>` line with no `:` in the world holds no `Date:`. */
  lemma WorldLineLacksDate(world: string)
    requires Lacks(world, ':')
    ensures !Contains("World: " + world, "Date:")
  {
    var w := "World: " + world;
    WorldOpening();
    forall j | 0 <= j <= |w| ensures !OccursAt(w, "Date:", j) {
      if j + 5 <= |w| {
        assert w[j..j + 5][4] == w[j + 4];
        if j + 4 < 7 {
          assert w[j + 4] == "World: "[j + 4];
          if j == 1 {
            assert w[j..j + 5][0] == w[1] == 'o';
          }
        } else {
          assert w[j + 4] == world[j + 4 - 7];
        }
      }
    }
  }

  /** The openings of the date and world lines hold no `[` and no line break. */
  lemma LineOpenings()
    ensures Lacks("Date: ", '[') && Lacks("Date: ", '\n')
    ensures Lacks("World: ", '[') && Lacks("World: ", '\n')
  {
  }

  /** A `World: <world>` line, with no `:` in the world, sets the world. */
  lemma WorldLineSets(f: Fields, world: string)
    requires Lacks(world, ':')
    requires world != [] && !IsSpace(world[0]) && !IsSpace(world[|world| - 1])
    ensures ScanLine(f, "World: " + world) == Ok(f.(world := world))
  {
    var w := "World: " + world;
    assert w == "World:" + " " + world;
    ValueAfterOpening(w, "World:", world, 5);
    WorldLineLacksDate(world);
  }

  /** A line with no `:` leaves the fields as they are. */
  lemma PlainLineKeeps(f: Fields, line: string)
    requires Lacks(line, ':')
    ensures ScanLine(f, line) == Ok(f)
  {
    NoFieldLine(line);
  }

  /** Scanning a header, a `Date:` line and a `World:` line sets the date and the world. */
  lemma ScanDateWorld(h: string, date: string, world: string, init: Fields)
    requires Lacks(h, ':') && Lacks(date, ':') && Lacks(world, ':')
    requires date != [] && !IsSpace(date[0]) && !IsSpace(date[|date| - 1])
    requires world != [] && !IsSpace(world[0]) && !IsSpace(world[|world| - 1])
    requires FormatDate(date).Ok?
    ensures ScanSpec([h, "Date: " + date, "World: " + world], init)
         == Ok(Fields(FormatDate(date).value, world, init.uuid))
  {
    var d, w := "Date: " + date, "World: " + world;
    var f1 := init.(date := FormatDate(date).value);
    PlainLineKeeps(init, h);
    DateLineSets(init, date);
    WorldLineSets(f1, world);
    var lines := [h, d, w];
    assert lines[..2] == [h, d] && [h, d][..1] == [h] && [h][..0] == [];
    assert ScanSpec([h], init) == Ok(init);
    assert ScanSpec([h, d], init) == Ok(f1);
  }

  /** The three lines of a block: the header, the `Date:` line and the `World:` line. */
  function BlockText(player: string, kind: string, date: string, world: string): string {
    player + Marker + kind + "]-" + "\n" + ("Date: " + date) + "\n" + ("World: " + world)
  }

  /**
   * A log of one block `<player> was punished for <type>]-`, `Date: <date>`,
   * `World: <world>` holds one punishment: the trimmed player and type, the
   * normalised date and the world, with an empty UUID.
   */
  lemma BlockRecognised(player: string, kind: string, date: string, world: string, isoToday: string)
    requires player != [] && !IsSpace(player[0]) && FormatDate(isoToday).Ok?
    requires forall i :: 0 <= i < |player| ==> !OccursAt(player + Marker, Marker, i)
    requires forall i :: 0 <= i < |kind| ==> !OccursAt(kind + "]-", "]-", i)
    requires Lacks(player, '[') && Lacks(player, ':') && Lacks(kind, '[') && Lacks(kind, ':')
    requires forall j :: 0 <= j < |player| ==> !IsLineTerminator(player[j])
    requires forall j :: 0 <= j < |kind| ==> !IsLineTerminator(kind[j])
    requires Lacks(date, '[') && Lacks(date, '\n') && Lacks(date, ':')
    requires Lacks(world, '[') && Lacks(world, '\n') && Lacks(world, ':')
    requires date != [] && !IsSpace(date[0]) && !IsSpace(date[|date| - 1]) && FormatDate(date).Ok?
    requires world != [] && !IsSpace(world[0]) && !IsSpace(world[|world| - 1])
    ensures Incidents(Segments(Delimiter + BlockText(player, kind, date, world) + "\n"), isoToday)
         == Ok([(Trim(player), PunishmentRecord(Trim(kind), FormatDate(date).value, world, ""))])
  {
    var h := player + Marker + kind + "]-";
    var d, w := "Date: " + date, "World: " + world;
    var body := BlockText(player, kind, date, world);
    BlockTextShape(player, kind, date, world);
    OneBlockLog(body);
    BlockLines(player, kind, date, world);
    var x := (Trim(player), PunishmentRecord(Trim(kind), FormatDate(date).value, world, ""));
    BlockIncident(player, kind, date, world, isoToday);
    OneIncident(body + "\n", isoToday, x);
  }

  /** The block text starts and ends with a non-space and holds no `[`. */
  lemma BlockTextShape(player: string, kind: string, date: string, world: string)
    requires player != [] && !IsSpace(player[0])
    requires Lacks(player, '[') && Lacks(player, ':') && Lacks(kind, '[') && Lacks(kind, ':')
    requires forall j :: 0 <= j < |player| ==> !IsLineTerminator(player[j])
    requires forall j :: 0 <= j < |kind| ==> !IsLineTerminator(kind[j])
    requires Lacks(date, '[') && Lacks(world, '[')
    requires world != [] && !IsSpace(world[|world| - 1])
    ensures var body := BlockText(player, kind, date, world);
      body != [] && !IsSpace(body[0]) && !IsSpace(body[|body| - 1]) && Lacks(body, '[')
  {
    var h := player + Marker + kind + "]-";
    var d, w := "Date: " + date, "World: " + world;
    var body := BlockText(player, kind, date, world);
    HeaderText(player, kind, h);
    BodyLacks(h, d, w, date, world);
    assert body[0] == player[0] && body[|body| - 1] == world[|world| - 1];
  }

  /** The lines of the block are its header, its `Date:` line and its `World:` line. */
  lemma BlockLines(player: string, kind: string, date: string, world: string)
    requires player != [] && !IsSpace(player[0])
    requires Lacks(player, '[') && Lacks(player, ':') && Lacks(kind, '[') && Lacks(kind, ':')
    requires forall j :: 0 <= j < |player| ==> !IsLineTerminator(player[j])
    requires forall j :: 0 <= j < |kind| ==> !IsLineTerminator(kind[j])
    requires Lacks(date, '\n') && Lacks(world, '\n')
    requires world != [] && !IsSpace(world[|world| - 1])
    ensures Split(Trim(BlockText(player, kind, date, world) + "\n"), "\n")
         == [player + Marker + kind + "]-", "Date: " + date, "World: " + world]
  {
    var h := player + Marker + kind + "]-";
    var d, w := "Date: " + date, "World: " + world;
    HeaderText(player, kind, h);
    LineOpenings();
    LacksConcat("Date: ", date, '\n');
    LacksConcat("World: ", world, '\n');
    ThreeLines(h, d, w);
  }

  /** The block's segment yields the punishment named by its header, date and world. */
  lemma BlockIncident(player: string, kind: string, date: string, world: string, isoToday: string)
    requires player != [] && !IsSpace(player[0]) && FormatDate(isoToday).Ok?
    requires forall i :: 0 <= i < |player| ==> !OccursAt(player + Marker, Marker, i)
    requires forall i :: 0 <= i < |kind| ==> !OccursAt(kind + "]-", "]-", i)
    requires Lacks(player, '[') && Lacks(player, ':') && Lacks(kind, '[') && Lacks(kind, ':')
    requires forall j :: 0 <= j < |player| ==> !IsLineTerminator(player[j])
    requires forall j :: 0 <= j < |kind| ==> !IsLineTerminator(kind[j])
    requires Lacks(date, '\n') && Lacks(date, ':')
    requires Lacks(world, '\n') && Lacks(world, ':')
    requires date != [] && !IsSpace(date[0]) && !IsSpace(date[|date| - 1]) && FormatDate(date).Ok?
    requires world != [] && !IsSpace(world[0]) && !IsSpace(world[|world| - 1])
    ensures SegmentIncident(BlockText(player, kind, date, world) + "\n", isoToday)
         == Ok(Some((Trim(player), PunishmentRecord(Trim(kind), FormatDate(date).value, world, ""))))
  {
    var h := player + Marker + kind + "]-";
    var d, w := "Date: " + date, "World: " + world;
    BlockLines(player, kind, date, world);
    HeaderLineMatches(player, kind);
    var today := FormatDate(isoToday).value;
    HeaderText(player, kind, h);
    ScanDateWorld(h, date, world, Fields(today, "Unknown", ""));
    var x := (Trim(player), PunishmentRecord(Trim(kind), FormatDate(date).value, world, ""));
    ThreeLineBlock(BlockText(player, kind, date, world) + "\n", [h, d, w], isoToday, x);
  }

  /** The header line of a block names its player and type. */
  lemma HeaderLineMatches(player: string, kind: string)
    requires forall i :: 0 <= i < |player| ==> !OccursAt(player + Marker, Marker, i)
    requires forall i :: 0 <= i < |kind| ==> !OccursAt(kind + "]-", "]-", i)
    requires forall j :: 0 <= j < |player| ==> !IsLineTerminator(player[j])
    requires forall j :: 0 <= j < |kind| ==> !IsLineTerminator(kind[j])
    ensures MatchHeader(player + Marker + kind + "]-") == Some((Trim(player), Trim(kind)))
  {
    var h := player + Marker + kind + "]-";
    assert h == h + "";
    HeaderRecognised(h, player, kind, "");
  }

  /** A log of one block that yields an incident holds that incident alone. */
  lemma OneIncident(block: string, isoToday: string, x: Incident<PunishmentRecord>)
    requires SegmentIncident(block, isoToday) == Ok(Some(x))
    ensures Incidents([block], isoToday) == Ok([x])
  {
    var segments := [block];
    assert segments[..0] == [] && segments[0] == block;
    assert Incidents(segments, isoToday) == Ok([] + [x]);
    assert [] + [x] == [x];
  }

  /** A block of at least two lines whose first is a header and whose scan succeeds yields one incident. */
  lemma ThreeLineBlock(block: string, lines: seq<string>, isoToday: string, x: Incident<PunishmentRecord>)
    requires Split(Trim(block), "\n") == lines && |lines| >= 2
    requires MatchHeader(lines[0]) == Some((x.0, x.1.kind)) && FormatDate(isoToday).Ok?
    requires ScanSpec(lines, Fields(FormatDate(isoToday).value, "Unknown", "")) == Ok(Fields(x.1.date, x.1.world, x.1.uuid))
    ensures SegmentIncident(block, isoToday) == Ok(Some(x))
  {
  }

  /** The header line holds no `[`, no `:`, no line break, and starts with the player. */
  lemma HeaderText(player: string, kind: string, h: string)
    requires h == player + Marker + kind + "]-" && player != []
    requires Lacks(player, '[') && Lacks(player, ':') && Lacks(kind, '[') && Lacks(kind, ':')
    requires forall j :: 0 <= j < |player| ==> !IsLineTerminator(player[j])
    requires forall j :: 0 <= j < |kind| ==> !IsLineTerminator(kind[j])
    ensures Lacks(h, '[') && Lacks(h, ':') && Lacks(h, '\n') && h[0] == player[0]
  {
    forall j | 0 <= j < |h| ensures h[j] != '[' && h[j] != ':' && h[j] != '\n' {
      if j < |player| {
        assert h[j] == player[j];
      } else if j < |player| + |Marker| {
        assert h[j] == Marker[j - |player|];
      } else if j < |player| + |Marker| + |kind| {
        assert h[j] == kind[j - |player| - |Marker|];
      } else {
        assert h[j] == "]-"[j - |player| - |Marker| - |kind|];
      }
    }
  }

  /** The three lines glued together hold no `[`. */
  lemma BodyLacks(h: string, d: string, w: string, date: string, world: string)
    requires d == "Date: " + date && w == "World: " + world
    requires Lacks(h, '[') && Lacks(date, '[') && Lacks(world, '[')
    ensures Lacks(h + "\n" + d + "\n" + w, '[')
  {
    LineOpenings();
    LacksConcat("Date: ", date, '[');
    LacksConcat("World: ", world, '[');
    LacksConcat(h, "\n", '[');
    LacksConcat(h + "\n", d, '[');
    LacksConcat(h + "\n" + d, "\n", '[');
    LacksConcat(h + "\n" + d + "\n", w, '[');
  }

  /** `--------------[Alice was punished for Fly]-\nDate: 2024-01-10\nWorld: world_nether\n` */
  const ExampleLog: string := Delimiter + BlockText("Alice", "Fly", "2024-01-10", "world_nether") + "\n"
  const ExampleRecord: PunishmentRecord := PunishmentRecord("Fly", "01-10-2024", "world_nether", "")

  /**
   * `ExampleLog`, a log of one block, `Alice` punished for `Fly` on
   * `2024-01-10` in `world_nether`, gives one punishment counted under `Fly`,
   * `Alice`, `01-10-2024` and `world_nether`, with an empty UUID.
   */
  lemma PunishmentExample(isoToday: string)
    requires FormatDate(isoToday).Ok?
    ensures Incidents(Segments(ExampleLog), isoToday) == Ok([("Alice", ExampleRecord)])
    ensures var d := FromIncidents([("Alice", ExampleRecord)]);
      && d.agg.total == 1
      && d.agg.byType == ODict(["Fly"], map["Fly" := 1])
      && d.agg.byPlayer == ODict(["Alice"], map["Alice" := 1])
      && d.agg.byDate == ODict(["01-10-2024"], map["01-10-2024" := 1])
      && d.byWorld == ODict(["world_nether"], map["world_nether" := 1])
      && d.agg.players == ODict(["Alice"], map["Alice" := [ExampleRecord]])
  {
    ExampleHeaderParts();
    ExampleTextParts();
    ExampleDate();
    BlockRecognised("Alice", "Fly", "2024-01-10", "world_nether", isoToday);
    ExampleCounts();
  }

  /** The example's player, type, date and world hold none of the characters that would end or shift a field. */
  lemma ExampleTextParts()
    ensures Lacks("Alice", '[') && Lacks("Alice", ':') && Lacks("Fly", '[') && Lacks("Fly", ':')
    ensures forall j :: 0 <= j < |"Alice"| ==> !IsLineTerminator("Alice"[j])
    ensures forall j :: 0 <= j < |"Fly"| ==> !IsLineTerminator("Fly"[j])
    ensures Lacks("2024-01-10", '[') && Lacks("2024-01-10", '\n') && Lacks("2024-01-10", ':')
    ensures Lacks("world_nether", '[') && Lacks("world_nether", '\n') && Lacks("world_nether", ':')
    ensures Lacks("Alice", ' ') && Lacks("Fly", ']')
    ensures !IsSpace("Alice"[0]) && !IsSpace("Alice"[4]) && !IsSpace("Fly"[0]) && !IsSpace("Fly"[2])
    ensures !IsSpace("2024-01-10"[0]) && !IsSpace("2024-01-10"[9])
    ensures !IsSpace("world_nether"[0]) && !IsSpace("world_nether"[11])
  {
  }

  /** `Alice` and `Fly` meet the conditions on a header's player and type. */
  lemma ExampleHeaderParts()
    ensures forall i :: 0 <= i < |"Alice"| ==> !OccursAt("Alice" + Marker, Marker, i)
    ensures forall i :: 0 <= i < |"Fly"| ==> !OccursAt("Fly" + "]-", "]-", i)
    ensures Trim("Alice") == "Alice" && Trim("Fly") == "Fly"
  {
    ExampleTextParts();
    assert Marker[0] == ' ';
    NoEarlierOccurrence("Alice", Marker);
    NoEarlierOccurrence("Fly", "]-");
    TrimmedAlready("Alice");
    TrimmedAlready("Fly");
  }

  /** The counters of the example's one punishment. */
  lemma ExampleCounts()
    ensures var d := FromIncidents([("Alice", ExampleRecord)]);
      && d.agg.total == 1
      && d.agg.byType == ODict(["Fly"], map["Fly" := 1])
      && d.agg.byPlayer == ODict(["Alice"], map["Alice" := 1])
      && d.agg.byDate == ODict(["01-10-2024"], map["01-10-2024" := 1])
      && d.byWorld == ODict(["world_nether"], map["world_nether" := 1])
      && d.agg.players == ODict(["Alice"], map["Alice" := [ExampleRecord]])
  {
    var g := [("Alice", ExampleRecord)];
    assert g[..0] == [] && Records(g) == [ExampleRecord] && [ExampleRecord][..0] == [];
  }

  /**
   * The body of the block loop of `parsePunishments` (lines 25-51): split the trimmed
   * block into lines, match the header, then scan the fields from today's date. A
   * block yields nothing exactly when it has fewer than two lines or its first line
   * is no header; a block with a header yields the header's player and type and the
   * scanned fields, unless formatting today's date or a `Date:` value throws.
   */
  method ReadSegment(segment: string, isoToday: string) returns (r: Result<Option<Incident<PunishmentRecord>>, Failure>)
    ensures r == SegmentIncident(segment, isoToday)
    ensures var lines := Split(Trim(segment), "\n");
      r == Ok(None) <==> |lines| < 2 || MatchHeader(lines[0]).None?
    ensures var lines := Split(Trim(segment), "\n");
      r.Err? <==>
        (|lines| >= 2 && MatchHeader(lines[0]).Some? &&
         (FormatDate(isoToday).Err? || ScanSpec(lines, Fields(FormatDate(isoToday).value, "Unknown", "")).Err?))
    ensures var lines := Split(Trim(segment), "\n");
      r.Ok? && r.value.Some? ==>
        var (player, record) := r.value.value;
        && |lines| >= 2 && MatchHeader(lines[0]) == Some((player, record.kind))
        && FormatDate(isoToday).Ok?
        && ScanSpec(lines, Fields(FormatDate(isoToday).value, "Unknown", "")) == Ok(Fields(record.date, record.world, record.uuid))
  {
    var lines := Split(Trim(segment), "\n");
    if |lines| <= 1 {
      return Ok(None);
    }
    var header := MatchHeader(lines[0]);
    if header.None? {
      return Ok(None);
    }
    var player, kind := header.value.0, header.value.1;
    var today := FormatDate(isoToday);
    if today.Err? {
      return Err(today.error);
    }
    var fields := ScanFields(lines, today.value);
    if fields.Err? {
      return Err(fields.error);
    }
    r := Ok(Some((player, PunishmentRecord(kind, fields.value.date, fields.value.world, fields.value.uuid))));
  }

  /** One pass of the block loop: the next block's incident, with what it does to the incidents so far. */
  method ReadNext(segments: seq<string>, i: nat, isoToday: string, ghost g: seq<Incident<PunishmentRecord>>)
    returns (x: Result<Option<Incident<PunishmentRecord>>, Failure>)
    requires i < |segments| && Incidents(segments[..i], isoToday) == Ok(g)
    ensures x.Err? ==> Incidents(segments, isoToday) == Err(x.error)
    ensures x.Ok? && x.value.None? ==> Incidents(segments[..i + 1], isoToday) == Ok(g)
    ensures x.Ok? && x.value.Some? ==> Incidents(segments[..i + 1], isoToday) == Ok(g + [x.value.value])
  {
    assert segments[..i + 1][..i] == segments[..i];
    x := ReadSegment(segments[i], isoToday);
    IncidentsExtend(segments[..i + 1], isoToday, g, x);
    if x.Err? {
      IncidentsFailureSticks(segments, isoToday, i + 1);
    }
  }

  /** Lines 29-34 and 50-56: each of the five counters goes up by one and the record joins its player's list. */
  method CountNext(data: PunishmentData, ghost g: seq<Incident<PunishmentRecord>>, player: string, record: PunishmentRecord)
    returns (next: PunishmentData)
    requires data == FromIncidents(g)
    ensures next == FromIncidents(g + [(player, record)])
  {
    CountIncident(g, player, record);
    var a := data.agg;
    next := PunishmentData(
      Aggregate(a.total + 1, Bump(a.byType, record.kind), Bump(a.byPlayer, player),
                Bump(a.byDate, record.date), Append(a.players, player, record)),
      Bump(data.byWorld, record.world), None);
  }

  /**
   * `parsePunishments(content)` with the clock's ISO date passed in: the dataset of
   * the incidents the log's blocks yield, or the error the first bad date throws
   * (`FromIncidentsConsistent` states what holds of that dataset).
   */
  method ParsePunishments(content: string, isoToday: string) returns (r: Result<PunishmentData, Failure>)
    ensures Incidents(Segments(content), isoToday).Err? ==> r == Err(Incidents(Segments(content), isoToday).error)
    ensures Incidents(Segments(content), isoToday).Ok? ==> r == Ok(FromIncidents(Incidents(Segments(content), isoToday).value))
  {
    var segments := Segments(content);
    // The five counters and `playerPunishments`, kept together.
    var data := PunishmentData(Aggregate(0, Empty(), Empty(), Empty(), Empty()), Empty(), None);
    ghost var g: seq<Incident<PunishmentRecord>> := [];
    var i := 0;
    while i < |segments|
      invariant 0 <= i <= |segments|
      invariant Incidents(segments[..i], isoToday) == Ok(g)
      invariant data == FromIncidents(g)
    {
      var x := ReadNext(segments, i, isoToday, g);
      if x.Err? {
        return Err(x.error);
      }
      if x.value.Some? {
        data := CountNext(data, g, x.value.value.0, x.value.value.1);
        g := g + [x.value.value];
      }
      i := i + 1;
    }
    assert segments[..i] == segments;
    r := Ok(data);
  }
}
