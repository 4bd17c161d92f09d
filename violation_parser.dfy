/**
 * `parseViolations`: the violation log has one incident per line,
 * `[<date>] [<time>] <player> failed <type> [VL: <n>] [Ping: <n>] [TPS: <f>] [Version: <v>]`,
 * found anywhere in the line by a regular expression with lazy groups.
 */
module ViolationParser {
  import opened Wrappers
  import opened Strings
  import opened OrderedMaps
  import opened Dates
  import opened Aggregates

  /**
   * One capture of the violation pattern and the literal text after it: a lazy
   * `(.*?)`, or a greedy run of digits (`\d+`) or of digits and dots (`[\d.]+`).
   */
  datatype Piece = Lazy(sep: string) | Run(dots: bool, sep: string)

  /**
   * The violation pattern after its opening `[`. Its captures are the raw date, the
   * time, the player, the type, the VL, the ping, the TPS (not captured by the
   * source, and unused) and the version.
   */
  const Pattern: seq<Piece> := [
    Lazy("] ["), Lazy("] "), Lazy(" failed "), Lazy(" [VL: "),
    Run(false, "] [Ping: "), Run(false, "] [TPS: "), Run(true, "] [Version: "), Run(true, "]")
  ]

  predicate InRun(c: char, dots: bool) {
    IsDigit(c) || (dots && c == '.')
  }

  /** The length of the longest run of `InRun` characters at `pos`. */
  function RunLength(s: string, pos: nat, dots: bool): (n: nat)
    requires pos <= |s|
    ensures pos + n <= |s|
    ensures forall i :: pos <= i < pos + n ==> InRun(s[i], dots)
    ensures pos + n == |s| || !InRun(s[pos + n], dots)
    decreases |s| - pos
  {
    if pos < |s| && InRun(s[pos], dots) then 1 + RunLength(s, pos + 1, dots) else 0
  }

  /**
   * Backtracking match of `pieces` at `pos`, as the regular-expression engine does it:
   * a lazy capture takes as few characters as it can such that the rest still
   * matches; a run takes all it can (the `]` after each run is not in its class, so
   * a shorter run never matches).
   */
  function MatchPieces(s: string, pos: nat, pieces: seq<Piece>): (r: Option<seq<string>>)
    requires pos <= |s|
    ensures r.Some? ==> |r.value| == |pieces|
    decreases |pieces|, |s| + 2
  {
    if pieces == [] then Some([])
    else match pieces[0]
      case Run(dots, sep) => MatchRun(s, pos, dots, sep, pieces[1..])
      case Lazy(sep) => MatchLazy(s, pos, pos, sep, pieces[1..])
  }

  /** A run at `pos`: the longest one, which must be non-empty and followed by its closing text. */
  function MatchRun(s: string, pos: nat, dots: bool, sep: string, rest: seq<Piece>): (r: Option<seq<string>>)
    requires pos <= |s|
    ensures r.Some? ==> |r.value| == |rest| + 1
    decreases |rest| + 1, 0
  {
    var n := RunLength(s, pos, dots);
    if n > 0 && OccursAt(s, sep, pos + n) then
      match MatchPieces(s, pos + n + |sep|, rest)
      case None => None
      case Some(c) => Some([s[pos..pos + n]] + c)
    else None
  }

  /** A lazy capture that starts at `start` and has so far been stretched to `end`. */
  function MatchLazy(s: string, start: nat, end: nat, sep: string, rest: seq<Piece>): (r: Option<seq<string>>)
    requires start <= end <= |s|
    ensures r.Some? ==> |r.value| == |rest| + 1
    decreases |rest| + 1, |s| - end
  {
    if OccursAt(s, sep, end) && MatchPieces(s, end + |sep|, rest).Some? then
      Some([s[start..end]] + MatchPieces(s, end + |sep|, rest).value)
    else if end < |s| && !IsLineTerminator(s[end]) then MatchLazy(s, start, end + 1, sep, rest)
    else None
  }

  /** The pattern matched at `p`: a `[` there, then the pieces. */
  function MatchAt(s: string, p: nat): (r: Option<seq<string>>)
    requires p <= |s|
    ensures r.Some? ==> |r.value| == |Pattern|
  {
    if p < |s| && s[p] == '[' then MatchPieces(s, p + 1, Pattern) else None
  }

  /** The leftmost match at or after `p`. */
  function SearchFrom(s: string, p: nat): (r: Option<seq<string>>)
    requires p <= |s|
    ensures r.Some? ==> |r.value| == |Pattern|
    decreases |s| - p
  {
    match MatchAt(s, p)
    case Some(c) => Some(c)
    case None => if p < |s| then SearchFrom(s, p + 1) else None
  }

  /** `line.match(…)`: the captures of the leftmost match, if any. */
  function MatchViolation(line: string): (r: Option<seq<string>>)
    ensures r.Some? ==> |r.value| == 8
  {
    SearchFrom(line, 0)
  }

  /** The literal text that closes a piece. */
  function SepOf(piece: Piece): string {
    match piece
    case Lazy(sep) => sep
    case Run(_, sep) => sep
  }

  /** The captures written out with the pattern's literal text after each. */
  function Render(fields: seq<string>, pieces: seq<Piece>): string
    requires |fields| == |pieces|
  {
    if pieces == [] then [] else fields[0] + SepOf(pieces[0]) + Render(fields[1..], pieces[1..])
  }

  /**
   * A capture the piece gives back as written: a lazy capture without line
   * terminators whose closing text first occurs right after it, or a non-empty run
   * followed by text that does not continue the run.
   */
  predicate Fits(field: string, piece: Piece) {
    match piece
    case Lazy(sep) =>
      (forall i :: 0 <= i < |field| ==> !IsLineTerminator(field[i])) &&
      IndexOf(field + sep, sep) == Some(|field|)
    case Run(dots, sep) =>
      field != [] && (forall i :: 0 <= i < |field| ==> InRun(field[i], dots)) &&
      sep != [] && !InRun(sep[0], dots)
  }

  /** Between `from` and `to` a lazy capture can stretch on: no line terminator and no closing text starts there. */
  predicate Clear(s: string, sep: string, from: nat, to: nat)
    requires from <= to <= |s|
  {
    forall i :: from <= i < to ==> !IsLineTerminator(s[i]) && !OccursAt(s, sep, i)
  }

  /** A lazy capture stops at the first place its closing text occurs and the rest matches. */
  lemma {:induction false} LazyStops(s: string, start: nat, end: nat, e: nat, sep: string, rest: seq<Piece>)
    requires start <= end <= e <= |s|
    requires Clear(s, sep, end, e)
    requires OccursAt(s, sep, e) && MatchPieces(s, e + |sep|, rest).Some?
    ensures MatchLazy(s, start, end, sep, rest) == Some([s[start..e]] + MatchPieces(s, e + |sep|, rest).value)
    decreases e - end
  {
    if end < e {
      LazyStops(s, start, end + 1, e, sep, rest);
    }
  }

  /** A lazy capture written at `pos`, with nothing to stop it earlier, followed by its closing text, when the rest matches. */
  lemma LazyPieceMatches(s: string, pos: nat, x: string, sep: string, rest: seq<Piece>, c: seq<string>)
    requires pos + |x| <= |s| && s[pos..pos + |x|] == x && Clear(s, sep, pos, pos + |x|)
    requires OccursAt(s, sep, pos + |x|) && MatchPieces(s, pos + |x| + |sep|, rest) == Some(c)
    ensures MatchLazy(s, pos, pos, sep, rest) == Some([x] + c)
  {
    LazyStops(s, pos, pos, pos + |x|, sep, rest);
  }

  /** Inside a fitting lazy capture there is no line terminator and no earlier closing text. */
  lemma LazyGap(s: string, pos: nat, x: string, sep: string)
    requires Fits(x, Lazy(sep))
    requires pos + |x| <= |s| && s[pos..pos + |x|] == x && OccursAt(s, sep, pos + |x|)
    ensures Clear(s, sep, pos, pos + |x|)
  {
    var e := pos + |x|;
    ConcatAt(s, pos, x, sep);
    NoEarlierSep(x, sep);
    forall i | pos <= i < e ensures !IsLineTerminator(s[i]) && !OccursAt(s, sep, i) {
      assert s[i] == s[pos..e][i - pos];
      OccursShift(s, pos, x + sep, sep, i);
    }
  }

  /** Two adjacent pieces of text make up their concatenation. */
  lemma ConcatAt(s: string, pos: nat, a: string, b: string)
    requires pos + |a| + |b| <= |s| && s[pos..pos + |a|] == a && s[pos + |a|..pos + |a| + |b|] == b
    ensures s[pos..pos + |a| + |b|] == a + b
  {
    var w := s[pos..pos + |a| + |b|];
    assert w[..|a|] == a && w[|a|..] == b;
  }

  /** Text `w` found at `pos`: a pattern occurs at `i` inside it exactly when it occurs in `w` at `i - pos`. */
  lemma OccursShift(s: string, pos: nat, w: string, pat: string, i: nat)
    requires pos + |w| <= |s| && s[pos..pos + |w|] == w
    requires pos <= i && i - pos + |pat| <= |w|
    ensures OccursAt(s, pat, i) <==> OccursAt(w, pat, i - pos)
  {
    SubSlice(s, pos, pos + |w|, i - pos, i - pos + |pat|);
  }

  /** What a fitting lazy capture promises, position by position. */
  lemma NoEarlierSep(x: string, sep: string)
    requires Fits(x, Lazy(sep))
    ensures forall j :: 0 <= j < |x| ==> !IsLineTerminator(x[j]) && !OccursAt(x + sep, sep, j)
  {
  }

  lemma SubSlice(s: string, lo: nat, hi: nat, i: nat, j: nat)
    requires lo <= hi <= |s| && i <= j <= hi - lo
    ensures s[lo..hi][i..j] == s[lo + i..lo + j]
  {
    forall k | 0 <= k < j - i ensures s[lo..hi][i..j][k] == s[lo + i..lo + j][k] {
      assert s[lo..hi][i..j][k] == s[lo..hi][i + k] == s[lo + i + k];
    }
  }

  /** A run written at `pos` and followed by its closing text, when the rest matches. */
  lemma RunPieceMatches(s: string, pos: nat, x: string, dots: bool, sep: string, rest: seq<Piece>, c: seq<string>)
    requires Fits(x, Run(dots, sep))
    requires pos + |x| <= |s| && s[pos..pos + |x|] == x && OccursAt(s, sep, pos + |x|)
    requires MatchPieces(s, pos + |x| + |sep|, rest) == Some(c)
    ensures MatchRun(s, pos, dots, sep, rest) == Some([x] + c)
  {
    RunGap(s, pos, x, dots, sep);
    RunThen(s, pos, dots, sep, rest, c);
  }

  /** A non-empty longest run followed by its closing text, when the rest matches. */
  lemma RunThen(s: string, pos: nat, dots: bool, sep: string, rest: seq<Piece>, c: seq<string>)
    requires pos <= |s| && RunLength(s, pos, dots) > 0
    requires OccursAt(s, sep, pos + RunLength(s, pos, dots))
    requires MatchPieces(s, pos + RunLength(s, pos, dots) + |sep|, rest) == Some(c)
    ensures MatchRun(s, pos, dots, sep, rest) == Some([s[pos..pos + RunLength(s, pos, dots)]] + c)
  {
  }

  /** A fitting run followed by its closing text is exactly as long as the longest run there. */
  lemma RunGap(s: string, pos: nat, x: string, dots: bool, sep: string)
    requires Fits(x, Run(dots, sep))
    requires pos + |x| <= |s| && s[pos..pos + |x|] == x && OccursAt(s, sep, pos + |x|)
    ensures RunLength(s, pos, dots) == |x| > 0
  {
    var e := pos + |x|;
    forall i | pos <= i < e ensures InRun(s[i], dots) {
      assert s[i] == x[i - pos];
    }
    assert s[e] == s[e..e + |sep|][0];
    RunFrom(s, pos, |x|, dots);
  }

  /** Where the first capture and its closing text lie in rendered text. */
  lemma RenderedHead(s: string, pos: nat, fields: seq<string>, pieces: seq<Piece>, tail: string)
    requires |fields| == |pieces| && pieces != [] && pos <= |s|
    requires s[pos..] == Render(fields, pieces) + tail
    ensures pos + |fields[0]| + |SepOf(pieces[0])| <= |s|
    ensures s[pos..pos + |fields[0]|] == fields[0]
    ensures OccursAt(s, SepOf(pieces[0]), pos + |fields[0]|)
    ensures s[pos + |fields[0]| + |SepOf(pieces[0])|..] == Render(fields[1..], pieces[1..]) + tail
  {
    var x, sep, more := fields[0], SepOf(pieces[0]), Render(fields[1..], pieces[1..]) + tail;
    RenderSplit(fields, pieces, tail);
    SuffixAt(s, pos, x, sep + more);
    SuffixAt(s, pos + |x|, sep, more);
  }

  /** Rendered text begins with the first capture and its closing text. */
  lemma RenderSplit(fields: seq<string>, pieces: seq<Piece>, tail: string)
    requires |fields| == |pieces| && pieces != []
    ensures Render(fields, pieces) + tail
         == fields[0] + (SepOf(pieces[0]) + (Render(fields[1..], pieces[1..]) + tail))
  {
  }

  /** Text `a + b` found at `pos`: `a` lies at `pos` and `b` follows it. */
  lemma SuffixAt(s: string, pos: nat, a: string, b: string)
    requires pos <= |s| && s[pos..] == a + b
    ensures pos + |a| + |b| == |s|
    ensures s[pos..pos + |a|] == a
    ensures s[pos + |a|..] == b
  {
    assert s[pos..pos + |a|] == s[pos..][..|a|];
    assert s[pos + |a|..] == s[pos..][|a|..];
  }

  /** Text written as `Render(fields, pieces)` is matched back into exactly those fields. */
  lemma {:induction false} MatchRendered(s: string, pos: nat, fields: seq<string>, pieces: seq<Piece>, tail: string)
    requires |fields| == |pieces| && pos <= |s|
    requires s[pos..] == Render(fields, pieces) + tail
    requires forall i :: 0 <= i < |pieces| ==> Fits(fields[i], pieces[i])
    ensures MatchPieces(s, pos, pieces) == Some(fields)
    decreases |pieces|
  {
    if pieces != [] {
      var x, sep := fields[0], SepOf(pieces[0]);
      RenderedHead(s, pos, fields, pieces, tail);
      FitsTail(fields, pieces);
      var next := pos + |x| + |sep|;
      MatchRendered(s, next, fields[1..], pieces[1..], tail);
      assert Fits(x, pieces[0]);
      HeadMatches(s, pos, x, pieces, next, fields[1..]);
      assert fields == [x] + fields[1..];
    }
  }

  /** The first piece matches its capture written at `pos`, when the rest matches after its closing text. */
  lemma HeadMatches(s: string, pos: nat, x: string, pieces: seq<Piece>, next: nat, c: seq<string>)
    requires pieces != [] && Fits(x, pieces[0])
    requires pos + |x| <= |s| && s[pos..pos + |x|] == x && OccursAt(s, SepOf(pieces[0]), pos + |x|)
    requires next == pos + |x| + |SepOf(pieces[0])| && MatchPieces(s, next, pieces[1..]) == Some(c)
    ensures MatchPieces(s, pos, pieces) == Some([x] + c)
  {
    var sep := SepOf(pieces[0]);
    match pieces[0]
    case Lazy(_) =>
      LazyGap(s, pos, x, sep);
      LazyPieceMatches(s, pos, x, sep, pieces[1..], c);
    case Run(dots, _) =>
      RunPieceMatches(s, pos, x, dots, sep, pieces[1..], c);
  }

  lemma FitsTail(fields: seq<string>, pieces: seq<Piece>)
    requires |fields| == |pieces| && pieces != []
    requires forall i :: 0 <= i < |pieces| ==> Fits(fields[i], pieces[i])
    ensures forall i :: 0 <= i < |pieces| - 1 ==> Fits(fields[1..][i], pieces[1..][i])
  {
    forall i | 0 <= i < |pieces| - 1 ensures Fits(fields[1..][i], pieces[1..][i]) {
      assert Fits(fields[i + 1], pieces[i + 1]);
    }
  }

  /** A run that ends where the class ends has the length `RunLength` measures. */
  lemma {:induction false} RunFrom(s: string, pos: nat, n: nat, dots: bool)
    requires pos + n < |s|
    requires forall i :: pos <= i < pos + n ==> InRun(s[i], dots)
    requires !InRun(s[pos + n], dots)
    ensures RunLength(s, pos, dots) == n
    decreases n
  {
    if n > 0 {
      RunFrom(s, pos + 1, n - 1, dots);
    }
  }

  /** A capture whose characters all differ from the first character of its closing text fits. */
  lemma LazyFits(field: string, sep: string)
    requires sep != []
    requires forall i :: 0 <= i < |field| ==> !IsLineTerminator(field[i]) && field[i] != sep[0]
    ensures Fits(field, Lazy(sep))
  {
    var t := field + sep;
    assert OccursAt(t, sep, |field|);
    forall j | 0 <= j < |field| ensures !OccursAt(t, sep, j) {
      assert t[j..j + |sep|][0] == field[j];
    }
  }

  /**
   * A `ViolationLine` whose fields fit `Pattern`, with nothing before it and anything
   * after it, is recognised with each of its fields as written.
   */
  lemma ViolationRecognised(fields: seq<string>, tail: string)
    requires |fields| == |Pattern|
    requires forall i :: 0 <= i < |Pattern| ==> Fits(fields[i], Pattern[i])
    ensures MatchViolation("[" + Render(fields, Pattern) + tail) == Some(fields)
  {
    var body := Render(fields, Pattern) + tail;
    var line := "[" + body;
    assert line == "[" + Render(fields, Pattern) + tail;
    assert line[1..] == body;
    MatchRendered(line, 1, fields, Pattern, tail);
    assert line[0] == '[';
    assert MatchAt(line, 0) == Some(fields);
  }

  /** Lines 99-100: the start of the 50 ms bucket a ping falls in. */
  function BucketStart(ping: nat): (start: nat)
    ensures start % 50 == 0 && start <= ping <= start + 49
  {
    ping / 50 * 50
  }

  /** Line 100: the by-ping key, `<start>-<start + 49>ms`. */
  function PingLabel(ping: nat): string {
    NatToString(BucketStart(ping)) + "-" + NatToString(BucketStart(ping) + 49) + "ms"
  }

  /** The by-ping key of a record, whose ping is the matched run of digits. */
  function PingBucketOf(r: ViolationRecord): string {
    if IsDigits(r.ping) then PingLabel(Value(r.ping)) else []
  }

  lemma DashAfter(x: string, u: string)
    ensures (x + "-" + u)[|x|] == '-'
  {
  }

  /** A dash after a run of digits marks where the run ends. */
  lemma DigitsBeforeDash(x: string, u: string, y: string, v: string)
    requires IsDigits(x) && IsDigits(y) && x + "-" + u == y + "-" + v
    ensures x == y
  {
    if |x| < |y| {
      DashAfter(x, u);
      assert false;
    } else if |y| < |x| {
      DashAfter(y, v);
      assert false;
    }
    assert x == (x + "-" + u)[..|x|];
  }

  /** Two pings share a label exactly when they fall in the same 50 ms bucket. */
  lemma PingLabelsAgree(a: nat, b: nat)
    ensures PingLabel(a) == PingLabel(b) <==> a / 50 == b / 50
  {
    var x, y := NatToString(BucketStart(a)), NatToString(BucketStart(b));
    var u, v := NatToString(BucketStart(a) + 49) + "ms", NatToString(BucketStart(b) + 49) + "ms";
    assert PingLabel(a) == x + "-" + u && PingLabel(b) == y + "-" + v;
    if PingLabel(a) == PingLabel(b) {
      DigitsBeforeDash(x, u, y, v);
      assert BucketStart(a) == Value(x) == Value(y) == BucketStart(b);
      assert a / 50 * 50 == b / 50 * 50;
    }
  }

  /** A ping of 77 lands in `50-99ms`. */
  lemma PingLabelExample()
    ensures PingLabel(77) == "50-99ms"
  {
    assert BucketStart(77) == 50;
    assert NatToString(50) == "50" by {
      assert NatToString(5) == "5";
    }
    assert NatToString(99) == "99" by {
      assert NatToString(9) == "9";
    }
  }

  /**
   * What one line contributes (lines 87-105): nothing unless it matches; otherwise
   * one incident for the matched player whose record holds the formatted date, the
   * time, the type, the VL and ping digits and the version as matched. A raw date
   * `formatDate` cannot handle throws.
   */
  function LineIncident(line: string): Result<Option<Incident<ViolationRecord>>, Failure> {
    match MatchViolation(line)
    case None => Ok(None)
    case Some(c) =>
      var date :- FormatDate(c[0]);
      Ok(Some((c[2], ViolationRecord(date, c[1], c[3], c[4], c[5], c[7]))))
  }

  /** The incidents of a sequence of lines, in order; the first throw ends the parse. */
  function LineIncidents(lines: seq<string>): Result<seq<Incident<ViolationRecord>>, Failure> {
    if lines == [] then Ok([])
    else
      var g :- LineIncidents(lines[..|lines| - 1]);
      var x :- LineIncident(lines[|lines| - 1]);
      match x
      case None => Ok(g)
      case Some(i) => Ok(g + [i])
  }

  lemma {:induction false} LineIncidentsFailureSticks(lines: seq<string>, k: nat)
    requires k <= |lines| && LineIncidents(lines[..k]).Err?
    ensures LineIncidents(lines) == LineIncidents(lines[..k])
    decreases |lines|
  {
    if k < |lines| {
      var init := lines[..|lines| - 1];
      assert init[..k] == lines[..k];
      LineIncidentsFailureSticks(init, k);
    } else {
      assert lines[..k] == lines;
    }
  }

  /** One more line adds its incident, adds nothing, or throws. */
  lemma LineIncidentsExtend(lines: seq<string>, g: seq<Incident<ViolationRecord>>,
                            x: Result<Option<Incident<ViolationRecord>>, Failure>)
    requires lines != [] && LineIncidents(lines[..|lines| - 1]) == Ok(g)
    requires LineIncident(lines[|lines| - 1]) == x
    ensures x.Err? ==> LineIncidents(lines) == Err(x.error)
    ensures x.Ok? && x.value.None? ==> LineIncidents(lines) == Ok(g)
    ensures x.Ok? && x.value.Some? ==> LineIncidents(lines) == Ok(g + [x.value.value])
  {
  }

  /** The dataset the incidents give: every counter tallies them, `playerViolations` groups them. */
  function FromIncidents(g: seq<Incident<ViolationRecord>>): ViolationData {
    ViolationData(Build(g, ViolationKind, ViolationDate), Tally(Records(g), ViolationVersion), Tally(Records(g), PingBucketOf))
  }

  /**
   * The counters of a parsed violation log agree: each of the five adds up to the
   * total, which is the number of incidents and of records.
   */
  lemma FromIncidentsConsistent(g: seq<Incident<ViolationRecord>>)
    ensures Consistent(FromIncidents(g).agg)
    ensures Sum(FromIncidents(g).byVersion) == Sum(FromIncidents(g).byPing) == FromIncidents(g).agg.total == |g|
  {
    BuildConsistent(g, ViolationKind, ViolationDate);
  }

  /** Lines 89-105 for one incident: each of the five counters goes up by one and the record joins its player's list. */
  lemma CountIncident(g: seq<Incident<ViolationRecord>>, player: string, record: ViolationRecord)
    ensures var d := FromIncidents(g);
      FromIncidents(g + [(player, record)]) ==
      ViolationData(
        Aggregate(d.agg.total + 1, Bump(d.agg.byType, record.kind), Bump(d.agg.byPlayer, player),
                  Bump(d.agg.byDate, record.date), Append(d.agg.players, player, record)),
        Bump(d.byVersion, record.version), Bump(d.byPing, PingBucketOf(record)))
  {
    BuildStep(g, (player, record), ViolationKind, ViolationDate);
    TallyRecordsStep(g, (player, record), ViolationVersion);
    TallyRecordsStep(g, (player, record), PingBucketOf);
  }

  /**
   * A line in the shape `Pattern` matches: `[`, then the fields, each followed by the
   * pattern's literal text (`] [`, `] `, ` failed `, ` [VL: `, `] [Ping: `, `] [TPS: `,
   * `] [Version: `, `]`).
   */
  function ViolationLine(fields: seq<string>): string
    requires |fields| == |Pattern|
  {
    "[" + Render(fields, Pattern)
  }

  /** The fields of the line `[2024-01-10] [12:00:01] Bob failed Speed [VL: 3] [Ping: 77] [TPS: 19.9] [Version: 1.8.9]`. */
  const ExampleFields: seq<string> := ["2024-01-10", "12:00:01", "Bob", "Speed", "3", "77", "19.9", "1.8.9"]
  /** `[2024-01-10] [12:00:01] Bob failed Speed [VL: 3] [Ping: 77] [TPS: 19.9] [Version: 1.8.9]` */
  const ExampleLine: string := ViolationLine(ExampleFields)

  lemma ExampleFieldsFit()
    ensures forall i :: 0 <= i < |Pattern| ==> Fits(ExampleFields[i], Pattern[i])
  {
    ExampleLazyFit();
    ExampleRunFit();
  }

  lemma ExampleLazyFit()
    ensures Fits("2024-01-10", Lazy("] [")) && Fits("12:00:01", Lazy("] "))
    ensures Fits("Bob", Lazy(" failed ")) && Fits("Speed", Lazy(" [VL: "))
  {
    LazyFits("2024-01-10", "] [");
    LazyFits("12:00:01", "] ");
    LazyFits("Bob", " failed ");
    LazyFits("Speed", " [VL: ");
  }

  lemma ExampleRunFit()
    ensures Fits("3", Run(false, "] [Ping: ")) && Fits("77", Run(false, "] [TPS: "))
    ensures Fits("19.9", Run(true, "] [Version: ")) && Fits("1.8.9", Run(true, "]"))
  {
  }


  /** Rendered text lacks a character that no field and no literal text has. */
  lemma {:induction false} RenderLacks(fields: seq<string>, pieces: seq<Piece>, c: char)
    requires |fields| == |pieces|
    requires forall i :: 0 <= i < |pieces| ==> Lacks(fields[i], c) && Lacks(SepOf(pieces[i]), c)
    ensures Lacks(Render(fields, pieces), c)
    decreases |pieces|
  {
    if pieces != [] {
      RenderLacks(fields[1..], pieces[1..], c);
      assert Lacks(fields[0], c) && Lacks(SepOf(pieces[0]), c);
    }
  }

  lemma FitsUnbroken(field: string, piece: Piece)
    requires Fits(field, piece)
    ensures Lacks(field, '\n')
  {
  }

  lemma PatternUnbroken()
    ensures forall i :: 0 <= i < |Pattern| ==> Lacks(SepOf(Pattern[i]), '\n')
  {
    assert Lacks("] [", '\n') && Lacks("] ", '\n') && Lacks(" failed ", '\n') && Lacks(" [VL: ", '\n');
    assert Lacks("] [Ping: ", '\n') && Lacks("] [TPS: ", '\n') && Lacks("] [Version: ", '\n') && Lacks("]", '\n');
  }

  /** A `ViolationLine` whose fields fit `Pattern` has no line break in it. */
  lemma ViolationLineUnbroken(fields: seq<string>)
    requires |fields| == |Pattern|
    requires forall i :: 0 <= i < |Pattern| ==> Fits(fields[i], Pattern[i])
    ensures Lacks(ViolationLine(fields), '\n')
  {
    PatternUnbroken();
    forall i | 0 <= i < |Pattern| ensures Lacks(fields[i], '\n') {
      FitsUnbroken(fields[i], Pattern[i]);
    }
    RenderLacks(fields, Pattern, '\n');
  }

  /**
   * A log made of one `ViolationLine` whose fields fit `Pattern` holds one incident: the line's
   * player, with a record of its normalised date, time, type, VL, ping and version.
   */
  lemma ViolationLineParsed(fields: seq<string>)
    requires |fields| == |Pattern|
    requires forall i :: 0 <= i < |Pattern| ==> Fits(fields[i], Pattern[i])
    requires FormatDate(fields[0]).Ok?
    ensures var line := ViolationLine(fields);
      LineIncidents(Split(line, "\n")) ==
      Ok([(fields[2], ViolationRecord(FormatDate(fields[0]).value, fields[1], fields[3], fields[4], fields[5], fields[7]))])
  {
    var line := ViolationLine(fields);
    assert line == "[" + Render(fields, Pattern) + "";
    ViolationRecognised(fields, "");
    var x := (fields[2], ViolationRecord(FormatDate(fields[0]).value, fields[1], fields[3], fields[4], fields[5], fields[7]));
    assert LineIncident(line) == Ok(Some(x));
    ViolationLineUnbroken(fields);
    OneLineLog(line, x);
  }

  /** A log that is a single line, with no line break, holds just that line's incident. */
  lemma OneLineLog(line: string, x: Incident<ViolationRecord>)
    requires Lacks(line, '\n') && LineIncident(line) == Ok(Some(x))
    ensures LineIncidents(Split(line, "\n")) == Ok([x])
  {
    SplitCharNone(line, '\n');
    var lines := Split(line, "\n");
    assert lines[..0] == [] && lines[0] == line;
    assert |lines| == 1 && lines[..|lines| - 1] == [];
    assert LineIncidents([]) == Ok([]);
    LineIncidentsExtend(lines, [], Ok(Some(x)));
    assert [] + [x] == [x];
  }

  const ExampleRecord: ViolationRecord := ViolationRecord("01-10-2024", "12:00:01", "Speed", "3", "77", "1.8.9")

  lemma ExampleCounts()
    ensures var d := FromIncidents([("Bob", ExampleRecord)]);
      d.agg.total == 1 && Get(d.byPing, "50-99ms") == 1 && Get(d.byVersion, "1.8.9") == 1
  {
    var g := [("Bob", ExampleRecord)];
    assert IsDigits("77") && Value("77") == 77;
    PingLabelExample();
    assert PingBucketOf(ExampleRecord) == "50-99ms";
    assert Records(g) == [ExampleRecord];
    assert [ExampleRecord][..0] == [];
    assert CountKey([ExampleRecord], PingBucketOf, "50-99ms") == 1;
    assert CountKey([ExampleRecord], ViolationVersion, "1.8.9") == 1;
  }

  /**
   * `ExampleLine` is one violation by `Bob` whose date is normalised, and the log
   * made of it counts it under `50-99ms` and `1.8.9`.
   */
  lemma ViolationExample()
    ensures LineIncidents(Split(ExampleLine, "\n")) == Ok([("Bob", ExampleRecord)])
    ensures var d := FromIncidents(LineIncidents(Split(ExampleLine, "\n")).value);
      d.agg.total == 1 && Get(d.byPing, "50-99ms") == 1 && Get(d.byVersion, "1.8.9") == 1
  {
    ExampleFieldsFit();
    ExampleDate();
    ViolationLineParsed(ExampleFields);
    ExampleCounts();
  }

  /**
   * The body of the line loop (lines 87-105): match one line and format its date. A
   * line yields nothing exactly when it does not match, throws exactly when the
   * matched date has fewer than two dashes, and otherwise yields the matched player
   * with a record of the matched fields and the normalised date.
   */
  method ReadLine(line: string) returns (r: Result<Option<Incident<ViolationRecord>>, Failure>)
    ensures r == LineIncident(line)
    ensures r == Ok(None) <==> MatchViolation(line).None?
    ensures r.Err? <==> MatchViolation(line).Some? && Occurrences(MatchViolation(line).value[0], '-') < 2
    ensures r.Err? ==> r.error == UndefinedDatePart(MatchViolation(line).value[0])
    ensures r.Ok? && r.value.Some? ==>
      var c := MatchViolation(line).value;
      var (player, record) := r.value.value;
      && player == c[2] && Ok(record.date) == FormatDate(c[0])
      && record.time == c[1] && record.kind == c[3] && record.vl == c[4] && record.ping == c[5] && record.version == c[7]
  {
    var m := MatchViolation(line);
    if m.None? {
      return Ok(None);
    }
    var c := m.value;
    var date := FormatDate(c[0]);
    if date.Err? {
      return Err(date.error);
    }
    r := Ok(Some((c[2], ViolationRecord(date.value, c[1], c[3], c[4], c[5], c[7]))));
  }

  /** One pass of the line loop: the next line's incident, with what it does to the incidents so far. */
  method ReadNext(lines: seq<string>, i: nat, ghost g: seq<Incident<ViolationRecord>>)
    returns (x: Result<Option<Incident<ViolationRecord>>, Failure>)
    requires i < |lines| && LineIncidents(lines[..i]) == Ok(g)
    ensures x.Err? ==> LineIncidents(lines) == Err(x.error)
    ensures x.Ok? && x.value.None? ==> LineIncidents(lines[..i + 1]) == Ok(g)
    ensures x.Ok? && x.value.Some? ==> LineIncidents(lines[..i + 1]) == Ok(g + [x.value.value])
  {
    assert lines[..i + 1][..i] == lines[..i];
    x := ReadLine(lines[i]);
    LineIncidentsExtend(lines[..i + 1], g, x);
    if x.Err? {
      LineIncidentsFailureSticks(lines, i + 1);
    }
  }

  /** Lines 89-105: each of the five counters goes up by one and the record joins its player's list. */
  method CountNext(data: ViolationData, ghost g: seq<Incident<ViolationRecord>>, player: string, record: ViolationRecord)
    returns (next: ViolationData)
    requires data == FromIncidents(g)
    ensures next == FromIncidents(g + [(player, record)])
  {
    CountIncident(g, player, record);
    var a := data.agg;
    next := ViolationData(
      Aggregate(a.total + 1, Bump(a.byType, record.kind), Bump(a.byPlayer, player),
                Bump(a.byDate, record.date), Append(a.players, player, record)),
      Bump(data.byVersion, record.version), Bump(data.byPing, PingBucketOf(record)));
  }

  /**
   * `parseViolations(content)`: the dataset of the incidents on the log's lines, or
   * the error the first bad date throws (`FromIncidentsConsistent` states what
   * holds of that dataset).
   */
  method ParseViolations(content: string) returns (r: Result<ViolationData, Failure>)
    ensures LineIncidents(Split(content, "\n")).Err? ==> r == Err(LineIncidents(Split(content, "\n")).error)
    ensures LineIncidents(Split(content, "\n")).Ok? ==> r == Ok(FromIncidents(LineIncidents(Split(content, "\n")).value))
  {
    var lines := Split(content, "\n");
    // The six counters and `playerViolations`, kept together.
    var data := ViolationData(Aggregate(0, Empty(), Empty(), Empty(), Empty()), Empty(), Empty());
    ghost var g: seq<Incident<ViolationRecord>> := [];
    var i := 0;
    while i < |lines|
      invariant 0 <= i <= |lines|
      invariant LineIncidents(lines[..i]) == Ok(g)
      invariant data == FromIncidents(g)
    {
      var x := ReadNext(lines, i, g);
      if x.Err? {
        return Err(x.error);
      }
      if x.value.Some? {
        data := CountNext(data, g, x.value.value.0, x.value.value.1);
        g := g + [x.value.value];
      }
      i := i + 1;
    }
    assert lines[..i] == lines;
    r := Ok(data);
  }
}
