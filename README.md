# Log parser model

A Dafny model of the log-analysis core of an anti-cheat dashboard. The core reads two
kinds of server log and answers questions about them:

- a **punishment log**, split into blocks opened by `--------------[`. Each block starts
  with a header `<player> was punished for <type>]-…` and may carry `Date:`, `World:` and
  `UUID:` lines;
- a **violation log**, one line per incident:
  `[<date>] [<time>] <player> failed <type> [VL: n] [Ping: n] [TPS: f] [Version: v]`.

From either log the core builds a dataset:

- a total;
- counters by type, player and date;
- counters by world (punishments), or by client version and 50 ms ping bucket (violations);
- each player's records, in log order.

It can then search one player's records, ignoring letter case as a fallback. It can also
narrow a dataset to an inclusive date range. Dates are normalised from `YYYY-MM-DD` to
`MM-DD-YYYY` on the way in.

The modules follow the structure of the program:

- `Strings`: ASCII versions of the JavaScript string operations the parser uses.
- `OrderedMaps`: JavaScript objects used as dictionaries. An object is modelled as its
  key insertion order plus a map (`ODict`). This file also holds the counter updates
  `acc[k] = (acc[k] || 0) + 1` (`Bump`) and `push` onto a per-player list (`Append`).
- `Dates`: `formatDate` and `parseDate`. `InRange` is the inclusive comparison of lines 193-194 and 201-202; `RangeWithin` states its meaning.
- `Aggregates`: the records and datasets, and the dataset that a sequence of recognised
  incidents gives (`Build`, `Group`).
- `PunishmentParser` and `ViolationParser`: the two parsers. Each is an imperative
  method with its loop. It is proved equal to a specification function that folds over
  the blocks or lines. In the punishment parser, `MatchHeader` is the header regex of line 27, and `HeaderRecognised` states what it matches. `SegmentIncident` is what one block contributes, lines 25-51, and `ReadSegment` states it. In the violation parser, `MatchViolation` is the line regex of line 87, and `ViolationRecognised` states what it matches. `PingLabel` is the ping bucket key of line 100, and `PingLabelsAgree` states when two labels agree.
- `PlayerSearch`: the two player searches.
- `RangeFilter`: the date-range filter.

The clock read by the punishment parser is a parameter: `isoToday`, the `YYYY-MM-DD`
text of today's date. Both parsers can throw when `formatDate` receives a date with
fewer than two dashes. That throw is modelled as an `Err` result.

## Model

| member | source | states |
|---|---|---|
| Dates.FormatDate | src/utils/logParser.js:2-6 | A date already in `MM-DD-YYYY` shape comes back unchanged. The call fails (the model's error carries the offending text) exactly when the text has fewer than two dashes. |
| Dates.FormatDateReorders | src/utils/logParser.js:4-5 | `year-month-day` comes out as the zero-padded month and day, then the year. |
| Dates.FormatDateExample | src/utils/logParser.js:2-6 | `2024-03-05` becomes `03-05-2024`. |
| Dates.FormatDateIdempotent | src/utils/logParser.js:2-6 | For a four-digit year and a one- or two-digit month and day, normalising twice is normalising once. |
| Dates.ParseDate | src/utils/logParser.js:9-12 | A date parses only when it has at least two dashes (month, day, year). |
| Dates.FullYear | src/utils/logParser.js:11 | A year from 0 to 99 means 1900 plus that year. A later year is taken as written. |
| Dates.ParseDateOfParts | src/utils/logParser.js:9-12 | `m-d-y` with digit parts reads as month `m`, day `d` and year `y` mapped through the 1900s rule. An empty part reads as 0. |
| Dates.EmptyYearExample | src/utils/logParser.js:2-12 | `03-05-`, which is what `formatDate` makes of `-3-5`, is 5 March 1900. |
| Dates.ParseFormattedDate | src/utils/logParser.js:2-12 | Parsing a formatted `year-month-day` with digit parts reads back the same month and day. The year comes back through the 1900s rule. |
| Dates.RangeWithin | src/utils/logParser.js:186-194 | Every date inside a range is inside any range whose start is no later and whose end is no earlier. |
| Strings.Split | src/utils/logParser.js:15 | There is always at least one part, and joining the parts with the separator gives the text back. |
| Strings.SplitPartsLackSeparator | src/utils/logParser.js:15 | No part holds the separator, so the parts are the text between successive separators. |
| Strings.SplitCharCount | src/utils/logParser.js:76 | Splitting on a character gives one more part than there are occurrences of it. |
| Strings.Trim | src/utils/logParser.js:25 | The result is the slice of the text that starts after its leading whitespace. It neither starts nor ends with whitespace, and only whitespace follows it. |
| Strings.TrimAround | src/utils/logParser.js:25 | Whitespace around a text that starts and ends with a non-space is exactly what trimming removes. |
| Strings.NatToString | src/utils/logParser.js:100 | Decimal rendering has no leading zero and reads back as the same number. |
| Strings.Pad2 | src/utils/logParser.js:5 | `padStart(2, '0')`: at least two characters; the original is kept at the end, with zeros in front. |
| OrderedMaps.Bump | src/utils/logParser.js:33 | The counter of the key goes up by one and no other counter changes. A new key is listed last. The sum goes up by one, and the dictionary stays well formed. |
| OrderedMaps.Append | src/utils/logParser.js:53-56 | The record goes at the end of the key's list, which is created and listed last when new. The record count goes up by one. |
| OrderedMaps.Tally | src/utils/logParser.js:137-140 | Each key is counted as often as it occurs. Only occurring keys are present, and the counters add up to the number of elements. The keys are listed as the distinct keys in order of first occurrence. |
| OrderedMaps.AppearancesOrder | src/utils/logParser.js:137-140 | The distinct keys are listed in the order of their first occurrences: an earlier key first occurs earlier. |
| OrderedMaps.TallyPresent | src/utils/logParser.js:141-152 | The same count skipping empty keys: each non-empty key is counted as often as it occurs, `""` is never a key, and the counters plus the number of empty keys add up to the number of elements. |
| OrderedMaps.TallyPresentOrder | src/utils/logParser.js:141-152 | The keys of that count are the keys in order of first appearance, with `""` left out. |
| OrderedMaps.CountKeyPerm | src/utils/logParser.js:208-213 | Counting by key does not depend on the order of the elements. |
| Aggregates.Group | src/utils/logParser.js:53-56 | Per-player lists: the players are the distinct players in order of first appearance, and the lists hold every incident's record. |
| Aggregates.GroupRecords | src/utils/logParser.js:53-56 | Each player's list holds exactly that player's records, in log order. |
| Aggregates.BuildConsistent | src/utils/logParser.js:29-56 | Each counter adds up to the total. Each player's counter is the length of that player's list. |
| PunishmentParser.NonBlankKeeps | src/utils/logParser.js:15 | Every non-blank block is kept. |
| PunishmentParser.NonBlankConcat | src/utils/logParser.js:15 | Dropping blank parts works piece by piece: the blocks kept from a log are the non-blank parts, each once, in their order. |
| PunishmentParser.HeaderRecognised | src/utils/logParser.js:27-31 | A header `<player> was punished for <type>]-…` yields that player and that type, trimmed, when the marker first occurs after the player, `]-` first occurs after the type, and neither holds a line terminator. Anything may follow `]-`, a carriage return included. |
| PunishmentParser.ScanKeepsDefault | src/utils/logParser.js:36-48 | A field that no line sets keeps its default: today, `Unknown` or empty. |
| PunishmentParser.ScanLastWins | src/utils/logParser.js:40-48 | A field ends with the value from the last line that sets it, following the `Date:` / `World:` / `UUID:` precedence. |
| PunishmentParser.ScanFields | src/utils/logParser.js:36-48 | The field scan loop computes the specification scan, including the error a bad `Date:` value throws. |
| PunishmentParser.IncidentsAtMostOnePerBlock | src/utils/logParser.js:24-29 | Each block yields at most one punishment. |
| PunishmentParser.ReadSegment | src/utils/logParser.js:25-51 | A block yields nothing exactly when its trimmed text has fewer than two lines or its first line is no header. It throws exactly when it has a header and today's date or a `Date:` value is malformed. Otherwise it yields the header's player and type, with the date, world and UUID the field scan gives. |
| PunishmentParser.BlockRecognised | src/utils/logParser.js:14-51 | A log of one block with a header, a `Date:` line and a `World:` line holds exactly one punishment: the trimmed player and type, the normalised date and the world, with an empty UUID. This holds when the player is not empty and does not start with whitespace; when the player and type hold no `[`, no `:` and no line break, the header marker does not start inside the player and `]-` does not start inside the type; when the date and world hold no `[`, no `:` and no `\n`, are not empty and neither starts nor ends with whitespace; and when the date and `isoToday` are in the shape the date formatter accepts. |
| PunishmentParser.PunishmentExample | src/utils/logParser.js:14-56 | The example block, `Alice` punished for `Fly` on `2024-01-10` in `world_nether`, is one punishment counted once under `Fly`, `Alice`, `01-10-2024` and `world_nether`. |
| PunishmentParser.CountIncident | src/utils/logParser.js:29-56 | One more incident raises each of the five counters by one and appends its record. |
| PunishmentParser.CountNext | src/utils/logParser.js:29-56 | The counting step takes the dataset of the incidents so far to the dataset with one more incident. |
| PunishmentParser.FromIncidentsConsistent | src/utils/logParser.js:17-56 | The parsed dataset's counters all add up to the total, which is the number of incidents. |
| PunishmentParser.ParsePunishments | src/utils/logParser.js:14-73 | The parse returns the dataset of the incidents the blocks yield, or the first error thrown. |
| ViolationParser.ViolationRecognised | src/utils/logParser.js:87 | A line written in the shape the violation pattern matches (`[date] [time] player failed type [VL: n] [Ping: n] [TPS: n] [Version: v]`, each field fitting its slot) is matched back into exactly the fields written in it. |
| ViolationParser.BucketStart | src/utils/logParser.js:99 | The start of the ping bucket is a multiple of 50, at most the ping and within 49 of it. |
| ViolationParser.PingLabelsAgree | src/utils/logParser.js:99-101 | Two pings share a by-ping key exactly when they fall in the same 50 ms bucket. |
| ViolationParser.PingLabelExample | src/utils/logParser.js:100 | A ping of 77 gets the key `50-99ms`. |
| ViolationParser.ViolationLineParsed | src/utils/logParser.js:76-106 | A one-line log in that shape yields one incident with the normalised date and the matched fields. |
| ViolationParser.ViolationExample | src/utils/logParser.js:76-106 | The example line is one violation by `Bob`, counted under `50-99ms` and `1.8.9`. |
| ViolationParser.ReadLine | src/utils/logParser.js:87-105 | A line yields nothing exactly when it does not match. It throws, naming the matched date, exactly when that date has fewer than two dashes. Otherwise it yields the matched player, with the matched time, type, VL, ping and version and the normalised date. |
| ViolationParser.CountIncident | src/utils/logParser.js:89-106 | One more incident raises each of the six counters by one and appends its record. |
| ViolationParser.CountNext | src/utils/logParser.js:89-106 | The counting step takes the dataset of the incidents so far to the dataset with one more incident. |
| ViolationParser.FromIncidentsConsistent | src/utils/logParser.js:78-106 | The parsed dataset's counters, versions and ping buckets included, all add up to the total. |
| ViolationParser.ParseViolations | src/utils/logParser.js:75-123 | The parse returns the dataset of the incidents on the lines, or the first error thrown. |
| PlayerSearch.FindFolded | src/utils/logParser.js:128-130 | Finds the first key in entry order that equals the query ignoring case, or none when no key does. |
| PlayerSearch.Lookup | src/utils/logParser.js:127-130 | The list under the exact name if present. Otherwise the list of the first name equal ignoring case. Otherwise no records. |
| PlayerSearch.LookupIgnoresCase | src/utils/logParser.js:126-130 | Two spellings that differ only in case find the same list, whether one of them is stored or neither is, when no other spelling of the name is stored. |
| PlayerSearch.PunishmentSearchIgnoresCase | src/utils/logParser.js:125-155 | Searching punishments under two such spellings gives the same result. |
| PlayerSearch.ViolationSearchIgnoresCase | src/utils/logParser.js:157-183 | Searching violations under two such spellings gives the same result. |
| PlayerSearch.MostRecent | src/utils/logParser.js:153 | The last ten records (all when there are fewer), latest first. |
| PlayerSearch.SearchPlayerPunishments | src/utils/logParser.js:125-155 | The total is the player's record count. Types are counted for every record, and worlds and dates only when non-empty. The recent list is the last ten records. |
| PlayerSearch.SearchPlayerViolations | src/utils/logParser.js:157-183 | The total is the player's record count. Types, dates and versions each count every record and add up to the total. The recent list is the last ten records. |
| PlayerSearch.PunishmentSearchNotFound | src/utils/logParser.js:125-155 | An unknown player gets a total of 0, empty counters and no recent punishments. |
| PlayerSearch.ViolationSearchNotFound | src/utils/logParser.js:157-183 | An unknown player gets a total of 0, empty counters and no recent violations. |
| PlayerSearch.SearchParsedPunishments | src/utils/logParser.js:125-155 | On a parsed log, the search total is the player's punishment counter, and the recent list is the player's last ten punishments. |
| PlayerSearch.SearchParsedViolations | src/utils/logParser.js:157-183 | On a parsed log, the search total is the player's violation counter, and versions are counted over exactly the player's violations. |
| RangeFilter.KeepInRange | src/utils/logParser.js:192-195 | Kept elements are exactly the elements whose date is in range. |
| RangeFilter.KeepWithin | src/utils/logParser.js:192-195 | Filtering to a range, then to a range inside it, is filtering to the inner range. |
| RangeFilter.FilterDates | src/utils/logParser.js:199-204 | Exactly the in-range date counters stay, with their counts and order. |
| RangeFilter.FilterPlayers | src/utils/logParser.js:189-197 | Every player stays, in order, with their in-range records. |
| RangeFilter.PlayerCounts | src/utils/logParser.js:215-218 | Each player's counter is the length of their list, and the counters add up to the record count. |
| RangeFilter.FilterAggregate | src/utils/logParser.js:189-218 | The total is the sum of the kept date counters. Type and player counters add up to the kept record count, and types are counted over the kept records. |
| RangeFilter.FilterByDateRange | src/utils/logParser.js:185-238 | The five filtered fields are replaced and the rest is copied. A punishment total of 0 stays 0, and the new total goes to a stray `totalViolations` field. |
| RangeFilter.FilterIdempotent | src/utils/logParser.js:185-238 | Filtering again to the same range changes none of the filtered fields. The whole dataset is unchanged for a violation dataset, for a punishment dataset whose total was 0, and for one whose filtered total is not 0. |
| RangeFilter.RefilterAddsStrayTotal | src/utils/logParser.js:236 | A parsed punishment log with records, none in range, filters to total 0 with no `totalViolations`; filtering again adds `totalViolations: 0`, so the second result differs from the first. |
| RangeFilter.FilterAggregateWiden | src/utils/logParser.js:189-218 | Filtering a filtered dataset again to an enclosing range changes nothing. |
| RangeFilter.FilterWiderRange | src/utils/logParser.js:185-238 | Filtering a filtered dataset again to the same or an enclosing date range changes none of the filtered fields, and leaves the whole dataset unchanged under the same condition as `FilterIdempotent`. |
| RangeFilter.FilterFullRange | src/utils/logParser.js:189-218 | A range that holds every counted date keeps the date counters as they are, and the new total is their sum. |
| RangeFilter.FilterFullDateRange | src/utils/logParser.js:185-238 | Filtering a dataset to a date range that holds all its dates gives back its date counters, and the total written is their sum. |
| RangeFilter.FilterDatesTally | src/utils/logParser.js:199-204 | Filtering the date counters of some records is counting the dates of the kept records. |
| RangeFilter.FilteredGroupRecords | src/utils/logParser.js:208-213 | The kept records taken player by player are the kept records of the log, reordered. |
| RangeFilter.FilterParsed | src/utils/logParser.js:185-238 | On a parsed dataset the counting invariants survive filtering. The total is the number of kept records, and each list holds that player's kept records in order. |
| RangeFilter.FilterParsedPunishments | src/utils/logParser.js:185-238 | A filtered punishment dataset is consistent, and its total is the number of kept records. |
| RangeFilter.FilterParsedViolations | src/utils/logParser.js:185-238 | A filtered violation dataset is consistent, and its total is the number of kept records. |
| RangeFilter.FilterEmptyPunishments | src/utils/logParser.js:236 | An empty punishment log keeps total 0 and gains `totalViolations: 0`. |

## Left out

- Logging: the `console.log` calls of lines 58, 63, 108, 112, 132-133, 164-165 and 220-228 have no effect on results and are not modelled.
- The clock: `new Date().toISOString()` on line 36 is the parameter `isoToday`, the `YYYY-MM-DD` text of the current UTC date.
- Character sets: `trim` and `toLowerCase` are modelled on ASCII. Unicode whitespace other than the ASCII controls and space is not trimmed. Non-ASCII letters are not case-folded.
- Strings.Value: `parseInt` is modelled on runs of decimal digits as an unbounded integer. Very long digit runs, where JavaScript numbers lose precision, are not modelled.
- Dates.ParseDate: `new Date(year, month - 1, day)` rolls an out-of-range month or day over into a neighbouring month or year (a month or day of 0 rolls back, so `00-05-2024` is 5 December 2023); the model compares year, month and day as written. A date more than 8.64e15 ms from 1970 (about 275,000 years, so `01-01-300000`) is an invalid `Date` in JavaScript and never in range; the model has no upper bound on the year and compares such a date as written. `Number` also accepts surrounding spaces, a sign, a decimal point, an exponent and hexadecimal; the model reads each part as a run of decimal digits, an empty part as 0, and any other part as an invalid date, which is never in range. The mapping of years 0 to 99 into the 1900s is modelled.
- Object key order: JavaScript lists integer-like keys (such as a world named `7`) before the others in ascending order. The model keeps plain insertion order for all keys. Inherited keys such as `__proto__` or `constructor` are not modelled.
- RangeFilter.FilterAggregate: the five filtered fields are stated for any range test. `FilterByDateRange` instantiates them with the `parseDate` comparison of lines 186-187 and 193-194.
- RangeFilter.FilterByDateRange: the per-world, per-version and per-ping counters are copied through unfiltered, as the spread on line 231 copies them. The datasets are assumed to be what the parsers return, so the `||` fallbacks of lines 190 and 200 always pick the field of the dataset's own kind.
- RangeFilter.FilterIdempotent and RangeFilter.FilterWiderRange: refiltering leaves the whole dataset unchanged only under a condition. Line 236 tests the incoming `totalPunishments` for truthiness. So when the first filter brings a non-zero punishment total to 0, the second filter adds a `totalViolations: 0` field that the first result lacks (`RefilterAddsStrayTotal`). The model follows the source here.
- Only `src/utils/logParser.js` is modelled. The user interface files are not part of this model.
