# booker — a Dafny model of the booking engine

`booker.cpp` books rental resources arranged in a fixed hierarchy: buildings
hold vehicles and sections, sections hold vehicles and subsections, and
subsections hold vehicles. A booking ledger maps each resource id to the dates
it was booked on. A query file is read line by line. Each line is a command
(`book`, `is_booked`, `is_all_booked` or `is_available`) followed by a resource
id and a date, and each line produces one reply (`ok`/`failed` or `yes`/`no`).

The model is pure and functional. The hierarchy is a `map<string, Building>`
(the `buildings` map) and the ledger is a `map<string, seq<string>>` (the
`bookings` map). Each query takes the current ledger and returns the ledger it
leaves behind, so the source's two globals become parameters and results.

Modules, one per concern of the source:

- `Results`: the success-or-error result type.
- `Lines`: properties that every line of a batch must have, for any per-line
  test, and the position of the first line without the property.
- `KeyOrder`: the iteration order of a `std::map` keyed by strings
  (lexicographic `std::string` order).
- `Resources`: the hierarchy and `Children`. `Children` lists the resources
  that a check or a booking of an id descends into, in the order the source
  visits them. The module also holds the reference definition `Subtree`: an id
  and everything transitively below it.
- `Bookings`: the ledger, the direct-booking check, and appending a date.
- `Booker`: the transitive availability check, the recursive booking and the
  four queries. Each one except `IsBooked`, which reads only the id's own
  entry, is characterised against `Subtree`.
- `Queries`: the line filter, the `>>` tokenizer, dispatch, and the loop over
  the lines of a query file. An unsupported command aborts the run.
- `Scenario`: a small hierarchy (one building, section, subsection and
  vehicle) and the replies of a typical query batch against it.

Points where the code does something other than one might expect:

- One might expect a check to stop at the first section or subsection with a
  matching id. The loops at `booker.cpp:175-195` and `booker.cpp:198-214` have
  no `break`, so a check visits every section and every subsection with that id
  in every building. `Children` does the same.
- `is_all_booked` answers `yes` when anything in the subtree is booked, not
  only when all of it is (`booker.cpp:314-320`).
- A line made only of whitespace is not skipped. Its command is empty, which is
  unsupported, so it aborts the run.

## Model

| member | source | states |
|---|---|---|
| Resources.LoadLastWins | booker.cpp:68-112 | the loaded map has exactly the ids of the parsed buildings; a building whose id no later building repeats is the one stored (the last write wins) |
| Resources.MatchingSections | booker.cpp:177-193 | a child comes from some section with the id: one of its vehicles or subsection ids |
| Resources.MatchingVehicles | booker.cpp:202-211 | a child is a vehicle of some subsection with the id |
| Resources.MatchingSubsections | booker.cpp:200-212 | a child is a vehicle of a subsection with the id, in any section of the building |
| Resources.SectionScan | booker.cpp:175-195 | across the given buildings, a child comes from a section with the id in one of them |
| Resources.SubsectionScan | booker.cpp:198-214 | across the given buildings, a child comes from a subsection with the id in one of them |
| Resources.Children | booker.cpp:155-214 | a child is in the building's contents, in some matching section's contents, or among some matching subsection's vehicles, and nothing else is |
| Resources.ChildrenRank | booker.cpp:155-214 | in a hierarchy whose kinds of id do not overlap, every child sits strictly lower than its parent, so the recursion ends |
| Resources.LeafHasNoChildren | booker.cpp:155-214 | an id that names no building, section or subsection has no children |
| KeyOrder.Least | booker.cpp:175 | the least key of a non-empty set is in the set and below every other key |
| KeyOrder.Sorted | booker.cpp:175 | the sequence holds exactly the set's keys, strictly ascending, once each |
| KeyOrder.SortedKeys | booker.cpp:175 | the keys of a map in `std::map` iteration order: exactly its keys, strictly ascending |
| KeyOrder.LessTotal | booker.cpp:175 | any two different keys are ordered one way or the other |
| KeyOrder.LessTransitive | booker.cpp:175 | the key order is transitive |
| Bookings.Scan | booker.cpp:126-134 | the scan of booked dates finds the date exactly when the date occurs in the list |
| Bookings.IsDirectlyBooked | booker.cpp:116-142 | an id counts as booked on a date exactly when it has a ledger entry holding that date |
| Bookings.Record | booker.cpp:227 | the date is appended to the id's entry (created if missing), the entry grows by one, and no other entry changes |
| Bookings.AppendsOnlyOtherDate | booker.cpp:227 | appending one date leaves every id's bookings on any other date as they were |
| Booker.CanBook | booker.cpp:145-218 | an id can be booked exactly when nothing in its subtree is directly booked on the date |
| Booker.AllCanBook | booker.cpp:159-171 | the early-exit loop over the children holds exactly when nothing in their subtrees is booked |
| Booker.ShortCircuitIrrelevant | booker.cpp:159-171 | stopping at the first blocked child gives the same answer as checking every child |
| Booker.ShortCircuitSound | booker.cpp:159-171 | when the early-exit loop says yes, every child can be booked |
| Booker.ShortCircuitComplete | booker.cpp:159-171 | when the early-exit loop says no, some child cannot be booked |
| Booker.CanBookUnfolds | booker.cpp:145-218 | an id can be booked exactly when it is not booked itself and every child can be booked |
| Booker.BookedChildBlocks | booker.cpp:160-162 | a booking anywhere below any child makes the parent unavailable and all-booked |
| Booker.UnknownIsFree | booker.cpp:145-218 | an unbooked id that names no container is its own subtree; it is available, and booking it succeeds and marks it booked |
| Booker.BookAll | booker.cpp:221-274 | the date is appended to every id of the subtree, each of them ends up booked, and no other entry changes |
| Booker.BookEach | booker.cpp:233-238 | booking the children in turn appends the date to exactly their subtrees and covers them |
| Booker.Book | booker.cpp:277-294 | `ok` exactly when the whole subtree is free; `failed` leaves the ledger unchanged; `ok` books the whole subtree and nothing else |
| Booker.BookOkThenBooked | booker.cpp:277-294 | after `ok`, every id of the subtree reads as booked, the id is unavailable and all-booked, and booking it again fails with the ledger unchanged |
| Booker.BookOtherDate | booker.cpp:277-294 | a booking leaves every query about another date answering as before |
| Booker.BookDisjoint | booker.cpp:277-294 | a resource whose subtree does not overlap the booked one keeps its answers on every date |
| Booker.BookGrows | booker.cpp:277-294 | a booking never removes or changes a recorded date |
| Booker.IsBooked | booker.cpp:297-306 | `yes` exactly when the id's own entry holds the date; the subtree is not consulted |
| Booker.IsAllBooked | booker.cpp:309-321 | `yes` exactly when some id of the subtree is booked on the date |
| Booker.IsAvailable | booker.cpp:324-336 | `yes` exactly when no id of the subtree is booked on the date |
| Booker.Complementary | booker.cpp:309-336 | `is_all_booked` says `yes` exactly when `is_available` says `no` |
| Booker.StaysUnavailable | booker.cpp:277-336 | once an id cannot be booked on a date, it stays so, unavailable and all-booked, in every ledger that only adds dates |
| Booker.BookedForGood | booker.cpp:277-336 | after `ok`, the id stays unavailable and all-booked on that date however later queries grow the ledger |
| Booker.TextInjective | booker.cpp:131-334 | the four reply texts `ok`, `failed`, `yes`, `no` are pairwise different, so a text names its reply |
| Queries.SpaceRun | booker.cpp:365 | the run of whitespace starting at a position: all whitespace, ending at the end or at a non-space |
| Queries.WordRun | booker.cpp:365 | the run of non-whitespace starting at a position: no whitespace, ending at the end or at a space |
| Queries.Extract | booker.cpp:365 | one `>>` into a string skips whitespace and reads a maximal token without whitespace; an empty read means the line is used up |
| Queries.ExtractToken | booker.cpp:365 | whitespace then a word: extraction returns that word and stops right after it |
| Queries.ExtractBlank | booker.cpp:365 | only whitespace left: extraction returns nothing and reaches the end |
| Queries.ExtractShift | booker.cpp:365 | reading after a prefix is reading the remainder on its own |
| Queries.ExtractAfterSpace | booker.cpp:365 | any amount of leading whitespace, a word, then the end or whitespace: extraction from the start returns the word and stops right after it |
| Queries.ExtractNext | booker.cpp:365 | the same after any prefix: extraction from the end of the prefix returns the word and stops right after it |
| Queries.ExtractBlankAfter | booker.cpp:365 | only whitespace after a prefix: extraction from the end of the prefix returns nothing and reaches the end |
| Queries.Parse | booker.cpp:363-365 | the three tokens hold no whitespace, and a missing command or id leaves every later token empty |
| Queries.ParseRoundTrip | booker.cpp:363-365 | optional leading whitespace, three words separated by runs of whitespace of any length, then the end or anything after whitespace: the line parses back to those three words |
| Queries.ParseOne | booker.cpp:363-365 | a line of one word between optional whitespace parses to that command with an empty id and date |
| Queries.ParseTwo | booker.cpp:363-365 | a line of two words separated by whitespace, between optional whitespace, parses to that command and id with an empty date |
| Queries.ParseBlank | booker.cpp:363-365 | a whitespace-only line parses to an empty command |
| Queries.Execute | booker.cpp:367-381 | a supported command gives a reply and an unsupported one gives its error; each of the four commands answers as its query (`Book`, `IsBooked`, `IsAllBooked`, `IsAvailable`) does; only `book` can change the ledger, and it never removes a date |
| Queries.Kept | booker.cpp:357-360 | the lines that get a reply are exactly the non-empty ones not starting with `#` |
| Queries.KeptCount | booker.cpp:357-360 | there are as many kept lines as positions holding a line that is neither empty nor a comment |
| Queries.KeptAppend | booker.cpp:356-360 | filtering two batches one after the other equals filtering their concatenation |
| Queries.ProcessLine | booker.cpp:357-381 | a skipped line yields nothing; any other line yields the unsupported-command error, or the one reply and ledger that executing its parsed query gives; only `book` changes the ledger |
| Queries.ProcessLines | booker.cpp:356-384 | the run succeeds exactly when every kept line has a supported command, and the ledger only grows |
| Queries.ProcessLinesError | booker.cpp:376-381 | a failed run reports the command of the first kept line with an unsupported command |
| Queries.ProcessLinesCount | booker.cpp:356-384 | a successful run gives exactly one reply per kept line |
| Queries.ProcessLinesReadOnly | booker.cpp:356-384 | a run without `book` lines leaves the ledger as it was |
| Queries.ProcessLinesAppend | booker.cpp:356-384 | running two batches one after the other equals running their concatenation |
| Queries.ProcessLinesSingle | booker.cpp:356-384 | a batch of one line runs as that line |
| Queries.RepeatReadOnly | booker.cpp:370-375 | asking the same read-only question twice gives the same answer twice and leaves the ledger unchanged |
| Queries.RenderInjective | booker.cpp:369-375 | the written reply texts determine the replies: two reply lists with the same texts are equal |
| Queries.ProcessQueries | booker.cpp:339-385 | starting from an empty ledger: the run succeeds exactly when every kept line is supported, with one reply per kept line, and the texts are those of the replies the lines give in turn; otherwise it reports the first bad command |
| Scenario.ExampleWellFormed | booker.cpp:68-112 | the example hierarchy has one section, one subsection and one vehicle id, and no two kinds of id overlap |
| Scenario.ExampleSubtrees | booker.cpp:155-214 | the example building's subtree holds its section, subsection and vehicle |
| Scenario.BookingScenario | booker.cpp:277-336 | a booked vehicle makes its building unavailable and all-booked that day, and a building booking that day fails without changing the ledger; the building is not itself booked, and a building booking the next day succeeds and books its subsection |
| Scenario.LineAnswers | booker.cpp:363-381 | a line of three words gets the reply and ledger that its query gives |
| Scenario.FirstDayAnswers | booker.cpp:356-381 | the first day's lines, each against the ledger it meets, answer `yes`, `ok`, `no`, `yes` |
| Scenario.LaterAnswers | booker.cpp:356-381 | the later lines answer `failed`, `no`, `ok`, `yes`, and only the `ok` line changes the ledger |
| Scenario.ExampleBookings | booker.cpp:277-336 | on the example hierarchy, the batch's queries give the replies above |

## Left out

- Reading and parsing the JSON resource file (`booker.cpp:38-113`) is left out. The model starts from parsed `Building` values. `Resources.Load` models only the insertion into the map (`booker.cpp:111`), where a repeated building id overwrites the earlier building.
- Opening and reading the query file (`booker.cpp:345-353`) and writing the results file (`booker.cpp:410-428`) are left out. The query file becomes a sequence of lines, and the output is the sequence of reply texts. A missing file is an I/O error and is not modelled.
- Argument checking, `main` and the coloured console output (`booker.cpp:388-454`) are left out: they are I/O.
- The two global maps are left out. The hierarchy is a parameter, and the ledger is threaded from query to query.
- Exceptions are not modelled as control flow. The unsupported-command exception becomes the `UnsupportedCommand` error of the run.
- The message text of that exception is left out. The error carries only the offending command.
- Booker.CanBook: requires `WellFormed`, as do `AllCanBook`, `BookAll`, `BookEach`, `Book`, `IsAllBooked`, `IsAvailable`, `Execute`, `ProcessLine`, `ProcessLines` and `ProcessQueries`. `WellFormed` means building keys, section ids, subsection ids and vehicle ids never overlap. It excludes every hierarchy on which the source recurses forever, for example a section whose id equals one of its own vehicles; the model does not describe non-terminating runs. It also excludes some hierarchies the source handles without trouble: if building `B1` lists a vehicle `S1` and also holds a section `S1` with vehicle `V1`, the source ends and visits `S1` twice, but a section id and a vehicle id overlap, so the model says nothing about it.
- Sub-subsections are left out. The loader fills only two levels of sections (`booker.cpp:72-98`), so deeper `subsections` lists are never consulted. The model's `Section` keeps the recursive shape but looks only two levels down, as the code does.
- Strings are compared by code point, as `std::string` compares `char`s. Locale and encoding are left out, and `std::isspace` is the "C" locale's set of six whitespace characters.
- Scenario.ExampleBookings: states the example's replies query by query, and per line through `FirstDayAnswers` and `LaterAnswers`, rather than as one `ProcessQueries` call over the whole batch. Unfolding the whole batch at once is too costly for the solver.
