# NecroBingo core, modelled in Dafny

NecroBingo is a browser game played on a 5×5 grid. Each cell holds a
living celebrity the player bets on. The grid is saved in the browser's
storage together with a timestamp, which is the anchor for later scoring.
Celebrities are found with a search-as-you-type box, backed by a lookup
that runs in three stages:

1. a French Wikipedia text search;
2. a page-properties lookup, which gives the disambiguation marker, the
   Wikidata id (QID) and the thumbnail;
3. a Wikidata entity lookup, which gives the label and the P31
   (instance of), P569 (birth) and P570 (death) claims.

Only humans (P31 = Q5) come out. Each one has a name, an age (none if
dead), a death flag and a portrait.

The project models the three parts of the program that hold logic.

- **The lookup** (`src/services/celebrityService.js`):
  - `WikidataTime` holds the age arithmetic, with a hand-written parser
    for the `+YYYY-MM-DDT` prefix.
  - `CelebrityService` holds the human and death tests and the whole
    `searchCelebrities` pipeline.
    - `RunStage` is its specification. It is a function of the query,
      the limit, "today" and the answers of the three remote services.
    - The methods `SearchCelebrities`, `LookUpPages` and
      `LookUpEntities` are the body, cut at its awaits. `RunStage` is
      that same body written as a function, one branch per await. Every
      method is proved equal to its stage, and the properties of the
      search are proved about the function.
    - `CollectResults` is the final `for` loop, with `continue` and a
      `break` at the limit. It is proved against `Take(Candidates(..), Cap(limit))`.
  - Generic filter-map facts live in `Seqs`: concatenation, fusion of
    two stages, completeness, and an order-preserving origin index for
    every output.
  - JavaScript's `trim` and the truthiness of optional strings live in
    `JsString`.
- **The grid** (`src/components/BingoGrid/BingoGrid/BingoGrid.jsx`):
  - `BingoGrid.Grid` is a class. Its fields are the component's state,
    plus the storage slot.
  - Its methods are the event handlers and the persistence effect.
  - The stored value is the datatype `Stored`:
    `Absent | Corrupt | LegacyArray | Wrapped`.
  - The module also holds the loading functions and the two age markers
    of a cell.
- **The search session** (`src/hooks/useCelebrySearch.js`):
  - `CelebritySearch.SearchSession` is a class whose methods are the
    events of the hook. These are a render with a new query, the
    debounce timeout firing, and a lookup resolving or failing.
  - Its fields:
    - `results`, `loading` and `error`;
    - the request-id counter;
    - the current abort controller, and the set of aborted ones;
    - the pending timer's query;
    - the lookups still in flight;
    - the log of started lookups.

Clocks, the network and timers are parameters or events:
- "today" and "now" are arguments;
- each remote answer is a function of the request that produced it
  (`Provider`);
- the timeout and the settling of a lookup are method calls made by the
  caller.

## Model

| member | source | states |
|---|---|---|
| WikidataTime.ComputeAgeFromWikidataTime | src/services/celebrityService.js:8-27 | An age exists exactly when the time is present and starts with `+DDDD-DD-DDT`. It is the number of whole years reached: the anniversary of that many years falls on or before today, and the next one after today. |
| WikidataTime.WholeYearsUnique | src/services/celebrityService.js:19-25 | That characterisation fixes the age uniquely. |
| WikidataTime.ParseTimePrefix | src/services/celebrityService.js:11-16 | The prefix parses exactly when it matches `^\+(\d{4})-(\d{2})-(\d{2})T`. The groups are read as numbers below 10000, 100 and 100. |
| WikidataTime.ParseFormat | src/services/celebrityService.js:11-16 | Formatting a date as `+YYYY-MM-DDT`, followed by anything, parses back to that date. |
| WikidataTime.FormatParse | src/services/celebrityService.js:11-16 | Any string that parses starts with exactly the rendering of the parsed date: the parser loses nothing. |
| WikidataTime.NegativeYearRejected | src/services/celebrityService.js:11-12 | A time with a leading minus sign (a year before the common era) gives no age. |
| WikidataTime.BirthdayTodayCounts | src/services/celebrityService.js:19-25 | On the birthday itself, the age is the difference of the years. |
| WikidataTime.DayBeforeBirthday | src/services/celebrityService.js:19-25 | On the previous day of the same month, the age is one less than the difference of the years. |
| WikidataTime.MonthZeroCountsAsPassed | src/services/celebrityService.js:21-25 | A birth month written `00` always counts as passed. |
| WikidataTime.ParseBirthExample | src/services/celebrityService.js:11-16 | `+1970-06-15T00:00:00Z` parses to 15 June 1970. |
| WikidataTime.BirthdayBoundaryExample | src/services/celebrityService.js:8-27 | Born `+1970-06-15T…`: 53 on 2024-06-14 and 54 on 2024-06-15. |
| CelebrityService.AnyHumanIff | src/services/celebrityService.js:29-32 | The human test holds exactly when some P31 claim has the item id `Q5`. |
| CelebrityService.BirthTime | src/services/celebrityService.js:130-131 | With a P569 claim, the birth time is the first claim's time, or none if it has none. Without a P569 claim, there is no birth time. |
| CelebrityService.MakeCelebrity | src/services/celebrityService.js:128-146 | The record built for a kept page: <br>• `id` and `qid` are the page's QID, and `wikiTitle` is its title. <br>• `name` is the French label, else the title, else `Sans nom`, and never empty. <br>• `imageUrl` is the thumbnail, else `/defaultAvatar.webp`. <br>• `isDead` holds exactly when there is a P570 claim. <br>• A dead person has no age. <br>• A living person's age comes from the first birth claim. |
| CelebrityService.SelectPage | src/services/celebrityService.js:88-95 | A hit keeps its page exactly when the page is in the answer, has no truthy disambiguation marker and has a truthy `wikibase_item`. It then carries that QID, title and thumbnail. |
| CelebrityService.Derive | src/services/celebrityService.js:121-126 | A kept page yields a record exactly when its entity is present and human. |
| CelebrityService.ResolveHit | src/services/celebrityService.js:89-126 | Both filters for one hit: <br>• a record comes out exactly when the page is present, is not a disambiguation page, has a QID, and that QID's entity is present and human; <br>• the record is the one `MakeCelebrity` builds. |
| CelebrityService.Cap | src/services/celebrityService.js:148 | The loop's bound is `limit` when `limit >= 1`, and 1 otherwise. The length check comes after the push. |
| CelebrityService.CollectResults | src/services/celebrityService.js:118-149 | The loop returns the first `Cap(limit)` records that the kept pages yield, in page order. |
| CelebrityService.RunStage | src/services/celebrityService.js:50-151 | From any stage on, the first request sent is that stage's own. At most one request follows per remaining stage. |
| CelebrityService.SearchCelebrities | src/services/celebrityService.js:50-70 | Trim, then the text search for `2 × limit` hits. It returns exactly what `Search` specifies. |
| CelebrityService.LookUpPages | src/services/celebrityService.js:72-98 | The page lookup and the QID filter. It returns exactly the page-lookup stage of `RunStage`. |
| CelebrityService.LookUpEntities | src/services/celebrityService.js:100-151 | The entity lookup and the final loop. It returns exactly the entity-lookup stage of `RunStage`. |
| CelebrityService.BlankQuerySendsNothing | src/services/celebrityService.js:51-61 | A search sends no request exactly when the query is whitespace only, and it then resolves to `[]`. Otherwise the first request is the text search for the trimmed query with `2 × limit`. |
| CelebrityService.NoHitsStop | src/services/celebrityService.js:68-70 | No hits: resolve to `[]` after the one text search. |
| CelebrityService.NoQidStops | src/services/celebrityService.js:97-98 | No page kept with a QID: resolve to `[]` after two requests, without asking Wikidata. |
| CelebrityService.RejectsOnlyOnFailedCall | src/services/celebrityService.js:39-112 | At most three requests are sent. The search rejects exactly when its last request failed, and every earlier request succeeded. |
| CelebrityService.AnsweredSearch | src/services/celebrityService.js:50-151 | With all answers given, the search resolves to the first `Cap(limit)` records of the kept pages. |
| CelebrityService.ResultsBounded | src/services/celebrityService.js:118-149 | At most `limit` results when `limit >= 1`, and at most one otherwise. |
| CelebrityService.NonPositiveLimitYieldsOne | src/services/celebrityService.js:148 | With `limit <= 0`, as soon as one hit passes every filter there is exactly one result. |
| CelebrityService.ResultsAreResolvedHits | src/services/celebrityService.js:89-126 | Filtering pages and then entities is the same as filtering each hit through both filters at once. |
| CelebrityService.ResultsFollowSearchOrder | src/services/celebrityService.js:89-149 | The results are an order-preserving selection of the hits. Result k comes from hit `idx[k]`, the positions strictly increase, and that hit passes every filter and yields that record. |
| CelebrityService.NothingLostBelowCap | src/services/celebrityService.js:118-149 | When the hits that pass every filter do not exceed the cap, each of them is in the results. |
| CelebrityService.ResultsWellFormed | src/services/celebrityService.js:128-146 | Every result satisfies four rules: <br>• dead implies no age; <br>• the name is non-empty; <br>• the image is non-empty; <br>• `id == qid`. |
| Seqs.FilterMapOrigins | src/services/celebrityService.js:89-95 | Every element a `map`/`filter` chain outputs is the image of an input element. The input positions strictly increase. |
| Seqs.FilterMapComplete | src/services/celebrityService.js:89-95 | Such a chain drops no element it keeps. |
| JsString.Trim | src/services/celebrityService.js:51 | `trim` leaves no whitespace at either end and never lengthens. |
| JsString.TrimDropsOnlyWhitespace | src/services/celebrityService.js:51 | `trim` removes whitespace only: the result is a slice of the input, with nothing but whitespace before it and after it. |
| JsString.TrimEndDropsWhitespace | src/services/celebrityService.js:51 | What the trailing trim removes is all whitespace. |
| JsString.TrimEmptyIff | src/services/celebrityService.js:51-52 | The trimmed query is empty exactly when the query is whitespace only. |
| JsString.TrimIdempotent | src/hooks/useCelebrySearch.js:13 | Trimming twice is trimming once: the hook's trimmed query is unchanged by the service's trim. |
| JsString.Or | src/services/celebrityService.js:128 | `a \|\| b` on an optional string gives the string when it is present and non-empty, and the fallback otherwise. |
| BingoGrid.CreateEmptyGrid | src/components/BingoGrid/BingoGrid/BingoGrid.jsx:18-22 | 25 cells. Cell i has id i and no celebrity. |
| BingoGrid.LoadFallsBackToEmptyGrid | src/components/BingoGrid/BingoGrid/BingoGrid.jsx:38-60 | Absent, unreadable or cell-less storage loads as the empty grid. Absent or unreadable storage is stamped `now`. |
| BingoGrid.WrappedLoads | src/components/BingoGrid/BingoGrid/BingoGrid.jsx:38-60 | A wrapped value loads as its `cells`, else the empty grid. Its timestamp is its `lastUpdatedAt` if present and non-empty, else `now`. |
| BingoGrid.LegacyArrayMigrates | src/components/BingoGrid/BingoGrid/BingoGrid.jsx:49-60 | A bare array is taken unchanged as the cells, with no length check, and stamped `now`. |
| BingoGrid.SaveLoadRoundTrip | src/components/BingoGrid/BingoGrid/BingoGrid.jsx:166-177 | What the persistence effect writes loads back as the same cells and timestamp. |
| BingoGrid.SetOccupant | src/components/BingoGrid/BingoGrid/BingoGrid.jsx:69-73 | The cells whose id matches get the occupant. Every other cell, every id and the length stay as they were. |
| BingoGrid.SetOccupantKeepsPositions | src/components/BingoGrid/BingoGrid/BingoGrid.jsx:69-73 | If every cell's id equals its position, that stays true. |
| BingoGrid.ClearUndoesFill | src/components/BingoGrid/BingoGrid/BingoGrid.jsx:86-96 | Deleting the celebrity just put into an empty cell restores the grid. |
| BingoGrid.MarkersFollowAge | src/components/BingoGrid/BingoGrid/BingoGrid.jsx:200-210 | Both markers are off for an empty cell, a dead celebrity or an unknown age. Otherwise under-60 holds exactly when the age is below 60, and over-85 exactly when it is above 85. They are never both on. |
| BingoGrid.Grid.Load | src/components/BingoGrid/BingoGrid/BingoGrid.jsx:38-60 | Mounting: the cells come from the stored value, nothing is active and nothing is pending deletion. The persistence effect then runs at mount time, so the grid is stamped `mountNow` and storage holds those cells under that stamp. |
| BingoGrid.Grid.PersistCells | src/components/BingoGrid/BingoGrid/BingoGrid.jsx:166-177 | The timestamp becomes `now`, and storage holds `{now, cells}`. Nothing else changes. |
| BingoGrid.Grid.SelectCelebrity | src/components/BingoGrid/BingoGrid/BingoGrid.jsx:66-76 | A no-op when no cell is active. Otherwise: <br>• only the cells with the active id get the celebrity, overwriting; <br>• the active id is cleared; <br>• the new cells are persisted with `now`; <br>• when ids equal positions, occupied cells are untouched. |
| BingoGrid.Grid.CellClick | src/components/BingoGrid/BingoGrid/BingoGrid.jsx:78-84 | A filled cell only sets the pending deletion. An empty one only sets the active cell. No cell at that position: the handler throws and nothing changes. |
| BingoGrid.Grid.ConfirmDeleteCell | src/components/BingoGrid/BingoGrid/BingoGrid.jsx:86-96 | A no-op when nothing is pending. Otherwise only the cells with the pending id are emptied, the pending id is cleared, and the cells are persisted. |
| BingoGrid.Grid.ResetGrid | src/components/BingoGrid/BingoGrid/BingoGrid.jsx:98-101 | The cells become the empty grid and the active cell is cleared. The pending deletion is untouched, and the cells are persisted. |
| BingoGrid.Grid.CloseSearch | src/components/BingoGrid/BingoGrid/BingoGrid.jsx:259 | Closing the search dialog clears the active cell only. |
| BingoGrid.Grid.CancelDelete | src/components/BingoGrid/BingoGrid/BingoGrid.jsx:278 | Cancelling the confirmation clears the pending deletion only. |
| CelebritySearch.AllStartedWellIff | src/hooks/useCelebrySearch.js:38-41 | The recursive "every lookup was started well" is the pointwise property. |
| CelebritySearch.SearchSession.Mount | src/hooks/useCelebrySearch.js:5-29 | Empty results, no error, counter 0. Then the effect runs once for the initial query. |
| CelebritySearch.SearchSession.QueryEffect | src/hooks/useCelebrySearch.js:13-29 | A blank trimmed query: <br>• clears results, loading and error; <br>• aborts the current controller; <br>• arms no timer. <br>Any other query sets loading, clears the error and arms a timer for the trimmed query. |
| CelebritySearch.SearchSession.AbortCurrent | src/hooks/useCelebrySearch.js:21 | The current controller, if there is one, joins the aborted ones. |
| CelebritySearch.SearchSession.ArmTimer | src/hooks/useCelebrySearch.js:25-29 | Loading on, error cleared, timer pending for the trimmed query. |
| CelebritySearch.SearchSession.QueryChanged | src/hooks/useCelebrySearch.js:12-59 | The same query changes nothing. A new one clears the pending timer and runs the effect, so only the last query of a burst is looked up. |
| CelebritySearch.SearchSession.TimerFired | src/hooks/useCelebrySearch.js:29-41 | When the timeout fires: <br>• the previous controller is aborted; <br>• the id grows by one; <br>• the new id is fresh and not aborted; <br>• a lookup for the timer's query with limit 8 is started under it. |
| CelebritySearch.SearchSession.StartLookup | src/hooks/useCelebrySearch.js:32-41 | A new controller and the next id, and the lookup logged and in flight. |
| CelebritySearch.SearchSession.Resolved | src/hooks/useCelebrySearch.js:43-52 | An answer is applied, and `loading` cleared, only under the current id. A stale answer changes nothing visible. |
| CelebritySearch.SearchSession.Rejected | src/hooks/useCelebrySearch.js:47-52 | An aborted lookup's failure shows nothing. Any other failure shows the fixed message and clears the results. Only the current id clears `loading`. A stale failure changes nothing visible, because every stale lookup was aborted. |

## Left out

- HTTP transport, URL construction and JSON decoding are not modelled.
  - Each remote answer is an input: the list of hit page ids, the page
    map, the entity map, or `Failed`.
  - A missing `query.search`, `query.pages` or `entities` field is the
    same as an empty answer.
  - A failed call models the exception `fetchJson` throws. The search
    then rejects.
- The `signal` passed to `fetch` is not modelled. An aborted fetch is a
  `Failed` answer, and the session sees it as `Rejected` with an aborted
  controller.
- Real timers, promises, `AbortController` and async interleaving are
  not modelled.
  - Each timeout firing and each settled lookup is an explicit event.
  - The async body of `searchCelebrities` is split at its two awaits
    into `SearchCelebrities`, `LookUpPages` and `LookUpEntities`.
- The effect cleanup on unmount is not modelled. It only clears the
  timer of a discarded component.
- `localStorage`, `JSON.parse` and `JSON.stringify` are replaced by the
  `Stored` datatype held in a field.
  - Storage holding an object whose `cells` is not an array is not
    modelled: `cells` is a sequence or absent.
  - A legacy cell whose `celebrity` is `undefined` rather than `null` is
    not modelled: a cell holds a celebrity or nothing.
- `new Date()`, `toISOString` and the `fr-FR` rendering of the stamp are
  not modelled. "today" is a date parameter and "now" a non-empty
  timestamp parameter. `Number.isFinite` is always true for the
  bounded integers the parser yields.
- PNG export, download and share are browser I/O and are left out, as
  are the rules dialog, the reset confirmation flag and the JSX markup.
- The search dialog's rule that dead results cannot be picked belongs to
  `SearchModal.jsx`, which is not part of this model. `SelectCelebrity`
  accepts any celebrity, as the handler itself does.
- `limit` is an unbounded integer. The service's default of 8 applies
  only when the option is omitted, and the hook always passes 8.
- The delay of the debounce (350 ms) is not modelled. The session keeps
  only the order of events: a query change arms a timer, and a later
  change replaces it before it fires.
- Behaviour of the code that the model keeps as written:
  - The persistence effect (BingoGrid.jsx:166-177) also runs on mount.
    It replaces the stored timestamp with the mount time, so every
    reload re-stamps an unchanged grid (`Grid.Load`, `FillAndReload`).
    The rules text (TextModal.jsx:26-28) counts the score from the
    grid's creation date, which the stamp therefore does not keep.
  - The 25-cell size holds for a fresh or reset grid only. A bare array,
    or a wrapped `cells`, is accepted whatever its length.
  - The disambiguation, QID, label, title and thumbnail tests use
    JavaScript truthiness, so an empty string counts as absent.
  - Selecting a cell overwrites whatever it holds.
  - A blank query aborts the current lookup but does not advance the
    request id. If that lookup still resolves, its answer is shown
    under the blank query.
