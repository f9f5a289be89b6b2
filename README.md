# Card attribute import: retry coordinator, field extractor and upsert

A model, in Dafny, of the batch job in `main.py` that fetches one card
details page per card id from the card-search site, extracts the card's
name, ability text and attack text from the page, and writes them into the
`pokemon_cards` table. Three parts are modelled, each over plain values:

- **Retry coordinator** (`search_with_retry`, module `Retry`). The page
  fetcher is an oracle: a sequence of texts, one per attempt, `""` standing
  for every failure the fetcher classifies. The coordinator is a `while`
  loop with the attempt counter and the doubling interval of the source;
  every sleep is recorded as an interval appended to a schedule.
- **Field extractor** (the body of `insert` up to the write, modules
  `Extract` and `Delimited`). A parsed page is the number of `Section`
  regions, the texts of the headings, the number of info boxes, the `h2`
  label texts and the stripped `h4` entry texts. The decision procedure
  branches on the first label into the ability layout, the move layout, the
  move layout with a VSTAR power label, and an unrecognised layout. The
  `/`-joining loops and the VSTAR entry walk are methods with loops proved
  against specification functions (`Join`, `VstarFields`). Every
  `IndexError` the source can raise on a page is an explicit `Fault`.
- **Upsert** (module `CardStore`). The table is a `map<int, Card>` held by
  the class `CardTable`. An INSERT of a new id adds a row; a uniqueness
  violation falls back to an UPDATE of the three columns; any other store
  error rolls back. Store errors are inputs (`Faults`). `InsertCard`
  composes the three parts as `insert` does.

## Behaviour of the code worth noting

- The `attempt == max_retries` test and its `sys.exit(1)` (main.py:62-63)
  show that a fatal exit after 10 failed attempts was intended. The loop
  runs over `range(1, max_retries)`, which yields the attempts 1 to 9, so
  `attempt == 10` never holds: at most 9 fetches are made and the exit is
  unreachable. After 9 empty results the function sleeps once more and
  returns `None`. `insert` then parses the text `"None"` (`str(None)`,
  main.py:72), which has no `Section` region, so the card is skipped. The
  model follows the code: `SearchWithRetry` proves that the fatal outcome
  never occurs.
- In the VSTAR walk a `/` is appended after an ordinary entry only when the
  next entry is the move label. Two ordinary entries before the marker are
  therefore concatenated with no separator between them
  (`VstarEntriesThenMarker`).

## Model

| member | source | states |
|---|---|---|
| `Retry.SearchWithRetry` | main.py:53-68 | never reaches the fatal exit; makes between 1 and 9 fetches; every fetch but the last was empty; returns the first non-empty text, or None after 9 empty fetches; sleeps once per failed attempt (including after the 9th), the i-th sleep being 2 * 2^i seconds |
| `Retry.Retrieved` | main.py:56-60 | the returned text is the first non-empty one among the 9 answers (every earlier answer is empty); None exactly when all 9 answers are empty |
| `Retry.Backoff` | main.py:67-68 | the sleep schedule after n failures has n entries, the i-th being InitialInterval * 2^i |
| `Retry.BackoffTotal` | main.py:54-68 | the total time slept after n failures is InitialInterval * (2^n - 1) |
| `Delimited.JoinWithSlash` | main.py:102-106 | the append-then-separator-unless-last loop produces exactly `Join` of the entries |
| `Delimited.SplitJoin` | main.py:122-126 | splitting the joined text at `/` gives back the entries, for a non-empty list of entries containing no `/` |
| `Extract.VstarWalk` | main.py:110-120 | the VSTAR walk loop produces exactly `VstarFields` of the entries, including its IndexError |
| `Extract.VstarFields` | main.py:110-120 | no entries leave both fields empty; the walk fails exactly when the entries are non-empty and none but possibly the last is a marker; otherwise it stops at the first marker k and puts entry k+1 into the ability (ability label) or at the end of the attack (move label) |
| `Extract.FieldsOf` | main.py:97-126 | the label decision fails only for the ability layout without entries or a failing VSTAR walk; only those two layouts can fill the ability; an unknown first label leaves both fields empty |
| `Extract.ExtractionOf` | main.py:76-99 | no record exactly when the page does not have one section region; a record carries the first heading as its name; a missing heading, info box or first label crashes with `NoHeading`, `NoInfoBox` or `NoLabel` in that order; every crash is on a page with one section |
| `Extract.ExtractCard` | main.py:76-126 | the extractor method yields exactly `ExtractionOf` of the page: shape check, heading and info box lookups, and the branch on the first label with its crash cases |
| `Extract.AbilityLayoutCard` | main.py:99-106 | ability-first layout: ability is the first entry, attack is the other entries joined with `/` (empty for one entry), and splitting the attack gives back those entries |
| `Extract.AbilityLayoutWithoutEntry` | main.py:99-100 | ability-first layout with no entry raises at `h4_tag[0]` |
| `Extract.MoveLayoutCard` | main.py:108-126 | move-first layout without a VSTAR power label: ability is empty and attack is all entries joined with `/`, which split back into the entries |
| `Extract.VstarLayoutCard` | main.py:109-120 | move-first layout with a VSTAR power label: the card's fields are those of `VstarFields`, or the walk's crash |
| `Extract.UnrecognizedLayoutCard` | main.py:97-108 | any other first label still yields a card, with empty ability and attack |
| `Extract.PiecesWithoutMove` | main.py:117-120 | as long as no following entry is the move label, the walk adds no separator |
| `Extract.PiecesBeforeMarker` | main.py:117-120 | on reaching the marker after ordinary entries, the attack is their concatenation, followed by one `/` when the marker is the move label |
| `Extract.VstarEntriesThenMarker` | main.py:109-120 | for ordinary entries, a marker, its successor and any rest: the walk stops at the marker, reads nothing of the rest, and assigns the successor to attack (after one `/`) or to ability |
| `CardStore.OutcomeOf` | main.py:130-144 | the write is an INSERT exactly when the insert has no other error and the id is new; an UPDATE exactly when the id exists and neither statement fails |
| `CardStore.Upserted` | main.py:128-144 | a committed write stores the new card under the id; a rolled-back one leaves the table unchanged; no row is deleted, only the id can be added, no other row changes |
| `CardStore.PageText` | main.py:72 | the retrieved text is parsed as it is; no text becomes "None", which cannot be told apart from a page whose text is "None" |
| `CardStore.AfterInsert` | main.py:76-144 | a record is upserted as `Upserted` says; no record or a crash leaves the table unchanged; only the id can be added and no other row changes |
| `CardStore.CardTable.Upsert` | main.py:128-144 | the table method reports `OutcomeOf` and leaves the table as `Upserted` |
| `CardStore.CardTable.InsertCard` | main.py:71-144 | `insert` leaves the table as the extraction of the page parsed from the retrieved text dictates, and reports skip, crash fault or write outcome accordingly |
| `CardStore.UpsertTwiceKeepsSecond` | main.py:130-138 | writing the same id twice keeps the second card, the second write is an UPDATE, and the id occupies one row |
| `CardStore.UpsertIdempotent` | main.py:130-138 | repeating a successful write changes nothing |
| `CardStore.ExhaustedFetchSkipsCard` | main.py:72-79 | when all 9 fetches are empty and the parsed text "None" has no single section, no record is made and the table is unchanged |
| `CardStore.ShapeMismatchWritesNothing` | main.py:76-79 | a page without exactly one section region leaves the table unchanged |
| `CardStore.UnrecognizedLayoutWritesEmptyFields` | main.py:97-138 | a well-formed page with an unknown first label writes a row with the name and empty ability and attack |

## Left out

- `search` (main.py:25-50): the HTTP GET with its timeout and its classified, logged failures is foreign I/O; it is the oracle `answers`, where `""` is any failure.
- `Retry.SearchWithRetry`: requires at least 9 oracle answers, one for each attempt the loop can make; the oracle itself never refuses to answer.
- HTML parsing with BeautifulSoup (main.py:74-95), including `get_text(strip=True)` and the removal of badge `span`s: a library call; the model starts from the already extracted counts and texts in `Page`, and `InsertCard` takes the parser as a function parameter.
- `ExhaustedFetchSkipsCard`: that the parser finds no single section in the text "None" is a fact about the parser, so it is a precondition.
- psycopg2 cursors, SQL text, commit and rollback mechanics: replaced by map updates; which statement meets a store error is an input, since errors come from the database.
- `time.sleep`, logging and `print` output (main.py:65, 140, 143, 146-149): sleeping is recorded as intervals, logging and printing are not modelled.
- An `IndexError` ends the process; the model returns it as a `Fault` value instead of stopping.
- The driver under `__main__` (main.py:153-174): environment variables, the connection string, the worklist query and the 0.3 s delay between cards are I/O glue.
