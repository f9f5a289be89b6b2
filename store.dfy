/** The persistence writer of `insert` (main.py:128-144) and `insert` as a
    whole (main.py:71-144). The `pokemon_cards` table is a map from card id
    to the three non-key columns; a transaction's commit or rollback is the
    new map or the old one. */
module CardStore {
  import opened Wrappers
  import opened Retry
  import opened Extract

  type Table = map<int, Card>

  /** Which statements meet a store error: the INSERT one other than the
      uniqueness violation on `id`, the fallback UPDATE any error. Store
      errors come from outside the program and are given as inputs. */
  datatype Faults = Faults(insertFails: bool, updateFails: bool)

  const NoFaults := Faults(false, false)

  /** How one write ends. */
  datatype WriteOutcome = Inserted | Updated | InsertFailed | UpdateFailed {
    predicate Committed() { this == Inserted || this == Updated }
  }

  /** How one call of `insert` ends. */
  datatype InsertOutcome = Skipped | Aborted(fault: Fault) | Written(write: WriteOutcome)

  /** The write attempted for `id`: the INSERT when the id is new, the UPDATE
      after a uniqueness violation; a failing statement is rolled back. */
  function OutcomeOf(rows: Table, id: int, f: Faults): (o: WriteOutcome)
    ensures o == Inserted <==> !f.insertFails && id !in rows
    ensures o == Updated <==> !f.insertFails && id in rows && !f.updateFails
  {
    if f.insertFails then InsertFailed
    else if id !in rows then Inserted
    else if f.updateFails then UpdateFailed
    else Updated
  }

  /** The table after the write. */
  function Upserted(rows: Table, id: int, card: Card, f: Faults): (r: Table)
    // a committed write leaves the new card under id, exactly once
    ensures OutcomeOf(rows, id, f).Committed() ==> id in r && r[id] == card
    // a rolled-back write leaves the table as it was
    ensures !OutcomeOf(rows, id, f).Committed() ==> r == rows
    // rows are never deleted, and only id can be added
    ensures rows.Keys <= r.Keys <= rows.Keys + {id}
    // no other row changes
    ensures forall k :: k in rows && k != id ==> r[k] == rows[k]
  {
    if OutcomeOf(rows, id, f).Committed() then rows[id := card] else rows
  }

  /** The text `insert` parses: `str(search_with_retry(card_id))`, which is
      "None" once the retries are exhausted. */
  function PageText(t: Option<string>): (r: string)
    ensures t.Some? ==> r == t.value
    // a page whose text is "None" cannot be told apart from no page
    ensures r == "None" <==> t == None || t == Some("None")
  {
    match t
    case Some(t) => t
    case None => "None"
  }

  /** The table as `insert` leaves it. */
  function AfterInsert(rows: Table, id: int, page: Page, f: Faults): (r: Table)
    ensures ExtractionOf(page).Extracted? ==> r == Upserted(rows, id, ExtractionOf(page).card, f)
    // no record and a crash both leave the table as it was
    ensures !ExtractionOf(page).Extracted? ==> r == rows
    ensures rows.Keys <= r.Keys <= rows.Keys + {id}
    ensures forall k :: k in rows && k != id ==> r[k] == rows[k]
  {
    match ExtractionOf(page)
    case Extracted(card) => Upserted(rows, id, card, f)
    case _ => rows
  }

  class CardTable {
    var rows: Table

    constructor (initial: Table)
      ensures rows == initial
    {
      rows := initial;
    }

    /** main.py:128-144: INSERT, and on a uniqueness violation roll back and
        UPDATE; any other error rolls back. */
    method Upsert(id: int, card: Card, f: Faults) returns (o: WriteOutcome)
      modifies this
      ensures o == OutcomeOf(old(rows), id, f)
      ensures rows == Upserted(old(rows), id, card, f)
    {
      if f.insertFails {
        o := InsertFailed;
      } else if id !in rows {
        rows := rows[id := card];
        o := Inserted;
      } else if f.updateFails {
        o := UpdateFailed;
      } else {
        rows := rows[id := card];
        o := Updated;
      }
    }

    /** `insert(conn, card_id)`: fetch with retries, parse, extract, write.
        `answers` is the fetch oracle and `parse` stands for the HTML parser
        and the queries main.py makes of the parsed document. */
    method InsertCard(id: int, answers: seq<string>, parse: string -> Page, f: Faults)
      returns (out: InsertOutcome)
      requires |answers| >= Attempts
      modifies this
      ensures var page := parse(PageText(Retrieved(answers)));
        && rows == AfterInsert(old(rows), id, page, f)
        && (ExtractionOf(page) == NoRecord ==> out == Skipped)
        && (ExtractionOf(page).Crashed? ==> out == Aborted(ExtractionOf(page).fault))
        && (ExtractionOf(page).Extracted? ==> out == Written(OutcomeOf(old(rows), id, f)))
    {
      var fetched, _, _ := SearchWithRetry(answers);
      var page := parse(PageText(fetched.text));
      var ex := ExtractCard(page);
      match ex
      case NoRecord =>
        out := Skipped;
      case Crashed(fault) =>
        out := Aborted(fault);
      case Extracted(card) =>
        var w := Upsert(id, card, f);
        out := Written(w);
    }
  }

  /** Writing the same id twice without store errors keeps the second card,
      and the id occupies one row. */
  lemma UpsertTwiceKeepsSecond(rows: Table, id: int, first: Card, second: Card)
    ensures var once := Upserted(rows, id, first, NoFaults);
      && OutcomeOf(once, id, NoFaults) == Updated
      && Upserted(once, id, second, NoFaults) == rows[id := second]
      && |Upserted(once, id, second, NoFaults)| == |rows| + (if id in rows then 0 else 1)
  {
  }

  /** Repeating a successful write changes nothing further. */
  lemma UpsertIdempotent(rows: Table, id: int, card: Card)
    ensures var once := Upserted(rows, id, card, NoFaults);
      Upserted(once, id, card, NoFaults) == once
  {
  }

  /** Once all fetches come back empty, `insert` parses the text "None";
      when the parser finds no single section in it, the card is skipped and
      the table is left as it was. */
  lemma ExhaustedFetchSkipsCard(rows: Table, id: int, answers: seq<string>, parse: string -> Page, f: Faults)
    requires |answers| >= Attempts
    requires forall k :: 0 <= k < Attempts ==> answers[k] == ""
    requires parse("None").sections != 1
    ensures ExtractionOf(parse(PageText(Retrieved(answers)))) == NoRecord
    ensures AfterInsert(rows, id, parse(PageText(Retrieved(answers))), f) == rows
  {
  }

  /** A page of unexpected shape writes nothing. */
  lemma ShapeMismatchWritesNothing(rows: Table, id: int, page: Page, f: Faults)
    requires page.sections != 1
    ensures AfterInsert(rows, id, page, f) == rows
  {
  }

  /** A page whose first label is unknown still writes a row with empty
      ability and attack (main.py:97-98, 128-138). */
  lemma UnrecognizedLayoutWritesEmptyFields(rows: Table, id: int, page: Page)
    requires WellFormed(page) && page.labels[0] != AbilityLabel && page.labels[0] != MoveLabel
    ensures var r := AfterInsert(rows, id, page, NoFaults);
      id in r && r[id] == Card(page.headings[0], "", "")
  {
  }
}
