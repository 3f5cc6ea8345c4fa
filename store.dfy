/**
 * The persisted table of `tsumu.py` and the steps of one page render that
 * change it: create it when missing, load it, append one validated row and
 * write it back. The CSV file is modelled by whether it exists and the rows
 * it holds; reading returns those rows and writing replaces them.
 */
module RecordStore {
  import opened Wrappers
  import opened Dates
  import opened Records
  import opened Dashboard

  class Store {
    /** Whether the table file exists. */
    var present: bool
    /** The rows of the table, in file order (empty while the file is absent). */
    var rows: seq<Record>

    /** The table as found on disk before the first render: absent, or holding some rows. */
    constructor (onDisk: Option<seq<Record>>)
      ensures present == onDisk.Some?
      ensures rows == if onDisk.Some? then onDisk.value else []
    {
      present := onDisk.Some?;
      rows := if onDisk.Some? then onDisk.value else [];
    }

    /** `initialize_data`: a missing table is created with its header and no rows; an existing one is left alone. */
    method Initialize()
      modifies this
      ensures present
      ensures rows == if old(present) then old(rows) else []
    {
      if !present {
        Save([]);
      }
    }

    /** `load_data`: every row, in file order. */
    method Load() returns (table: seq<Record>)
      requires present
      ensures table == rows
    {
      table := rows;
    }

    /** `save_data`: the whole table is replaced by `table`. */
    method Save(table: seq<Record>)
      modifies this
      ensures present && rows == table
    {
      present := true;
      rows := table;
    }

    /**
     * The submit branch of `main`: a refused candidate writes nothing; an
     * accepted one is appended as exactly one new last row.
     */
    method Submit(c: Candidate) returns (outcome: Result<Record, SubmitError>)
      requires present && ValidDate(c.date)
      modifies this
      ensures present
      ensures outcome == MakeRecord(c)
      ensures outcome.Failure? <==> c.after < c.before
      ensures outcome.Failure? ==> rows == old(rows)
      ensures outcome.Success? ==> rows == old(rows) + [outcome.value]
      ensures outcome.Success? ==> Total(rows) == Total(old(rows)) + (c.after - c.before)
      ensures (forall i :: 0 <= i < |old(rows)| ==> WellFormed(old(rows)[i])) ==>
                (forall i :: 0 <= i < |rows| ==> WellFormed(rows[i]))
      ensures AllDated(old(rows)) ==> AllDated(rows)
    {
      outcome := MakeRecord(c);
      if outcome.Success? {
        var table := Load();
        TotalAppend(table, outcome.value);
        Save(table + [outcome.value]);
      }
    }

    /**
     * One pass of `main`: initialise the table, handle a submission if the
     * form was sent, reload the table and compute the main panel from it.
     */
    method RenderPage(submission: Option<Candidate>) returns (outcome: Option<Result<Record, SubmitError>>, view: View)
      requires submission.Some? ==> ValidDate(submission.value.date)
      requires present ==> AllDated(rows)
      modifies this
      ensures present && AllDated(rows)
      ensures outcome.Some? <==> submission.Some?
      ensures submission.Some? ==> outcome.value == MakeRecord(submission.value)
      ensures rows ==
        var kept := if old(present) then old(rows) else [];
        if outcome.Some? && outcome.value.Success? then kept + [outcome.value.value] else kept
      ensures view == Render(rows)
    {
      Initialize();
      outcome := None;
      if submission.Some? {
        var o := Submit(submission.value);
        outcome := Some(o);
      }
      var table := Load();
      view := Render(table);
    }
  }

  /** The first-run scenario: an absent table, a refused and an accepted submission. */
  method FirstRunScenario()
  {
    var store := new Store(None);
    var d := Date(2024, 1, 10);
    assert ValidDate(d);
    var outcome, view := store.RenderPage(None);
    assert store.rows == [];
    assert view == NoRecordsPrompt;

    outcome, view := store.RenderPage(Some(Candidate(d, 20000, 19000, 0, "", "")));
    assert outcome == Some(Failure(AfterBelowBefore));
    assert store.rows == [];

    outcome, view := store.RenderPage(Some(Candidate(d, 10000, 15000, 3, "Mickey", "lucky")));
    assert outcome.value.Success?;
    var r := outcome.value.value;
    assert r.earned == 5000;
    assert store.rows == [r];
    assert view.Summary?;
    assert Total([r]) == 5000;
    assert Lookup(view.daily, r.date) == 5000;
    assert Lookup(view.monthly, MonthKey(r.date)) == 5000;
    FormatParse(r.date);
    FormatDateExample();
    assert r.date == "2024-01-10" && MonthKey(r.date) == "2024-01";
    store.Initialize();
    assert store.rows == [r];
  }
}
