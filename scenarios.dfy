/** Clients of the board that run whole request/answer sequences on a fresh
    component and state what the handlers leave behind. */
module Scenarios {
  import opened Options
  import opened Facts
  import opened Validation
  import opened FactList
  import opened Store
  import opened Board

  /** Choosing "science" and then "history" sends two fetches. If the
      history answer comes first, the later science answer overwrites it:
      the list shows science facts under the history filter. */
  method OutOfOrderCategoryAnswers(science: seq<Fact>, history: seq<Fact>)
    returns (shown: seq<Fact>, selected: string, loading: bool)
    requires science != [] && Answers(FactsQuery("science"), science)
    ensures selected == "history" && shown == science && !loading
    ensures exists f :: f in shown && f.category != selected
  {
    var app := new App();
    var initial := app.RequestFacts();
    app.FactsArrived(Ok([]));
    var askScience := app.SelectCategory("science");
    var askHistory := app.SelectCategory("history");
    assert askScience == Some(FactsQuery("science")) && askHistory == Some(FactsQuery("history"));
    app.FactsArrived(Ok(history));
    app.FactsArrived(Ok(science));
    shown, selected, loading := app.facts, app.currentCategory, app.isLoading;
    assert science[0].category == "science";
    assert science[0] in shown;
  }

  /** An accepted submission whose insert fails still clears and closes the
      form, and the list is left as it was. */
  method FailedInsertClosesForm(parse: UrlParser, rows: seq<Fact>, text: string)
    returns (request: Option<InsertRequest>, shown: seq<Fact>, formShown: bool, form: Form)
    requires parse("https://example.org/") == Some("https:")
    requires 0 < |text| <= 100
    ensures request == Some(InsertRequest(text, "https://example.org/", "society"))
    ensures shown == rows && !formShown && form == EmptyForm
  {
    var app := new App();
    var q := app.RequestFacts();
    app.FactsArrived(Ok(rows));
    app.ToggleForm();
    app.EditText(text);
    app.EditSource("https://example.org/");
    app.ChooseCategory("society");
    ShortTextFits(text);
    request := app.Submit(parse);
    app.SubmitResponded(StoreError);
    shown, formShown, form := app.facts, app.isShowForm, app.form;
  }

  /** A rejected submission sends nothing and keeps the form open, filled and
      editable; a successful one puts the stored record at the head. */
  method RejectedThenAcceptedSubmission(parse: UrlParser, rows: seq<Fact>, created: Fact)
    returns (first: Option<InsertRequest>, formAfterFirst: Form, second: Option<InsertRequest>, shown: seq<Fact>)
    requires parse("ftp://example.org/") == Some("ftp:") && parse("https://example.org/") == Some("https:")
    ensures first.None? && formAfterFirst == Form("Lisbon", "ftp://example.org/", "society", false)
    ensures second.Some? && shown == [created] + rows
  {
    var app := new App();
    var q := app.RequestFacts();
    app.FactsArrived(Ok(rows));
    app.ToggleForm();
    app.EditText("Lisbon");
    app.EditSource("ftp://example.org/");
    app.ChooseCategory("society");
    first := app.Submit(parse);
    formAfterFirst := app.form;
    app.EditSource("https://example.org/");
    second := app.Submit(parse);
    app.SubmitResponded(Ok(created));
    shown := app.facts;
  }

  /** A failed vote leaves every counter as displayed and re-enables the row. */
  method FailedVoteKeepsCounts(rows: seq<Fact>, k: nat, column: VoteColumn)
    returns (sent: VoteUpdate, shown: seq<Fact>, rowUpdating: bool)
    requires k < |rows|
    ensures sent == VoteUpdate(rows[k].id, column, Votes(rows[k], column) + 1)
    ensures shown == rows && !rowUpdating
  {
    var app := new App();
    var q := app.RequestFacts();
    app.FactsArrived(Ok(rows));
    var ticket := app.Vote(k, column);
    app.VoteResponded(ticket, StoreError);
    sent, shown, rowUpdating := ticket.update, app.facts, rows[k].id in app.updating;
  }

  /** A successful vote replaces the voted row (by position, when ids are
      unique) with the stored record and re-enables the row. */
  method SuccessfulVoteReplacesRow(rows: seq<Fact>, k: nat, column: VoteColumn, stored: Fact)
    returns (shown: seq<Fact>, rowUpdating: bool)
    requires k < |rows| && UniqueIds(rows) && stored.id == rows[k].id
    ensures shown == rows[k := stored] && !rowUpdating
  {
    var app := new App();
    var q := app.RequestFacts();
    app.FactsArrived(Ok(rows));
    var ticket := app.Vote(k, column);
    app.VoteResponded(ticket, Ok(stored));
    ReplaceKeepsIds(rows, k, stored);
    shown, rowUpdating := app.facts, rows[k].id in app.updating;
  }

  /** Choosing another category while a vote is in flight shows the loader,
      which remounts the rows with their buttons enabled, so the same row
      can vote again from the same displayed counter; the first answer then
      leaves the new flag alone, and both updates ask for the same value. */
  method VoteDuringReload(rows: seq<Fact>, k: nat, column: VoteColumn)
    returns (first: VoteUpdate, second: VoteUpdate, rowUpdating: bool)
    requires k < |rows|
    ensures first == second && first.value == Votes(rows[k], column) + 1
    ensures rowUpdating
  {
    var app := new App();
    var q := app.RequestFacts();
    app.FactsArrived(Ok(rows));
    var t1 := app.Vote(k, column);
    var q2 := app.SelectCategory("science");
    app.FactsArrived(Ok(rows));
    var t2 := app.Vote(k, column);
    app.VoteResponded(t1, StoreError);
    first, second, rowUpdating := t1.update, t2.update, rows[k].id in app.updating;
  }

  /** Three overlapping fetches answered [x], [y], [x]: a vote on x after the
      first answer disables its row, the second answer unmounts the row and
      its flag, and the third brings x back with its buttons enabled, so x
      can be voted on again from the same displayed counter. */
  method RowDroppedByLateAnswer(x: Fact, y: Fact, column: VoteColumn)
    returns (shown: seq<Fact>, rowUpdating: bool, first: VoteUpdate, second: VoteUpdate)
    requires x.id != y.id
    ensures shown == [x] && rowUpdating
    ensures first == second && first.value == Votes(x, column) + 1
  {
    var app := new App();
    var q := app.RequestFacts();
    app.FactsArrived(Ok([]));
    var q1 := app.SelectCategory("science");
    var q2 := app.SelectCategory("history");
    var q3 := app.SelectCategory("science");
    app.FactsArrived(Ok([x]));
    var t1 := app.Vote(0, column);
    app.FactsArrived(Ok([y]));
    app.FactsArrived(Ok([x]));
    var t2 := app.Vote(0, column);
    shown, rowUpdating, first, second := app.facts, x.id in app.updating, t1.update, t2.update;
  }
}
