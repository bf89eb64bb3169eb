/** The requests the board sends to the remote store and the shape of its
    answers. The store itself is not modelled: every answer is a parameter
    of the step that receives it. */
module Store {
  import opened Facts
  import opened FactList
  import opened Options

  /** An answer from the store: the data, or an error. */
  datatype StoreResult<T> = Ok(value: T) | StoreError

  /** The list query: an optional category filter, an order column and
      direction, and a row cap. */
  datatype Query = Query(category: Option<string>, orderBy: VoteColumn, ascending: bool, limit: nat)

  /** The row cap of the list query. */
  const FetchLimit: nat := 1000

  /** The query `getFacts` builds for the selected category. */
  function FactsQuery(currentCategory: string): (q: Query)
    ensures q.category.None? <==> currentCategory == AllCategories
    ensures q.category.Some? ==> q.category.value == currentCategory
    ensures q.orderBy == Interesting && !q.ascending && q.limit == FetchLimit
  {
    Query(if currentCategory != AllCategories then Some(currentCategory) else None,
          Interesting, false, FetchLimit)
  }

  /** Rows that a store honouring the query could return. */
  predicate Answers(q: Query, rows: seq<Fact>)
  {
    |rows| <= q.limit
    && (q.category.Some? ==> forall i :: 0 <= i < |rows| ==> rows[i].category == q.category.value)
    && forall i, j :: 0 <= i < j < |rows| ==>
         if q.ascending then Votes(rows[i], q.orderBy) <= Votes(rows[j], q.orderBy)
         else Votes(rows[i], q.orderBy) >= Votes(rows[j], q.orderBy)
  }

  /** An honest answer to the category query holds at most 1000 rows of
      that category, most "interesting" first; for "all" any category may
      appear. */
  lemma FactsQueryAnswer(currentCategory: string, rows: seq<Fact>)
    requires Answers(FactsQuery(currentCategory), rows)
    ensures |rows| <= FetchLimit
    ensures SortedByInterest(rows)
    ensures currentCategory != AllCategories ==> forall f :: f in rows ==> f.category == currentCategory
  {
  }

  /** The fields an insert sends; the store fills in id, counters and year. */
  datatype InsertRequest = InsertRequest(text: string, source: string, category: string)

  /** `update({[column]: value}).eq("id", id)`: set one counter of one row. */
  datatype VoteUpdate = VoteUpdate(id: int, column: VoteColumn, value: int)

  /** The update `handleVote` sends: the locally displayed counter plus one. */
  function VoteRequest(shown: Fact, column: VoteColumn): (u: VoteUpdate)
    ensures u.id == shown.id && u.column == column
    ensures u.value == Votes(shown, column) + 1
  {
    VoteUpdate(shown.id, column, Votes(shown, column) + 1)
  }

  /** What the update does to a stored row it matches: one column is
      overwritten, every other field is kept. */
  function ApplyUpdate(row: Fact, u: VoteUpdate): (r: Fact)
    requires row.id == u.id
    ensures Votes(r, u.column) == u.value
    ensures forall c :: c != u.column ==> Votes(r, c) == Votes(row, c)
    ensures r.id == row.id && r.text == row.text && r.source == row.source
    ensures r.category == row.category && r.createdIn == row.createdIn
  {
    WithVotes(row, u.column, u.value)
  }

  /** When the stored row equals the one shown, the vote adds exactly one to
      the chosen counter and touches nothing else. */
  lemma VoteIncrementsShownRow(shown: Fact, column: VoteColumn)
    ensures ApplyUpdate(shown, VoteRequest(shown, column)) == WithVotes(shown, column, Votes(shown, column) + 1)
    ensures Votes(ApplyUpdate(shown, VoteRequest(shown, column)), column) == Votes(shown, column) + 1
  {
  }

  /** The update carries an absolute value, not an increment: two votes sent
      from the same displayed row store one more vote, not two. */
  lemma StaleVotesCountOnce(shown: Fact, column: VoteColumn)
    ensures var once := ApplyUpdate(shown, VoteRequest(shown, column));
            ApplyUpdate(once, VoteRequest(shown, column)) == once
    ensures Votes(ApplyUpdate(ApplyUpdate(shown, VoteRequest(shown, column)), VoteRequest(shown, column)), column)
            == Votes(shown, column) + 1
  {
  }

  /** A vote on a row showing 4 false votes asks for 5. */
  lemma FalseVoteFromFour(shown: Fact)
    requires shown.votesFalse == 4
    ensures VoteRequest(shown, False) == VoteUpdate(shown.id, False, 5)
    ensures ApplyUpdate(shown, VoteRequest(shown, False)).votesFalse == 5
  {
  }
}
