/** The two transforms the board applies to its list of facts: prepending
    the record the store returned for an insert, and replacing by id the
    record the store returned for a vote. */
module FactList {
  import opened Facts

  /** The ids of a list, in list order. */
  function Ids(facts: seq<Fact>): (ids: seq<int>)
    ensures |ids| == |facts|
    ensures forall i :: 0 <= i < |facts| ==> ids[i] == facts[i].id
  {
    if facts == [] then [] else [facts[0].id] + Ids(facts[1..])
  }

  /** No two rows share an id. */
  predicate UniqueIds(facts: seq<Fact>)
  {
    forall i, j :: 0 <= i < j < |facts| ==> facts[i].id != facts[j].id
  }

  /** Descending by the "interesting" counter, the order the fetch asks for. */
  predicate SortedByInterest(facts: seq<Fact>)
  {
    forall i, j :: 0 <= i < j < |facts| ==> facts[i].votesInteresting >= facts[j].votesInteresting
  }

  /** `[newFact[0], ...facts]`: the new record first, the old list after it unchanged. */
  function Prepend(created: Fact, facts: seq<Fact>): (r: seq<Fact>)
    ensures |r| == |facts| + 1
    ensures r[0] == created && r[1..] == facts
    ensures forall f :: f in r <==> f == created || f in facts
  {
    [created] + facts
  }

  /** Prepending a record whose id is new keeps ids unique. */
  lemma PrependKeepsIdsUnique(created: Fact, facts: seq<Fact>)
    requires UniqueIds(facts) && created.id !in Ids(facts)
    ensures UniqueIds(Prepend(created, facts))
  {
  }

  /** A fresh record has zero "interesting" votes, so prepending it in front
      of a row that has some leaves the list out of order. */
  lemma PrependCanBreakOrder(created: Fact, facts: seq<Fact>)
    requires SortedByInterest(facts) && facts != []
    requires created.votesInteresting < facts[0].votesInteresting
    ensures !SortedByInterest(Prepend(created, facts))
  {
  }

  /** `facts.map(f => f.id === id ? updated : f)`: every row whose id matches
      becomes `updated`; every other row stays where it was. */
  function ReplaceById(facts: seq<Fact>, id: int, updated: Fact): (r: seq<Fact>)
    ensures |r| == |facts|
    ensures forall i :: 0 <= i < |facts| && facts[i].id == id ==> r[i] == updated
    ensures forall i :: 0 <= i < |facts| && facts[i].id != id ==> r[i] == facts[i]
  {
    if facts == [] then []
    else [if facts[0].id == id then updated else facts[0]] + ReplaceById(facts[1..], id, updated)
  }

  /** Replacing an id that no row has leaves the list as it was. */
  lemma ReplaceAbsentId(facts: seq<Fact>, id: int, updated: Fact)
    requires id !in Ids(facts)
    ensures ReplaceById(facts, id, updated) == facts
  {
  }

  /** Applying the same server record twice is the same as applying it once. */
  lemma ReplaceIdempotent(facts: seq<Fact>, id: int, updated: Fact)
    ensures ReplaceById(ReplaceById(facts, id, updated), id, updated) == ReplaceById(facts, id, updated)
  {
  }

  /** A record that keeps its id keeps the list's ids (and so their
      uniqueness); under unique ids exactly one position changes. */
  lemma ReplaceKeepsIds(facts: seq<Fact>, k: nat, updated: Fact)
    requires k < |facts| && updated.id == facts[k].id
    ensures Ids(ReplaceById(facts, facts[k].id, updated)) == Ids(facts)
    ensures ReplaceById(facts, facts[k].id, updated)[k] == updated
    ensures UniqueIds(facts) ==> ReplaceById(facts, facts[k].id, updated) == facts[k := updated]
  {
  }
}
