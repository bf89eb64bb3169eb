/** The fact record the board shows, its three vote counters, the derived
    "disputed" flag and the fixed category names. */
module Facts {

  /** A fact row as the store returns it. Ids and counters are JavaScript
      numbers holding integers; they are modelled as unbounded integers. */
  datatype Fact = Fact(
    id: int,
    text: string,
    source: string,
    category: string,
    votesInteresting: int,
    votesMindblowing: int,
    votesFalse: int,
    createdIn: int)

  /** The three columns a vote button can increment. */
  datatype VoteColumn = Interesting | Mindblowing | False

  /** The counter `fact[columnName]` reads. */
  function Votes(f: Fact, column: VoteColumn): int
  {
    match column
    case Interesting => f.votesInteresting
    case Mindblowing => f.votesMindblowing
    case False => f.votesFalse
  }

  /** The row with one counter set to `value` and every other field kept. */
  function WithVotes(f: Fact, column: VoteColumn, value: int): (g: Fact)
    ensures Votes(g, column) == value
    ensures forall other :: other != column ==> Votes(g, other) == Votes(f, other)
    ensures g.id == f.id && g.text == f.text && g.source == f.source
    ensures g.category == f.category && g.createdIn == f.createdIn
    ensures value == Votes(f, column) <==> g == f
  {
    match column
    case Interesting => f.(votesInteresting := value)
    case Mindblowing => f.(votesMindblowing := value)
    case False => f.(votesFalse := value)
  }

  /** A fact is flagged disputed when its false votes outnumber the other
      two counters together. Derived on every render, never stored. */
  predicate IsDisputed(f: Fact)
    ensures f.votesFalse <= 0 && f.votesInteresting >= 0 && f.votesMindblowing >= 0 ==> !IsDisputed(f)
    ensures f.votesInteresting == 0 && f.votesMindblowing == 0 ==> (IsDisputed(f) <==> f.votesFalse > 0)
  {
    f.votesFalse > f.votesInteresting + f.votesMindblowing
  }

  /** The two sample rows: 24/9/4 is not disputed, 1/0/2 is. */
  lemma DisputedSamples()
    ensures !IsDisputed(Fact(1, "React is being developed by Meta (formerly facebook)",
                             "https://opensource.fb.com/", "technology", 24, 9, 4, 2021))
    ensures IsDisputed(Fact(4, "t", "https://example.org/", "science", 1, 0, 2, 2023))
  {
  }

  /** One more false vote never clears the flag; one more vote in either
      other column never raises it. */
  lemma VoteMovesDisputedOneWay(f: Fact, column: VoteColumn)
    ensures column == False && IsDisputed(f) ==> IsDisputed(WithVotes(f, column, Votes(f, column) + 1))
    ensures column != False && !IsDisputed(f) ==> !IsDisputed(WithVotes(f, column, Votes(f, column) + 1))
  {
  }

  /** The category names offered by the form and the filter, in display order. */
  const CategoryNames: seq<string> := ["technology", "science", "finance", "society",
                                       "entertainment", "health", "history", "news"]

  /** The filter value that shows every category. */
  const AllCategories: string := "all"

  /** What the form's category select can hold: its empty placeholder or a listed name. */
  predicate IsCategoryChoice(c: string)
  {
    c == "" || c in CategoryNames
  }

  /** What the filter buttons can set: "all" or a listed name. */
  predicate IsFilterChoice(c: string)
  {
    c == AllCategories || c in CategoryNames
  }

  lemma CategoryNamesFacts()
    ensures |CategoryNames| == 8
    ensures forall i, j :: 0 <= i < j < |CategoryNames| ==> CategoryNames[i] != CategoryNames[j]
    ensures "" !in CategoryNames && AllCategories !in CategoryNames
  {
  }
}
