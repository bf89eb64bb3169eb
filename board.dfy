/** The component state of the board and its handlers, each split into the
    step that issues a store request and the step that applies the answer.
    The list, the loading flag, the selected category and the form
    visibility belong to the top-level component; the form fields and the
    upload flag to the form, which exists only while it is shown; the
    per-row "updating" flag to each row, which exists only while that row
    is in the shown list (rows are keyed by id) and the loader is not shown. */
module Board {
  import opened Options
  import opened Facts
  import opened Validation
  import opened FactList
  import opened Store

  /** The new-fact form's own state. */
  datatype Form = Form(text: string, source: string, category: string, isUploading: bool)

  /** The state a freshly mounted form starts in. */
  const EmptyForm: Form := Form("", "", "", false)

  /** A vote in flight: the update that was sent, and the token that marks
      the row it was sent from while that row stays mounted. */
  datatype VoteTicket = VoteTicket(update: VoteUpdate, token: nat)

  /** The row flags that survive showing `facts`: a row keeps its state
      only while a row with the same key (its id) stays in the list. */
  function KeepShown(updating: map<int, nat>, facts: seq<Fact>): (kept: map<int, nat>)
    ensures forall id :: id in kept <==> id in updating && id in Ids(facts)
    ensures forall id :: id in kept ==> kept[id] == updating[id]
  {
    map id | id in updating && id in Ids(facts) :: updating[id]
  }

  class App {
    /** The facts shown, in the order shown. */
    var facts: seq<Fact>
    /** True while the loader replaces the list. */
    var isLoading: bool
    /** The selected filter: "all" or a category name. */
    var currentCategory: string
    /** Whether the new-fact form is shown (and so exists). */
    var isShowForm: bool
    /** The form's fields and upload flag. */
    var form: Form
    /** The rows whose vote buttons are disabled by a vote in flight, each
        id mapped to the token of the vote that disabled it. */
    var updating: map<int, nat>
    /** The token the next vote carries; tokens are never reused, so an
        answer recognises the row mounting it was sent from. */
    var nextToken: nat

    /** What every reachable state satisfies: the filter and the category
        select hold offered values, a hidden form has no state of its own,
        no row (so no row flag) exists while loading, and only shown rows
        have flags. */
    ghost predicate Valid()
      reads this
    {
      IsFilterChoice(currentCategory)
      && (!isShowForm ==> form == EmptyForm)
      && IsCategoryChoice(form.category)
      && (isLoading ==> updating == map[])
      && (forall id :: id in updating ==> id in Ids(facts) && updating[id] < nextToken)
    }

    /** The initial state before the first fetch. */
    constructor ()
      ensures Valid()
      ensures facts == [] && !isLoading && currentCategory == AllCategories && !isShowForm
      ensures form == EmptyForm && updating == map[] && nextToken == 0
    {
      facts := [];
      isLoading := false;
      currentCategory := AllCategories;
      isShowForm := false;
      form := EmptyForm;
      updating := map[];
      nextToken := 0;
    }

    /** The header button: flips the form's visibility. Closing discards the
        form's state and opening mounts a fresh one. */
    method ToggleForm()
      requires Valid()
      modifies this
      ensures Valid()
      ensures isShowForm == !old(isShowForm) && form == EmptyForm
      ensures facts == old(facts) && isLoading == old(isLoading) && currentCategory == old(currentCategory)
      ensures updating == old(updating) && nextToken == old(nextToken)
    {
      isShowForm := !isShowForm;
      form := EmptyForm;
    }

    /** First half of `getFacts`: show the loader (which takes every row,
        and its flag, down) and send the query for the selected category. */
    method RequestFacts() returns (q: Query)
      requires Valid()
      modifies this
      ensures Valid()
      ensures q == FactsQuery(currentCategory)
      ensures isLoading && updating == map[]
      ensures facts == old(facts) && currentCategory == old(currentCategory)
      ensures isShowForm == old(isShowForm) && form == old(form) && nextToken == old(nextToken)
    {
      isLoading := true;
      updating := map[];
      q := FactsQuery(currentCategory);
    }

    /** Second half of `getFacts`: a successful answer replaces the list, an
        error keeps it; the loader goes away either way. Nothing checks
        which request the answer belongs to. Rows missing from the new list
        are unmounted and lose their flags. */
    method FactsArrived(response: StoreResult<seq<Fact>>)
      requires Valid()
      modifies this
      ensures Valid()
      ensures facts == if response.Ok? then response.value else old(facts)
      ensures !isLoading
      ensures updating == KeepShown(old(updating), facts)
      ensures currentCategory == old(currentCategory) && isShowForm == old(isShowForm) && form == old(form)
      ensures nextToken == old(nextToken)
    {
      if response.Ok? {
        facts := response.value;
      }
      updating := KeepShown(updating, facts);
      isLoading := false;
    }

    /** A filter button. Selecting the category already selected changes
        nothing; any other choice re-runs the fetch. */
    method SelectCategory(c: string) returns (q: Option<Query>)
      requires Valid() && IsFilterChoice(c)
      modifies this
      ensures Valid()
      ensures currentCategory == c
      ensures q.None? <==> c == old(currentCategory)
      ensures q.None? ==> isLoading == old(isLoading) && updating == old(updating)
      ensures q.Some? ==> q.value == FactsQuery(c) && isLoading && updating == map[]
      ensures facts == old(facts) && isShowForm == old(isShowForm) && form == old(form)
      ensures nextToken == old(nextToken)
    {
      if c == currentCategory {
        q := None;
      } else {
        currentCategory := c;
        var query := RequestFacts();
        q := Some(query);
      }
    }

    /** Typing in the text field (disabled while uploading). */
    method EditText(text: string)
      requires Valid() && isShowForm && !form.isUploading
      modifies this
      ensures Valid()
      ensures form == old(form).(text := text)
      ensures facts == old(facts) && isLoading == old(isLoading) && currentCategory == old(currentCategory)
      ensures isShowForm && updating == old(updating) && nextToken == old(nextToken)
    {
      form := form.(text := text);
    }

    /** Typing in the source field (disabled while uploading). */
    method EditSource(source: string)
      requires Valid() && isShowForm && !form.isUploading
      modifies this
      ensures Valid()
      ensures form == old(form).(source := source)
      ensures facts == old(facts) && isLoading == old(isLoading) && currentCategory == old(currentCategory)
      ensures isShowForm && updating == old(updating) && nextToken == old(nextToken)
    {
      form := form.(source := source);
    }

    /** Choosing in the category select, whose options are the placeholder
        and the listed names (disabled while uploading). */
    method ChooseCategory(category: string)
      requires Valid() && isShowForm && !form.isUploading && IsCategoryChoice(category)
      modifies this
      ensures Valid()
      ensures form == old(form).(category := category)
      ensures facts == old(facts) && isLoading == old(isLoading) && currentCategory == old(currentCategory)
      ensures isShowForm && updating == old(updating) && nextToken == old(nextToken)
    {
      form := form.(category := category);
    }

    /** First half of `handleSubmit` (the post button is disabled while
        uploading). A rejected submission changes nothing and sends nothing;
        an accepted one marks the form uploading and sends the three fields.
        The form's select is why an accepted category is always a listed one. */
    method Submit(parse: UrlParser) returns (request: Option<InsertRequest>)
      requires Valid() && isShowForm && !form.isUploading
      modifies this
      ensures Valid()
      ensures request.Some? <==> IsSubmittable(old(form).text, old(form).source, old(form).category, parse)
      ensures request.Some? ==> request.value == InsertRequest(old(form).text, old(form).source, old(form).category)
      ensures request.Some? ==> request.value.category in CategoryNames
      ensures form == if request.Some? then old(form).(isUploading := true) else old(form)
      ensures facts == old(facts) && isLoading == old(isLoading) && currentCategory == old(currentCategory)
      ensures isShowForm && updating == old(updating) && nextToken == old(nextToken)
    {
      if IsSubmittable(form.text, form.source, form.category, parse) {
        form := form.(isUploading := true);
        request := Some(InsertRequest(form.text, form.source, form.category));
      } else {
        request := None;
      }
    }

    /** Second half of `handleSubmit`: the stored record goes to the head of
        the list when the insert succeeded; success or not, the fields are
        cleared, the upload ends and the form is closed. */
    method SubmitResponded(response: StoreResult<Fact>)
      requires Valid()
      modifies this
      ensures Valid()
      ensures facts == if response.Ok? then Prepend(response.value, old(facts)) else old(facts)
      ensures !isShowForm && form == EmptyForm
      ensures isLoading == old(isLoading) && currentCategory == old(currentCategory)
      ensures updating == old(updating) && nextToken == old(nextToken)
    {
      form := form.(isUploading := false);
      if response.Ok? {
        facts := Prepend(response.value, facts);
      }
      form := EmptyForm;
      isShowForm := false;
    }

    /** First half of `handleVote` on the row showing `facts[k]`, whose
        buttons are enabled only while the list is shown and no vote of
        that row is in flight: the row is marked updating with a fresh
        token and the update asks for the displayed counter plus one. */
    method Vote(k: nat, column: VoteColumn) returns (ticket: VoteTicket)
      requires Valid() && !isLoading && k < |facts| && facts[k].id !in updating
      modifies this
      ensures Valid()
      ensures ticket.update == VoteRequest(old(facts)[k], column) && ticket.token == old(nextToken)
      ensures ticket.update.value == Votes(old(facts)[k], column) + 1
      ensures updating == old(updating)[old(facts)[k].id := old(nextToken)] && nextToken == old(nextToken) + 1
      ensures facts == old(facts) && isLoading == old(isLoading) && currentCategory == old(currentCategory)
      ensures isShowForm == old(isShowForm) && form == old(form)
    {
      updating := updating[facts[k].id := nextToken];
      ticket := VoteTicket(VoteRequest(facts[k], column), nextToken);
      nextToken := nextToken + 1;
    }

    /** Second half of `handleVote`: the row's flag is cleared if the row
        the vote was sent from is still mounted, and a successful answer
        replaces every row with the voted id (a row whose key changes is
        unmounted with its flag); an error leaves the list as it was. */
    method VoteResponded(ticket: VoteTicket, response: StoreResult<Fact>)
      requires Valid()
      modifies this
      ensures Valid()
      ensures facts == if response.Ok? then ReplaceById(old(facts), ticket.update.id, response.value) else old(facts)
      ensures forall id :: id in updating <==>
                id in old(updating) && id in Ids(facts)
                && !(id == ticket.update.id && old(updating)[id] == ticket.token)
      ensures forall id :: id in updating ==> updating[id] == old(updating)[id]
      ensures isLoading == old(isLoading) && currentCategory == old(currentCategory)
      ensures isShowForm == old(isShowForm) && form == old(form) && nextToken == old(nextToken)
    {
      var id := ticket.update.id;
      if id in updating && updating[id] == ticket.token {
        updating := updating - {id};
      }
      if response.Ok? {
        facts := ReplaceById(facts, id, response.value);
        updating := KeepShown(updating, facts);
      }
    }
  }
}
