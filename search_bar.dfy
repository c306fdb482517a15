/**
 * The header's model search: a toggled panel with a query box that lists the
 * AI models whose names contain the query, ignoring case; picking one puts its
 * name in the box and closes the panel.
 */
module SearchBar {
  import Text
  import Sequences

  const AiModels: seq<string> := [
    "DALL-E 3",
    "Stable Diffusion XL",
    "Midjourney v6",
    "Playground v2.5",
    "Leonardo AI",
    "Adobe Firefly"
  ]

  /** The model's name holds the query, ignoring case. */
  predicate MatchesQuery(model: string, query: string) {
    Text.Contains(Text.Lower(model), Text.Lower(query))
  }

  function QueryTest(query: string): string -> bool {
    m => MatchesQuery(m, query)
  }

  /** `models.filter(...)`: the matching names, in their listed order. */
  function Matching(models: seq<string>, query: string): (r: seq<string>)
    ensures forall m :: m in r <==> m in models && MatchesQuery(m, query)
    ensures Sequences.IsSubsequence(r, models)
  {
    Sequences.FilterIsSubsequence(models, QueryTest(query));
    Sequences.Filter(models, QueryTest(query))
  }

  /** An empty query lists every model. */
  lemma EmptyQueryListsAll(models: seq<string>)
    ensures Matching(models, "") == models
  {
    forall i | 0 <= i < |models| ensures MatchesQuery(models[i], "") {
      Text.ContainsEmpty(Text.Lower(models[i]));
    }
    Sequences.FilterAll(models, QueryTest(""));
  }

  /** A model's own name, as the query, keeps that model listed. */
  lemma OwnNameMatches(model: string)
    ensures MatchesQuery(model, model)
  {
    Text.ContainsSelf(Text.Lower(model));
  }

  /** What the panel shows under the query box. */
  datatype PanelBody = Listing(models: seq<string>) | NoModelsFound

  function Body(models: seq<string>, query: string): (b: PanelBody)
    ensures b == NoModelsFound <==> forall m :: m in models ==> !MatchesQuery(m, query)
    ensures b.Listing? ==> b.models == Matching(models, query) && |b.models| > 0
  {
    var r := Matching(models, query);
    if |r| > 0 then
      assert r[0] in r;
      Listing(r)
    else NoModelsFound
  }

  class SearchPanel {
    /** The `aiModels` list. */
    const models: seq<string>
    var isOpen: bool
    var searchQuery: string

    constructor ()
      ensures models == AiModels && !isOpen && searchQuery == []
    {
      models := AiModels;
      isOpen := false;
      searchQuery := [];
    }

    /** `filteredModels`. */
    function FilteredModels(): seq<string>
      reads this
    {
      Matching(models, searchQuery)
    }

    /** The search icon. */
    method Toggle()
      modifies this`isOpen
      ensures isOpen == !old(isOpen)
    {
      isOpen := !isOpen;
    }

    /** The backdrop and the close button. */
    method Close()
      modifies this`isOpen
      ensures !isOpen
    {
      isOpen := false;
    }

    /** Typing in the query box. */
    method SetQuery(query: string)
      modifies this`searchQuery
      ensures searchQuery == query
    {
      searchQuery := query;
    }

    /**
     * Picking a listed model: its name becomes the query and the panel closes;
     * reopened, the panel lists that model again.
     */
    method Select(model: string)
      requires model in FilteredModels()
      modifies this`searchQuery, this`isOpen
      ensures searchQuery == model && !isOpen
      ensures model in FilteredModels()
    {
      OwnNameMatches(model);
      searchQuery := model;
      isOpen := false;
    }
  }
}
