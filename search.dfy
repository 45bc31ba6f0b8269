/** The search form action: an empty query is refused, the simulated network
    fails at random (a parameter here), and otherwise the fixed article list
    is filtered by the query and, optionally, by category. */
module SearchForm {
  import opened Js
  import opened Seqs

  datatype SearchResult = SearchResult(id: int, title: string, description: string, category: string)

  datatype SearchState = SearchState(
    results: seq<SearchResult>, query: string, totalResults: int, isSearching: bool, error: Option<string>)

  const InitialState := SearchState([], "", 0, false, None)

  const EnterQuery := "Wprowadź frazę do wyszukania"
  const ConnectionError := "Błąd połączenia. Spróbuj ponownie."

  /** The eight articles the page searches. */
  const MockData: seq<SearchResult> := [
    SearchResult(1, "React 19 - nowe funkcje", "Przewodnik po najnowszych funkcjach React 19", "Frontend"),
    SearchResult(2, "TypeScript w praktyce", "Zaawansowane techniki TypeScript", "Development"),
    SearchResult(3, "Next.js 14 tutorial", "Kompletny przewodnik po Next.js", "Framework"),
    SearchResult(4, "CSS Grid vs Flexbox", "Porównanie układów CSS", "CSS"),
    SearchResult(5, "Node.js performance", "Optymalizacja aplikacji Node.js", "Backend"),
    SearchResult(6, "React hooks deep dive", "Szczegółowy przewodnik po hookach", "Frontend"),
    SearchResult(7, "GraphQL podstawy", "Wprowadzenie do GraphQL", "API"),
    SearchResult(8, "Docker dla deweloperów", "Konteneryzacja aplikacji", "DevOps")
  ]

  /** The lowercased title or description contains the query. */
  predicate MatchesQuery(item: SearchResult, query: string) {
    Includes(ToLower(item.title), query) || Includes(ToLower(item.description), query)
  }

  /** The category equals the chosen one, ignoring ASCII case. */
  predicate MatchesCategory(item: SearchResult, category: string) {
    ToLower(item.category) == ToLower(category)
  }

  function QueryFilter(query: string): SearchResult -> bool {
    (item: SearchResult) => MatchesQuery(item, query)
  }

  function CategoryFilter(category: string): SearchResult -> bool {
    (item: SearchResult) => MatchesCategory(item, category)
  }

  /** `category && category !== 'all'`. */
  predicate FiltersByCategory(category: Option<string>) {
    !Falsy(category) && category.value != "all"
  }

  /** The two filters of the success path over an article list `data`.
      The results are exactly the articles of `data` that match the query, and
      the category when one is chosen, in the order of `data`. */
  method FilterArticles(data: seq<SearchResult>, query: string, category: Option<string>)
    returns (results: seq<SearchResult>)
    ensures IsSubsequence(results, data)
    ensures forall x :: x in results ==> x in data && MatchesQuery(x, query)
    ensures FiltersByCategory(category) ==> forall x :: x in results ==> MatchesCategory(x, category.value)
    ensures forall x :: x in data && MatchesQuery(x, query) && CategoryOk(x, category) ==> x in results
  {
    results := Filter(data, QueryFilter(query));
    FilterFacts(data, QueryFilter(query));

    if FiltersByCategory(category) {
      var byQuery := results;
      results := Filter(results, CategoryFilter(category.value));
      FilterFacts(byQuery, CategoryFilter(category.value));
      SubsequenceTransitive(results, byQuery, data);
    }
  }

  /** The category condition of an article: met when no category filter
      applies. */
  predicate CategoryOk(item: SearchResult, category: Option<string>) {
    FiltersByCategory(category) ==> MatchesCategory(item, category.value)
  }

  /** `searchAction`; `networkFails` stands for `Math.random() < 0.1`. The query
      field must be present: the source calls `toLowerCase` on it unguarded.
      - A query that is empty once lowercased and trimmed gives the initial
        state with an error, whatever the previous state.
      - A network failure keeps the previous results, query and count and
        records the error.
      - Otherwise the results are exactly the articles of the fixed list that
        match the query (and the category, when one other than `all` is
        chosen), in the list's order, and the count is their number.
      No returned state is still searching. */
  method SearchAction(prev: SearchState, form: FormData, networkFails: bool) returns (r: SearchState)
    requires "query" in form
    ensures !r.isSearching
    ensures Trim(ToLower(form["query"])) == "" ==> r == InitialState.(error := Some(EnterQuery))
    ensures Trim(ToLower(form["query"])) != "" && networkFails ==>
      r == prev.(error := Some(ConnectionError), isSearching := false)
    ensures Trim(ToLower(form["query"])) != "" && !networkFails ==>
      var query := Trim(ToLower(form["query"]));
      var category := Get(form, "category");
      && r.query == query
      && r.error == None
      && r.totalResults == |r.results|
      && IsSubsequence(r.results, MockData)
      && (forall x :: x in r.results ==> x in MockData && MatchesQuery(x, query))
      && (FiltersByCategory(category) ==> forall x :: x in r.results ==> MatchesCategory(x, category.value))
      && (forall x :: x in MockData && MatchesQuery(x, query) && CategoryOk(x, category) ==> x in r.results)
  {
    var query := Trim(ToLower(form["query"]));
    var category := Get(form, "category");

    if query == "" {
      return InitialState.(error := Some(EnterQuery));
    }

    if networkFails {
      return prev.(error := Some(ConnectionError), isSearching := false);
    }

    var results := FilterArticles(MockData, query, category);
    r := SearchState(results, query, |results|, false, None);
  }
}
