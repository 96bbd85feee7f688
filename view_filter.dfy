/** The View Data page's listing query (app.py): the statement text grows by one
    fixed "AND column = ?" clause per active filter and each filter's value goes
    into the parameter list, never into the text. A provider filter is first
    resolved to a Provider_ID; when the name resolves to none the page stops and
    no listing query runs. */
module ViewFilter {
  import opened Sql
  import opened Schema

  const ALL := "All"

  /** The unfiltered statement, written in pieces of at most 40 characters. */
  const BASE_QUERY :=
    "SELECT fl.Listing_ID, fl.Food_Type, "
    + "fl.Quantity, fl.Provider_Type, fl.City, "
    + "p.Name AS Provider_Name, "
    + "p.Contact AS Provider_Contact "
    + "FROM food_listings fl "
    + "LEFT JOIN providers p "
    + "ON fl.Provider_ID = p.Provider_ID "
    + "WHERE 1=1"
  const PLACEHOLDER := "?"
  const CITY_CLAUSE := " AND fl.City = " + PLACEHOLDER
  const PROVIDER_CLAUSE := " AND fl.Provider_ID = " + PLACEHOLDER
  const FOOD_TYPE_CLAUSE := " AND fl.Food_Type = " + PLACEHOLDER
  const ORDER_CLAUSE := " ORDER BY fl.Listing_ID DESC"

  /** A bound parameter of a statement. */
  datatype Param = TextParam(s: string) | IntParam(n: int)

  /** What the page does: stop, or run a statement whose parameter list is None
      when it would be empty. */
  datatype ListingQuery = Stopped | Run(text: string, args: Option<seq<Param>>)

  function Bound(args: Option<seq<Param>>): seq<Param> {
    args.GetOr([])
  }

  /** SELECT Provider_ID FROM providers WHERE Name = ?, first row in table order:
      the id of the first provider with that name, None when no provider has it.
      A NULL name (a provider whose Name is NULL, offered by the selectbox) is
      bound as NULL, and Name = NULL matches no row. */
  function LookupProviderId(providers: seq<Provider>, name: Option<string>): (id: Option<int>)
    ensures id.None? <==> name.None? || name !in Column(providers, ProviderName)
    ensures id.Some? ==> name.Some?
    ensures id.Some? ==> exists i :: 0 <= i < |providers| && providers[i].name == name
                                   && providers[i].id == id.value
                                   && forall j :: 0 <= j < i ==> providers[j].name != name
  {
    if providers == [] then None
    else if name.Some? && providers[0].name == name then
      assert Column(providers, ProviderName)[0] == ProviderName(providers[0]);
      Some(providers[0].id)
    else
      var rest := LookupProviderId(providers[1..], name);
      ColumnCons(providers, ProviderName);
      assert rest.Some? ==> exists i :: 0 <= i < |providers[1..]| && providers[1..][i].name == name
                                   && providers[1..][i].id == rest.value
                                   && forall j :: 0 <= j < i ==> providers[1..][j].name != name;
      assert rest.Some? ==> exists i :: 1 <= i < |providers| && providers[i].name == name
                                   && providers[i].id == rest.value
                                   && forall j :: 0 <= j < i ==> providers[j].name != name by {
        if rest.Some? {
          var i :| 0 <= i < |providers[1..]| && providers[1..][i].name == name
                   && providers[1..][i].id == rest.value
                   && forall j :: 0 <= j < i ==> providers[1..][j].name != name;
          assert providers[i + 1] == providers[1..][i];
          assert forall j :: 1 <= j < i + 1 ==> providers[j] == providers[1..][j - 1];
        }
      }
      rest
  }

  /** The number of times c occurs in s. */
  function Occurrences(s: string, c: char): nat {
    if s == [] then 0 else (if s[0] == c then 1 else 0) + Occurrences(s[1..], c)
  }

  lemma {:induction false} OccurrencesAppend(a: string, b: string, c: char)
    ensures Occurrences(a + b, c) == Occurrences(a, c) + Occurrences(b, c)
  {
    if a == [] {
      assert a + b == b;
    } else {
      assert (a + b)[1..] == a[1..] + b;
      OccurrencesAppend(a[1..], b, c);
    }
  }

  lemma {:induction false} OccurrencesAbsent(s: string, c: char)
    requires c !in s
    ensures Occurrences(s, c) == 0
  {
    if s != [] {
      assert s == [s[0]] + s[1..];
      OccurrencesAbsent(s[1..], c);
    }
  }

  /** A clause made of placeholder-free text and one placeholder holds exactly one '?'. */
  lemma ClauseHasOnePlaceholder(prefix: string)
    requires '?' !in prefix
    ensures Occurrences(prefix + PLACEHOLDER, '?') == 1
  {
    OccurrencesAbsent(prefix, '?');
    OccurrencesAppend(prefix, PLACEHOLDER, '?');
    assert PLACEHOLDER[1..] == [];
  }

  /** No literal piece of the statement holds a '?' (one small lemma per few
      pieces keeps each literal check cheap). */
  lemma SelectListHasNoPlaceholder()
    ensures '?' !in "SELECT fl.Listing_ID, fl.Food_Type, "
    ensures '?' !in "fl.Quantity, fl.Provider_Type, fl.City, "
  {
  }

  lemma SelectedNamesHaveNoPlaceholder()
    ensures '?' !in "p.Name AS Provider_Name, "
    ensures '?' !in "p.Contact AS Provider_Contact "
    ensures '?' !in "FROM food_listings fl "
  {
  }

  lemma JoinHasNoPlaceholder()
    ensures '?' !in "LEFT JOIN providers p "
    ensures '?' !in "ON fl.Provider_ID = p.Provider_ID "
    ensures '?' !in "WHERE 1=1"
  {
  }

  lemma ClauseTextHasNoPlaceholder()
    ensures '?' !in " AND fl.City = "
    ensures '?' !in " AND fl.Provider_ID = "
    ensures '?' !in " AND fl.Food_Type = "
    ensures '?' !in ORDER_CLAUSE
  {
  }

  /** The fixed parts of the statement carry no placeholder, and each filter clause one. */
  lemma FixedTextPlaceholders()
    ensures Occurrences(BASE_QUERY, '?') == 0
    ensures Occurrences(ORDER_CLAUSE, '?') == 0
    ensures Occurrences(CITY_CLAUSE, '?') == 1
    ensures Occurrences(PROVIDER_CLAUSE, '?') == 1
    ensures Occurrences(FOOD_TYPE_CLAUSE, '?') == 1
  {
    SelectListHasNoPlaceholder();
    SelectedNamesHaveNoPlaceholder();
    JoinHasNoPlaceholder();
    ClauseTextHasNoPlaceholder();
    OccurrencesAbsent(BASE_QUERY, '?');
    OccurrencesAbsent(ORDER_CLAUSE, '?');
    ClauseHasOnePlaceholder(" AND fl.City = ");
    ClauseHasOnePlaceholder(" AND fl.Provider_ID = ");
    ClauseHasOnePlaceholder(" AND fl.Food_Type = ");
  }

  /** A clause when its filter is active, nothing otherwise. */
  function Optional(active: bool, clause: string): string {
    if active then clause else ""
  }

  /** The statement text for a given set of active filters. */
  function FilterText(byCity: bool, byProvider: bool, byFoodType: bool): string {
    BASE_QUERY
    + Optional(byCity, CITY_CLAUSE)
    + Optional(byProvider, PROVIDER_CLAUSE)
    + Optional(byFoodType, FOOD_TYPE_CLAUSE)
    + ORDER_CLAUSE
  }

  function Active(b: bool): nat { if b then 1 else 0 }

  /** A statement assembled from five parts starts with the first, ends with the
      last, and holds the placeholders of all of them. */
  lemma {:induction false} AssembledText(b: string, c: string, p: string, f: string, o: string)
    ensures Occurrences(b + c + p + f + o, '?')
            == Occurrences(b, '?') + Occurrences(c, '?') + Occurrences(p, '?')
             + Occurrences(f, '?') + Occurrences(o, '?')
    ensures |b + c + p + f + o| >= |b| + |o|
    ensures (b + c + p + f + o)[..|b|] == b
    ensures (b + c + p + f + o)[|b + c + p + f + o| - |o|..] == o
  {
    assert b + c + p + f + o == b + (c + p + f + o);
    OccurrencesAppend(b, c, '?');
    OccurrencesAppend(b + c, p, '?');
    OccurrencesAppend(b + c + p, f, '?');
    OccurrencesAppend(b + c + p + f, o, '?');
  }

  /** The text starts with the unfiltered SELECT ... WHERE 1=1, ends with the fixed
      ORDER BY, and holds one '?' placeholder per active filter. */
  lemma FilterTextShape(byCity: bool, byProvider: bool, byFoodType: bool)
    ensures var text := FilterText(byCity, byProvider, byFoodType);
      && |text| >= |BASE_QUERY| + |ORDER_CLAUSE|
      && text[..|BASE_QUERY|] == BASE_QUERY
      && text[|text| - |ORDER_CLAUSE|..] == ORDER_CLAUSE
      && Occurrences(text, '?') == Active(byCity) + Active(byProvider) + Active(byFoodType)
  {
    FixedTextPlaceholders();
    assert Occurrences("", '?') == 0;
    AssembledText(BASE_QUERY, Optional(byCity, CITY_CLAUSE), Optional(byProvider, PROVIDER_CLAUSE),
                  Optional(byFoodType, FOOD_TYPE_CLAUSE), ORDER_CLAUSE);
  }

  /** The bound value of a filter, when it is active. */
  function OptionalParam(active: bool, value: Param): seq<Param> {
    if active then [value] else []
  }

  /** One filter step: when the filter is active its clause is appended to the
      text and its value to the parameters. */
  method AddCondition(query: string, params: seq<Param>, active: bool, clause: string, value: Param)
    returns (query': string, params': seq<Param>)
    ensures query' == query + Optional(active, clause)
    ensures params' == params + OptionalParam(active, value)
  {
    query', params' := query, params;
    if active {
      query' := query' + clause;
      params' := params' + [value];
    }
  }

  /** The provider step's lookup, run only when the provider filter is active:
      stop when the name resolves to no provider, otherwise the Provider_ID to bind. */
  method ResolveProvider(providers: seq<Provider>, providerFilter: Option<string>) returns (stop: bool, param: Param)
    ensures stop <==> providerFilter != Some(ALL) && LookupProviderId(providers, providerFilter).None?
    ensures !stop && providerFilter != Some(ALL) ==> param == IntParam(LookupProviderId(providers, providerFilter).value)
  {
    stop, param := false, IntParam(0);
    if providerFilter != Some(ALL) {
      var pid := LookupProviderId(providers, providerFilter);
      if pid.None? {
        stop := true;
      } else {
        param := IntParam(pid.value);
      }
    }
  }

  /** The query the View Data page runs for its three filter choices (each "All" or
      a value; the provider choice is a provider's Name, which may be NULL), with the provider table used to resolve a provider name. The
      text is determined by which filters are active alone, so no filter value is
      ever part of it; the values are bound in the order city, provider, food
      type; there are as many placeholders as bound values; an empty parameter
      list is passed as None; and an unknown provider name stops the page. */
  method ComposeListingQuery(providers: seq<Provider>, cityFilter: string, providerFilter: Option<string>,
                             foodTypeFilter: string) returns (q: ListingQuery)
    ensures q.Stopped? <==> providerFilter != Some(ALL) && LookupProviderId(providers, providerFilter).None?
    ensures q.Run? ==> q.text == FilterText(cityFilter != ALL, providerFilter != Some(ALL), foodTypeFilter != ALL)
    ensures q.Run? ==> Bound(q.args)
                       == OptionalParam(cityFilter != ALL, TextParam(cityFilter))
                        + (if providerFilter != Some(ALL)
                           then [IntParam(LookupProviderId(providers, providerFilter).value)] else [])
                        + OptionalParam(foodTypeFilter != ALL, TextParam(foodTypeFilter))
    ensures q.Run? ==> Occurrences(q.text, '?') == |Bound(q.args)|
    ensures q.Run? ==> (q.args.None? <==> cityFilter == ALL && providerFilter == Some(ALL) && foodTypeFilter == ALL)
  {
    var byCity, byProvider, byFoodType := cityFilter != ALL, providerFilter != Some(ALL), foodTypeFilter != ALL;
    var query := BASE_QUERY;
    var params: seq<Param> := [];
    query, params := AddCondition(query, params, byCity, CITY_CLAUSE, TextParam(cityFilter));
    var stop, providerParam := ResolveProvider(providers, providerFilter);
    if stop {
      return Stopped;
    }
    query, params := AddCondition(query, params, byProvider, PROVIDER_CLAUSE, providerParam);
    query, params := AddCondition(query, params, byFoodType, FOOD_TYPE_CLAUSE, TextParam(foodTypeFilter));
    query := query + ORDER_CLAUSE;
    FilterTextShape(byCity, byProvider, byFoodType);
    q := Run(query, if params == [] then None else Some(params));
  }
}
