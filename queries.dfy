/** queries.py: two grouped counts over crud.py's database, whose providers table
    has a City column and whose food_listings table is the one of Crud. */
module Queries {
  import opened Sql
  import opened Schema
  import opened Crud

  /** providers_per_city: one row per City, NULL being one city, with the number of
      providers there; no ORDER BY, so the rows come in no promised order. Every
      count is at least 1 and the counts add up to the number of providers. */
  function ProvidersPerCity(providers: seq<Provider>): (g: seq<Row<Option<string>>>)
    ensures IsGrouping(g, providers, ProviderCity, One)
    ensures forall r :: r in g ==> r.value >= 1
    ensures SumAll(g, RowValue) == |providers|
  {
    var g := GroupBy(providers, ProviderCity, One);
    GroupByTotal(providers, ProviderCity, One);
    SumAllOne(providers);
    forall r | r in g ensures r.value >= 1 {
      CountPositive(providers, ProviderCity, r.key);
    }
    g
  }

  function FoodProviderType(r: FoodRow): Option<string> { r.providerType }

  /** top_food_providers: COUNT(*) of the listings per Provider_Type, largest first. */
  function TopFoodProviders(rows: seq<FoodRow>): (g: seq<Row<Option<string>>>)
    ensures IsGrouping(g, rows, FoodProviderType, One)
    ensures forall r :: r in g ==> r.value >= 1
    ensures SumAll(g, RowValue) == |rows|
    ensures NonIncreasing(g, RowValue)
  {
    CountByDesc(rows, FoodProviderType)
  }

  /** The report counts rows and does not sum quantities: an update_food_quantity
      call, whatever quantity it sets, leaves every count as it was. */
  lemma TopFoodProvidersIgnoreQuantity(rows: seq<FoodRow>, id: int, q: Option<int>)
    ensures forall k :: ValueFor(TopFoodProviders(QuantitySet(rows, id, q)), k) == ValueFor(TopFoodProviders(rows), k)
  {
    var updated := QuantitySet(rows, id, q);
    forall k ensures ValueFor(TopFoodProviders(updated), k) == ValueFor(TopFoodProviders(rows), k) {
      GroupingRegroup(TopFoodProviders(updated), updated, FoodProviderType, One, k);
      GroupingRegroup(TopFoodProviders(rows), rows, FoodProviderType, One, k);
      SumWhereSameColumns(updated, rows, FoodProviderType, k, One);
    }
  }

  /** add_food adds exactly one to the count of the new row's provider type and to
      no other, whatever its quantity. */
  lemma AddFoodCountedOnce(rows: seq<FoodRow>, f: NewFood)
    ensures forall k :: ValueFor(TopFoodProviders(rows + [RowOf(f)]), k)
              == ValueFor(TopFoodProviders(rows), k) + (if f.providerType == k then 1 else 0)
  {
    var added := rows + [RowOf(f)];
    forall k ensures ValueFor(TopFoodProviders(added), k)
                     == ValueFor(TopFoodProviders(rows), k) + (if f.providerType == k then 1 else 0)
    {
      GroupingRegroup(TopFoodProviders(added), added, FoodProviderType, One, k);
      GroupingRegroup(TopFoodProviders(rows), rows, FoodProviderType, One, k);
      SumWhereAppend(rows, [RowOf(f)], FoodProviderType, k, One);
      SumWhereOne(RowOf(f), FoodProviderType, k, One);
    }
  }
}
