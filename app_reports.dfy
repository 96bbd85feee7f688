/** The Analysis page of app.py: canned read-only reports over the four tables.
    ORDER BY ... DESC is stated as non-increasing order only, since rows with
    equal aggregates come in no defined order; NULL group keys form one group. */
module AppReports {
  import opened Sql
  import opened Schema
  import opened Joins

  // ---------------------------------------------------------------------------
  // Query 1: providers and receivers per city

  /** One row of the UNION ALL subquery, and of the report: a city with a provider
      count and a receiver count. */
  datatype CityTally = CityTally(city: Option<string>, providers: int, receivers: int)

  function TallyCity(c: CityTally): Option<string> { c.city }
  function TallyProviders(c: CityTally): int { c.providers }
  function TallyReceivers(c: CityTally): int { c.receivers }

  /** A row of the providers half (receiver_count is the constant 0) ... */
  function ProviderTally(r: Row<Option<string>>): CityTally { CityTally(r.key, r.value, 0) }

  /** ... and of the receivers half (provider_count is 0). */
  function ReceiverTally(r: Row<Option<string>>): CityTally { CityTally(r.key, 0, r.value) }

  /** The subquery: COUNT(Provider_ID) per provider city UNION ALL COUNT(Receiver_ID)
      per receiver city. The ids are primary keys, never NULL, so COUNT of the id
      counts the rows. */
  function CityUnion(t: Tables): seq<CityTally> {
    Column(GroupBy(t.providers, ProviderCity, One), ProviderTally)
      + Column(GroupBy(t.receivers, ReceiverCity, One), ReceiverTally)
  }

  /** The outer GROUP BY city with its two SUMs, one row per key of ks. */
  function CityTotals(ks: seq<Option<string>>, u: seq<CityTally>): seq<CityTally> {
    seq(|ks|, i requires 0 <= i < |ks| =>
      CityTally(ks[i], SumWhere(u, TallyCity, ks[i], TallyProviders), SumWhere(u, TallyCity, ks[i], TallyReceivers)))
  }

  lemma {:induction false} ProviderTallySums(g: seq<Row<Option<string>>>, k: Option<string>)
    ensures SumWhere(Column(g, ProviderTally), TallyCity, k, TallyProviders) == SumWhere(g, RowKey, k, RowValue)
    ensures SumWhere(Column(g, ProviderTally), TallyCity, k, TallyReceivers) == 0
    decreases |g|
  {
    if g != [] {
      var front := g[..|g| - 1];
      assert Column(g, ProviderTally)[..|g| - 1] == Column(front, ProviderTally);
      assert Column(g, ProviderTally)[|g| - 1] == ProviderTally(g[|g| - 1]);
      ProviderTallySums(front, k);
    }
  }

  lemma {:induction false} ReceiverTallySums(g: seq<Row<Option<string>>>, k: Option<string>)
    ensures SumWhere(Column(g, ReceiverTally), TallyCity, k, TallyReceivers) == SumWhere(g, RowKey, k, RowValue)
    ensures SumWhere(Column(g, ReceiverTally), TallyCity, k, TallyProviders) == 0
    decreases |g|
  {
    if g != [] {
      var front := g[..|g| - 1];
      assert Column(g, ReceiverTally)[..|g| - 1] == Column(front, ReceiverTally);
      assert Column(g, ReceiverTally)[|g| - 1] == ReceiverTally(g[|g| - 1]);
      ReceiverTallySums(front, k);
    }
  }

  /** The cities of the union are the cities of either table, and summing a city's
      union rows gives its provider count and its receiver count. */
  lemma CityUnionFacts(t: Tables, k: Option<string>)
    ensures k in Column(CityUnion(t), TallyCity) <==> k in Column(t.providers, ProviderCity) || k in Column(t.receivers, ReceiverCity)
    ensures SumWhere(CityUnion(t), TallyCity, k, TallyProviders) == CountWhere(t.providers, ProviderCity, k)
    ensures SumWhere(CityUnion(t), TallyCity, k, TallyReceivers) == CountWhere(t.receivers, ReceiverCity, k)
  {
    var pg := GroupBy(t.providers, ProviderCity, One);
    var rg := GroupBy(t.receivers, ReceiverCity, One);
    var ps := Column(pg, ProviderTally);
    var rs := Column(rg, ReceiverTally);
    ColumnAppend(ps, rs, TallyCity);
    assert Column(ps, TallyCity) == Column(pg, RowKey);
    assert Column(rs, TallyCity) == Column(rg, RowKey);
    GroupKeys(pg, t.providers, ProviderCity, One);
    GroupKeys(rg, t.receivers, ReceiverCity, One);
    SumWhereAppend(ps, rs, TallyCity, k, TallyProviders);
    SumWhereAppend(ps, rs, TallyCity, k, TallyReceivers);
    ProviderTallySums(pg, k);
    ReceiverTallySums(rg, k);
    GroupingRegroup(pg, t.providers, ProviderCity, One, k);
    GroupingRegroup(rg, t.receivers, ReceiverCity, One, k);
  }

  lemma CityCountsFacts(t: Tables)
    ensures var r := SortDesc(CityTotals(DistinctKeys(CityUnion(t), TallyCity), CityUnion(t)), TallyProviders);
      && (forall k :: CountWhere(r, TallyCity, k)
            == if k in Column(t.providers, ProviderCity) || k in Column(t.receivers, ReceiverCity) then 1 else 0)
      && (forall c :: c in r ==>
            c.providers == CountWhere(t.providers, ProviderCity, c.city)
            && c.receivers == CountWhere(t.receivers, ReceiverCity, c.city))
  {
    var u := CityUnion(t);
    var ks := DistinctKeys(u, TallyCity);
    var totals := CityTotals(ks, u);
    var r := SortDesc(totals, TallyProviders);
    assert Column(totals, TallyCity) == ks;
    forall k ensures CountWhere(r, TallyCity, k)
                     == if k in Column(t.providers, ProviderCity) || k in Column(t.receivers, ReceiverCity) then 1 else 0
    {
      SortDescSumWhere(totals, TallyProviders, TallyCity, k, One);
      CountKeyed(totals, TallyCity, k);
      CityUnionFacts(t, k);
    }
    forall c | c in r ensures c.providers == CountWhere(t.providers, ProviderCity, c.city)
                           && c.receivers == CountWhere(t.receivers, ReceiverCity, c.city)
    {
      assert c in multiset(totals);
      CityUnionFacts(t, c.city);
    }
  }

  /** Query 1: one row for every city that occurs among the providers or among the
      receivers, and for no other; its counts are that city's number of providers
      and of receivers, 0 on the side where the city does not occur; rows come in
      non-increasing provider count. */
  function CityCounts(t: Tables): (r: seq<CityTally>)
    ensures forall k :: CountWhere(r, TallyCity, k)
              == if k in Column(t.providers, ProviderCity) || k in Column(t.receivers, ReceiverCity) then 1 else 0
    ensures forall c :: c in r ==>
              c.providers == CountWhere(t.providers, ProviderCity, c.city)
              && c.receivers == CountWhere(t.receivers, ReceiverCity, c.city)
    ensures forall c :: c in r && c.city !in Column(t.providers, ProviderCity) ==> c.providers == 0
    ensures forall c :: c in r && c.city !in Column(t.receivers, ReceiverCity) ==> c.receivers == 0
    ensures NonIncreasing(r, TallyProviders)
  {
    var u := CityUnion(t);
    CityCountsFacts(t);
    var r := SortDesc(CityTotals(DistinctKeys(u, TallyCity), u), TallyProviders);
    forall c | c in r ensures c.city !in Column(t.providers, ProviderCity) ==> c.providers == 0 {
      if c.city !in Column(t.providers, ProviderCity) {
        SumWhereAbsent(t.providers, ProviderCity, c.city, One);
      }
    }
    forall c | c in r ensures c.city !in Column(t.receivers, ReceiverCity) ==> c.receivers == 0 {
      if c.city !in Column(t.receivers, ReceiverCity) {
        SumWhereAbsent(t.receivers, ReceiverCity, c.city, One);
      }
    }
    r
  }

  // ---------------------------------------------------------------------------
  // Queries 2, 5, 6, 7, 12: single-table aggregates

  /** Query 2: one row per provider type with the total quantity listed under it,
      largest first; the totals add up to the quantity of all listings. */
  function ProviderTypeTotals(listings: seq<Listing>): (g: seq<Row<Option<string>>>)
    ensures IsGrouping(g, listings, ListingProviderType, ListingQuantity)
    ensures NonIncreasing(g, RowValue)
    ensures SumAll(g, RowValue) == SumAll(listings, ListingQuantity)
  {
    GroupByDescTotal(listings, ListingProviderType, ListingQuantity);
    GroupByDesc(listings, ListingProviderType, ListingQuantity)
  }

  /** The Quantity column as SUM sees it: every value present. */
  function QuantityCell(l: Listing): Option<int> { Some(l.quantity) }

  lemma {:induction false} QuantityCellsSum(listings: seq<Listing>)
    ensures SumAll(Column(listings, QuantityCell), OrZero) == SumAll(listings, ListingQuantity)
  {
    if listings != [] {
      ColumnCons(listings, QuantityCell);
      QuantityCellsSum(listings[1..]);
    }
  }

  /** Query 5: COALESCE(SUM(Quantity), 0) is the total quantity of all listings,
      and 0 when there are none. */
  function TotalAvailable(listings: seq<Listing>): (n: int)
    ensures n == SumAll(listings, ListingQuantity)
    ensures listings == [] ==> n == 0
  {
    SqlSumFacts(Column(listings, QuantityCell));
    QuantityCellsSum(listings);
    Coalesce(SqlSum(Column(listings, QuantityCell)), 0)
  }

  /** Query 6: the number of listings per city, largest first. */
  function ListingsPerCity(listings: seq<Listing>): (g: seq<Row<Option<string>>>)
    ensures IsGrouping(g, listings, ListingCity, One)
    ensures forall r :: r in g ==> r.value >= 1
    ensures SumAll(g, RowValue) == |listings|
    ensures NonIncreasing(g, RowValue)
  {
    CountByDesc(listings, ListingCity)
  }

  /** Query 7: the number of listings per food type, largest first. */
  function FoodTypeCounts(listings: seq<Listing>): (g: seq<Row<Option<string>>>)
    ensures IsGrouping(g, listings, ListingFoodType, One)
    ensures forall r :: r in g ==> r.value >= 1
    ensures SumAll(g, RowValue) == |listings|
    ensures NonIncreasing(g, RowValue)
  {
    CountByDesc(listings, ListingFoodType)
  }

  /** Query 12: the number of claims per meal type, largest first. */
  function MealTypeCounts(claims: seq<Claim>): (g: seq<Row<Option<string>>>)
    ensures IsGrouping(g, claims, ClaimMealType, One)
    ensures forall r :: r in g ==> r.value >= 1
    ensures SumAll(g, RowValue) == |claims|
    ensures NonIncreasing(g, RowValue)
  {
    CountByDesc(claims, ClaimMealType)
  }

  // ---------------------------------------------------------------------------
  // Query 3: provider contacts in a chosen city

  function CityIs(city: Option<string>): Provider -> bool {
    (p: Provider) => p.city == city
  }

  /** Query 3: with "All" chosen every provider is shown; otherwise exactly the
      providers whose City equals the chosen one, each as often as it occurs. */
  function ProviderContacts(providers: seq<Provider>, choice: string): (r: seq<Provider>)
    ensures choice == "All" ==> r == providers
    ensures choice != "All" ==> forall p :: multiset(r)[p] == if p.city == Some(choice) then multiset(providers)[p] else 0
  {
    if choice == "All" then providers else Where(providers, CityIs(Some(choice)))
  }

  // ---------------------------------------------------------------------------
  // Query 4: receivers by total quantity claimed

  /** ON c.Receiver_ID = r.Receiver_ID */
  predicate ClaimByReceiver(c: Claim, r: Receiver) { c.receiverId == r.id }

  /** ON c.Listing_ID = fl.Listing_ID, once the receiver is joined */
  predicate ReceiverClaimOnListing(cr: (Claim, Receiver), l: Listing) { cr.0.listingId == l.id }

  /** claims JOIN receivers JOIN food_listings */
  function ClaimRows(t: Tables): seq<((Claim, Receiver), Listing)> {
    Join(Join(t.claims, t.receivers, ClaimByReceiver), t.listings, ReceiverClaimOnListing)
  }

  function ClaimantName(x: ((Claim, Receiver), Listing)): Option<string> { x.0.1.name }
  function ClaimedQuantity(x: ((Claim, Receiver), Listing)): int { x.1.quantity }

  /** Query 4: one row per receiver name with the total quantity of the listings
      its claims point at, largest first; receivers sharing a name share a row. */
  function ReceiverClaimTotals(t: Tables): (g: seq<Row<Option<string>>>)
    ensures IsGrouping(g, ClaimRows(t), ClaimantName, ClaimedQuantity)
    ensures NonIncreasing(g, RowValue)
    ensures SumAll(g, RowValue) == SumAll(ClaimRows(t), ClaimedQuantity)
  {
    GroupByDescTotal(ClaimRows(t), ClaimantName, ClaimedQuantity);
    GroupByDesc(ClaimRows(t), ClaimantName, ClaimedQuantity)
  }

  function WithClaim(t: Tables, c: Claim): Tables {
    t.(claims := t.claims + [c])
  }

  /** A claim whose receiver or whose listing does not exist joins with nothing: the
      report is exactly as it was without it. */
  lemma DanglingClaimIgnored(t: Tables, c: Claim)
    requires c.receiverId !in Column(t.receivers, ReceiverId) || c.listingId !in Column(t.listings, ListingId)
    ensures ReceiverClaimTotals(WithClaim(t, c)) == ReceiverClaimTotals(t)
  {
    var inner := Join(t.claims, t.receivers, ClaimByReceiver);
    var m := Matches(c, t.receivers, ClaimByReceiver);
    JoinAppend(t.claims, [c], t.receivers, ClaimByReceiver);
    JoinOne(c, t.receivers, ClaimByReceiver);
    JoinAppend(inner, m, t.listings, ReceiverClaimOnListing);
    if c.receiverId !in Column(t.receivers, ReceiverId) {
      ColumnAbsent(t.receivers, ReceiverId, c.receiverId);
      MatchesNone(c, t.receivers, ClaimByReceiver);
    } else {
      ColumnAbsent(t.listings, ListingId, c.listingId);
      MatchesSound(c, t.receivers, ClaimByReceiver);
      forall i, j | 0 <= i < |m| && 0 <= j < |t.listings| ensures !ReceiverClaimOnListing(m[i], t.listings[j]) {
        assert m[i] in m;
      }
      JoinNone(m, t.listings, ReceiverClaimOnListing);
    }
    assert ClaimRows(WithClaim(t, c)) == ClaimRows(t);
  }

  /** With unique receiver and listing ids, a claim naming receiver i and listing j
      adds that listing's quantity to that receiver's name and changes no other
      name's total. */
  lemma ResolvedClaimCounted(t: Tables, c: Claim, i: nat, j: nat)
    requires Distinct(Column(t.receivers, ReceiverId)) && Distinct(Column(t.listings, ListingId))
    requires i < |t.receivers| && t.receivers[i].id == c.receiverId
    requires j < |t.listings| && t.listings[j].id == c.listingId
    ensures forall k :: ValueFor(ReceiverClaimTotals(WithClaim(t, c)), k)
              == ValueFor(ReceiverClaimTotals(t), k) + (if t.receivers[i].name == k then t.listings[j].quantity else 0)
  {
    var x := ((c, t.receivers[i]), t.listings[j]);
    DistinctColumnUnique(t.receivers, ReceiverId, i);
    DistinctColumnUnique(t.listings, ListingId, j);
    JoinAppendSingle(t.claims, c, t.receivers, ClaimByReceiver, i);
    JoinAppendSingle(Join(t.claims, t.receivers, ClaimByReceiver), (c, t.receivers[i]), t.listings, ReceiverClaimOnListing, j);
    assert ClaimRows(WithClaim(t, c)) == ClaimRows(t) + [x];
    forall k ensures ValueFor(ReceiverClaimTotals(WithClaim(t, c)), k)
                     == ValueFor(ReceiverClaimTotals(t), k) + (if t.receivers[i].name == k then t.listings[j].quantity else 0)
    {
      GroupingRegroup(ReceiverClaimTotals(WithClaim(t, c)), ClaimRows(WithClaim(t, c)), ClaimantName, ClaimedQuantity, k);
      GroupingRegroup(ReceiverClaimTotals(t), ClaimRows(t), ClaimantName, ClaimedQuantity, k);
      SumWhereAppend(ClaimRows(t), [x], ClaimantName, k, ClaimedQuantity);
      SumWhereOne(x, ClaimantName, k, ClaimedQuantity);
    }
  }

  // ---------------------------------------------------------------------------
  // Query 8: claims per food type

  /** ON c.Listing_ID = fl.Listing_ID */
  predicate ClaimForListing(c: Claim, l: Listing) { c.listingId == l.id }

  function ClaimedFoodType(x: (Claim, Listing)): Option<string> { x.1.foodType }

  /** Query 8: claims JOIN food_listings, one row per food type with its number of
      claims, largest first. Receivers are not joined, so a claim counts whether or
      not its receiver exists. */
  function ClaimsPerFoodType(t: Tables): (g: seq<Row<Option<string>>>)
    ensures IsGrouping(g, Join(t.claims, t.listings, ClaimForListing), ClaimedFoodType, One)
    ensures forall r :: r in g ==> r.value >= 1
    ensures NonIncreasing(g, RowValue)
  {
    CountByDesc(Join(t.claims, t.listings, ClaimForListing), ClaimedFoodType)
  }

  /** A claim whose listing does not exist is not counted. */
  lemma UnlistedClaimIgnored(t: Tables, c: Claim)
    requires c.listingId !in Column(t.listings, ListingId)
    ensures ClaimsPerFoodType(WithClaim(t, c)) == ClaimsPerFoodType(t)
  {
    ColumnAbsent(t.listings, ListingId, c.listingId);
    JoinAppendUnmatched(t.claims, c, t.listings, ClaimForListing);
  }

  /** With unique listing ids, a claim on listing j adds one to that listing's food
      type and to no other, whatever its receiver. */
  lemma ListedClaimCounted(t: Tables, c: Claim, j: nat)
    requires Distinct(Column(t.listings, ListingId))
    requires j < |t.listings| && t.listings[j].id == c.listingId
    ensures forall k :: ValueFor(ClaimsPerFoodType(WithClaim(t, c)), k)
              == ValueFor(ClaimsPerFoodType(t), k) + (if t.listings[j].foodType == k then 1 else 0)
  {
    var x := (c, t.listings[j]);
    var rows := Join(t.claims, t.listings, ClaimForListing);
    DistinctColumnUnique(t.listings, ListingId, j);
    JoinAppendSingle(t.claims, c, t.listings, ClaimForListing, j);
    forall k ensures ValueFor(ClaimsPerFoodType(WithClaim(t, c)), k)
                     == ValueFor(ClaimsPerFoodType(t), k) + (if t.listings[j].foodType == k then 1 else 0)
    {
      GroupingRegroup(ClaimsPerFoodType(WithClaim(t, c)), rows + [x], ClaimedFoodType, One, k);
      GroupingRegroup(ClaimsPerFoodType(t), rows, ClaimedFoodType, One, k);
      SumWhereAppend(rows, [x], ClaimedFoodType, k, One);
      SumWhereOne(x, ClaimedFoodType, k, One);
    }
  }

  // ---------------------------------------------------------------------------
  // Query 9: providers by number of Completed claims

  /** ON fl.Provider_ID = p.Provider_ID, once the claim and listing are joined */
  predicate ListingOfProvider(cl: (Claim, Listing), p: Provider) { cl.1.providerId == p.id }

  /** WHERE c.Status = 'Completed' */
  predicate IsCompleted(x: ((Claim, Listing), Provider)) { x.0.0.status == Some("Completed") }

  /** claims JOIN food_listings JOIN providers WHERE c.Status = 'Completed' */
  function SuccessRows(t: Tables): seq<((Claim, Listing), Provider)> {
    Where(Join(Join(t.claims, t.listings, ClaimForListing), t.providers, ListingOfProvider), IsCompleted)
  }

  function SuccessProvider(x: ((Claim, Listing), Provider)): Option<string> { x.1.name }

  /** Query 9: one row per provider name with its number of Completed claims,
      largest first; every row counted is a Completed claim. */
  function SuccessfulClaims(t: Tables): (g: seq<Row<Option<string>>>)
    ensures IsGrouping(g, SuccessRows(t), SuccessProvider, One)
    ensures forall x :: x in SuccessRows(t) ==> x.0.0.status == Some("Completed")
    ensures forall r :: r in g ==> r.value >= 1
    ensures NonIncreasing(g, RowValue)
  {
    WhereMembers(Join(Join(t.claims, t.listings, ClaimForListing), t.providers, ListingOfProvider), IsCompleted);
    CountByDesc(SuccessRows(t), SuccessProvider)
  }

  /** A claim whose status is anything but 'Completed' (Pending, Cancelled, NULL)
      leaves the report exactly as it was. */
  lemma UnsuccessfulClaimIgnored(t: Tables, c: Claim)
    requires c.status != Some("Completed")
    ensures SuccessfulClaims(WithClaim(t, c)) == SuccessfulClaims(t)
  {
    var inner := Join(t.claims, t.listings, ClaimForListing);
    var m := Matches(c, t.listings, ClaimForListing);
    var added := Join(m, t.providers, ListingOfProvider);
    JoinAppend(t.claims, [c], t.listings, ClaimForListing);
    JoinOne(c, t.listings, ClaimForListing);
    JoinAppend(inner, m, t.providers, ListingOfProvider);
    WhereAppend(Join(inner, t.providers, ListingOfProvider), added, IsCompleted);
    MatchesSound(c, t.listings, ClaimForListing);
    JoinPairs(m, t.providers, ListingOfProvider);
    WhereNone(added, IsCompleted);
    assert SuccessRows(WithClaim(t, c)) == SuccessRows(t) + [];
    assert SuccessRows(WithClaim(t, c)) == SuccessRows(t);
  }

  /** With unique listing and provider ids, a Completed claim on listing j whose
      provider is provider p adds one to that provider's name and to no other. */
  lemma CompletedClaimCounted(t: Tables, c: Claim, j: nat, p: nat)
    requires Distinct(Column(t.listings, ListingId)) && Distinct(Column(t.providers, ProviderId))
    requires c.status == Some("Completed")
    requires j < |t.listings| && t.listings[j].id == c.listingId
    requires p < |t.providers| && t.providers[p].id == t.listings[j].providerId
    ensures forall k :: ValueFor(SuccessfulClaims(WithClaim(t, c)), k)
              == ValueFor(SuccessfulClaims(t), k) + (if t.providers[p].name == k then 1 else 0)
  {
    var cl: (Claim, Listing) := (c, t.listings[j]);
    var x: ((Claim, Listing), Provider) := (cl, t.providers[p]);
    var inner := Join(t.claims, t.listings, ClaimForListing);
    DistinctColumnUnique(t.listings, ListingId, j);
    DistinctColumnUnique(t.providers, ProviderId, p);
    JoinAppendSingle(t.claims, c, t.listings, ClaimForListing, j);
    JoinAppendSingle(inner, cl, t.providers, ListingOfProvider, p);
    WhereAppend(Join(inner, t.providers, ListingOfProvider), [x], IsCompleted);
    assert Where([x], IsCompleted) == [x] by {
      assert [x][1..] == [];
    }
    assert SuccessRows(WithClaim(t, c)) == SuccessRows(t) + [x];
    forall k ensures ValueFor(SuccessfulClaims(WithClaim(t, c)), k)
                     == ValueFor(SuccessfulClaims(t), k) + (if t.providers[p].name == k then 1 else 0)
    {
      GroupingRegroup(SuccessfulClaims(WithClaim(t, c)), SuccessRows(t) + [x], SuccessProvider, One, k);
      GroupingRegroup(SuccessfulClaims(t), SuccessRows(t), SuccessProvider, One, k);
      SumWhereAppend(SuccessRows(t), [x], SuccessProvider, k, One);
      SumWhereOne(x, SuccessProvider, k, One);
    }
  }

  // ---------------------------------------------------------------------------
  // Query 13: total quantity donated per provider

  /** ON p.Provider_ID = fl.Provider_ID */
  predicate ProviderOfListing(p: Provider, l: Listing) { p.id == l.providerId }

  /** providers LEFT JOIN food_listings: a provider without listings stays, paired
      with NULL. */
  function DonorRows(t: Tables): seq<(Provider, Option<Listing>)> {
    LeftJoin(t.providers, t.listings, ProviderOfListing)
  }

  function DonorName(x: (Provider, Option<Listing>)): Option<string> { x.0.name }

  /** fl.Quantity of a joined row, NULL for a provider without listings. */
  function DonatedCell(x: (Provider, Option<Listing>)): Option<int> {
    if x.1.Some? then Some(x.1.value.quantity) else None
  }

  /** COALESCE(SUM(fl.Quantity), 0) skips the NULLs and gives 0 for a group of
      NULLs only (SqlSumFacts), so each row adds its quantity with NULL read as 0. */
  function DonatedQuantity(x: (Provider, Option<Listing>)): int { OrZero(DonatedCell(x)) }

  /** The reference total for a name: over the providers with that name, the
      quantities of the listings that carry their id. */
  function DonatedBy(providers: seq<Provider>, listings: seq<Listing>, k: Option<string>): int {
    if providers == [] then 0
    else (if providers[0].name == k then SumWhere(listings, ListingProvider, providers[0].id, ListingQuantity) else 0)
         + DonatedBy(providers[1..], listings, k)
  }

  /** Query 13: GROUP BY p.Name over the LEFT JOIN, largest total first. */
  function DonatedPerProvider(t: Tables): (g: seq<Row<Option<string>>>)
    ensures IsGrouping(g, DonorRows(t), DonorName, DonatedQuantity)
    ensures NonIncreasing(g, RowValue)
  {
    GroupByDesc(DonorRows(t), DonorName, DonatedQuantity)
  }

  lemma {:induction false} OptMatchesDonation(p: Provider, ls: seq<Listing>, k: Option<string>)
    ensures SumWhere(OptMatches(p, ls, ProviderOfListing), DonorName, k, DonatedQuantity)
         == if p.name == k then SumWhere(ls, ListingProvider, p.id, ListingQuantity) else 0
  {
    if ls != [] {
      var l := ls[0];
      var head: seq<(Provider, Option<Listing>)> := if ProviderOfListing(p, l) then [(p, Some(l))] else [];
      OptMatchesDonation(p, ls[1..], k);
      SumWhereAppend(head, OptMatches(p, ls[1..], ProviderOfListing), DonorName, k, DonatedQuantity);
      if ProviderOfListing(p, l) {
        SumWhereOne((p, Some(l)), DonorName, k, DonatedQuantity);
      }
      assert ls == [l] + ls[1..];
      SumWhereAppend([l], ls[1..], ListingProvider, p.id, ListingQuantity);
      SumWhereOne(l, ListingProvider, p.id, ListingQuantity);
    }
  }

  /** The LEFT JOIN rows of one provider carry, for its name, exactly the quantity
      of its listings (0 for the NULL row of a provider without listings). */
  lemma LeftMatchesDonation(p: Provider, ls: seq<Listing>, k: Option<string>)
    ensures SumWhere(LeftMatches(p, ls, ProviderOfListing), DonorName, k, DonatedQuantity)
         == if p.name == k then SumWhere(ls, ListingProvider, p.id, ListingQuantity) else 0
  {
    OptMatchesDonation(p, ls, k);
    if OptMatches(p, ls, ProviderOfListing) == [] {
      SumWhereOne((p, None), DonorName, k, DonatedQuantity);
    }
  }

  lemma {:induction false} LeftJoinDonation(providers: seq<Provider>, ls: seq<Listing>, k: Option<string>)
    ensures SumWhere(LeftJoin(providers, ls, ProviderOfListing), DonorName, k, DonatedQuantity)
         == DonatedBy(providers, ls, k)
  {
    if providers != [] {
      LeftJoinDonation(providers[1..], ls, k);
      LeftMatchesDonation(providers[0], ls, k);
      SumWhereAppend(LeftMatches(providers[0], ls, ProviderOfListing), LeftJoin(providers[1..], ls, ProviderOfListing),
                     DonorName, k, DonatedQuantity);
    }
  }

  /** The names in the LEFT JOIN are exactly the provider names. */
  lemma DonorNames(t: Tables)
    ensures forall k :: k in Column(DonorRows(t), DonorName) <==> k in Column(t.providers, ProviderName)
  {
    var rows := DonorRows(t);
    LeftJoinKeepsLeft(t.providers, t.listings, ProviderOfListing);
    forall k | k in Column(rows, DonorName) ensures k in Column(t.providers, ProviderName) {
      var i :| 0 <= i < |rows| && Column(rows, DonorName)[i] == k;
      assert DonorName(rows[i]) == k;
      assert Column(rows, Left)[i] == Left(rows[i]);
      assert rows[i].0 in Column(rows, Left);
      assert rows[i].0 in t.providers;
      var j :| 0 <= j < |t.providers| && t.providers[j] == rows[i].0;
      assert ProviderName(t.providers[j]) == k;
      assert Column(t.providers, ProviderName)[j] == k;
    }
    forall k | k in Column(t.providers, ProviderName) ensures k in Column(rows, DonorName) {
      var j :| 0 <= j < |t.providers| && Column(t.providers, ProviderName)[j] == k;
      assert ProviderName(t.providers[j]) == k;
      assert t.providers[j] in t.providers;
      assert t.providers[j] in Column(rows, Left);
      var i :| 0 <= i < |rows| && Column(rows, Left)[i] == t.providers[j];
      assert Left(rows[i]) == t.providers[j];
      assert DonorName(rows[i]) == ProviderName(t.providers[j]);
      assert Column(rows, DonorName)[i] == DonorName(rows[i]);
    }
  }

  /** Every provider name has a row and nothing else does, and the total shown for a
      name is the quantity of all listings of all providers with that name (0 when
      they have none). */
  lemma DonatedPerProviderValues(t: Tables)
    ensures forall k :: k in Column(DonatedPerProvider(t), RowKey) <==> k in Column(t.providers, ProviderName)
    ensures forall k :: ValueFor(DonatedPerProvider(t), k) == DonatedBy(t.providers, t.listings, k)
  {
    var g := DonatedPerProvider(t);
    GroupKeys(g, DonorRows(t), DonorName, DonatedQuantity);
    DonorNames(t);
    forall k ensures ValueFor(g, k) == DonatedBy(t.providers, t.listings, k) {
      GroupingRegroup(g, DonorRows(t), DonorName, DonatedQuantity, k);
      LeftJoinDonation(t.providers, t.listings, k);
    }
  }
}
