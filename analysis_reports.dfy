/** analysis.py: the stand-alone report script. Its queries 4, 7 and 8 are the same
    SQL as app.py's and are the functions of AppReports; the others differ from
    their app.py counterparts in their join, their NULL handling or a LIMIT 1. */
module AnalysisReports {
  import opened Sql
  import opened Schema
  import opened Joins
  import opened AppReports

  // ---------------------------------------------------------------------------
  // Query 1: providers LEFT JOIN receivers ON the city, distinct counts

  /** ON p.City = r.City: comparing with NULL is never true. */
  predicate SameCity(p: Provider, r: Receiver) { p.city.Some? && p.city == r.city }

  function CoverageRows(t: Tables): seq<(Provider, Option<Receiver>)> {
    LeftJoin(t.providers, t.receivers, SameCity)
  }

  function CoverageCity(x: (Provider, Option<Receiver>)): Option<string> { x.0.city }

  /** COUNT(DISTINCT p.Provider_ID) over the joined rows of city k. */
  function JoinedProviderIds(rows: seq<(Provider, Option<Receiver>)>, k: Option<string>): set<int> {
    set x | x in rows && CoverageCity(x) == k :: x.0.id
  }

  /** COUNT(DISTINCT r.Receiver_ID): the NULL of an unmatched provider is not counted. */
  function JoinedReceiverIds(rows: seq<(Provider, Option<Receiver>)>, k: Option<string>): set<int> {
    set x | x in rows && CoverageCity(x) == k && x.1.Some? :: x.1.value.id
  }

  datatype CityCoverage = CityCoverage(city: Option<string>, providers: int, receivers: int)

  function CoverageKey(c: CityCoverage): Option<string> { c.city }

  function CoverageTotals(ks: seq<Option<string>>, rows: seq<(Provider, Option<Receiver>)>): seq<CityCoverage> {
    seq(|ks|, i requires 0 <= i < |ks| =>
      CityCoverage(ks[i], |JoinedProviderIds(rows, ks[i])|, |JoinedReceiverIds(rows, ks[i])|))
  }

  /** The cities of the joined rows are the provider cities. */
  lemma CoverageCities(t: Tables)
    ensures forall k :: k in Column(CoverageRows(t), CoverageCity) <==> k in Column(t.providers, ProviderCity)
  {
    var rows := CoverageRows(t);
    LeftJoinKeepsLeft(t.providers, t.receivers, SameCity);
    LeftJoinPairs(t.providers, t.receivers, SameCity);
    forall k | k in Column(rows, CoverageCity) ensures k in Column(t.providers, ProviderCity) {
      var i :| 0 <= i < |rows| && Column(rows, CoverageCity)[i] == k;
      assert CoverageCity(rows[i]) == k;
      assert rows[i] in rows;
      var j :| 0 <= j < |t.providers| && t.providers[j] == rows[i].0;
      assert ProviderCity(t.providers[j]) == k;
      assert Column(t.providers, ProviderCity)[j] == k;
    }
    forall k | k in Column(t.providers, ProviderCity) ensures k in Column(rows, CoverageCity) {
      var j :| 0 <= j < |t.providers| && Column(t.providers, ProviderCity)[j] == k;
      assert ProviderCity(t.providers[j]) == k;
      assert t.providers[j] in t.providers;
      var i :| 0 <= i < |rows| && Column(rows, Left)[i] == t.providers[j];
      assert Left(rows[i]) == t.providers[j];
      assert Column(rows, CoverageCity)[i] == CoverageCity(rows[i]);
    }
  }

  /** The join fans a provider out over the receivers of its city, but the distinct
      provider ids of city k are exactly those of the providers in k. */
  lemma JoinedProvidersAreProviders(t: Tables, k: Option<string>)
    ensures JoinedProviderIds(CoverageRows(t), k) == IdsWhere(t.providers, ProviderId, ProviderCity, k)
  {
    var rows := CoverageRows(t);
    LeftJoinKeepsLeft(t.providers, t.receivers, SameCity);
    LeftJoinPairs(t.providers, t.receivers, SameCity);
    forall p | p in t.providers && ProviderCity(p) == k ensures p.id in JoinedProviderIds(rows, k) {
      var i :| 0 <= i < |rows| && Column(rows, Left)[i] == p;
      assert Left(rows[i]) == p;
      assert rows[i] in rows;
    }
  }

  /** For a provider city, the distinct receiver ids of the join are those of the
      receivers in that city, and none when the city is NULL. */
  lemma JoinedReceiversAreReceivers(t: Tables, k: Option<string>)
    requires k in Column(t.providers, ProviderCity)
    ensures JoinedReceiverIds(CoverageRows(t), k)
         == if k.Some? then IdsWhere(t.receivers, ReceiverId, ReceiverCity, k) else {}
  {
    var rows := CoverageRows(t);
    LeftJoinPairs(t.providers, t.receivers, SameCity);
    var i :| 0 <= i < |t.providers| && Column(t.providers, ProviderCity)[i] == k;
    assert ProviderCity(t.providers[i]) == k;
    forall r | k.Some? && r in t.receivers && ReceiverCity(r) == k ensures r.id in JoinedReceiverIds(rows, k) {
      var j :| 0 <= j < |t.receivers| && t.receivers[j] == r;
      assert SameCity(t.providers[i], t.receivers[j]);
      assert (t.providers[i], Some(r)) in rows;
    }
  }

  lemma ProviderCityCoverageFacts(t: Tables)
    ensures var r := CoverageTotals(DistinctKeys(CoverageRows(t), CoverageCity), CoverageRows(t));
      && (forall k :: CountWhere(r, CoverageKey, k) == if k in Column(t.providers, ProviderCity) then 1 else 0)
      && (forall c :: c in r ==> c.city in Column(t.providers, ProviderCity))
  {
    var rows := CoverageRows(t);
    var ks := DistinctKeys(rows, CoverageCity);
    var r := CoverageTotals(ks, rows);
    CoverageCities(t);
    assert Column(r, CoverageKey) == ks;
    forall k ensures CountWhere(r, CoverageKey, k) == if k in Column(t.providers, ProviderCity) then 1 else 0 {
      CountKeyed(r, CoverageKey, k);
    }
    forall c | c in r ensures c.city in Column(t.providers, ProviderCity) {
      var i :| 0 <= i < |r| && r[i] == c;
      assert ks[i] in ks;
    }
  }

  /** Query 1: one row for every city that has a provider and for no other (a city
      with receivers only is absent); the provider count is the number of distinct
      providers there, the receiver count the number of distinct receivers there,
      and 0 for the NULL city, which matches no receiver. */
  function ProviderCityCoverage(t: Tables): (r: seq<CityCoverage>)
    ensures forall k :: CountWhere(r, CoverageKey, k) == if k in Column(t.providers, ProviderCity) then 1 else 0
    ensures forall c :: c in r ==> c.city in Column(t.providers, ProviderCity)
    ensures forall c :: c in r ==>
              c.providers == |IdsWhere(t.providers, ProviderId, ProviderCity, c.city)|
    ensures forall c :: c in r ==>
              c.receivers == if c.city.Some? then |IdsWhere(t.receivers, ReceiverId, ReceiverCity, c.city)| else 0
  {
    var rows := CoverageRows(t);
    var r := CoverageTotals(DistinctKeys(rows, CoverageCity), rows);
    ProviderCityCoverageFacts(t);
    forall c | c in r ensures
      && c.providers == |IdsWhere(t.providers, ProviderId, ProviderCity, c.city)|
      && c.receivers == if c.city.Some? then |IdsWhere(t.receivers, ReceiverId, ReceiverCity, c.city)| else 0
    {
      JoinedProvidersAreProviders(t, c.city);
      JoinedReceiversAreReceivers(t, c.city);
    }
    r
  }

  /** app.py's query 1 has a row for every provider city, with its two counts. */
  lemma CityCountsRow(t: Tables, k: Option<string>)
    requires k in Column(t.providers, ProviderCity)
    ensures CityTally(k, CountWhere(t.providers, ProviderCity, k), CountWhere(t.receivers, ReceiverCity, k)) in CityCounts(t)
  {
    var a := CityCounts(t);
    assert CountWhere(a, TallyCity, k) == 1;
    CountedKeyOccurs(a, TallyCity, k);
    var i :| 0 <= i < |a| && TallyCity(a[i]) == k;
    assert a[i] in a;
  }

  lemma CoverageRowCounts(t: Tables, c: CityCoverage)
    requires Distinct(Column(t.providers, ProviderId)) && Distinct(Column(t.receivers, ReceiverId))
    requires c in ProviderCityCoverage(t)
    ensures c.providers == CountWhere(t.providers, ProviderCity, c.city)
    ensures c.city.Some? ==> c.receivers == CountWhere(t.receivers, ReceiverCity, c.city)
    ensures c.city in Column(t.providers, ProviderCity)
  {
    DistinctIdCount(t.providers, ProviderId, ProviderCity, c.city);
    DistinctIdCount(t.receivers, ReceiverId, ReceiverCity, c.city);
  }

  /** With unique ids the distinct counts are plain counts, so for every non-NULL
      provider city the row agrees with app.py's query 1. */
  lemma CoverageAgreesWithCityCounts(t: Tables)
    requires Distinct(Column(t.providers, ProviderId)) && Distinct(Column(t.receivers, ReceiverId))
    ensures forall c :: c in ProviderCityCoverage(t) ==> c.providers == CountWhere(t.providers, ProviderCity, c.city)
    ensures forall c :: c in ProviderCityCoverage(t) && c.city.Some? ==>
              c.receivers == CountWhere(t.receivers, ReceiverCity, c.city)
              && CityTally(c.city, c.providers, c.receivers) in CityCounts(t)
  {
    forall c | c in ProviderCityCoverage(t) ensures
      && c.providers == CountWhere(t.providers, ProviderCity, c.city)
      && (c.city.Some? ==> c.receivers == CountWhere(t.receivers, ReceiverCity, c.city)
                           && CityTally(c.city, c.providers, c.receivers) in CityCounts(t))
    {
      CoverageRowCounts(t, c);
      CityCountsRow(t, c.city);
    }
  }

  /** The two reports differ at the NULL city: app.py's receivers half groups the
      receivers whose City is NULL into one row, while ON p.City = r.City matches
      no receiver to a provider whose City is NULL. One provider and one receiver,
      both without a city, show it. */
  lemma NullCityRowsDiffer()
    ensures var t := Tables([Provider(1, Some("P"), None, None, None)], [Receiver(2, Some("R"), None, None)], [], []);
      && CityCoverage(None, 1, 0) in ProviderCityCoverage(t)
      && CityTally(None, 1, 1) in CityCounts(t)
  {
    var t := Tables([Provider(1, Some("P"), None, None, None)], [Receiver(2, Some("R"), None, None)], [], []);
    assert Column(t.providers, ProviderCity)[0] == ProviderCity(t.providers[0]);
    assert Column(t.receivers, ReceiverCity)[0] == ReceiverCity(t.receivers[0]);
    var r := ProviderCityCoverage(t);
    assert CountWhere(r, CoverageKey, None) == 1;
    CountedKeyOccurs(r, CoverageKey, None);
    var i :| 0 <= i < |r| && CoverageKey(r[i]) == None;
    assert r[i] in r;
    assert t.providers[0] in t.providers;
    assert IdsWhere(t.providers, ProviderId, ProviderCity, None) == {1};
    assert r[i] == CityCoverage(None, 1, 0);
    var a := CityCounts(t);
    assert CountWhere(a, TallyCity, None) == 1;
    CountedKeyOccurs(a, TallyCity, None);
    var j :| 0 <= j < |a| && TallyCity(a[j]) == None;
    assert a[j] in a;
    assert CountWhere(t.providers, ProviderCity, None) == 1;
    assert CountWhere(t.receivers, ReceiverCity, None) == 1;
    assert a[j] == CityTally(None, 1, 1);
  }

  // ---------------------------------------------------------------------------
  // Queries 2, 6, 9, 12: the top group only (ORDER BY ... DESC LIMIT 1)

  /** Query 2: the provider type with the largest total quantity, or no row when
      there are no listings. */
  function TopProviderType(listings: seq<Listing>): (top: seq<Row<Option<string>>>)
    ensures IsTopGroup(top, listings, ListingProviderType, ListingQuantity)
  {
    TopGroup(listings, ListingProviderType, ListingQuantity);
    Limit(ProviderTypeTotals(listings), 1)
  }

  /** Query 6: the city with the most listings. */
  function TopListingCity(listings: seq<Listing>): (top: seq<Row<Option<string>>>)
    ensures IsTopGroup(top, listings, ListingCity, One)
  {
    TopGroup(listings, ListingCity, One);
    Limit(ListingsPerCity(listings), 1)
  }

  /** Query 9: the provider name with the most Completed claims; no row when no
      Completed claim reaches an existing listing and provider. */
  function TopSuccessfulProvider(t: Tables): (top: seq<Row<Option<string>>>)
    ensures IsTopGroup(top, SuccessRows(t), SuccessProvider, One)
  {
    TopGroup(SuccessRows(t), SuccessProvider, One);
    Limit(SuccessfulClaims(t), 1)
  }

  /** Query 12: the meal type claimed most often. */
  function TopMealType(claims: seq<Claim>): (top: seq<Row<Option<string>>>)
    ensures IsTopGroup(top, claims, ClaimMealType, One)
  {
    TopGroup(claims, ClaimMealType, One);
    Limit(MealTypeCounts(claims), 1)
  }

  // ---------------------------------------------------------------------------
  // Query 3: contacts of the providers in New York

  function NameAndContact(p: Provider): (Option<string>, Option<string>) { (p.name, p.contact) }

  /** Query 3: exactly the (Name, Contact) pairs of the providers whose City is
      'New York'. */
  function NewYorkContacts(providers: seq<Provider>): (r: seq<(Option<string>, Option<string>)>)
    ensures forall x :: x in r <==> exists p :: p in providers && p.city == Some("New York") && x == NameAndContact(p)
  {
    var w := Where(providers, CityIs(Some("New York")));
    WhereMembers(providers, CityIs(Some("New York")));
    var r := Column(w, NameAndContact);
    forall x | x in r ensures exists p :: p in providers && p.city == Some("New York") && x == NameAndContact(p) {
      var i :| 0 <= i < |w| && r[i] == x;
      assert w[i] in w;
    }
    forall p | p in providers && p.city == Some("New York") ensures NameAndContact(p) in r {
      assert p in w;
      var i :| 0 <= i < |w| && w[i] == p;
      assert r[i] == NameAndContact(p);
    }
    r
  }

  // ---------------------------------------------------------------------------
  // Query 5: a bare SUM

  /** Query 5: SUM(Quantity) is NULL over no listings and otherwise the total; it
      agrees with app.py's COALESCE version on every table except for NULL versus
      0 on the empty one. */
  function TotalOrNull(listings: seq<Listing>): (s: Option<int>)
    ensures s.None? <==> listings == []
    ensures s.Some? ==> s.value == SumAll(listings, ListingQuantity)
    ensures Coalesce(s, 0) == TotalAvailable(listings)
  {
    var cells := Column(listings, QuantityCell);
    SqlSumFacts(cells);
    QuantityCellsSum(listings);
    assert listings != [] ==> cells[0] == QuantityCell(listings[0]);
    SqlSum(cells)
  }

  // ---------------------------------------------------------------------------
  // Query 13: food_listings JOIN providers

  /** ON f.Provider_ID = p.Provider_ID */
  predicate ListingByProvider(l: Listing, p: Provider) { l.providerId == p.id }

  function ListedRows(t: Tables): seq<(Listing, Provider)> {
    Join(t.listings, t.providers, ListingByProvider)
  }

  function ListedDonor(x: (Listing, Provider)): Option<string> { x.1.name }
  function ListedQuantity(x: (Listing, Provider)): int { x.0.quantity }

  /** Query 13: per provider name, the quantity of the listings that join an existing
      provider, largest first. Every group holds at least one joined row, so the
      bare SUM is never NULL here. */
  function ListedDonations(t: Tables): (g: seq<Row<Option<string>>>)
    ensures IsGrouping(g, ListedRows(t), ListedDonor, ListedQuantity)
    ensures NonIncreasing(g, RowValue)
  {
    GroupByDesc(ListedRows(t), ListedDonor, ListedQuantity)
  }

  /** The provider of a listing at index i is the provider at index j. */
  predicate Owns(t: Tables, i: int, j: int) {
    0 <= i < |t.listings| && 0 <= j < |t.providers| && t.listings[i].providerId == t.providers[j].id
  }

  lemma ListedNamesOwned(t: Tables, k: Option<string>)
    requires k in Column(ListedRows(t), ListedDonor)
    ensures exists i, j :: Owns(t, i, j) && t.providers[j].name == k
  {
    var rows := ListedRows(t);
    JoinPairs(t.listings, t.providers, ListingByProvider);
    var n :| 0 <= n < |rows| && Column(rows, ListedDonor)[n] == k;
    assert rows[n] in rows;
    var i :| 0 <= i < |t.listings| && t.listings[i] == rows[n].0;
    var j :| 0 <= j < |t.providers| && t.providers[j] == rows[n].1;
    assert ListedDonor(rows[n]) == k;
    assert Owns(t, i, j);
  }

  lemma OwnedNamesListed(t: Tables, i: int, j: int)
    requires Owns(t, i, j)
    ensures t.providers[j].name in Column(ListedRows(t), ListedDonor)
  {
    var rows := ListedRows(t);
    JoinPairs(t.listings, t.providers, ListingByProvider);
    var x := (t.listings[i], t.providers[j]);
    assert x in rows;
    var n :| 0 <= n < |rows| && rows[n] == x;
    assert Column(rows, ListedDonor)[n] == ListedDonor(x);
  }

  /** A name has a row exactly when some provider with that name has a listing
      carrying its id. */
  lemma ListedDonationNames(t: Tables)
    ensures forall k :: k in Column(ListedDonations(t), RowKey) <==>
      exists i, j :: Owns(t, i, j) && t.providers[j].name == k
  {
    GroupKeys(ListedDonations(t), ListedRows(t), ListedDonor, ListedQuantity);
    forall k | k in Column(ListedRows(t), ListedDonor) ensures exists i, j :: Owns(t, i, j) && t.providers[j].name == k {
      ListedNamesOwned(t, k);
    }
    forall i, j | Owns(t, i, j) ensures t.providers[j].name in Column(ListedRows(t), ListedDonor) {
      OwnedNamesListed(t, i, j);
    }
  }

  /** WHERE the listing's provider exists. */
  function HasProvider(providers: seq<Provider>): Listing -> bool {
    (l: Listing) => l.providerId in Column(providers, ProviderId)
  }

  lemma {:induction false} ListedRowsTotal(ls: seq<Listing>, ps: seq<Provider>)
    requires Distinct(Column(ps, ProviderId))
    ensures SumAll(Join(ls, ps, ListingByProvider), ListedQuantity) == SumAll(Where(ls, HasProvider(ps)), ListingQuantity)
  {
    if ls != [] {
      var l := ls[0];
      ListedRowsTotal(ls[1..], ps);
      SumAllAppend(Matches(l, ps, ListingByProvider), Join(ls[1..], ps, ListingByProvider), ListedQuantity);
      var head: seq<Listing> := if HasProvider(ps)(l) then [l] else [];
      SumAllAppend(head, Where(ls[1..], HasProvider(ps)), ListingQuantity);
      if HasProvider(ps)(l) {
        var j :| 0 <= j < |ps| && Column(ps, ProviderId)[j] == l.providerId;
        assert ProviderId(ps[j]) == l.providerId;
        DistinctColumnUnique(ps, ProviderId, j);
        MatchesSingle(l, ps, ListingByProvider, j);
      } else {
        ColumnAbsent(ps, ProviderId, l.providerId);
        MatchesNone(l, ps, ListingByProvider);
      }
    }
  }

  /** With unique provider ids, the totals add up to the quantity of the listings
      whose provider exists; listings with a dangling Provider_ID are left out. */
  lemma ListedDonationsTotal(t: Tables)
    requires Distinct(Column(t.providers, ProviderId))
    ensures SumAll(ListedDonations(t), RowValue) == SumAll(Where(t.listings, HasProvider(t.providers)), ListingQuantity)
  {
    GroupByDescTotal(ListedRows(t), ListedDonor, ListedQuantity);
    ListedRowsTotal(t.listings, t.providers);
  }

  lemma {:induction false} DonatedByNothing(providers: seq<Provider>, listings: seq<Listing>, k: Option<string>)
    requires forall p :: p in providers && p.name == k ==> p.id !in Column(listings, ListingProvider)
    ensures DonatedBy(providers, listings, k) == 0
  {
    if providers != [] {
      assert providers[0] in providers;
      assert forall p :: p in providers[1..] ==> p in providers;
      DonatedByNothing(providers[1..], listings, k);
      if providers[0].name == k {
        SumWhereAbsent(listings, ListingProvider, providers[0].id, ListingQuantity);
      }
    }
  }

  /** The two query 13s differ on a name whose providers have no listings: app.py's
      LEFT JOIN shows it with 0, this inner join leaves it out. */
  lemma DonorWithoutListings(t: Tables, k: Option<string>)
    requires k in Column(t.providers, ProviderName)
    requires forall p :: p in t.providers && p.name == k ==> p.id !in Column(t.listings, ListingProvider)
    ensures k in Column(DonatedPerProvider(t), RowKey) && ValueFor(DonatedPerProvider(t), k) == 0
    ensures k !in Column(ListedDonations(t), RowKey)
  {
    DonatedPerProviderValues(t);
    DonatedByNothing(t.providers, t.listings, k);
    ListedDonationNames(t);
    forall i, j | 0 <= i < |t.listings| && 0 <= j < |t.providers| && t.providers[j].name == k
      ensures !Owns(t, i, j)
    {
      assert t.providers[j] in t.providers;
      assert Column(t.listings, ListingProvider)[i] == t.listings[i].providerId;
    }
  }
}
