/** The four tables of the application's database as app.py and analysis.py use
    them (queries.py reads the database create_db.py rewrites, whose rows are
    those of Crud). Primary keys (Provider_ID, Receiver_ID, Listing_ID,
    Claim_ID) are INTEGER PRIMARY KEY columns, so never NULL; every TEXT column
    is nullable. */
module Schema {
  import opened Sql

  datatype Provider = Provider(id: int, name: Option<string>, providerType: Option<string>,
                               city: Option<string>, contact: Option<string>)

  datatype Receiver = Receiver(id: int, name: Option<string>, city: Option<string>, contact: Option<string>)

  datatype Listing = Listing(id: int, providerId: int, foodType: Option<string>, quantity: int,
                             providerType: Option<string>, city: Option<string>)

  datatype Claim = Claim(id: int, receiverId: int, listingId: int, status: Option<string>,
                         mealType: Option<string>)

  /** The whole database. */
  datatype Tables = Tables(providers: seq<Provider>, receivers: seq<Receiver>,
                           listings: seq<Listing>, claims: seq<Claim>)

  // Columns, as functions that the aggregates take.
  function ProviderId(p: Provider): int { p.id }
  function ProviderName(p: Provider): Option<string> { p.name }
  function ProviderCity(p: Provider): Option<string> { p.city }
  function ReceiverId(r: Receiver): int { r.id }
  function ReceiverCity(r: Receiver): Option<string> { r.city }
  function ListingId(l: Listing): int { l.id }
  function ListingProvider(l: Listing): int { l.providerId }
  function ListingQuantity(l: Listing): int { l.quantity }
  function ListingCity(l: Listing): Option<string> { l.city }
  function ListingFoodType(l: Listing): Option<string> { l.foodType }
  function ListingProviderType(l: Listing): Option<string> { l.providerType }
  function ClaimId(c: Claim): int { c.id }
  function ClaimMealType(c: Claim): Option<string> { c.mealType }

  /** The primary-key constraint of each table. */
  predicate KeysUnique(t: Tables) {
    && Distinct(Column(t.providers, ProviderId))
    && Distinct(Column(t.receivers, ReceiverId))
    && Distinct(Column(t.listings, ListingId))
    && Distinct(Column(t.claims, ClaimId))
  }

  /** No listing has a negative quantity. */
  predicate QuantitiesNonNegative(listings: seq<Listing>) {
    forall i :: 0 <= i < |listings| ==> listings[i].quantity >= 0
  }

  /** Every claim names an existing receiver and an existing listing (nothing in the
      database enforces this). */
  predicate ClaimsResolve(t: Tables) {
    forall i :: 0 <= i < |t.claims| ==>
      && t.claims[i].receiverId in Column(t.receivers, ReceiverId)
      && t.claims[i].listingId in Column(t.listings, ListingId)
  }
}
