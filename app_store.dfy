/** The four write paths of app.py: Add Food (one transaction of one or two
    INSERTs), Update Quantity (UPDATE ... WHERE Listing_ID = ?), Delete Food
    (DELETE ... WHERE Listing_ID = ?) and Make Claim (one INSERT into claims). The
    database is an object holding the four tables; each page's action is a method
    on it, specified by a function of the tables before the action. */
module AppStore {
  import opened Sql
  import opened Schema

  // ---------------------------------------------------------------------------
  // Row ids

  function MaxOf(ids: seq<int>): (m: int)
    requires ids != []
    ensures m in ids
    ensures forall x :: x in ids ==> x <= m
  {
    if |ids| == 1 then ids[0]
    else
      var rest := MaxOf(ids[1..]);
      assert ids == [ids[0]] + ids[1..];
      if ids[0] >= rest then ids[0] else rest
  }

  /** The rowid SQLite gives a row inserted without one: one more than the largest
      rowid in the table, and 1 in an empty table. */
  function NextRowId(ids: seq<int>): (id: int)
    ensures id !in ids
    ensures forall x :: x in ids ==> x < id
    ensures ids == [] ==> id == 1
    ensures ids != [] ==> id - 1 in ids
  {
    if ids == [] then 1 else MaxOf(ids) + 1
  }

  // ---------------------------------------------------------------------------
  // Add Food

  /** The provider chosen on the Add Food form: "Create New" with the four text
      inputs, or the name of an existing provider (NULL for a provider whose Name
      is NULL, which the name-to-id dictionary keeps as a key). The form cannot
      produce Existing(Some("Create New")): choosing that entry takes the
      "Create New" branch, so that value stands for no submission. */
  datatype ProviderChoice =
    | CreateNew(name: string, providerType: string, city: string, contact: string)
    | Existing(provider: Option<string>)

  /** Whether the storage layer rejects one of the form's two INSERTs. */
  datatype InsertFault = NoFault | ProviderInsertFails | ListingInsertFails

  /** The form's name-to-id dictionary, built row by row, so a name held by several
      providers maps to the last of them: None when no provider has the name. */
  function NamedProviderId(providers: seq<Provider>, name: Option<string>): (id: Option<int>)
    ensures id.None? <==> name !in Column(providers, ProviderName)
    ensures id.Some? ==> exists i :: 0 <= i < |providers| && providers[i].name == name
                                   && providers[i].id == id.value
                                   && forall j :: i < j < |providers| ==> providers[j].name != name
    decreases |providers|
  {
    if providers == [] then None
    else
      var last := providers[|providers| - 1];
      var front := providers[..|providers| - 1];
      assert Column(providers, ProviderName) == Column(front, ProviderName) + [ProviderName(last)];
      if last.name == name then Some(last.id)
      else
        var id := NamedProviderId(front, name);
        assert id.Some? ==> exists i :: 0 <= i < |providers| - 1 && providers[i].name == name
                                   && providers[i].id == id.value
                                   && forall j :: i < j < |providers| ==> providers[j].name != name by {
          if id.Some? {
            var i :| 0 <= i < |front| && front[i].name == name && front[i].id == id.value
                     && forall j :: i < j < |front| ==> front[j].name != name;
            assert forall j :: i < j < |providers| - 1 ==> providers[j] == front[j];
          }
        }
        id
  }

  /** The Provider_Type the listing gets: a blank form field is stored as NULL. */
  function OptionalText(field: string): (v: Option<string>)
    ensures v.None? <==> field == ""
    ensures v.Some? ==> v.value == field
  {
    if field == "" then None else Some(field)
  }

  /** What a submitted Add Food form leaves in the database: None when the
      transaction does not commit (an INSERT fails, or the selected name is not
      a key of the form's dictionary), so nothing it did persists. */
  function AddFoodEffect(t: Tables, choice: ProviderChoice, foodType: string, quantity: int,
                         providerTypeField: string, location: string, fault: InsertFault): Option<Tables>
  {
    var providerStep :=
      match choice
      case CreateNew(name, ptype, city, contact) =>
        if fault == ProviderInsertFails then None
        else
          var pid := NextRowId(Column(t.providers, ProviderId));
          Some((t.providers + [Provider(pid, Some(name), Some(ptype), Some(city), Some(contact))], pid))
      case Existing(name) =>
        var pid := NamedProviderId(t.providers, name);
        if pid.None? then None else Some((t.providers, pid.value));
    if providerStep.None? || fault == ListingInsertFails then None
    else
      var (providers, pid) := providerStep.value;
      var listing := Listing(NextRowId(Column(t.listings, ListingId)), pid, Some(foodType), quantity,
                             OptionalText(providerTypeField), Some(location));
      Some(t.(providers := providers, listings := t.listings + [listing]))
  }

  /** The transaction commits exactly when neither INSERT fails and an existing name
      is one the dictionary knows; a committed form adds exactly one listing, adds a
      provider exactly for "Create New", and touches neither receivers nor claims. */
  lemma AddFoodCommits(t: Tables, choice: ProviderChoice, foodType: string, quantity: int,
                       providerTypeField: string, location: string, fault: InsertFault)
    ensures var r := AddFoodEffect(t, choice, foodType, quantity, providerTypeField, location, fault);
      && (r.Some? <==> fault != ListingInsertFails
                       && (if choice.CreateNew? then fault != ProviderInsertFails
                           else choice.provider in Column(t.providers, ProviderName)))
      && (r.Some? ==>
            && |r.value.listings| == |t.listings| + 1
            && r.value.listings[..|t.listings|] == t.listings
            && |r.value.providers| == |t.providers| + (if choice.CreateNew? then 1 else 0)
            && r.value.providers[..|t.providers|] == t.providers
            && r.value.receivers == t.receivers
            && r.value.claims == t.claims)
  {
    var r := AddFoodEffect(t, choice, foodType, quantity, providerTypeField, location, fault);
    if r.Some? {
      assert (t.listings + [r.value.listings[|t.listings|]])[..|t.listings|] == t.listings;
    }
  }

  /** With "Create New", the new provider gets an id no provider had, and the new
      listing carries that id, the form's food type, quantity and location, and
      NULL as its Provider_Type exactly when that field was left blank. */
  lemma AddFoodCreateNew(t: Tables, name: string, ptype: string, city: string, contact: string,
                         foodType: string, quantity: int, providerTypeField: string, location: string)
    requires quantity >= 1
    ensures var r := AddFoodEffect(t, CreateNew(name, ptype, city, contact), foodType, quantity,
                                   providerTypeField, location, NoFault);
      && r.Some?
      && var p := r.value.providers[|t.providers|];
      && var l := r.value.listings[|t.listings|];
      && p.id !in Column(t.providers, ProviderId)
      && p.name == Some(name) && p.providerType == Some(ptype) && p.city == Some(city)
      && p.contact == Some(contact)
      && l.id !in Column(t.listings, ListingId)
      && l.providerId == p.id
      && l.foodType == Some(foodType) && l.quantity == quantity && l.quantity >= 1
      && l.city == Some(location)
      && (l.providerType.None? <==> providerTypeField == "")
      && (l.providerType.Some? ==> l.providerType.value == providerTypeField)
  {
  }

  /** Choosing an existing provider adds no provider: the listing carries the id the
      dictionary gives that name, which is the id of the last provider having it,
      and the form's food type, quantity and location, with NULL as its
      Provider_Type exactly when that field was left blank. */
  lemma AddFoodExisting(t: Tables, name: Option<string>, foodType: string, quantity: int,
                        providerTypeField: string, location: string)
    requires name in Column(t.providers, ProviderName)
    ensures var r := AddFoodEffect(t, Existing(name), foodType, quantity, providerTypeField, location, NoFault);
      && r.Some?
      && r.value.providers == t.providers
      && var l := r.value.listings[|t.listings|];
      && l.id !in Column(t.listings, ListingId)
      && (exists i :: && 0 <= i < |t.providers| && t.providers[i].id == l.providerId
                      && t.providers[i].name == name
                      && forall j :: i < j < |t.providers| ==> t.providers[j].name != name)
      && l.foodType == Some(foodType) && l.quantity == quantity
      && l.city == Some(location)
      && (l.providerType.None? <==> providerTypeField == "")
      && (l.providerType.Some? ==> l.providerType.value == providerTypeField)
  {
  }

  /** Ids stay unique and quantities non-negative across a committed form. */
  lemma AddFoodKeepsInvariants(t: Tables, choice: ProviderChoice, foodType: string, quantity: int,
                               providerTypeField: string, location: string, fault: InsertFault)
    requires KeysUnique(t) && QuantitiesNonNegative(t.listings)
    requires quantity >= 1
    ensures var r := AddFoodEffect(t, choice, foodType, quantity, providerTypeField, location, fault);
      r.Some? ==> KeysUnique(r.value) && QuantitiesNonNegative(r.value.listings)
  {
    var r := AddFoodEffect(t, choice, foodType, quantity, providerTypeField, location, fault);
    if r.Some? {
      AddFoodCommits(t, choice, foodType, quantity, providerTypeField, location, fault);
      var newListing := r.value.listings[|t.listings|];
      assert r.value.listings == t.listings + [newListing];
      AppendFreshKeepsDistinct(t.listings, newListing, ListingId);
      if choice.CreateNew? {
        var newProvider := r.value.providers[|t.providers|];
        assert r.value.providers == t.providers + [newProvider];
        AppendFreshKeepsDistinct(t.providers, newProvider, ProviderId);
      }
    }
  }

  /** Appending a row whose key is new keeps a key column free of duplicates. */
  lemma AppendFreshKeepsDistinct<T>(rows: seq<T>, x: T, key: T -> int)
    requires Distinct(Column(rows, key))
    requires key(x) !in Column(rows, key)
    ensures Distinct(Column(rows + [x], key))
  {
    var c := Column(rows + [x], key);
    assert c == Column(rows, key) + [key(x)];
  }

  // ---------------------------------------------------------------------------
  // Update Quantity and Delete Food

  function ListingIdIs(id: int): Listing -> bool {
    (l: Listing) => l.id == id
  }

  function WithQuantity(q: int): Listing -> Listing {
    (l: Listing) => l.(quantity := q)
  }

  /** UPDATE food_listings SET Quantity = q WHERE Listing_ID = id. */
  function QuantityUpdated(listings: seq<Listing>, id: int, q: int): seq<Listing> {
    UpdateWhere(listings, ListingIdIs(id), WithQuantity(q))
  }

  /** Only the Quantity of the selected listing changes: every row keeps its place
      and every other column, and rows with another id are left as they were. */
  lemma UpdateChangesOnlyQuantity(listings: seq<Listing>, id: int, q: int)
    ensures var r := QuantityUpdated(listings, id, q);
      && |r| == |listings|
      && forall i :: 0 <= i < |listings| ==>
           && r[i].(quantity := 0) == listings[i].(quantity := 0)
           && r[i].quantity == (if listings[i].id == id then q else listings[i].quantity)
  {
  }

  /** Updating twice to the same quantity is the same as updating once, and an id no
      listing has leaves the table as it is. */
  lemma UpdateIdempotent(listings: seq<Listing>, id: int, q: int)
    ensures QuantityUpdated(QuantityUpdated(listings, id, q), id, q) == QuantityUpdated(listings, id, q)
    ensures id !in Column(listings, ListingId) ==> QuantityUpdated(listings, id, q) == listings
  {
    var once := QuantityUpdated(listings, id, q);
    var twice := QuantityUpdated(once, id, q);
    assert forall i :: 0 <= i < |listings| ==> twice[i] == once[i];
    if id !in Column(listings, ListingId) {
      forall i | 0 <= i < |listings| ensures once[i] == listings[i] {
        assert Column(listings, ListingId)[i] == ListingId(listings[i]);
      }
    }
  }

  /** An update to a non-negative quantity keeps the ids, so their uniqueness, and
      keeps every quantity non-negative. */
  lemma UpdateKeepsInvariants(listings: seq<Listing>, id: int, q: int)
    requires QuantitiesNonNegative(listings)
    requires q >= 0
    ensures Column(QuantityUpdated(listings, id, q), ListingId) == Column(listings, ListingId)
    ensures QuantitiesNonNegative(QuantityUpdated(listings, id, q))
  {
    var r := QuantityUpdated(listings, id, q);
    forall i | 0 <= i < |r| ensures Column(r, ListingId)[i] == Column(listings, ListingId)[i] {
      assert Column(r, ListingId)[i] == ListingId(r[i]);
      assert Column(listings, ListingId)[i] == ListingId(listings[i]);
    }
  }

  /** DELETE FROM food_listings WHERE Listing_ID = id. */
  function ListingDeleted(listings: seq<Listing>, id: int): seq<Listing> {
    DeleteWhere(listings, ListingIdIs(id))
  }

  /** After the delete no listing has the id, and every listing with another id is
      still there as often as before. */
  lemma DeleteRemovesOnlySelected(listings: seq<Listing>, id: int)
    ensures id !in Column(ListingDeleted(listings, id), ListingId)
    ensures forall l: Listing :: l.id != id ==> multiset(ListingDeleted(listings, id))[l] == multiset(listings)[l]
  {
    var r := ListingDeleted(listings, id);
    WhereMembers(listings, Not(ListingIdIs(id)));
    forall i | 0 <= i < |r| ensures Column(r, ListingId)[i] != id {
      assert r[i] in r;
      assert !ListingIdIs(id)(r[i]);
      assert Column(r, ListingId)[i] == ListingId(r[i]);
    }
  }

  /** A second identical delete changes nothing, and deleting an id no listing has
      leaves the table as it is. */
  lemma {:induction false} DeleteIdempotent(listings: seq<Listing>, id: int)
    ensures ListingDeleted(ListingDeleted(listings, id), id) == ListingDeleted(listings, id)
    ensures id !in Column(listings, ListingId) ==> ListingDeleted(listings, id) == listings
  {
    var once := ListingDeleted(listings, id);
    DeleteRemovesOnlySelected(listings, id);
    forall i | 0 <= i < |once| ensures Not(ListingIdIs(id))(once[i]) {
      assert Column(once, ListingId)[i] == ListingId(once[i]);
    }
    WhereAll(once, Not(ListingIdIs(id)));
    if id !in Column(listings, ListingId) {
      forall i | 0 <= i < |listings| ensures Not(ListingIdIs(id))(listings[i]) {
        assert Column(listings, ListingId)[i] == ListingId(listings[i]);
      }
      WhereAll(listings, Not(ListingIdIs(id)));
    }
  }

  /** Deleting keeps the listing ids unique and the quantities non-negative. */
  lemma DeleteKeepsInvariants(listings: seq<Listing>, id: int)
    requires Distinct(Column(listings, ListingId))
    requires QuantitiesNonNegative(listings)
    ensures Distinct(Column(ListingDeleted(listings, id), ListingId))
    ensures QuantitiesNonNegative(ListingDeleted(listings, id))
  {
    var r := ListingDeleted(listings, id);
    WhereMembers(listings, Not(ListingIdIs(id)));
    WhereKeepsDistinct(listings, Not(ListingIdIs(id)), ListingId);
    forall i | 0 <= i < |r| ensures r[i].quantity >= 0 {
      assert r[i] in r;
      var k :| 0 <= k < |listings| && listings[k] == r[i];
    }
  }

  // ---------------------------------------------------------------------------
  // Make Claim

  /** The status and meal type choices of the Make Claim form. */
  datatype ClaimStatus = Pending | Completed | Cancelled
  datatype MealType = Breakfast | Lunch | Dinner | Snacks

  function StatusText(s: ClaimStatus): string {
    match s
    case Pending => "Pending"
    case Completed => "Completed"
    case Cancelled => "Cancelled"
  }

  function MealText(m: MealType): string {
    match m
    case Breakfast => "Breakfast"
    case Lunch => "Lunch"
    case Dinner => "Dinner"
    case Snacks => "Snacks"
  }

  /** INSERT INTO claims (Receiver_ID, Listing_ID, Status, Meal_Type): one new claim,
      whatever its status, whatever the listing's quantity. */
  function ClaimInserted(claims: seq<Claim>, receiverId: int, listingId: int,
                         status: ClaimStatus, meal: MealType): seq<Claim> {
    claims + [Claim(NextRowId(Column(claims, ClaimId)), receiverId, listingId,
                    Some(StatusText(status)), Some(MealText(meal)))]
  }

  /** The claim table grows by exactly one claim with a fresh id, carrying the chosen
      receiver, listing, one of the three statuses and one of the four meal types;
      the claim ids stay unique. */
  lemma MakeClaimAppendsOne(claims: seq<Claim>, receiverId: int, listingId: int,
                            status: ClaimStatus, meal: MealType)
    ensures var r := ClaimInserted(claims, receiverId, listingId, status, meal);
      && |r| == |claims| + 1
      && r[..|claims|] == claims
      && var c := r[|claims|];
      && c.id !in Column(claims, ClaimId)
      && c.receiverId == receiverId && c.listingId == listingId
      && c.status.value in {"Pending", "Completed", "Cancelled"}
      && c.mealType.value in {"Breakfast", "Lunch", "Dinner", "Snacks"}
      && (Distinct(Column(claims, ClaimId)) ==> Distinct(Column(r, ClaimId)))
  {
    var r := ClaimInserted(claims, receiverId, listingId, status, meal);
    assert r[..|claims|] == claims;
    if Distinct(Column(claims, ClaimId)) {
      AppendFreshKeepsDistinct(claims, r[|claims|], ClaimId);
    }
  }

  /** Nothing checks the ids a claim names: the new claim resolves exactly when the
      chosen receiver and listing exist. */
  lemma MakeClaimResolves(t: Tables, receiverId: int, listingId: int, status: ClaimStatus, meal: MealType)
    requires ClaimsResolve(t)
    ensures ClaimsResolve(t.(claims := ClaimInserted(t.claims, receiverId, listingId, status, meal)))
            <==> receiverId in Column(t.receivers, ReceiverId) && listingId in Column(t.listings, ListingId)
  {
    var t' := t.(claims := ClaimInserted(t.claims, receiverId, listingId, status, meal));
    assert t'.claims[|t.claims|].receiverId == receiverId;
    assert forall i :: 0 <= i < |t.claims| ==> t'.claims[i] == t.claims[i];
  }

  /** Deleting a listing does not look at the claims: a claim on the deleted listing
      is left naming a listing that no longer exists. */
  lemma DeleteCanOrphanClaims()
    ensures var t := Tables([], [Receiver(1, Some("FoodBankNY"), Some("New York"), None)],
                            [Listing(1, 1, Some("Bread"), 50, Some("Grocery"), Some("New York"))],
                            [Claim(1, 1, 1, Some("Completed"), Some("Dinner"))]);
      && ClaimsResolve(t)
      && !ClaimsResolve(t.(listings := ListingDeleted(t.listings, 1)))
  {
    var t := Tables([], [Receiver(1, Some("FoodBankNY"), Some("New York"), None)],
                    [Listing(1, 1, Some("Bread"), 50, Some("Grocery"), Some("New York"))],
                    [Claim(1, 1, 1, Some("Completed"), Some("Dinner"))]);
    assert Column(t.receivers, ReceiverId)[0] == ReceiverId(t.receivers[0]);
    assert Column(t.listings, ListingId)[0] == ListingId(t.listings[0]);
    DeleteRemovesOnlySelected(t.listings, 1);
    assert t.claims[0].listingId == 1;
  }

  // ---------------------------------------------------------------------------
  // The database

  class FoodDatabase {
    var providers: seq<Provider>
    var receivers: seq<Receiver>
    var listings: seq<Listing>
    var claims: seq<Claim>

    constructor(t: Tables)
      ensures Snapshot() == t
    {
      providers, receivers, listings, claims := t.providers, t.receivers, t.listings, t.claims;
    }

    function Snapshot(): Tables
      reads this
    {
      Tables(providers, receivers, listings, claims)
    }

    /** Submit the Add Food form (quantity comes from a widget whose minimum is 1).
        The two INSERTs run on working copies that become the tables only at the
        commit; any failure before it leaves the database as it was. */
    method AddFood(choice: ProviderChoice, foodType: string, quantity: int, providerTypeField: string,
                   location: string, fault: InsertFault) returns (committed: bool)
      requires quantity >= 1
      modifies this
      ensures var effect := AddFoodEffect(old(Snapshot()), choice, foodType, quantity,
                                          providerTypeField, location, fault);
        && (committed <==> effect.Some?)
        && Snapshot() == (if committed then effect.value else old(Snapshot()))
    {
      var pendingProviders := providers;
      var providerId: int;
      if choice.CreateNew? {
        if fault == ProviderInsertFails {
          return false;
        }
        providerId := NextRowId(Column(pendingProviders, ProviderId));
        pendingProviders := pendingProviders
          + [Provider(providerId, Some(choice.name), Some(choice.providerType), Some(choice.city),
                      Some(choice.contact))];
      } else {
        var known := NamedProviderId(providers, choice.provider);
        if known.None? {
          return false;
        }
        providerId := known.value;
      }
      if fault == ListingInsertFails {
        return false;
      }
      var listingId := NextRowId(Column(listings, ListingId));
      var pendingListings := listings
        + [Listing(listingId, providerId, Some(foodType), quantity, OptionalText(providerTypeField),
                   Some(location))];
      providers, listings := pendingProviders, pendingListings;
      committed := true;
    }

    /** Update Quantity for the selected listing (the widget's minimum is 0). */
    method UpdateQuantity(id: int, q: int)
      requires q >= 0
      modifies this
      ensures listings == QuantityUpdated(old(listings), id, q)
      ensures providers == old(providers) && receivers == old(receivers) && claims == old(claims)
    {
      listings := QuantityUpdated(listings, id, q);
    }

    /** Delete Food for the selected listing; its claims are not touched. */
    method DeleteFood(id: int)
      modifies this
      ensures listings == ListingDeleted(old(listings), id)
      ensures providers == old(providers) && receivers == old(receivers) && claims == old(claims)
    {
      listings := ListingDeleted(listings, id);
    }

    /** Create Claim: one INSERT, no check of the status, the listing or its quantity. */
    method MakeClaim(receiverId: int, listingId: int, status: ClaimStatus, meal: MealType)
      modifies this
      ensures claims == ClaimInserted(old(claims), receiverId, listingId, status, meal)
      ensures providers == old(providers) && receivers == old(receivers) && listings == old(listings)
    {
      claims := ClaimInserted(claims, receiverId, listingId, status, meal);
    }
  }
}
