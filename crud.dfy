/** crud.py: three in-place operations on food_listings as create_db.py leaves it.
    That table is written by pandas' to_sql(if_exists="replace"), which replaces
    the CREATE TABLE with a schema of its own, so Food_ID is an ordinary nullable
    column and every column holds whatever value was bound. */
module Crud {
  import opened Sql

  datatype FoodRow = FoodRow(foodId: Option<int>, foodName: Option<string>, quantity: Option<int>,
                             expiryDate: Option<string>, providerId: Option<int>,
                             providerType: Option<string>, location: Option<string>,
                             foodType: Option<string>, mealType: Option<string>)

  /** The eight values add_food binds, in its column order. */
  datatype NewFood = NewFood(foodName: Option<string>, quantity: Option<int>, expiryDate: Option<string>,
                             providerId: Option<int>, providerType: Option<string>,
                             location: Option<string>, foodType: Option<string>,
                             mealType: Option<string>)

  /** The row INSERT makes of them: no Food_ID is given, so it is NULL. */
  function RowOf(f: NewFood): FoodRow {
    FoodRow(None, f.foodName, f.quantity, f.expiryDate, f.providerId, f.providerType, f.location,
            f.foodType, f.mealType)
  }

  /** WHERE Food_ID = ?: NULL = id is never true. */
  function FoodIdIs(id: int): FoodRow -> bool {
    (r: FoodRow) => r.foodId == Some(id)
  }

  function WithQuantity(q: Option<int>): FoodRow -> FoodRow {
    (r: FoodRow) => r.(quantity := q)
  }

  function FoodIdOf(r: FoodRow): Option<int> { r.foodId }

  function FoodIds(rows: seq<FoodRow>): seq<Option<int>> {
    Column(rows, FoodIdOf)
  }

  /** UPDATE food_listings SET Quantity = q WHERE Food_ID = id. */
  function QuantitySet(rows: seq<FoodRow>, id: int, q: Option<int>): seq<FoodRow> {
    UpdateWhere(rows, FoodIdIs(id), WithQuantity(q))
  }

  /** DELETE FROM food_listings WHERE Food_ID = id. */
  function FoodDeleted(rows: seq<FoodRow>, id: int): seq<FoodRow> {
    DeleteWhere(rows, FoodIdIs(id))
  }

  /** Every row with that Food_ID now has the new quantity, whatever it is (no
      range is checked); every row keeps its place and all its other columns, and
      rows with another Food_ID are unchanged. */
  lemma QuantitySetOnlyTarget(rows: seq<FoodRow>, id: int, q: Option<int>)
    ensures var r := QuantitySet(rows, id, q);
      && |r| == |rows|
      && forall i :: 0 <= i < |rows| ==>
           && r[i].(quantity := None) == rows[i].(quantity := None)
           && (rows[i].foodId == Some(id) ==> r[i].quantity == q)
           && (rows[i].foodId != Some(id) ==> r[i] == rows[i])
  {
  }

  /** A row whose Food_ID is NULL or another id is never selected, so an id no row
      has leaves the table unchanged; a second identical update changes nothing. */
  lemma QuantitySetIdempotent(rows: seq<FoodRow>, id: int, q: Option<int>)
    ensures QuantitySet(QuantitySet(rows, id, q), id, q) == QuantitySet(rows, id, q)
    ensures Some(id) !in FoodIds(rows) ==> QuantitySet(rows, id, q) == rows
  {
    var once := QuantitySet(rows, id, q);
    assert forall i :: 0 <= i < |rows| ==> QuantitySet(once, id, q)[i] == once[i];
    if Some(id) !in FoodIds(rows) {
      forall i | 0 <= i < |rows| ensures once[i] == rows[i] {
        assert FoodIds(rows)[i] == FoodIdOf(rows[i]);
      }
    }
  }

  /** After the delete no row has that Food_ID, and every other row is kept as often
      as it was. */
  lemma FoodDeletedOnlyTarget(rows: seq<FoodRow>, id: int)
    ensures Some(id) !in FoodIds(FoodDeleted(rows, id))
    ensures forall x: FoodRow :: x.foodId != Some(id) ==> multiset(FoodDeleted(rows, id))[x] == multiset(rows)[x]
  {
    var r := FoodDeleted(rows, id);
    WhereMembers(rows, Not(FoodIdIs(id)));
    forall i | 0 <= i < |r| ensures FoodIds(r)[i] != Some(id) {
      assert r[i] in r;
      assert !FoodIdIs(id)(r[i]);
      assert FoodIds(r)[i] == FoodIdOf(r[i]);
    }
  }

  /** Deleting an id no row has changes nothing; a second identical delete changes
      nothing. */
  lemma {:induction false} FoodDeletedIdempotent(rows: seq<FoodRow>, id: int)
    ensures FoodDeleted(FoodDeleted(rows, id), id) == FoodDeleted(rows, id)
    ensures Some(id) !in FoodIds(rows) ==> FoodDeleted(rows, id) == rows
  {
    var once := FoodDeleted(rows, id);
    FoodDeletedOnlyTarget(rows, id);
    forall i | 0 <= i < |once| ensures Not(FoodIdIs(id))(once[i]) {
      assert FoodIds(once)[i] == FoodIdOf(once[i]);
    }
    WhereAll(once, Not(FoodIdIs(id)));
    if Some(id) !in FoodIds(rows) {
      forall i | 0 <= i < |rows| ensures Not(FoodIdIs(id))(rows[i]) {
        assert FoodIds(rows)[i] == FoodIdOf(rows[i]);
      }
      WhereAll(rows, Not(FoodIdIs(id)));
    }
  }

  /** A row add_food inserted carries a NULL Food_ID, so no later update or delete
      through crud.py can reach it. */
  lemma AddedRowUnreachable(rows: seq<FoodRow>, f: NewFood, id: int, q: Option<int>)
    ensures var added := rows + [RowOf(f)];
      && QuantitySet(added, id, q)[|rows|] == RowOf(f)
      && multiset(FoodDeleted(added, id))[RowOf(f)] == multiset(added)[RowOf(f)]
  {
  }

  /** The food_listings table of crud.py's database. */
  class FoodListingTable {
    var rows: seq<FoodRow>

    constructor(initial: seq<FoodRow>)
      ensures rows == initial
    {
      rows := initial;
    }

    /** add_food: the table grows by exactly one row, the eight given values under a
        NULL Food_ID, and every earlier row stays where it was. */
    method AddFood(f: NewFood)
      modifies this
      ensures rows == old(rows) + [RowOf(f)]
    {
      rows := rows + [RowOf(f)];
    }

    method UpdateFoodQuantity(id: int, q: Option<int>)
      modifies this
      ensures rows == QuantitySet(old(rows), id, q)
    {
      rows := QuantitySet(rows, id, q);
    }

    method DeleteFood(id: int)
      modifies this
      ensures rows == FoodDeleted(old(rows), id)
    {
      rows := FoodDeleted(rows, id);
    }
  }
}
