# Local Food Wastage Management — a Dafny model

The Local Food Wastage Management system keeps four SQLite tables: food
providers, receivers (charities, shelters), food listings, and claims that
receivers make on listings. A Streamlit page (`app.py`) lets a user do several
things:

- browse listings through three optional filters (city, provider name, food type);
- add a listing, optionally creating its provider in the same transaction;
- change a listing's quantity;
- delete a listing;
- record a claim;
- read thirteen SQL reports.

Two scripts sit beside it: `analysis.py`, which runs its own thirteen reports,
and `crud.py` with `queries.py`, which work on the database that `create_db.py`
writes.

This project models that core on values:

- A table is a sequence of rows. A nullable column is an `Option`.
- The SQL the code sends is spelled out as functions in module `Sql` (WHERE,
  GROUP BY, SUM and COUNT, COALESCE, ORDER BY ... DESC, LIMIT, UPDATE, DELETE)
  and module `Joins` (JOIN and LEFT JOIN).
- Each report is a function of the tables. Its contract says what every row of
  the answer means.
- The write paths are methods on a `FoodDatabase` object (app.py) and on a
  `FoodListingTable` object (crud.py). Each method is specified by a function of
  the tables before the call, and lemmas state what that function changes and
  keeps.

Modules:

- `Sql`: SQL row semantics.
  - A GROUP BY answer (`IsGrouping`) has one row per distinct key.
  - Each row's value is the sum over exactly the input rows that carry the key.
  - NULL keys form one group, and `=` never matches NULL.
  - ORDER BY ... DESC promises only that the values do not increase. Rows with
    equal values come in an unspecified order.
- `Joins`: JOIN and LEFT JOIN.
- `Schema`: the four tables of app.py's database and its invariants.
  - The invariants are unique ids, non-negative quantities, and claims that name
    existing rows.
- `Helpers`: `contact_link` and `get_distinct_values`.
- `ViewFilter`: the View Data statement builder.
- `AppStore`: the four write paths of app.py.
- `AppReports`: app.py's reports. App reports 4, 7 and 8 are the same queries as
  analysis.py's reports 4, 7 and 8 up to table aliases and column names, so the
  same functions model both.
- `AnalysisReports`: those analysis.py reports that differ from app.py's.
- `Crud` and `Queries`: crud.py and queries.py.

Behaviour of the code worth knowing:

- Report 8 joins claims with listings only. A claim whose receiver does not
  exist is still counted (`ListedClaimCounted` makes no demand on receivers).
- crud.py filters on `Food_ID`. The table that `create_db.py` writes has no
  `Food_ID` primary key, because `to_sql(if_exists="replace")` replaces the
  declared schema. So a row that `add_food` inserts has a NULL `Food_ID`, and no
  later update or delete through crud.py reaches it (`Crud.AddedRowUnreachable`).
- The app's Add Food form asks for a meal type but never stores it.
- analysis.py's report 13 (an inner JOIN) and app.py's report 13 (a LEFT JOIN)
  differ. A provider without listings is missing from the first and shown with
  0 in the second (`AnalysisReports.DonorWithoutListings`).
- analysis.py's report 1 and app.py's report 1 differ at the NULL city. app.py
  groups the receivers whose City is NULL into one row; analysis.py's
  `ON p.City = r.City` matches no receiver to a provider whose City is NULL
  (`AnalysisReports.NullCityRowsDiffer`).

## Model

| member | source | states |
|---|---|---|
| Helpers.ContactLinkRoundTrip | app.py:36-42 | the link is mailto: exactly when the contact is a string containing '@', and tel: otherwise; the text after the scheme is the contact as str() renders it, so the contact can be read back |
| Helpers.DistinctValues | app.py:29-34 | a failed query gives []; otherwise the result is strictly increasing (sorted, no duplicates) and holds exactly the non-NULL values of the column |
| ViewFilter.LookupProviderId | app.py:81-84 | None exactly when the chosen name is NULL or no provider has it; otherwise the id of the first provider, in table order, with that name |
| ViewFilter.FixedTextPlaceholders | app.py:73-93 | the fixed SELECT and ORDER BY texts hold no '?', and each filter clause holds exactly one |
| ViewFilter.FilterTextShape | app.py:73-93 | the statement starts with the unfiltered SELECT ... WHERE 1=1, ends with ORDER BY fl.Listing_ID DESC, and holds one placeholder per active filter |
| ViewFilter.AddCondition | app.py:75-77 | an active filter appends its clause to the text and its value to the parameters; an inactive one changes neither |
| ViewFilter.ResolveProvider | app.py:78-88 | the page stops exactly when a provider filter is chosen and the name resolves to no provider; otherwise the resolved Provider_ID is bound |
| ViewFilter.ComposeListingQuery | app.py:72-94 | the page stops exactly on an unknown provider name; otherwise the text depends only on which filters are active, the values are bound in the order city, provider id, food type, there are exactly as many placeholders as bound values, and the parameters are None exactly when no filter is active |
| AppStore.NextRowId | app.py:151-155 | the rowid SQLite gives a new row is larger than every existing id, so it is fresh, and it is 1 in an empty table |
| AppStore.NamedProviderId | app.py:126 | the form's name-to-id dictionary: None exactly when no provider has the name; otherwise the id of the last provider with that name |
| AppStore.OptionalText | app.py:161 | a blank Provider Type field is stored as NULL, any other text as itself |
| AppStore.AddFoodCommits | app.py:145-168 | the form commits exactly when neither INSERT fails and the chosen existing name is in the dictionary; a commit adds exactly one listing, adds a provider only for "Create New", keeps every earlier row, and leaves receivers and claims alone |
| AppStore.AddFoodCreateNew | app.py:149-162 | "Create New" inserts a provider with a fresh id and the four form texts, and a listing with a fresh id that carries that provider id and the form's food type, quantity and location, with NULL Provider_Type exactly for a blank field and the field's text otherwise |
| AppStore.AddFoodExisting | app.py:156-162 | an existing provider adds no provider row; the listing gets a fresh id, the id of the last provider having the chosen name (the dictionary's entry), and the form's food type, quantity and location, with NULL Provider_Type exactly for a blank field and the field's text otherwise |
| AppStore.AddFoodKeepsInvariants | app.py:145-168 | a committed form keeps every id unique and every quantity non-negative |
| AppStore.UpdateChangesOnlyQuantity | app.py:181 | only the Quantity of rows with the selected Listing_ID changes; every row keeps its place and its other columns |
| AppStore.UpdateIdempotent | app.py:181 | updating twice to the same quantity equals updating once; an unknown id leaves the table unchanged |
| AppStore.UpdateKeepsInvariants | app.py:178-181 | with the widget's minimum of 0, the listing ids are unchanged and every quantity stays non-negative |
| AppStore.DeleteRemovesOnlySelected | app.py:196 | no listing with the selected id remains, and every other listing is kept exactly as often as before |
| AppStore.DeleteIdempotent | app.py:196 | a second identical delete changes nothing; an unknown id leaves the table unchanged |
| AppStore.DeleteKeepsInvariants | app.py:196 | deleting keeps the listing ids unique and the quantities non-negative |
| AppStore.MakeClaimAppendsOne | app.py:211-216 | the claims table grows by exactly one claim with a fresh id, carrying the chosen receiver and listing, one of the three statuses and one of the four meal types; earlier claims are kept and claim ids stay unique |
| AppStore.MakeClaimResolves | app.py:213-216 | nothing checks the chosen ids: the new claim keeps every claim resolvable exactly when its receiver and its listing exist |
| AppStore.DeleteCanOrphanClaims | app.py:196 | a delete can leave a claim naming a listing that no longer exists (a concrete database) |
| AppStore.FoodDatabase.constructor | app.py:7-11 | the object holds the given tables |
| AppStore.FoodDatabase.AddFood | app.py:145-168 | returns whether the transaction committed; the database becomes the committed effect, or stays exactly as it was |
| AppStore.FoodDatabase.UpdateQuantity | app.py:178-181 | listings become the updated table; the other three tables are unchanged |
| AppStore.FoodDatabase.DeleteFood | app.py:196 | listings become the table without the selected id; providers, receivers and claims are unchanged |
| AppStore.FoodDatabase.MakeClaim | app.py:215-216 | claims grow by the inserted claim; the other tables are unchanged |
| AppReports.CityCounts | app.py:228-238 | every city that has a provider or a receiver appears exactly once and no other city does; each row counts that city's providers and receivers; the side a city lacks shows 0; rows come in non-increasing provider count |
| AppReports.ProviderTypeTotals | app.py:244-249 | one row per Provider_Type, each the sum of that type's quantities; non-increasing; the rows add up to the table's total quantity |
| AppReports.TotalAvailable | app.py:275 | COALESCE(SUM(Quantity),0) is the sum of all quantities, and 0 for an empty table |
| AppReports.ProviderContacts | app.py:256-259 | "All" returns every provider; a city returns exactly the providers whose City equals it, each as often as in the table |
| AppReports.ReceiverClaimTotals | app.py:263-270 | one row per receiver name, each the total quantity of the listings its claims name; non-increasing; the rows add up to the whole join |
| AppReports.DanglingClaimIgnored | app.py:265-267 | a claim whose receiver or listing does not exist leaves report 4 unchanged |
| AppReports.ResolvedClaimCounted | app.py:263-270 | with unique ids, a resolvable claim adds its listing's quantity to its receiver's name and changes no other row |
| AppReports.ListingsPerCity | app.py:281-284 | one row per City, each that city's number of listings (at least 1); non-increasing; the counts add up to the number of listings |
| AppReports.FoodTypeCounts | app.py:291-294 | one row per Food_Type, each its number of listings (at least 1); non-increasing; the counts add up to the number of listings |
| AppReports.ClaimsPerFoodType | app.py:301-305 | one row per food type of the claimed listings, each the number of claims on listings of that type; non-increasing |
| AppReports.UnlistedClaimIgnored | app.py:302-303 | a claim naming no existing listing leaves report 8 unchanged |
| AppReports.ListedClaimCounted | app.py:301-305 | with unique listing ids, a claim on an existing listing adds 1 to that listing's food type, whether or not its receiver exists |
| AppReports.SuccessfulClaims | app.py:312-318 | one row per provider name, counting only Completed claims on that provider's listings; every counted row is Completed; non-increasing |
| AppReports.UnsuccessfulClaimIgnored | app.py:316 | a claim that is not Completed leaves report 9 unchanged |
| AppReports.CompletedClaimCounted | app.py:312-318 | with unique ids, a Completed claim on an existing listing of an existing provider adds 1 to that provider's name |
| AppReports.MealTypeCounts | app.py:346-349 | one row per Meal_Type, each its number of claims (at least 1); non-increasing; the counts add up to the number of claims |
| AppReports.DonatedPerProvider | app.py:356-360 | one row per provider name, each the COALESCE'd sum of the quantities of its LEFT JOINed listings; non-increasing |
| AppReports.DonatedPerProviderValues | app.py:356-360 | the names shown are exactly the provider names, and each total equals an independent sum over providers of that name of their listings' quantities, so a provider without listings shows 0 |
| AnalysisReports.ProviderCityCoverage | analysis.py:19-24 | exactly the provider cities appear, once each; each row counts the distinct provider ids in that city and the distinct ids of receivers in the same city; a NULL city gets no receivers |
| AnalysisReports.CoverageAgreesWithCityCounts | analysis.py:19-24 | with unique ids, every row of this report for a non-NULL city matches the row of app.py's report 1 for the same city, and every row's provider count is that city's number of providers |
| AnalysisReports.NullCityRowsDiffer | analysis.py:23 | a concrete database (one provider and one receiver, both with City NULL) where this report shows (NULL, 1, 0) and app.py's report 1 shows (NULL, 1, 1) |
| AnalysisReports.TopProviderType | analysis.py:32-37 | at most one row, present exactly when there are listings; it is a real Provider_Type group with its true total, and no type's total exceeds it |
| AnalysisReports.NewYorkContacts | analysis.py:45-47 | exactly the name and contact of the providers whose City is 'New York' |
| AnalysisReports.TotalOrNull | analysis.py:69-70 | SUM without COALESCE is NULL exactly for an empty table and otherwise the total; with COALESCE it is app.py's report 5 |
| AnalysisReports.TopListingCity | analysis.py:78-83 | at most one row, present exactly when there are listings; it is a real City group whose count no other city exceeds |
| AnalysisReports.TopSuccessfulProvider | analysis.py:116-124 | at most one row, present exactly when some Completed claim joins; it is a real provider-name group whose count no other name exceeds |
| AnalysisReports.TopMealType | analysis.py:156-161 | at most one row, present exactly when there are claims; it is a real Meal_Type group whose count no other meal type exceeds |
| AnalysisReports.ListedDonations | analysis.py:169-174 | one row per provider name reached by the JOIN, each the sum of the quantities of that name's listings; non-increasing |
| AnalysisReports.ListedDonationNames | analysis.py:169-174 | a name is shown exactly when some listing belongs to a provider with that name |
| AnalysisReports.ListedDonationsTotal | analysis.py:169-174 | with unique provider ids, the totals add up to the quantity of exactly the listings whose Provider_ID exists |
| AnalysisReports.DonorWithoutListings | analysis.py:169-174 | a provider name with no listings is shown with 0 by app.py's report 13 and missing from this one |
| Crud.QuantitySetOnlyTarget | crud.py:15-18 | every row with that Food_ID gets the new quantity, unchecked; every row keeps its place and other columns; other rows are unchanged |
| Crud.QuantitySetIdempotent | crud.py:15-18 | a repeated update changes nothing further; an id no row carries leaves the table unchanged |
| Crud.FoodDeletedOnlyTarget | crud.py:22-25 | no row with that Food_ID remains; every other row is kept exactly as often as before |
| Crud.FoodDeletedIdempotent | crud.py:22-25 | a repeated delete changes nothing further; an id no row carries leaves the table unchanged |
| Crud.AddedRowUnreachable | crud.py:5-11 | a row add_food inserts has a NULL Food_ID, so update_food_quantity and delete_food never touch it |
| Crud.FoodListingTable.constructor | crud.py:3 | the object holds the given rows |
| Crud.FoodListingTable.AddFood | crud.py:5-11 | the table grows by exactly the one row of the eight bound values, after every earlier row |
| Crud.FoodListingTable.UpdateFoodQuantity | crud.py:15-18 | the rows become the updated table |
| Crud.FoodListingTable.DeleteFood | crud.py:22-25 | the rows become the table without that Food_ID |
| Queries.ProvidersPerCity | queries.py:13-14 | one row per City (NULL included), each its number of providers (at least 1); the counts add up to the number of providers |
| Queries.TopFoodProviders | queries.py:16-22 | one row per Provider_Type, each its number of listings (at least 1); non-increasing; the counts add up to the number of rows |
| Queries.TopFoodProvidersIgnoreQuantity | queries.py:16-22 | a quantity update leaves every count of this report unchanged |
| Queries.AddFoodCountedOnce | queries.py:16-22 | an add_food row adds 1 to its Provider_Type's count and changes no other count |
| Sql.TopGroup | analysis.py:36-37 | ORDER BY ... DESC LIMIT 1 over a GROUP BY returns a real group whose value no group exceeds, and returns it exactly when the table is non-empty |
| Sql.SqlSumFacts | app.py:275 | SQL SUM is NULL exactly when every value is NULL (in particular over no rows), and COALESCE(SUM(x), 0) is the sum with NULL read as 0 |
| Joins.JoinPairs | app.py:265-267 | which pairs appear in a JOIN: a pair of rows, one from each side, appears exactly when the ON condition accepts it (how often a pair appears is not stated here) |
| Joins.LeftJoinPairs | app.py:357-358 | a LEFT JOIN row is a left row paired with NULL or an accepted right row, and every accepted pair is present |
| Joins.LeftJoinKeepsLeft | app.py:357-358 | every left row appears in the LEFT JOIN and no other left value does |

## Left out

- The Streamlit user interface is left out: widgets, messages, `st.stop`, rendering of the data frames and HTML links. The form's choices are method parameters.
- SQLite and pandas plumbing is left out: connections, `run_sql_df`, `exec_sql`, cursors, the read of `sqlite_master`, and how result frames are built. Every statement is one function over the tables.
- Executing the View Data statement is left out. The model builds its text and parameters but does not run it.
- Failures of the single-statement writes (Update Quantity, Delete Food, Make Claim, crud.py) are left out. A failed single statement changes nothing. Add Food's failures are modelled by the `InsertFault` parameter.
- Reports 10 and 11 of both app.py and analysis.py are left out. They compute floating-point percentages and averages with ROUND.
- GROUP BY output order is modelled as first-appearance order. SQLite leaves it unspecified, and the model promises nothing about it beyond the ORDER BY.
- Ties under ORDER BY ... DESC are left out. The order among equal values is unspecified, so only non-increasing order is stated. For LIMIT 1, which tied group is returned is likewise unspecified.
- NULL quantities in app.py's database are left out. Quantity is a non-null integer there. crud.py binds whatever value it is given, so its quantity is an `Option`.
- SQLite's 64-bit INTEGER range is left out. Quantities, ids and every SUM are unbounded integers here. SQLite stores 64-bit integers, SUM raises "integer overflow" once a total passes 2^63-1, and sqlite3 refuses to bind a Python int outside that range. So the totals of `AppReports.TotalAvailable`, `AppReports.ProviderTypeTotals`, `AppReports.ReceiverClaimTotals`, `AppReports.DonatedPerProvider`, `AnalysisReports.TotalOrNull`, `AnalysisReports.ListedDonations` and the quantities bound by `AppStore.FoodDatabase.AddFood`, `AppStore.FoodDatabase.UpdateQuantity` and `Crud.FoodListingTable.AddFood` are taken to stay within 64 bits; the overflow error path is not modelled.
- Rowid wrap-around is left out. SQLite picks a random unused rowid once the largest rowid is 2^63-1. This is not modelled (`AppStore.NextRowId`).
- `AppStore.NextRowId`: assumes rowid allocation without AUTOINCREMENT, using the largest existing id. A table declared with AUTOINCREMENT would use the largest id ever used.
- Python and pandas typing subtleties of the contact value are left out, such as NaN and floats read from CSV. `Helpers.ContactValue` keeps only the string, or the text `str()` gives.
- The Add Food form's Meal Type is read but never inserted by app.py. The model drops it too.
- `create_db.py`, `insert_sample_data.py` and `check_tables.py` are left out. They set up and inspect the database and are not part of this model.
- The Address and Type columns of the database that `create_db.py` writes are left out. No modelled query reads them.
- AnalysisReports.NewYorkContacts: states which (Name, Contact) pairs appear, not how often each appears; the multiplicities follow from `Sql.Where`, whose contract states them.
- app.py's database schema is not part of this model. Its id columns are taken to be INTEGER PRIMARY KEY, so never NULL and equal to the rowid; this is what makes `lastrowid` the new Provider_ID (`AppStore.AddFoodCreateNew`).
- A SELECT without ORDER BY is taken to return rows in table order. SQLite does not promise that order; `ViewFilter.LookupProviderId` (first match) and `AppStore.NamedProviderId` (last match) depend on it.
- The import-time output of `analysis.py` is left out: its printing and its check of the existing tables.
