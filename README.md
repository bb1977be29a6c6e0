# Biltong Tracker ledger core, in Dafny

This project models the local ledger layer of the Biltong Tracker web app: the
browser-side repositories that keep the establishments, transactions, products
and employees of a small dried-meat business, and the views computed from them.

- `ledger.dfy` (module `Ledger`) models `src/utils/dataUtils.ts`.
  - `LedgerStore` is a class holding the establishment and transaction collections.
  - Its methods are the add, update and delete operations. Deleting an establishment cascades to its transactions.
  - Functions model the reads, the per-establishment balances, the dashboard totals and the five most recent transactions.
- `products.dfy` (module `Products`) models `src/utils/productUtils.ts`.
  - `ProductStore` holds the product collection.
  - `GenerateProductId` is the `P-0001`-style code generator loop.
  - `GetProductCategories` returns the distinct categories.
- `employees.dfy` (module `Employees`) models `src/utils/employeeUtils.ts`.
  - `EmployeeStore` holds the employee collection.
  - `GenerateEmployeeNumber` is the `EMP0001`-style number generator loop.
- `codes.dfy` (module `Codes`) models the decimal rendering and `padStart(4, '0')` behind both code formats.
  - It proves that codes parse back to their number, so distinct numbers give distinct codes.
  - It proves that a run of taken codes is no longer than the set of codes in use. This bounds the generator loops.
- `collections.dfy` (module `Collections`) holds generic models of the array methods the source uses: `findIndex`, `find`, `filter`, `map`, `some`, and de-duplication through a `Set`. The generator loops' collision tests are stated in terms of its `some`.
- `wrappers.dfy` holds the `Option` type. `None` stands for JavaScript's `undefined` result or an absent property.

Modelling choices:
- Every stored collection is a `seq` field, and each operation replaces the whole field. This mirrors the source, which reads the stored array, changes it and writes it back.
- The random UUID and the current time are method parameters (`freshId`, `now`).
- Timestamps are integer instants, because the source only compares their times.
- Amounts are integers (cents).
- A patch for an update operation is a record of `Option` fields. `None` means the property is absent from the partial object.
- In a patch, optional properties (`notes`, `description`, `phone`) are `Option<Option<string>>`, because the object spread also copies a property that is present with value `undefined`. In records and inputs they are `Option<string>`.

Behaviour of the code worth knowing:
- The generators start at the collection's length plus one and step past codes already in use. They do not start above the highest existing code. `Employees.GapIsNotRefilled` shows the result: with EMP0001 and EMP0003 on file, the next number is EMP0004.
- An update patch that carries `createdAt` overwrites it, because the patch is spread over the old record.
- An id carried in the input of `addEstablishment`, `addTransaction` or `addEmployee` wins over the generated one, because the input is spread after it. The same holds for `productId` in `addProduct`.
- The categories come out in order of first appearance, which is what the JavaScript `Set` produces.

## Model

| member | source | states |
|---|---|---|
| Collections.FirstIndex | src/utils/dataUtils.ts:95 | `findIndex`: absent exactly when no element passes; otherwise the index of the first element that passes |
| Collections.Find | src/utils/dataUtils.ts:74 | `find`: absent exactly when no element passes; otherwise the first element that passes |
| Collections.AnyAgreesWithFindAndFilter | src/utils/productUtils.ts:32 | `some` (modelled by `Collections.Any`) holds exactly when `findIndex` finds a position and exactly when `filter` keeps an element |
| Collections.Filter | src/utils/dataUtils.ts:113 | `filter`: no longer than the input, and every survivor passes |
| Collections.FilterMembers | src/utils/dataUtils.ts:113 | the survivors of `filter` come from the input, and every element that passes survives |
| Collections.FilterConcat | src/utils/dataUtils.ts:121 | filtering a concatenation is concatenating the filtered parts |
| Collections.PrependKeepsSplit | src/utils/dataUtils.ts:121 | filtering commutes with putting one element in front |
| Collections.FilterKeepsLength | src/utils/dataUtils.ts:115 | the filtered array has the original length iff every element passes, and is then the original array; this is the test the delete operations use |
| Collections.Map | src/utils/dataUtils.ts:167 | `map`: same length, and each element is the callback applied to the element at the same position |
| Collections.MapSnoc | src/utils/dataUtils.ts:167 | mapping an array is mapping all but its last element, followed by the callback applied to the last one |
| Collections.FilterNone | src/utils/dataUtils.ts:168 | when no element passes, the filter is empty |
| Collections.IndexOf | src/utils/productUtils.ts:97 | the first position of a present element |
| Collections.IndexOfPrefix | src/utils/productUtils.ts:97 | an element's first position is the same in the array and in a prefix that contains it |
| Collections.Distinct | src/utils/productUtils.ts:97 | de-duplication through a `Set`: no duplicates, the same elements as the input, in order of first occurrence |
| Collections.DistinctStep | src/utils/productUtils.ts:97 | adding an element to the input keeps the order of first occurrences, and extends it when the element is new |
| Collections.Image | src/utils/productUtils.ts:32 | the set of keys of the elements, which bounds how many distinct codes are in use: every element's key is in it, and it is no larger than the array |
| Collections.ImageHasOnlyKeys | src/utils/productUtils.ts:32 | conversely, every member of that set is the key of some element |
| Codes.DigitChar | src/utils/productUtils.ts:36 | one decimal digit renders as a digit character |
| Codes.DigitValue | src/utils/productUtils.ts:36 | reading a digit character gives back the digit that renders as it |
| Codes.Decimal | src/utils/productUtils.ts:36 | `toString` of a natural number: a non-empty run of digits, exactly one for numbers below ten, and with no leading zero for a positive number |
| Codes.FourDigitsBelow10000 | src/utils/productUtils.ts:36 | a number's decimal rendering has at most four digits exactly when the number is below 10000 |
| Codes.ValueOfDecimal | src/utils/productUtils.ts:36 | reading the decimal rendering gives back the number |
| Codes.Repeat | src/utils/productUtils.ts:36 | the zero fill of `padStart`: k copies of one character |
| Codes.ValueIgnoresLeadingZeros | src/utils/productUtils.ts:36 | leading zeros do not change the value read |
| Codes.ZerosHaveNoValue | src/utils/productUtils.ts:36 | a run of zeros reads as 0 |
| Codes.PadStart | src/utils/productUtils.ts:36 | `padStart`: the result has the given width, or the input's length if that is larger; it ends with the input, and is filled in front, so nothing is truncated at 10000 and above |
| Codes.Code | src/utils/productUtils.ts:36 | the prefix followed by decimal digits: exactly four, zero-padded, for a number below 10000, and otherwise the plain decimal rendering of the number, untruncated |
| Codes.ParseCodeOfCode | src/utils/productUtils.ts:36 | a prefixed, zero-padded code parses back to its number |
| Codes.CodeInjective | src/utils/employeeUtils.ts:87 | distinct numbers give distinct codes |
| Codes.CodeRangeBound | src/utils/productUtils.ts:32-34 | if every code of a range of numbers is in a set, the range is no longer than the set |
| Ledger.GetEstablishment | src/utils/dataUtils.ts:72-75 | absent iff no establishment has the id; otherwise the first establishment with the id |
| Ledger.TransactionsOf | src/utils/dataUtils.ts:132-135 | every result transaction comes from the collection and names the establishment, and every transaction that names it is in the result |
| Ledger.MergeEstablishment | src/utils/dataUtils.ts:99-103 | the spread of a patch over the old record: the patch's id, `updatedAt = now`, every field the patch carries takes the patch's value, every other field keeps the old one |
| Ledger.IdOnlyPatchRefreshes | src/utils/dataUtils.ts:99-103 | a patch that carries only the id leaves the record as it was, except for `updatedAt = now` |
| Ledger.MergeEstablishmentIsIdempotent | src/utils/dataUtils.ts:99-103 | applying the same patch twice at the same instant gives the same record as applying it once |
| Ledger.LedgerStore.constructor | src/utils/dataUtils.ts:68-70 | an empty store; a missing stored array reads as empty |
| Ledger.LedgerStore.AddEstablishment | src/utils/dataUtils.ts:77-91 | appends exactly the returned record and leaves transactions unchanged. The record takes the carried id or else `freshId`, the input's fields, and `createdAt = updatedAt = now`. Unique ids stay unique when the new id is fresh |
| Ledger.LedgerStore.UpdateEstablishment | src/utils/dataUtils.ts:93-109 | for an unknown id: absent, and nothing changes. Otherwise the patch is merged into the first record with the id, only that position changes, the merged record is returned with `updatedAt = now`, and every position keeps its id |
| Ledger.LedgerStore.DeleteEstablishment | src/utils/dataUtils.ts:111-125 | returns true iff some establishment has the id; if not, both collections are unchanged. Otherwise every establishment with the id is removed, and every transaction naming it is removed, with survivors kept in order |
| Ledger.LedgerStore.AddTransaction | src/utils/dataUtils.ts:137-150 | appends exactly the returned record, with the carried id or else `freshId`, the input's fields and `createdAt = now`; establishments unchanged |
| Ledger.LedgerStore.DeleteTransaction | src/utils/dataUtils.ts:152-160 | returns true iff some transaction has the id; if not, nothing changes. Otherwise every transaction with the id is removed, survivors keep their order, and establishments are unchanged |
| Ledger.Signed | src/utils/dataUtils.ts:172 | a delivery adds its amount to the balance, a payment subtracts it |
| Ledger.Balance | src/utils/dataUtils.ts:169-173 | the balance fold: over deliveries only it is their amount total, over payments only it is minus their amount total |
| Ledger.SumAmounts | src/utils/dataUtils.ts:187-193 | the amount total: never negative when no amount is negative |
| Ledger.BalanceAppend | src/utils/dataUtils.ts:169-173 | the balance of a concatenation is the sum of the balances |
| Ledger.SumAmountsAppend | src/utils/dataUtils.ts:187-193 | the amount total of a concatenation is the sum of the totals |
| Ledger.BalanceIsOrderIndependent | src/utils/dataUtils.ts:169-173 | two arrays with the same transactions, in any order, have the same balance |
| Ledger.BalanceIsDeliveriesLessPayments | src/utils/dataUtils.ts:169-173 | the running balance (add deliveries, subtract payments) equals the delivered total less the paid total |
| Ledger.SignedSplits | src/utils/dataUtils.ts:172 | one transaction's signed amount is its delivered part less its paid part |
| Ledger.BalanceExample | src/utils/dataUtils.ts:167-173 | deliveries of 500 and 100 and a payment of 200 leave a balance of 400 |
| Ledger.WithTransactions | src/utils/dataUtils.ts:167-180 | a row holds the establishment, exactly its filtered transactions, and their delivered total less their paid total |
| Ledger.EstablishmentsWithTransactions | src/utils/dataUtils.ts:163-181 | one row per establishment, in the same order |
| Ledger.NoTransactionsNoBalance | src/utils/dataUtils.ts:168-173 | an establishment without transactions has an empty list and a zero balance |
| Ledger.InsertByRecency | src/utils/dataUtils.ts:197-198 | one step of the sort by `createdAt`, newest first: the result is one element longer |
| Ledger.InsertByRecencyAddsOne | src/utils/dataUtils.ts:197-198 | that step adds exactly the inserted transaction |
| Ledger.InsertByRecencyKeepsOrder | src/utils/dataUtils.ts:197-198 | that step keeps a newest-first array newest-first |
| Ledger.SortByRecency | src/utils/dataUtils.ts:197-198 | the sort returns a permutation of its input, ordered newest first |
| Ledger.InsertByRecencyIsStable | src/utils/dataUtils.ts:197-198 | that step puts the new transaction after every transaction already there with the same `createdAt` |
| Ledger.NewestInFrontIsStable | src/utils/dataUtils.ts:197-198 | putting a transaction that is strictly newer than the whole array in front gives the same per-instant subsequences as appending it |
| Ledger.SortByRecencyIsStable | src/utils/dataUtils.ts:197-198 | stability: for every instant, the transactions created at it keep their input order |
| Ledger.RecentTransactions | src/utils/dataUtils.ts:197-199 | `min(5, n)` transactions drawn from the input, ordered newest first |
| Ledger.RecentAreNewest | src/utils/dataUtils.ts:197-199 | a transaction left out of the recent list is no newer than any transaction in it |
| Ledger.RecentIsStable | src/utils/dataUtils.ts:197-199 | for every instant, the recent list holds a leading part of that instant's transactions, in input order |
| Ledger.GetDashboardStats | src/utils/dataUtils.ts:183-208 | the establishment count, the delivered and paid totals, outstanding = delivered − paid = the balance of all transactions, and the recent list; an empty input gives zeros and an empty list |
| Ledger.BalancesAddUpToOutstanding | src/utils/dataUtils.ts:163-208 | with unique establishment ids and every transaction naming a stored establishment, the rows' balances add up to the dashboard's outstanding total |
| Ledger.TotalBalanceWithoutTransactions | src/utils/dataUtils.ts:163-181 | without transactions the rows' balances add up to zero |
| Ledger.TotalBalanceAppend | src/utils/dataUtils.ts:163-181 | a new transaction adds its signed amount to the rows' total once if its establishment is stored, and not at all otherwise |
| Ledger.RowsSnoc | src/utils/dataUtils.ts:167 | the rows of a collection are the rows of its prefix followed by the last establishment's row |
| Ledger.TotalBalanceSnoc | src/utils/dataUtils.ts:167-179 | the rows' balance total is the prefix's total plus the last establishment's balance |
| Ledger.RowBalanceAppend | src/utils/dataUtils.ts:168-173 | a new transaction changes a row's balance by its signed amount if it belongs to that row, and not at all otherwise |
| Ledger.HasEstablishmentSnoc | src/utils/dataUtils.ts:72-75 | an id is stored iff it is in the prefix or is the last establishment's id |
| Ledger.LastIdIsNew | src/utils/dataUtils.ts:77-91 | in a collection with unique ids, the prefix's ids are unique and the last id is not among them |
| Products.GetProduct | src/utils/productUtils.ts:44-47 | absent iff no product has the id; otherwise the first product with the id |
| Products.Categories | src/utils/productUtils.ts:97 | `products.map(p => p.category)`: the category of each product, in stored order |
| Products.GetProductCategories | src/utils/productUtils.ts:95-99 | no duplicates, exactly the categories some product has, in order of first occurrence |
| Products.MergeProduct | src/utils/productUtils.ts:72-76 | the spread of a patch over the old record: the patch's id, `updatedAt = now`, every field the patch carries takes the patch's value, every other field keeps the old one |
| Products.ProductCodeShape | src/utils/productUtils.ts:36 | the code `ProductCode(n)` is "P-" followed by digits that parse back to `n`; it is six characters long exactly when `n` is below 10000 |
| Products.CodeInUse | src/utils/productUtils.ts:32 | the loop test is `some` over the products: some product carries the code |
| Products.IdOnlyPatchRefreshes | src/utils/productUtils.ts:72-76 | a patch that carries only the id leaves the record as it was, except for `updatedAt = now` |
| Products.MergeProductIsIdempotent | src/utils/productUtils.ts:72-76 | applying the same patch twice at the same instant gives the same record as applying it once |
| Products.AllTakenExtends | src/utils/productUtils.ts:32-33 | a taken code right after a taken range extends the range |
| Products.TakenCodesBound | src/utils/productUtils.ts:32-34 | a run of taken codes starting anywhere is no longer than the set of codes in use |
| Products.ProductStore.constructor | src/utils/productUtils.ts:40-42 | an empty product collection |
| Products.ProductStore.GenerateProductId | src/utils/productUtils.ts:27-37 | returns `P-` with the number zero-padded to 4 digits. The code is carried by no product. The number is the least from `count + 1` whose code is free, and it is at most `2 * count + 1`, so the loop makes at most `count` steps |
| Products.ProductStore.AddProduct | src/utils/productUtils.ts:49-64 | appends exactly the returned record, with the carried id or else `freshId` and `createdAt = updatedAt = now`. The carried `productId` is used if present; otherwise the least free code, computed before the append. Unique codes stay unique when the code is generated |
| Products.ProductStore.UpdateProduct | src/utils/productUtils.ts:66-82 | for an unknown id: absent, and nothing changes. Otherwise the patch is merged into the first product with the id, only that position changes, and the record is returned with `updatedAt = now` |
| Products.ProductStore.DeleteProduct | src/utils/productUtils.ts:84-93 | returns true iff some product has the id; if not, nothing changes. Otherwise every product with the id is removed and the survivors keep their order |
| Employees.GetEmployee | src/utils/employeeUtils.ts:31-34 | absent iff no employee has the id; otherwise the first employee with the id |
| Employees.MergeEmployee | src/utils/employeeUtils.ts:58-62 | the spread of a patch over the old record: the patch's id, `updatedAt = now`, every field the patch carries takes the patch's value, every other field keeps the old one |
| Employees.EmployeeNumberShape | src/utils/employeeUtils.ts:87 | the number `EmployeeNumber(n)` is "EMP" followed by digits that parse back to `n`; it is seven characters long exactly when `n` is below 10000 |
| Employees.NumberInUse | src/utils/employeeUtils.ts:88 | the loop test is `some` over the employees: some employee carries the number |
| Employees.IdOnlyPatchRefreshes | src/utils/employeeUtils.ts:58-62 | a patch that carries only the id leaves the record as it was, except for `updatedAt = now` |
| Employees.MergeEmployeeIsIdempotent | src/utils/employeeUtils.ts:58-62 | applying the same patch twice at the same instant gives the same record as applying it once |
| Employees.AllTakenExtends | src/utils/employeeUtils.ts:88-90 | a taken number right after a taken range extends the range |
| Employees.TakenNumbersBound | src/utils/employeeUtils.ts:84-91 | a run of taken numbers is no longer than the set of numbers in use |
| Employees.GapIsNotRefilled | src/utils/employeeUtils.ts:84-91 | with EMP0001 and EMP0003 on file, the generated number is EMP0004, not EMP0002 or EMP0003 |
| Employees.EmployeeStore.constructor | src/utils/employeeUtils.ts:27-29 | an empty employee collection |
| Employees.EmployeeStore.AddEmployee | src/utils/employeeUtils.ts:36-50 | appends exactly the returned record, with the carried id or else `freshId`, the input's fields and `createdAt = updatedAt = now` |
| Employees.EmployeeStore.UpdateEmployee | src/utils/employeeUtils.ts:52-68 | for an unknown id: absent, and nothing changes. Otherwise the patch is merged into the first employee with the id, only that position changes, and the record is returned with `updatedAt = now` |
| Employees.EmployeeStore.DeleteEmployee | src/utils/employeeUtils.ts:70-78 | returns true iff some employee has the id; if not, nothing changes. Otherwise every employee with the id is removed and the survivors keep their order |
| Employees.EmployeeStore.GenerateEmployeeNumber | src/utils/employeeUtils.ts:81-94 | returns `EMP` with the number zero-padded to 4 digits. The number is carried by no employee, and it is the least from `count + 1` that is free, at most `2 * count + 1` |

## Left out

- Remote store calls are network I/O through a client library that is not part of this model. These are `addEstablishmentToSupabase`, `testConnection` and everything in `authUtils.ts`.
- Browser storage and serialisation: `localStorage`, `JSON.parse`/`JSON.stringify` and the fallback to a default value when reading fails. The store is in-memory fields, and the list reads (`getEstablishments`, `getTransactions`, `getProducts`, `getEmployees`) are the fields themselves.
- `crypto.randomUUID()` and the clock are environment calls. They are parameters, so whether an id is fresh is a precondition where it matters.
- ISO-8601 timestamp strings are integer instants, and the business `date` of a transaction is an uninterpreted string.
- JavaScript numbers are integer cents, with no floating-point rounding.
- The input types carry no timestamps, because the add operations always overwrite them.
- Form submit handlers, the remote-then-local write ordering, pages, navigation and UI arithmetic are outside the ledger core.
- Several browser tabs writing the same stored array (lost updates) are not modelled; each operation is one atomic step.
- Ledger.SortByRecency: the source calls the engine's stable `Array.prototype.sort`; the model is a stable insertion sort with the same result, not the engine's algorithm.
- `setLocalData` (src/utils/dataUtils.ts:27-33) catches and only logs a failed `localStorage.setItem`. So an add, update or delete can report success although nothing was saved. `deleteEstablishment` writes the establishments (line 117) and the transactions (line 122) separately, so a failure can leave one written and not the other. The model's stores always save, and each operation is one atomic step.
- Products.ProductStore.GenerateProductId: the number is a ghost out-parameter. The method returns only the code, as the source does.
- Employees.EmployeeStore.GenerateEmployeeNumber: the number is a ghost out-parameter. The method returns only the string, as the source does.
