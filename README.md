# Invent2E inventory app — verified model of its core logic

Invent2E is a small ASP.NET MVC inventory application. This project models
four pieces of its logic in Dafny and proves properties about them.

- **Product list query** (`ProductsController.Index`). Four optional filters
  are combined with AND: category, inclusive minimum price, inclusive maximum
  price, and stock status. Category and stock status compare without regard
  to letter case, and "all" switches them off. One of eight sort keys is then
  applied. Unknown keys fall back to name ascending, and the page reports the
  sort it actually used. The page also shows a count and a category list
  drawn from the unfiltered products (`products_query.dfy`).
- **Supplier pages** (`SupplierController`). The supplier list has a
  free-text search, a location filter and a status filter, and four sorts
  (`supplier_query.dfy`). `Create`, `Edit` and `PerformDelete` act on a
  `Store` class. The store holds the supplier and contact tables as maps
  keyed by id, plus the supplier link of each product (`supplier_store.dfy`).
  The reconciliation of a supplier's "other contacts" during `Edit` is
  specified separately, by functions and lemmas (`contact_reconcile.dfy`).
- **Supplier detail page** (`SupplierDetailViewModel`). This covers stock
  status thresholds, avatar initials and colours, currency symbols, the
  primary contact, and the per-product image URL. It is a class whose
  `ProcessSupplierData` fills the page's properties, with a loop that appends
  one row per product (`supplier_detail.dfy`).
- **Image sniffing** (`ImageController`). PNG and GIF signatures are
  recognised and the served content type is chosen from them
  (`image_sniffing.dfy`).

Shared support modules:

| Module | File | Contents |
|---|---|---|
| `Wrappers` | `wrappers.dfy` | `Option`, which stands for C# null |
| `Text` | `text.dfy` | `char.IsWhiteSpace` and ASCII case folding; `Trim`, `Contains` and `Replace`; integer formatting; ordinal string comparison |
| `Linq` | `linq.dfy` | `Where`, a stable `OrderBy` (insertion sort under a total preorder), `Select` and `Distinct`, with their laws |
| `Entities` | `entities.dfy` | the `Supplier` and `SupplierContact` rows |

Modelling choices:

- C# `null` is `None`.
- `decimal` prices are `real`.
- `ToLower`/`ToUpper` fold ASCII letters only.
- White space is the character set of `char.IsWhiteSpace`, which `Trim` and
  `string.IsNullOrWhiteSpace` use; the no-break space U+00A0 is among it.
- Culture-sensitive string ordering is the ordinal order on character codes.
- Database queries run over sequences.
- Validation by the framework (`ModelState.IsValid`) is a boolean parameter.
- Whether the product-to-supplier foreign key is Restrict is also a boolean
  parameter. `InventoryDbContext` configures it as Restrict.

## Model

| member | source | states |
|---|---|---|
| ProductsQuery.FilteredIsWhere | InventoryManagement/Controllers/ProductsController.cs:32-61 | the four successive `Where` stages keep exactly the products that pass the category, minimum price, maximum price and stock-status tests together (a single `Where` with the conjunction) |
| ProductsQuery.AllMeansNoFilter | InventoryManagement/Controllers/ProductsController.cs:36-40 | a category or stock status equal to "all" in any letter case gives the same list as no filter at all |
| ProductsQuery.ChooseSortReports | InventoryManagement/Controllers/ProductsController.cs:65-92 | null, "nameasc" or any unknown key sorts by name ascending and reports "NameAsc"; each of the seven other keys, in any case, selects its sort and is reported exactly as passed |
| ProductsQuery.CompareByFlip | InventoryManagement/Controllers/ProductsController.cs:65-93 | every sort key compares antisymmetrically: swapping two products flips the result |
| ProductsQuery.CompareByTrans | InventoryManagement/Controllers/ProductsController.cs:65-93 | every sort key, including category-then-name-ascending for both category sorts, is transitive |
| ProductsQuery.RankedCmpIsTotalPreorder | InventoryManagement/Controllers/ProductsController.cs:65-93 | the key comparison extended by source position is a total preorder, which is how a stable `OrderBy` orders |
| ProductsQuery.Index | InventoryManagement/Controllers/ProductsController.cs:96-111 | `TotalProducts` equals the length of the returned list and of the filtered list, whatever the sort; `SortBy` is the key the switch reports, so a null, "nameasc" or unknown key comes back as "NameAsc"; the filter arguments are echoed back |
| ProductsQuery.IndexSelectsMatching | InventoryManagement/Controllers/ProductsController.cs:32-61 | the returned list is a permutation of the source products that satisfy every active filter: the same multiset as the filtered source, and membership iff in the source and matching |
| ProductsQuery.IndexSorted | InventoryManagement/Controllers/ProductsController.cs:65-93 | consecutive and non-consecutive entries are in order under the applied sort key |
| ProductsQuery.IndexStable | InventoryManagement/Controllers/ProductsController.cs:65-93 | every entry is the filtered product at its recorded position, and entries whose keys tie appear in increasing source position (LINQ `OrderBy` stability) |
| ProductsQuery.CategoryNames | InventoryManagement/Controllers/ProductsController.cs:105-107 | the selected names are exactly the non-empty categories of source products |
| ProductsQuery.AvailableCategoriesSpec | InventoryManagement/Controllers/ProductsController.cs:105-110 | the category list holds exactly the non-empty categories of the unfiltered source, each once, in strictly ascending order, and does not depend on any query argument |
| Linq.Sort | InventoryManagement/Controllers/ProductsController.cs:65-93 | the sorted sequence has the length and the multiset of its input |
| Linq.SortSorted | InventoryManagement/Controllers/ProductsController.cs:65-93 | under a total preorder the result of `Sort` is ordered |
| Linq.SortHead | InventoryManagement/Models/SupplierDetailViewModel.cs:96-99 | the first element after a stable sort is the earliest element that no other element is below |
| Linq.SortPermutesImages | InventoryManagement/Controllers/ProductsController.cs:65-93 | sorting permutes the images under any projection (`Select`) too |
| Linq.Insert | InventoryManagement/Controllers/ProductsController.cs:65-93 | inserting into a list adds the element to its multiset |
| Linq.InsertSorted | InventoryManagement/Controllers/ProductsController.cs:65-93 | inserting into an ordered list keeps it ordered |
| Linq.MapSeq | InventoryManagement/Models/SupplierDetailViewModel.cs:115-124 | `Select` keeps the length and maps each element in place |
| Linq.Where | InventoryManagement/Controllers/ProductsController.cs:38-39 | a filtered list is never longer than its input |
| Linq.WhereAppend | InventoryManagement/Controllers/ProductsController.cs:36-61 | filtering a concatenation is the concatenation of the filtered parts, so a filter keeps the order of its input |
| Linq.WhereCount | InventoryManagement/Controllers/ProductsController.cs:98-99 | each element occurs in a filtered list as often as in its input if it passes, and not at all otherwise |
| Linq.WhereAll | InventoryManagement/Controllers/ProductsController.cs:36-61 | a filter stage that every element passes leaves the list unchanged |
| Linq.WhereWhere | InventoryManagement/Controllers/ProductsController.cs:36-61 | two successive filters are one filter with the conjunction |
| Linq.OptionalWhere3 | InventoryManagement/Controllers/SupplierController.cs:57-78 | three filters each applied only while switched on, where a switched-off filter passes everything, keep exactly what their conjunction keeps |
| Linq.WhereFirstLeast | InventoryManagement/Models/SupplierDetailViewModel.cs:96-99 | the earliest least element of a filtered list is the earliest least kept element of the unfiltered list |
| Linq.Distinct | InventoryManagement/Controllers/ProductsController.cs:108 | `Distinct` keeps exactly the members of its input, each once |
| Linq.DistinctCount | InventoryManagement/Controllers/ProductsController.cs:108 | an element occurs at most once in a list without duplicates |
| Linq.DistinctPermutation | InventoryManagement/Controllers/ProductsController.cs:108-109 | a permutation of a duplicate-free list is duplicate-free, so sorting the distinct categories keeps them distinct |
| Linq.StringCmpIsTotalPreorder | InventoryManagement/Controllers/ProductsController.cs:109 | the ordinal string order is a total preorder |
| Text.CompareStringsFlip | InventoryManagement/Controllers/ProductsController.cs:68 | swapping the arguments of the string comparison flips its result |
| Text.CompareStringsEqual | InventoryManagement/Controllers/ProductsController.cs:109 | two strings compare equal iff they are the same string |
| Text.CompareStringsTrans | InventoryManagement/Controllers/ProductsController.cs:90 | the string order is transitive |
| Text.CompareOptStringsFlip | InventoryManagement/Controllers/SupplierController.cs:86-89 | null-first string comparison is antisymmetric |
| Text.CompareOptStringsTrans | InventoryManagement/Controllers/SupplierController.cs:86-89 | null-first string comparison is transitive |
| Text.CompareOptStringsEqual | InventoryManagement/Controllers/SupplierController.cs:86-89 | two nullable strings compare equal iff they are equal |
| Text.CompareInts | InventoryManagement/Controllers/ProductsController.cs:83-86 | integer comparison answers Less, Equal or Greater according to `<` and `==` |
| Text.CompareReals | InventoryManagement/Controllers/ProductsController.cs:71-74 | price comparison answers according to `<` and `==` |
| Text.LowerChar | InventoryManagement/Controllers/SupplierController.cs:59 | lower-casing maps each of 'A'..'Z' to its own letter in 'a'..'z' and leaves every other character alone |
| Text.UpperChar | InventoryManagement/Models/SupplierDetailViewModel.cs:133 | upper-casing maps each of 'a'..'z' to its own letter in 'A'..'Z' and leaves every other character alone |
| Text.ToLower | InventoryManagement/Controllers/SupplierController.cs:59-65 | `ToLower` keeps the length and lowers each character |
| Text.ToUpper | InventoryManagement/Models/SupplierDetailViewModel.cs:151 | `ToUpper` keeps the length and raises each character |
| Text.ToUpperIdempotent | InventoryManagement/Models/SupplierDetailViewModel.cs:151 | upper-casing twice is upper-casing once |
| Text.TrimStart | InventoryManagement/Models/SupplierDetailViewModel.cs:133 | the result is a suffix of the input without leading white space, and only white space was removed |
| Text.TrimEnd | InventoryManagement/Models/SupplierDetailViewModel.cs:133 | the result is a prefix of the input without trailing white space, and only white space was removed |
| Text.Trim | InventoryManagement/Controllers/SupplierController.cs:59 | `Trim` is the slice of the input between a blank prefix and a blank suffix; it is empty iff the input is all white space, and otherwise neither end is white space |
| Text.TrimStartBlank | InventoryManagement/Models/SupplierDetailViewModel.cs:133 | a string of white space trims to the empty string |
| Text.ContainsAt | InventoryManagement/Controllers/SupplierController.cs:61-65 | `Contains` holds iff the needle occurs at some index |
| Text.ContainsEmpty | InventoryManagement/Controllers/SupplierController.cs:61-65 | every string contains the empty string |
| Text.ReplaceAll | InventoryManagement/Models/SupplierDetailViewModel.cs:151 | `Replace` with an empty replacement never lengthens the input, leaves an input without the pattern unchanged, and introduces no character outside the input and the replacement |
| Text.ReplaceAfter | InventoryManagement/Models/SupplierDetailViewModel.cs:151 | when no occurrence of the pattern starts inside `u`, `Replace` on `u + pattern + t` copies `u`, replaces that occurrence and goes on with `t`; with the no-occurrence clause of `ReplaceAll` this fixes the result of every call |
| Text.ReplaceAfterSeparator | InventoryManagement/Models/SupplierDetailViewModel.cs:151 | a pattern absent from `u` and separated from it by characters it does not use is the first occurrence replaced in `u + sep + pattern + t` |
| Text.ToUpperAppend | InventoryManagement/Models/SupplierDetailViewModel.cs:151 | upper-casing a concatenation upper-cases each part |
| Text.TrimBlankTail | InventoryManagement/Models/SupplierDetailViewModel.cs:151 | a trailing white-space character does not change the trimmed string |
| Text.ReplaceCharRemoves | InventoryManagement/Models/SupplierDetailViewModel.cs:151 | replacing a character by "" leaves no occurrence of it |
| Text.NatToString | InventoryManagement/Models/SupplierDetailViewModel.cs:91 | a natural number formats as a non-empty string of digits |
| Text.NatToStringValue | InventoryManagement/Models/SupplierDetailViewModel.cs:91 | the digits read back as the number |
| Text.IntToString | InventoryManagement/Models/SupplierDetailViewModel.cs:91 | an integer formats as a non-empty string that starts with '-' iff it is negative |
| Text.IntToStringInjective | InventoryManagement/Models/SupplierDetailViewModel.cs:91 | different ids format differently |
| SupplierQuery.FilteredSuppliersIsWhere | InventoryManagement/Controllers/SupplierController.cs:57-78 | the search, location and status stages together keep exactly the suppliers that pass all three |
| SupplierQuery.ChooseSupplierSort | InventoryManagement/Controllers/SupplierController.cs:80-94 | "name_desc", "Email" and "email_desc" select their sorts, matched exactly; anything else sorts by company name ascending |
| SupplierQuery.SupplierCmpIsTotalPreorder | InventoryManagement/Controllers/SupplierController.cs:80-94 | each of the four supplier sorts is a total preorder |
| SupplierQuery.SortLinksToggle | InventoryManagement/Controllers/SupplierController.cs:36-37 | for every current sort order: the name link sorts by descending name from a null or empty order and by ascending name from any other; the email link sorts by descending email from "Email" and by ascending email from any other |
| SupplierQuery.SupplierIndex | InventoryManagement/Controllers/SupplierController.cs:36-48 | the list has as many suppliers as pass the filters, the current filter is the new search string or else the previous one, and the two header links are the sort parameters computed from the current order |
| SupplierQuery.SupplierIndexSelectsMatching | InventoryManagement/Controllers/SupplierController.cs:57-98 | the list is a permutation of the suppliers that satisfy every active filter |
| SupplierQuery.SupplierIndexSorted | InventoryManagement/Controllers/SupplierController.cs:80-94 | the list is ordered by the selected key |
| SupplierQuery.BlankSearchKeepsAll | InventoryManagement/Controllers/SupplierController.cs:57-66 | a search string of white space only trims to "" and lets every supplier through |
| SupplierQuery.UnknownLocationIgnored | InventoryManagement/Controllers/SupplierController.cs:69-73 | a location that is not one of the five predefined cities is ignored |
| SupplierQuery.StatusFilterExact | InventoryManagement/Controllers/SupplierController.cs:75-78 | the status filter is exact, case-sensitive equality: "active" does not match "Active" |
| ContactReconcile.Kept | InventoryManagement/Controllers/SupplierController.cs:375-385 | the contacts left after `RemoveRange` are those of other suppliers and those of the edited supplier whose id was resubmitted, unchanged |
| ContactReconcile.LastFor | InventoryManagement/Controllers/SupplierController.cs:390-411 | the row applied to a contact has its id and no later row has that id; there is none iff no row has that id |
| ContactReconcile.Overwrite | InventoryManagement/Controllers/SupplierController.cs:404-409 | an overwrite keeps the contact's id and supplier and takes name, email and phone verbatim from the row |
| ContactReconcile.Updated | InventoryManagement/Controllers/SupplierController.cs:390-411 | applying rows changes no key, contact id or supplier |
| ContactReconcile.ContactAfter | InventoryManagement/Controllers/SupplierController.cs:397-411 | applying the rows to one contact keeps its id and its supplier |
| ContactReconcile.NewRows | InventoryManagement/Controllers/SupplierController.cs:412-429 | the rows collected one by one are exactly the input filtered for new rows, in submission order |
| ContactReconcile.Inserted | InventoryManagement/Controllers/SupplierController.cs:419-428 | the new contacts occupy exactly the next free ids, one per new row |
| ContactReconcile.NewRowsSpec | InventoryManagement/Controllers/SupplierController.cs:390-429 | a row is inserted iff its id is <= 0 and one of name, email or phone is not blank, and as many times as it was submitted; blank placeholder rows are dropped |
| ContactReconcile.NoBreakSpaceRowIsBlank | InventoryManagement/Controllers/SupplierController.cs:390-396 | a new row whose only content is a no-break space is a blank placeholder and creates no contact |
| ContactReconcile.ReconciledDeletes | InventoryManagement/Controllers/SupplierController.cs:375-385 | after `Edit`, a contact of the supplier whose id was not among the submitted ids > 0 is gone |
| ContactReconcile.ReconciledOverwrites | InventoryManagement/Controllers/SupplierController.cs:398-411 | a resubmitted contact of the supplier takes name, email and phone from the last row naming it, blank values included |
| ContactReconcile.ReconciledIgnoresOthers | InventoryManagement/Controllers/SupplierController.cs:400-411 | contacts of other suppliers are untouched even if their id is submitted, and a submitted id > 0 with no match creates nothing |
| ContactReconcile.ReconciledInserts | InventoryManagement/Controllers/SupplierController.cs:412-429 | every new row becomes a contact of the edited supplier under a fresh id, in submission order |
| ContactReconcile.ReconciledWellFormed | InventoryManagement/Controllers/SupplierController.cs:370-431 | after reconciliation every contact is keyed by its own positive id below the advanced counter and belongs to its former supplier or, if new, to the edited one |
| SupplierStore.NewSupplier | InventoryManagement/Controllers/SupplierController.cs:149-170 | a created supplier gets the new id and the form's company name, person name, department, email, phone, address, currency, payment method and courier; a null portal status becomes "Active"; an uploaded file, even an empty one, becomes the profile image |
| SupplierStore.UpdatedSupplier | InventoryManagement/Controllers/SupplierController.cs:347-367 | an update keeps the id, takes the form's company name, person name, department, email, phone, address, currency, payment method and courier, turns a null portal status into "Active", and replaces the profile image only by a non-empty upload |
| SupplierStore.WithoutContactsOf | InventoryManagement/Data/InventoryDbContext.cs:69-74 | deleting a supplier removes exactly its contacts (cascade) |
| SupplierStore.Detached | InventoryManagement/Controllers/SupplierController.cs:524-527 | deleting a supplier unlinks exactly its products and changes no other link |
| SupplierStore.ProductsOf | InventoryManagement/Controllers/SupplierController.cs:500-502 | the supplier's products are the products whose link names it |
| SupplierStore.Store.constructor | InventoryManagement/Data/InventoryDbContext.cs:18-20 | an empty store satisfies the invariant |
| SupplierStore.Store.GetSupplierImage | InventoryManagement/Controllers/SupplierController.cs:103-127 | NotFound iff the supplier is missing or has no non-empty image; otherwise its bytes, served as PNG iff they carry the PNG signature and as JPEG otherwise |
| SupplierStore.Store.Create | InventoryManagement/Controllers/SupplierController.cs:139-195 | an invalid form or a company name already used changes nothing; otherwise the supplier is added under a fresh id, with a contact iff all three primary-contact fields are non-blank; the store invariant, including unique company names, is kept |
| SupplierStore.Store.Edit | InventoryManagement/Controllers/SupplierController.cs:287-431 | in source order, a route id differing from the form's gives BadRequest, an invalid form, an unknown id and a name used by another supplier each redisplay or fail; all four change nothing; otherwise the supplier row is updated, the contacts become the reconciled contacts, the contact counter advances by the number of new rows and the supplier counter is unchanged; the invariant is kept |
| SupplierStore.Store.UpdateScalars | InventoryManagement/Controllers/SupplierController.cs:347-367 | the scalar update rewrites only the edited supplier and keeps names unique |
| SupplierStore.Store.ReconcileContacts | InventoryManagement/Controllers/SupplierController.cs:370-431 | pruning, applying the rows and saving the new rows yields the reconciled contacts, advances the contact counter by the number of new rows, and keeps the invariant |
| SupplierStore.Store.ApplyContactRows | InventoryManagement/Controllers/SupplierController.cs:388-430 | the `foreach` over the rows overwrites the resubmitted contacts as the last row naming each says, and collects the new rows in order |
| SupplierStore.Store.PerformDelete | InventoryManagement/Controllers/SupplierController.cs:498-527 | an unknown id, or a supplier with products under a Restrict rule (reporting the company name and product count), changes nothing; otherwise the supplier, its contacts and its product links are removed; the invariant is kept |
| SupplierDetail.CalculateStockStatus | InventoryManagement/Models/SupplierDetailViewModel.cs:163-170 | null or <= 0 is "Out of Stock", 1-20 "Danger", 21-30 "Low", 31-50 "Normal", above 50 "Overstocked", each iff |
| SupplierDetail.StockStatusMonotonic | InventoryManagement/Models/SupplierDetailViewModel.cs:163-170 | more stock never gives a lower status |
| SupplierDetail.GetInitial | InventoryManagement/Models/SupplierDetailViewModel.cs:131-134 | a blank name gives the fallback; otherwise one character, the upper-cased first non-blank character of the name |
| SupplierDetail.GetColorForInitial | InventoryManagement/Models/SupplierDetailViewModel.cs:136-146 | blank or "?" gives "#cccccc"; otherwise the palette entry at the character code modulo 18; the result is a palette colour iff the initial is neither |
| SupplierDetail.ColorDependsOnCodeModulo | InventoryManagement/Models/SupplierDetailViewModel.cs:139-145 | initials whose codes agree modulo 18 get the same colour |
| SupplierDetail.ContactAvatar | InventoryManagement/Models/SupplierDetailViewModel.cs:65-74 | an absent primary contact or one with a blank name gets "?" and "#cccccc"; otherwise the contact's initial (fallback "C") and its colour |
| SupplierDetail.ContactAvatarColor | InventoryManagement/Models/SupplierDetailViewModel.cs:65-69 | a named contact's initial is one character and gets a palette colour unless it is "?" |
| SupplierDetail.NormalizeCurrency | InventoryManagement/Models/SupplierDetailViewModel.cs:151 | the normalised code has no lower-case letter, no "(" or ")", and no white space at either end; a code without "PESO" and parentheses normalises to its upper-cased, trimmed self |
| SupplierDetail.DecoratedPeso | InventoryManagement/Models/SupplierDetailViewModel.cs:151 | a code followed by a " (Peso)" remark in any letter case normalises exactly like the bare code, to its upper-cased, trimmed self |
| SupplierDetail.SymbolFor | InventoryManagement/Models/SupplierDetailViewModel.cs:152-159 | a recognised code maps to a one-character symbol |
| SupplierDetail.GetCurrencySymbol | InventoryManagement/Models/SupplierDetailViewModel.cs:148-161 | a blank code gives "$"; a code that normalises to PHP, P, USD, EUR, GBP or JPY gives its symbol; any other code is returned unchanged |
| SupplierDetail.PhpRemarkSymbol | InventoryManagement/Models/SupplierDetailViewModel.cs:148-161 | any spelling of "PHP" followed by a "(Peso)" remark in any letter case is shown as the peso sign |
| SupplierDetail.PhpSpelling | InventoryManagement/Models/SupplierDetailViewModel.cs:151 | "Php" upper-cases to "PHP" and has no parenthesis, so "Php (Peso)" is one of those codes |
| SupplierDetail.PesoRemarkSpelling | InventoryManagement/Models/SupplierDetailViewModel.cs:151 | " (Peso)" upper-cases to " (PESO)" |
| SupplierDetail.CurrencySymbolIgnoresCase | InventoryManagement/Models/SupplierDetailViewModel.cs:151 | a recognised code gives the same symbol whatever its letter case |
| SupplierDetail.CurrencySymbolNonEmpty | InventoryManagement/Models/SupplierDetailViewModel.cs:148-161 | the symbol is never the empty string |
| SupplierDetail.PrimaryContactOf | InventoryManagement/Models/SupplierDetailViewModel.cs:35-50 | a primary contact exists iff person name, email or phone is non-blank, and it copies those fields and the supplier id |
| SupplierDetail.GetImageUrlInjective | InventoryManagement/Models/SupplierDetailViewModel.cs:91-102 | image URLs of different ids differ, and none equals the placeholder |
| SupplierDetail.ImageOrderCmpIsTotalPreorder | InventoryManagement/Models/SupplierDetailViewModel.cs:98 | ordering images by `ImageOrder` is a total preorder |
| SupplierDetail.BestOrderedImage | InventoryManagement/Models/SupplierDetailViewModel.cs:96-103 | none iff no image has an order; otherwise the earliest image with the least order |
| SupplierDetail.BestOrderedImageSpec | InventoryManagement/Models/SupplierDetailViewModel.cs:96-99 | the first image after filtering and sorting is the earliest image with the least order |
| SupplierDetail.ChosenImage | InventoryManagement/Models/SupplierDetailViewModel.cs:88-113 | the primary image wins; otherwise the best ordered image; otherwise none |
| SupplierDetail.ProductImageUrl | InventoryManagement/Models/SupplierDetailViewModel.cs:81-113 | the URL names the chosen image, or is the placeholder when there is none |
| SupplierDetail.ProductImageUrlSpec | InventoryManagement/Models/SupplierDetailViewModel.cs:81-113 | the placeholder appears iff no image was chosen, and two products share a URL iff they chose the same image id |
| SupplierDetail.ProductView | InventoryManagement/Models/SupplierDetailViewModel.cs:115-124 | a row copies id, name, category, price and stock, and its status is the stock status of the quantity |
| SupplierDetail.ChooseImageUrl | InventoryManagement/Models/SupplierDetailViewModel.cs:81-113 | the `if`/`else if` over the images yields the specified URL |
| SupplierDetail.ProductViewsSpec | InventoryManagement/Models/SupplierDetailViewModel.cs:79-125 | the table has one row per product, and row k is the display row of product k |
| SupplierDetail.ProductRow | InventoryManagement/Models/SupplierDetailViewModel.cs:81-124 | the image URL followed by the `ProductForView` initialiser gives the specified row |
| SupplierDetail.ProductRows | InventoryManagement/Models/SupplierDetailViewModel.cs:79-125 | the loop over the products builds exactly the specified rows, in product order |
| SupplierDetail.SupplierDetailViewModel.constructor | InventoryManagement/Models/SupplierDetailViewModel.cs:23-30 | once constructed, every derived property agrees with the supplier: contacts, avatars, currency symbol, and one product row per product in order |
| SupplierDetail.SupplierDetailViewModel.ProcessSupplierData | InventoryManagement/Models/SupplierDetailViewModel.cs:32-128 | sets the primary and other contacts, the two avatars and the currency symbol, and appends one row per product in order |
| SupplierDetail.SupplierDetailViewModel.SetContacts | InventoryManagement/Models/SupplierDetailViewModel.cs:35-59 | primary contact as derived, other contacts as loaded |
| SupplierDetail.SupplierDetailViewModel.SetAvatars | InventoryManagement/Models/SupplierDetailViewModel.cs:61-74 | supplier avatar from the company name (fallback "S"), contact avatar as derived |
| SupplierDetail.SupplierDetailViewModel.SetSupplierAvatar | InventoryManagement/Models/SupplierDetailViewModel.cs:61-62 | the supplier's initial from the company name (fallback "S") and its colour |
| SupplierDetail.SupplierDetailViewModel.SetContactAvatar | InventoryManagement/Models/SupplierDetailViewModel.cs:64-73 | the contact's initial and colour when it has a non-blank name, "?" and the grey otherwise |
| SupplierDetail.SupplierDetailViewModel.AppendProductRows | InventoryManagement/Models/SupplierDetailViewModel.cs:77-126 | the `foreach` appends exactly one row per product, in order |
| ImageSniffing.IsPngIffSignature | InventoryManagement/Controllers/ImageController.cs:36-41 | PNG iff longer than 8 bytes and the first eight are the PNG signature |
| ImageSniffing.SignatureAloneIsNotPng | InventoryManagement/Controllers/ImageController.cs:38 | exactly the eight signature bytes are not taken for PNG |
| ImageSniffing.IsGifIffHeader | InventoryManagement/Controllers/ImageController.cs:43-48 | GIF iff longer than 6 bytes and starting with "GIF87a" or "GIF89a" |
| ImageSniffing.PngAndGifExclusive | InventoryManagement/Controllers/ImageController.cs:36-48 | no input is both PNG and GIF |
| ImageSniffing.ContentType | InventoryManagement/Controllers/ImageController.cs:27-29 | "image/png" iff PNG, "image/gif" iff GIF and not PNG, "image/jpeg" iff neither |
| ImageSniffing.SupplierImageContentType | InventoryManagement/Controllers/SupplierController.cs:111-112 | supplier images are "image/png" iff PNG and "image/jpeg" otherwise; GIF is not recognised |
| ImageSniffing.GetImage | InventoryManagement/Controllers/ImageController.cs:19-35 | a missing row, null bytes or empty bytes give NotFound; otherwise the bytes with the sniffed content type |

## Left out

- Entity Framework plumbing is not modelled: `async`/`await`, `Include`/`AsNoTracking`, `TempData`/`ViewData` messages, view and JSON result objects, and URL helpers. The outcome datatypes stand for the results. Message texts are not modelled.
- The `DbUpdateConcurrencyException` and `DbUpdateException` branches of `Edit` and `PerformDelete` are not modelled: a save in the model always succeeds. This includes a failure from the NOT NULL columns of `SupplierContact` (`Models/Supplier.cs:57-65`). Such a failure can arise for a new contact row that fills only one of its three fields.
- `Create` saves the supplier and its primary contact in two `SaveChangesAsync` calls. The model performs both as one step.
- `ModelState.IsValid` is a parameter, because the data-annotation validator is not visible. So is the removal of the `ProfileImageFile` entry before validation.
- The form's `SupplierId`, `OtherContacts` and `HasExistingProfileImage` are taken as `Edit` reads them. `AddSupplierViewModel.cs` does not declare them.
- Whether the product foreign key is Restrict is a parameter of `PerformDelete`. The entity-model lookup that computes it is not modelled. When the rule is not Restrict, products are unlinked, as EF does for an optional key.
- The company-name uniqueness checks, and the supplier list's search (`ToLower().Contains`), status filter (`==`) and `ORDER BY`, run in the database, whose provider and collation the source does not name. The model evaluates them in memory with exact, ordinal comparison; a collation that ignores case could report more duplicates, let "active" match "Active", and order names differently.
- Locale-aware case mapping and collation are not modelled. `ToLower`, `ToUpper` and `OrdinalIgnoreCase` fold ASCII letters only. String ordering is ordinal by character code.
- Characters outside the Basic Multilingual Plane are not modelled. `GetInitial` and `GetColorForInitial` work on single UTF-16 code units in C#, and here on whole characters.
- SupplierQuery.SupplierIndexSorted: the database's `ORDER BY` is not stable, so only key order and the selected multiset are claimed. The model happens to sort stably.
- `ViewBag.Locations`, the sorted city list for the drop-down, is not modelled. Neither is the `pageNumber` argument, which is reset and never used.
- The hard-coded product list of `ProductsController.Index` is an input sequence.
- ProductsQuery.Product: `name` is a plain string. `Models/Product.cs` declares `Name` as a non-annotated `string`, so a null name is possible, and `OrderBy` would put it first; a null name is not modelled.
- `ProductsController` stock statuses are stored strings, not linked to `CalculateStockStatus`: the fixture gives stock 30 both "danger" and "low".
- `TotalPayables` is not modelled; no shown code sets it.
- The new contacts of `Edit` get ids from a counter, in submission order. The database assigns identity values at save, and their exact order is not promised there.
- `HomeController.cs` (a redirect), `wwwroot/js/product-detail.js` (browser UI code) and the product-creation view models are not part of this model.
- Product creation is not modelled: the image order numbering and the primary-image save.
- Upload streams are optional byte sequences. Copying an `IFormFile` through a `MemoryStream` is I/O.
