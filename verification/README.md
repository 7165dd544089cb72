# Promotional-products storefront: catalog filter, product detail, cart and quotation form

A Dafny model of the logic behind a small storefront for promotional
products (lorenzo-pachioli/frontend-challenge, a React/TypeScript single-page
application). It covers five parts of the application.

- The catalog page. `filterProducts` always starts from the full catalog.
  It narrows the products by category, by an accent- and case-insensitive
  text search over name and SKU, by supplier and by an inclusive price
  range. It then sorts them by name, by ascending price or by descending
  stock. The five change handlers update one criterion and refilter.
- The product detail page:
  - finding the product by the id in the route;
  - the default colour and size;
  - the volume price that the price breaks select for a quantity;
  - the quantity selector, bounded by stock;
  - the add-to-cart guard.
- The cart store. `addToCart` merges quantities into an existing item with
  the same id or appends a new one. Every effective change is written to
  browser storage. `quantityOfItems` sums the quantities.
- The quotation form, which has these parts:
  - the company-name validator;
  - the CUIL/CUIT validator, with its separators, length and modulo-11
    check digit;
  - the e-mail validator;
  - the sanitiser applied to CUIL input;
  - the change handlers;
  - `isFormValid`, which enables printing.
- The colour swatch lookup `colorToEnglish`. It is a lookup in two
  parallel lists that falls back to the colour itself when the colour is
  not listed.

Files:

- `options.dfy` and `seqs.dfy` hold `Option`, `Filter`, `IndexOf` and
  `Includes`.
- `sorting.dfy` holds a stable insertion sort, standing in for
  `Array.prototype.sort`.
- `text.dfy` holds JavaScript white space and `trim`.
- `catalog.dfy` holds the product record.
- `product_list.dfy`, `product_detail.dfy`, `shopping_cart.dfy`,
  `cotizacion.dfy` and `colors.dfy` hold the five parts.

Each operation is paired with an independent statement of what it should
do:

- The four guarded filter passes are proved equal to a single filter by
  the conjunction of the criteria (`Selected`).
- The sort is proved to be a stable, ordered permutation.
- The price fold is proved to pick the last qualifying break.
- The cart transition is proved to keep ids unique and to keep the
  storage snapshot in sync, with its effect on the item count proved.
- Each validator is proved equivalent to a plain description of the
  strings it accepts.

Where a natural reading of the feature differs from the code, the model
follows the code:

- The volume price is taken from the last break, in list order, whose
  threshold the quantity reaches. It is not taken from the qualifying
  break with the highest threshold. The two agree when breaks are listed
  by ascending threshold (`ProductDetail.ListOrderExample` shows where
  they differ).
- A break whose threshold is not positive never applies.
- A cart item is identified by the product id alone. The colour, size and
  price the detail page has on hand are not part of the item.
- The three parts of an e-mail address are runs of characters that are
  neither white space nor `@`. An address therefore has exactly one `@`.
- The search runs only for a non-empty query, and the supplier filter
  only for a non-empty supplier id, because the empty string is falsy in
  JavaScript.
- Because the comparators are read as "may come first" when
  `compare(a, b) <= 0`, equal keys keep catalog order, as the stable
  `Array.prototype.sort` does.

## Model

| member | source | states |
|---|---|---|
| ProductList.StripMarksContent | src/pages/ProductList.tsx:39-41 | removing the marks of U+0300..U+036F gives nothing for nothing, drops a mark, keeps any other character, and distributes over concatenation, so the other characters survive in order with their repeats |
| ProductList.PassesFilterByCriterion | src/pages/ProductList.tsx:31-60 | each guarded pass equals filtering by its criterion's predicate, and an inactive criterion ("all", empty query, missing or empty supplier, no bounds) keeps every product |
| ProductList.FilteredIsSelected | src/pages/ProductList.tsx:29-60 | the four passes applied one after another select exactly the catalog products meeting the conjunction of all criteria, in catalog order |
| ProductList.SelectedMembers | src/pages/ProductList.tsx:29-60 | a product is in the reference selection if and only if it is in the catalog and meets every criterion |
| ProductList.OrderIsPreorder | src/pages/ProductList.tsx:63-72 | the price and stock comparators, and the name comparator over a consistent collation, rank any two products and are transitive |
| ProductList.SortProducts | src/pages/ProductList.tsx:62-75 | the result is a permutation of the input; it is ascending by name or price or descending by stock for those keys, and unchanged for any other key |
| ProductList.FilterProducts | src/pages/ProductList.tsx:28-78 | the shown list is a permutation of the reference selection from the full catalog, ordered by the chosen key, and is the selection itself for an unknown key |
| ProductList.ShownIffMatches | src/pages/ProductList.tsx:28-78 | a product is shown if and only if it is in the catalog and matches every criterion |
| ProductList.FilterProductsMembers | src/pages/ProductList.tsx:31-60 | the same if-and-only-if, criterion by criterion: category, normalised substring of name or SKU, supplier, inclusive minimum and maximum |
| ProductList.FilterProductsStable | src/pages/ProductList.tsx:63-75 | products the chosen order ranks equal keep their catalog order |
| ProductList.SearchIsNormalised | src/pages/ProductList.tsx:37-47 | two queries with the same decomposed, mark-free, lower-cased form show the same list |
| ProductList.NextSupplier | src/pages/ProductList.tsx:98-101 | choosing the selected supplier again clears the selection; choosing any other value selects it (none clears) |
| ProductList.HandlersRefilterFromCatalog | src/pages/ProductList.tsx:80-115 | the category, search, sort and price handlers leave the shown list equal to the filter of the full catalog by the stored criteria, whatever was shown before; the supplier handler's list does not depend on the previous list either |
| ProductList.TogglesClear | src/pages/ProductList.tsx:98-111 | re-choosing the selected supplier or the selected price band clears it, and clearing the band refilters without bounds |
| ProductList.SupplierToggleKeepsStaleFilter | src/pages/ProductList.tsx:98-104 | deselecting the active supplier clears the selection but still hides another supplier's product that meets every remaining criterion, so the list no longer matches the stored criteria |
| ProductList.HandleSupplierChangeFixed | src/pages/ProductList.tsx:98-104 | refiltering with the selection the handler stores leaves the list matching the stored criteria |
| Sorting.InsertionSort | src/pages/ProductList.tsx:63-75 | sorting preserves the multiset of products |
| Sorting.InsertionSortSorted | src/pages/ProductList.tsx:63-75 | under a total preorder every earlier element may come before every later one |
| Sorting.InsertionSortStable | src/pages/ProductList.tsx:63-75 | for every element, the elements tied with it appear in the same relative order before and after sorting |
| ProductDetail.FindProduct | src/pages/ProductDetail.tsx:33 | none exactly when no product has the id, otherwise the first product with that id |
| ProductDetail.FetchFromInitial | src/pages/ProductDetail.tsx:31-44 | an unparsable id finds nothing and selects nothing; otherwise the found product has the parsed id and its first colour and first size are selected when it has any |
| ProductDetail.FinalPrice | src/pages/ProductDetail.tsx:67-79 | the price is the base price or the price of one of the product's breaks |
| ProductDetail.ChosenIsStartOrBreak | src/pages/ProductDetail.tsx:71-76 | the fold ends on its starting value or on one of the breaks |
| ProductDetail.ChooseBreakIsLast | src/pages/ProductDetail.tsx:71-76 | the fold ends on the last break whose threshold the quantity reaches, or on its start when none does |
| ProductDetail.FinalPriceIsLastQualifyingBreak | src/pages/ProductDetail.tsx:67-79 | no breaks, or none reached, gives the base price; otherwise the last reached break's price, unless its threshold is not positive |
| ProductDetail.VolumePriceExample | src/pages/ProductDetail.tsx:67-79 | base 100 with breaks 10→90 and 50→80 gives 100, 90, 90 and 80 at 5, 10, 49 and 50 units |
| ProductDetail.ListOrderExample | src/pages/ProductDetail.tsx:71-77 | with base 100 at 60 units, breaks 50→80 then 10→90 give 90 (the later, lower threshold wins), and adding a final break at threshold 0 gives 100 |
| ProductDetail.ChangeQuantity | src/pages/ProductDetail.tsx:81-85 | a request with 0 < q ≤ stock is taken, and any other request leaves the quantity as it was |
| ProductDetail.QuantityStaysInStock | src/pages/ProductDetail.tsx:81-85 | starting within 1..stock, any series of requests keeps the quantity within 1..stock and at the start or an accepted request |
| ProductDetail.CanAddMeansSomeQuantity | src/pages/ProductDetail.tsx:81-95 | a product can be added exactly when it is active and the selector accepts one unit; with no stock every request is refused and nothing can be added |
| ShoppingCart.CountId | src/hooks/shopingCartProvider.tsx:26 | the number of items with an id is zero exactly when `some` finds none |
| ShoppingCart.Merge | src/hooks/shopingCartProvider.tsx:27-32 | same length; items with the id gain the quantity and all others are unchanged |
| ShoppingCart.AddToCart | src/hooks/shopingCartProvider.tsx:21-40 | a non-positive quantity changes nothing; any other add writes the new list to storage |
| ShoppingCart.AddToCartMergesOrAppends | src/hooks/shopingCartProvider.tsx:26-36 | a present id: same length, same ids, only its items' quantities rise, by exactly the quantity; a new id: the old list followed by one new item |
| ShoppingCart.AddToCartKeepsIdsUnique | src/hooks/shopingCartProvider.tsx:26-36 | if no two items share an id before an add, none do after it |
| ShoppingCart.QuantityOfItemsConcat | src/hooks/shopingCartProvider.tsx:43-46 | the count of an empty cart is 0 and the count splits over concatenation |
| ShoppingCart.QuantityOfItemsMerge | src/hooks/shopingCartProvider.tsx:27-46 | merging raises the count by the quantity once per item carrying the id |
| ShoppingCart.AddToCartCount | src/hooks/shopingCartProvider.tsx:21-46 | a non-positive add leaves the count; with unique ids an add raises the count by exactly the quantity |
| ShoppingCart.AddToCartKeepsStorageInSync | src/hooks/shopingCartProvider.tsx:38-39 | once storage holds the current list, it still does after any add |
| Text.TrimStart | src/pages/Cotizacion.tsx:38 | the result is a suffix of the input, everything dropped is white space, and it does not start with white space |
| Text.TrimEnd | src/pages/Cotizacion.tsx:38 | the result is a prefix of the input, everything dropped is white space, and it does not end with white space |
| Cotizacion.CompanyVerdicts | src/pages/Cotizacion.tsx:37-42 | required exactly for blank names; too short exactly for non-blank names under two characters once trimmed; accepted exactly for names of at least two trimmed characters made only of the allowed characters |
| Cotizacion.StripSeparatorsContent | src/pages/Cotizacion.tsx:46 | stripping gives nothing for nothing, drops a hyphen or white-space character, keeps any other, and distributes over concatenation, so every other character survives in order |
| Cotizacion.DigitValues | src/pages/Cotizacion.tsx:50 | one value per digit character, in 0..9, and the value is the digit's number: digit `d[i]` of "0123456789" is the character `s[i]` |
| Cotizacion.CheckDigit | src/pages/Cotizacion.tsx:51-60 | the expected check digit is in 0..9 |
| Cotizacion.ComputeCheckDigit | src/pages/Cotizacion.tsx:52-60 | the weighted-sum loop yields the check digit the modulo-11 rule defines |
| Cotizacion.CuilVerdicts | src/pages/Cotizacion.tsx:44-64 | required exactly for blank input; wrong length exactly when non-blank and not eleven digits without separators; invalid exactly when eleven digits whose check digit does not match; accepted exactly when they match |
| Cotizacion.StripSeparatorsInsert | src/pages/Cotizacion.tsx:46 | inserting a hyphen or white space anywhere leaves the stripped digits unchanged |
| Cotizacion.CuilIgnoresSeparators | src/pages/Cotizacion.tsx:44-64 | inserting a hyphen or white space into a non-blank CUIL does not change its verdict |
| Cotizacion.BareDigitsVerdict | src/pages/Cotizacion.tsx:44-64 | eleven bare digits are accepted exactly when their check digit matches, and are otherwise invalid |
| Cotizacion.HyphenatedVerdict | src/pages/Cotizacion.tsx:44-64 | the `xx-xxxxxxxx-x` form gets the verdict of its bare digits |
| Cotizacion.ChecksumExamples | src/pages/Cotizacion.tsx:50-62 | 20123456786 passes (sum 148), 20123456789 fails, and 20000000019 passes (remainder 1 expects 9) |
| Cotizacion.CuilValidAndAlteredExample | src/pages/Cotizacion.tsx:44-64 | a valid CUIL is accepted and the same with its check digit altered is invalid |
| Cotizacion.CuilRemainderOneExample | src/pages/Cotizacion.tsx:59-62 | a sum with remainder 1 accepts check digit 9 |
| Cotizacion.TenDigitsVerdict | src/pages/Cotizacion.tsx:46-47 | any ten digits are reported as the wrong length |
| Cotizacion.CuilBlankExample | src/pages/Cotizacion.tsx:45 | white space alone is reported as missing |
| Cotizacion.EmailPatternShape | src/pages/Cotizacion.tsx:68-69 | the pattern holds exactly for strings with no white space, exactly one `@` that is not first, and a `.` after it with at least one character on each side |
| Cotizacion.PatternNeedsDotNoSpace | src/pages/Cotizacion.tsx:68-69 | a matching address contains a `.` and no white space |
| Cotizacion.EmailVerdicts | src/pages/Cotizacion.tsx:66-71 | required exactly for blank input; malformed exactly when non-blank and not matching the pattern; accepted exactly when non-blank and matching |
| Cotizacion.EmailAcceptedExample | src/pages/Cotizacion.tsx:66-71 | `ejemplo@empresa.com` is accepted |
| Cotizacion.EmailWithoutDotExample | src/pages/Cotizacion.tsx:66-71 | `ejemplo@empresa` is malformed |
| Cotizacion.EmailWithSpaceExample | src/pages/Cotizacion.tsx:66-71 | `ejemplo empresa.com` is malformed |
| Cotizacion.SanitizeCuilContent | src/pages/Cotizacion.tsx:82 | sanitising gives nothing for nothing, keeps a digit, hyphen or white-space character, drops any other, and distributes over concatenation, so the kept characters stay in order with their repeats |
| Cotizacion.SanitizeCuilIdempotent | src/pages/Cotizacion.tsx:82 | sanitising twice equals sanitising once, and clean input passes unchanged |
| Cotizacion.InitialQuoteShowsNoErrors | src/pages/Cotizacion.tsx:23-29 | the empty form shows no error although each field would be reported as required, and it cannot be submitted whatever the cart holds |
| Cotizacion.FormValidity | src/pages/Cotizacion.tsx:94-99 | the form is valid exactly when each field meets its rule, in plain terms, and the cart is not empty |
| Cotizacion.HandlersKeepErrorsCurrent | src/pages/Cotizacion.tsx:74-92 | each handler stores its field, the CUIL sanitised, and that field's verdict, leaving the other fields and errors alone; after all three edits the shown errors match the stored values, and they stay matched |
| Seqs.IndexOf | src/utils/colorsUtils.ts:5 | -1 exactly when absent, otherwise the first position holding the value |
| Colors.ColorToEnglish | src/utils/colorsUtils.ts:3-7 | a listed colour maps to the CSS value at its first occurrence; an unlisted colour is returned unchanged; the result is always the colour or a listed CSS value |
| Colors.FrontPairWins | src/utils/colorsUtils.ts:5-6 | an earlier entry for a name overrides any later duplicate, and it does not affect other names |

## Findings

| source | as written | input that shows it | evidently intended | confidence | as-written member | corrected member |
|---|---|---|---|---|---|---|
| src/pages/ProductList.tsx:98-104 | the handler stores the toggled selection but refilters with the clicked `supplierId` | supplier `s` selected; click `s` again: the selection becomes none, yet the list still holds only `s`'s products | refilter with the selection just stored, so deselecting a supplier shows every supplier again | not executed | ProductList.SupplierToggleKeepsStaleFilter | ProductList.HandleSupplierChangeFixed |

`ProductList.HandleSupplierChange` is the handler as written, and
`ProductList.SupplierToggleKeepsStaleFilter` proves the discrepancy
against it.

## Left out

- Loading delays (`setTimeout`), the skeletons, rendering, routing, printing (`react-to-print`), `formatPrice` and `console.log` are left out. They are presentation or timing and do not affect the modelled state.
- The product list shown before the first filter is the unsorted catalog (src/pages/ProductList.tsx:19-25). The model starts from the first `filterProducts` call.
- Reading the cart from `localStorage` and `JSON.parse` at start-up are left out. The store is initialised from a given list, and a write is recorded as the `stored` snapshot.
- `useShoppingCart`, which throws outside its provider, is left out.
- `handleAddToCart` (src/pages/ProductDetail.tsx:87-92) is left out. It passes five arguments, the first a product record, to the two-argument `addToCart(productId, quantity)`. The cart behaviour depends on that mismatch at run time and cannot be stated in the provider's own terms.
- The catalog data (products, categories, suppliers, price bands, colour lists) is not fixed. It is a parameter of every operation.
- `String.prototype.normalize("NFD")`, `toLowerCase` and `localeCompare` are parameters (`ProductList.Collation`). Unicode decomposition, case mapping and collation are not modelled.
- `parseInt` on the route id is a parameter of `ProductDetail.FetchProduct`.
- JavaScript numbers are modelled as unbounded integers. Prices are whole amounts, so there is no floating-point rounding in the price comparisons or in the cart count.
- ProductList.SortProducts: the name order is stated only for a comparator that is a total preorder, as `localeCompare` is. Its behaviour for an inconsistent comparator is left out.
- Cotizacion.ValidateCompany: strings are sequences of Unicode code points, whereas `length` counts UTF-16 code units. A name whose trimmed form is a single character outside the Basic Multilingual Plane is reported as too short here, while the page reports it for its characters.
- The unused `cart` field of the quotation form's state is left out.
- The Spanish error texts are not modelled. Each validator returns one error constructor per failure, in the order the checks run.
