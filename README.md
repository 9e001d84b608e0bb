# Marketplace cart, checkout and catalogue — a Dafny model

This project models the service layer of a small Spring marketplace:

- **Cart.** Buyers keep one cart each. Its lines are keyed by product.
- **Checkout.** It turns the cart into an order and empties the cart.
- **Order management.** Admins move orders between five statuses. Sellers and admins maintain products.
- **Inventory and categories.** Sellers and admins set per-product stock. Categories form a tree. A new category's name, before trimming, must differ ignoring case from its siblings' names; the trimmed name is stored, so a name with surrounding spaces can end up equal to a sibling's.

The database is the class `Repositories.Store`. It keeps one `map` per table and the identity counters the database would use for new rows. Its fields are updated in place by the service methods, and each method's `modifies` names the tables the Java method writes.

`Store.Valid()` is the invariant every service method keeps. It covers:

- keys agree with ids, and ids stay below their counters;
- product and order statuses come from their whitelists;
- every cart line has a quantity of at least 1, a price snapshot, and an existing product;
- every order has items, and its total is the sum of its items.

Entities are datatype values (`Domain`). Nullable Java fields are `Option`s. A call that throws returns `Failure(e)`, and `e` names the exception class and the reason. Each Java method is `@Transactional`, so a failed call leaves the store exactly as it was. Every such method is stated that way.

Per module:

- `Text`: the string operations the services rely on, all in the root locale. They are `Character.toUpperCase` up to U+017F (ASCII, Latin-1 and Latin Extended-A), applied one character at a time as `String.toUpperCase` and the upper-case comparison of `equalsIgnoreCase`; the two characters below U+0180 that `String.toUpperCase` expands, ß and ŉ, are kept as they are (see "## Left out"); `isBlank` (via `Character.isWhitespace`); and `trim`.
- `CartItemMapper` and `CartMapper`: the per-line subtotal and the displayed cart total. The total is specified by the ghost sum `LinesTotal`, which may take a cart's lines in any order.
- `CartService`, `OrderService`, `ProductService`, `InventoryService` and `CategoryService`: one method or function per service method.
- `Scenarios`: call sequences of the services on a fresh store, following the repository's own tests. One product added 2 and then 3 times gives one line of 5. Two successive `getOrCreateMyCart` calls return one cart. The checkout of 100 × 2 + 250 × 3 gives an order worth 950.

## Model

| member | source | states |
|---|---|---|
| Text.ToUpperIdempotent | src/main/java/org/example/session/service/OrderService.java:106 | upper-casing an upper-cased status changes nothing, so a stored status passes the whitelist again |
| Text.UpperChar | src/main/java/org/example/session/service/OrderService.java:106 | a character upper-cases to an ASCII capital exactly when it is an ASCII letter, dotless i or long s; characters above U+017F are left as they are |
| Text.ToUpper | src/main/java/org/example/session/service/ProductService.java:138 | upper-casing keeps the length |
| Text.ToUpperAsciiWord | src/main/java/org/example/session/service/ProductService.java:138-140 | an upper-cased string is a word of ASCII capitals exactly when every input character upper-cases to one, which is what the status whitelists decide on |
| Text.EqualsIgnoreCase | src/main/java/org/example/session/service/CartService.java:63 | equal strings are equal ignoring case, and strings equal ignoring case have equal lengths |
| Text.EqualsUpperWord | src/main/java/org/example/session/service/CartService.java:63 | against a word of ASCII capitals such as "ARCHIVED", equality ignoring case holds exactly when the other string upper-cases to that word |
| Text.IsBlank | src/main/java/org/example/session/service/CategoryService.java:25 | a name of spaces only is blank, and a blank name holds no letter or digit |
| Text.Trim | src/main/java/org/example/session/service/CategoryService.java:45 | the result is the input with its leading and trailing characters ≤ U+0020 removed: a slice of the input that neither starts nor ends with such a character, with every character before it and every character after it ≤ U+0020; empty only when every character was one |
| Text.AccentedLettersFold | src/main/java/org/example/session/db/repositoty/CategoryRepo.java:13-15 | accented Latin letters compare ignoring case like ASCII ones ("école" equals "École"), while an accent still tells letters apart |
| Text.ControlCharacterIsNotBlankButTrimsAway | src/main/java/org/example/session/service/CategoryService.java:25-45 | the name "\u0001" is not blank (not whitespace) yet trims to the empty string, so it is accepted and stored empty |
| CartItemMapper.Subtotal | src/main/java/org/example/session/data/mappers/cart/CartItemMapper.java:16-19 | the subtotal is 0 when the price snapshot or the quantity is null, equals checkout's product with nulls read as 0, and is never negative for non-negative fields |
| CartItemMapper.ToResDto | src/main/java/org/example/session/data/mappers/cart/CartItemMapper.java:11-14 | the line view takes product id and title from the product, copies quantity and price snapshot, and carries the subtotal |
| CartItemMapper.CheckoutAmountIsSubtotal | src/main/java/org/example/session/service/OrderService.java:52-54 | checkout's amount with nulls read as 0 equals the mapper's subtotal for every line |
| CartMapper.LinesTotalRemove | src/main/java/org/example/session/data/mappers/cart/CartMapper.java:22-27 | the cart total does not depend on the order the lines are visited: any line may be taken out first |
| CartMapper.LinesTotalInsert | src/main/java/org/example/session/data/mappers/cart/CartMapper.java:22-27 | adding a line to a cart adds exactly its subtotal to the total |
| CartMapper.IncompleteLinesAddNothing | src/main/java/org/example/session/data/mappers/cart/CartMapper.java:23-25 | a cart whose lines all miss a price or a quantity totals 0 |
| CartMapper.FillTotal | src/main/java/org/example/session/data/mappers/cart/CartMapper.java:19-29 | the loop's total is 0 for a null collection and otherwise the sum of the lines' subtotals |
| CartMapper.TwoLineCartTotal | src/test/java/org/example/session/mappers/CartMapperTest.java:60 | 100 × 2 + 50 × 3 totals 350 |
| Repositories.Store.FindByIdAndSeller | src/main/java/org/example/session/db/repositoty/ProductRepo.java:13 | a product is found exactly when it exists and belongs to that seller |
| Repositories.Store.ExistsByNameIgnoreCaseAndParent | src/main/java/org/example/session/db/repositoty/CategoryRepo.java:13-15 | a sibling with exactly that name is always found, and a level with no categories has no duplicate |
| Repositories.Store.SaveNewProduct | src/main/java/org/example/session/service/ProductService.java:58 | a new product gets the next id, is inserted, and the store stays valid |
| Repositories.Store.UpdateProduct | src/main/java/org/example/session/service/ProductService.java:96-128 | the managed product is written back: only that product's row changes, to the new value, and the store stays valid |
| Repositories.Store.SaveNewInventory | src/main/java/org/example/session/service/ProductService.java:65 | a new stock record gets the next id and is filed under its product |
| Repositories.Store.UpdateInventory | src/main/java/org/example/session/service/InventoryService.java:68 | saving an existing stock record replaces it under its product, keeping its id |
| Repositories.Store.SaveNewCategory | src/main/java/org/example/session/service/CategoryService.java:49 | a new category gets the next id and is inserted |
| Repositories.Store.SaveNewOrder | src/main/java/org/example/session/service/OrderService.java:70 | a well-formed new order gets the next id and is inserted |
| Repositories.Store.DeleteAllByCart | src/main/java/org/example/session/db/repositoty/CartItemRepo.java:11 | the cart has no lines afterwards; no other cart's lines change |
| CartService.AddQuantity | src/main/java/org/example/session/service/CartService.java:67-68 | the added quantity is the request itself when that is positive, and exactly 1 when the request is null or not positive |
| CartService.GetOrCreateMyCart | src/main/java/org/example/session/service/CartService.java:31-42 | an existing cart is returned unchanged; otherwise exactly one new empty cart is inserted for the buyer |
| CartService.GetMyCart | src/main/java/org/example/session/service/CartService.java:44-54 | the same as getOrCreateMyCart |
| CartService.AddItem | src/main/java/org/example/session/service/CartService.java:56-91 | fails exactly for a missing or archived (ignoring case) product, changing nothing. Otherwise it grows the product's line by max(1, q), creating the line with the product's price (0 if null) as its snapshot or keeping an existing line's snapshot. Other lines and carts are unchanged |
| CartService.SetQuantity | src/main/java/org/example/session/service/CartService.java:93-112 | a quantity ≤ 0 deletes the line, present or not (null reads as 1). A positive quantity overwrites the existing line's quantity only, and fails with nothing changed when there is no such line |
| CartService.RemoveItem | src/main/java/org/example/session/service/CartService.java:114-120 | deletes only that product's line of the buyer's cart; a buyer without a cart gets exactly one new cart with the next id, and no other cart changes |
| CartService.Clear | src/main/java/org/example/session/service/CartService.java:122-132 | deletes every line of the buyer's cart and keeps the cart; other carts' lines are untouched; a buyer without a cart gets exactly one new cart with the next id, and no other cart changes |
| OrderService.FrozenLineAmount | src/main/java/org/example/session/service/OrderService.java:52-59 | an order item made from a line is worth that line's displayed subtotal |
| OrderService.FreezeLines | src/main/java/org/example/session/service/OrderService.java:49-66 | the loop makes one item per cart line, no product twice, each copying the line with nulls as 0 and the product's seller, with the running total equal to the items' sum |
| OrderService.FrozenTotal | src/main/java/org/example/session/service/OrderService.java:49-68 | such items cover exactly the cart's products and add up to the cart's displayed total |
| OrderService.Checkout | src/main/java/org/example/session/service/OrderService.java:31-76 | a missing or empty cart fails with nothing changed. Otherwise one CREATED order of the buyer is inserted, with one frozen item per line and a total equal to the cart total; the cart's lines are deleted and the cart kept |
| OrderService.MyOrders | src/main/java/org/example/session/service/OrderService.java:78-82 | exactly the buyer's orders, each once |
| OrderService.GetMyOrder | src/main/java/org/example/session/service/OrderService.java:84-93 | an unknown id is IllegalArgument, another buyer's order is AccessDenied, otherwise the stored order |
| OrderService.GetAnyOrder | src/main/java/org/example/session/service/OrderService.java:95-99 | the stored order, or IllegalArgument for an unknown id |
| OrderService.NormalizeOrderStatus | src/main/java/org/example/session/service/OrderService.java:106-110 | the accepted status is one of the five and equals the request ignoring case. A request is accepted iff its upper case is one of the five; a null request keeps the current status iff that is legal |
| OrderService.StatusRequestIgnoresCase | src/main/java/org/example/session/service/OrderService.java:106 | requests equal ignoring case have the same outcome |
| OrderService.StatusExamples | src/test/java/org/example/session/services/OrderServiceTest.java:232-267 | "paid" is stored as PAID and "WRONG_STATUS" is refused |
| OrderService.UpdateStatusByAdmin | src/main/java/org/example/session/service/OrderService.java:101-115 | an unknown order or an illegal status fails with nothing changed; otherwise only the order's status changes, to a legal one |
| ProductService.NormalizeProductStatus | src/main/java/org/example/session/service/ProductService.java:138-141 | null gives DRAFT. A request is accepted iff its upper case is DRAFT, ACTIVE or ARCHIVED, and the result equals it ignoring case |
| ProductService.ProductStatusIgnoresCase | src/main/java/org/example/session/service/ProductService.java:138 | requests equal ignoring case have the same outcome |
| ProductService.ApplyUpdate | src/main/java/org/example/session/service/ProductService.java:132-143 | succeeds iff the status is legal, then overwrites category, title, description, price and status and keeps id and seller |
| ProductService.Archived | src/main/java/org/example/session/service/ProductService.java:119 | status becomes ARCHIVED and every other field is kept |
| ProductService.ArchiveIdempotent | src/main/java/org/example/session/service/ProductService.java:119-120 | archiving twice is archiving once |
| ProductService.Create | src/main/java/org/example/session/service/ProductService.java:38-68 | an unknown category fails, then a null price fails on unboxing, both with nothing changed. Otherwise a DRAFT product of the caller with the given fields is inserted, together with its stock record (quantity 0, reserved 0) |
| ProductService.GetById | src/main/java/org/example/session/service/ProductService.java:70-74 | the stored product, or IllegalArgument for an unknown id |
| ProductService.ListPublic | src/main/java/org/example/session/service/ProductService.java:76-80 | every ACTIVE product, once each, and nothing else |
| ProductService.ListSellerProducts | src/main/java/org/example/session/service/ProductService.java:82-86 | every product of the caller, once each, and nothing else |
| ProductService.UpdateFound | src/main/java/org/example/session/service/ProductService.java:93-97 | an unknown category fails first; otherwise the outcome is applyUpdate's, written back only on success |
| ProductService.UpdateBySeller | src/main/java/org/example/session/service/ProductService.java:88-99 | a missing product and another seller's product both give the same AccessDenied. Then come the category and status checks; only that product changes |
| ProductService.UpdateByAdmin | src/main/java/org/example/session/service/ProductService.java:101-112 | only an unknown product is refused before the category and status checks; only that product changes |
| ProductService.ArchiveBySeller | src/main/java/org/example/session/service/ProductService.java:114-121 | fails, alike and with nothing changed, exactly when the product is missing or not the caller's; otherwise archives it |
| ProductService.ArchiveByAdmin | src/main/java/org/example/session/service/ProductService.java:123-130 | fails exactly for an unknown product; otherwise archives it |
| InventoryService.GetByProductId | src/main/java/org/example/session/service/InventoryService.java:29-33 | the product's stock record, or IllegalArgument when it has none |
| InventoryService.RequestedQuantity | src/main/java/org/example/session/service/InventoryService.java:63-64 | null is 0, a negative request is refused, and an accepted quantity is never negative |
| InventoryService.Upsert | src/main/java/org/example/session/service/InventoryService.java:51-69 | a negative quantity fails and saves nothing. Otherwise only the quantity is set: an existing record keeps its id and reserved count, and a missing one is created with reserved 0 |
| InventoryService.SetQuantityBySeller | src/main/java/org/example/session/service/InventoryService.java:35-41 | a missing or foreign product gives AccessDenied with nothing changed; otherwise upsert's result: an existing record keeps its id and reserved count, a new one gets the next id and reserved 0, and a negative quantity changes nothing |
| InventoryService.SetQuantityByAdmin | src/main/java/org/example/session/service/InventoryService.java:43-49 | only an unknown product is refused; otherwise upsert's result: an existing record keeps its id and reserved count, a new one gets the next id and reserved 0, and a negative quantity changes nothing |
| CategoryService.NameLe | src/main/java/org/example/session/db/repositoty/CategoryRepo.java:9 | the name order puts a prefix before the longer name and never puts a name before one with a smaller first character |
| CategoryService.NameLeTotal | src/main/java/org/example/session/db/repositoty/CategoryRepo.java:9 | any two names are ordered one way or the other |
| CategoryService.NameLeTransitive | src/main/java/org/example/session/db/repositoty/CategoryRepo.java:9 | the name order is transitive |
| CategoryService.InsertByName | src/main/java/org/example/session/db/repositoty/CategoryRepo.java:9 | inserting into a name-sorted list keeps it sorted and adds exactly that category |
| CategoryService.SortByName | src/main/java/org/example/session/db/repositoty/CategoryRepo.java:9 | the result is sorted by name and a permutation of the input |
| CategoryService.SortedPairwise | src/main/java/org/example/session/db/repositoty/CategoryRepo.java:9 | in a sorted list every earlier name is ≤ every later one |
| CategoryService.PermutationKeepsDistinct | src/main/java/org/example/session/db/repositoty/CategoryRepo.java:9 | sorting a list without repeats leaves no repeats |
| CategoryService.Get | src/main/java/org/example/session/service/CategoryService.java:52-56 | the stored category, or IllegalArgument for an unknown id |
| CategoryService.RootCategories | src/main/java/org/example/session/service/CategoryService.java:58-61 | every category without a parent, once each, in ascending name order, and nothing else |
| CategoryService.Children | src/main/java/org/example/session/service/CategoryService.java:63-66 | every category whose parent is the given id, once each, and nothing else |
| CategoryService.Create | src/main/java/org/example/session/service/CategoryService.java:23-50 | checks in this order, each failure changing nothing: a null or blank name; an unknown parent; a sibling name equal ignoring case to the untrimmed input. A request passing all three succeeds, and the trimmed name is inserted under that parent with the next id |
| CategoryService.UntrimmedDuplicatePasses | src/main/java/org/example/session/service/CategoryService.java:36-45 | " Books" is not equal ignoring case to a sibling "Books", yet is stored as "Books" |
| Scenarios.AddTwiceMerges | src/test/java/org/example/session/services/CartServiceTest.java:122-142 | adding 2 then 3 of a product leaves one line of 5 with the first snapshot |
| Scenarios.SameCartTwice | src/test/java/org/example/session/services/CartServiceTest.java:88-90 | two getOrCreateMyCart calls give the same cart and one cart in the store |
| Scenarios.NineFifty | src/test/java/org/example/session/services/OrderServiceTest.java:121 | 100 × 2 + 250 × 3 totals 950 |
| Scenarios.CheckoutNineFifty | src/test/java/org/example/session/services/OrderServiceTest.java:97-128 | that cart checks out as a CREATED order of the buyer with two items worth 950, and the cart survives with no lines |

## Left out

- Timestamps (`createdAt`, `updatedAt`, `Instant.now()`): left out, since they are the clock's. "Only status changes" means "only status and updatedAt" in the source.
- Pagination and ordering by `createdAt` in `myOrders`, `listPublic` and `listSellerProducts`: the model returns the full result set in no particular order.
- Java `long`/`Integer` overflow: amounts and quantities are unbounded integers. So price × quantity, the running totals and `item.getQuantity() + addQty` never wrap here.
- CartService.AddItem: does not model the overflow of the line quantity past `Integer.MAX_VALUE`, because integers are unbounded.
- CartMapper.FillTotal: the sum is stated without 64-bit wrap-around, for the same reason.
- Upper-casing: `Text.ToUpper` upper-cases one character at a time and leaves every character above U+017F as it is. `String.toUpperCase` also expands ß to SS, ŉ to ʼN and the ligatures U+FB00–U+FB06 to FF, FI, FL, FFI, FFL and ST; `Text.ToUpper` keeps them as they are. Every status whitelist decision is still exact, because no status word contains SS, FF, FI, FL or ST, ʼN holds a character that is not ASCII, and every other character above U+017F upper-cases to something that is not ASCII. A Turkish default locale is not modelled either.
- Text.EqualsIgnoreCase: states only the upper-case comparison. The second comparison of `String.equalsIgnoreCase`, through lower case, also matches U+0130 with i; that is not modelled. It makes no difference where the services use it on whitelisted statuses.
- CategoryService.Create: the sibling-name check treats names as duplicates only through the character-wise case folding of U+0000–U+017F. Duplicates that differ in the case of letters above U+017F (Greek, Cyrillic, ...), or that a database `upper()` makes equal by expanding ß to SS, are accepted here although the database would report them.
- The database collation: the `ORDER BY name` of `rootCategories` is modelled as character-by-character order, and `existsByNameIgnoreCase` as `equalsIgnoreCase`. A real collation may differ.
- Database NOT NULL and length constraints: titles are plain strings here, so a product created or updated with a null title cannot be expressed at all; an update with a null price is stored as null here; and a category name longer than 80 characters (Category.java:22) or a product title longer than 160 (Product.java:32) is stored here, while the database would reject each of these at commit. A null category or product id in a request is treated as an unknown id rather than as Spring's null-id error.
- The surrogate ids of cart lines and order items: lines are keyed by (cart, product), as the repository looks them up, and order items are a sequence.
- Entity objects are values: aliasing between a returned entity and the stored row is not modelled. The `cart.getItems().add(item)` re-append of an already-present line changes no persisted row and is not modelled.
- CartMapper.FillTotal: takes the cart's lines as a map keyed by product, one line per product, as they are persisted. The in-memory cart that `addItem` returns after re-appending an existing line lists that line twice, so its response shows the line twice and counts its subtotal twice; a list with a repeated product, as in the mapper's own test, cannot be expressed either.
- Concurrency and lost updates between simultaneous calls: each call is atomic.
- Controllers, security (roles, the principal lookup), AuthService and the field-copying mappers: not part of this model. The caller's user id is a parameter.
