# Storefront core in Dafny

A model of the business logic of a small Next.js electronics shop. The
checkout texts are in Polish and prices are in PLN. The model covers:

- **Cart store** (`cart_store.dfy`). The cart is an ordered list of line
  items. `cartReducer` handles `ADD_ITEM`, `REMOVE_ITEM`, `UPDATE_QUANTITY`
  and `CLEAR_CART`, and `totalItems` / `totalPrice` are folds over the list.
  The invariant of every reachable cart is `WellFormed`: each quantity is at
  least one and no two lines share a product id.
- **Checkout rules** (`checkout_rules.dfy`). These are the field rules of
  `checkoutSchema`: the phone, postal-code, card-number, expiry and CVV
  regular expressions, their `refine`s, and the length bounds. `parseInt`
  and `String.prototype.replace` are modelled as far as the postal-code rule
  needs them.
- **Checkout wizard** (`checkout_flow.dfy`). This covers the fourteen-field
  form record and its defaults, the `stepFields` table, and per-step
  validation (`form.trigger`). It also covers the `handleNext`, `handlePrev`
  and submit transitions, and sequences of user events on the page.
- **Cart page** (`cart_view.dfy`). This covers the empty state, the
  "produkt"/"produktow" label, the minus, plus and trash buttons of a row,
  the free-shipping threshold and the grand total.
- **Catalogue** (`catalog.dfy`). This holds the eight products and six sales
  rows of `lib/data.ts`, and `getProductById`, `getProductsByCategory` and
  `getFeaturedProducts`.
- **Product listing** (`products_grid.dfy`). This is the category filter
  with its "all" choice.
- **Product page** (`product_detail.dfy`). This is the "related products"
  strip and the add-to-cart button.
- **Dashboard** (`dashboard.dfy`). This covers the revenue and order sums,
  the products-per-category chart, the in-stock count and `mergeSalesData`.
- **Stepper** (`stepper.dfy`). This covers the completed / current /
  upcoming status of each step, the badges, the separator colours and the
  separator placement.

`types.dfy` holds the shared records: product, category and sales row.
`seqs.dfy` holds `Array.prototype.filter` and its laws.

Money is in grosze, so catalogue prices are the source's whole-złoty prices
times 100. The free-shipping threshold of 500 zł is therefore `50000` and the
19.99 zł fee is `1999`. Dashboard revenue is kept in whole złoty, as the
sales table states it; the two amounts are never mixed.

Email syntax comes from zod's library code, so every validator takes it as
the parameter `isEmail: string -> bool`.

zod's `.min` and `.max` compare JavaScript's `length`, which counts UTF-16
code units. A Dafny string is a sequence of Unicode scalar values, so every
length bound goes through `JsLength`, which counts a character above U+FFFF
twice.

## Model

| member | source | states |
|---|---|---|
| Types.CategoryNameInjective | lib/types.ts:2 | The four category literals are pairwise different, so comparing names is comparing categories. |
| CartStore.FindIndex | lib/cart-store.tsx:35-37 | `findIndex` on the product id: -1 exactly when no line carries the id, otherwise a line with that id and no earlier one. |
| CartStore.FindIndexUnique | lib/cart-store.tsx:35-37 | In a cart with distinct ids, the position of any line is the one `findIndex` reports for its id. |
| CartStore.AddLine | lib/cart-store.tsx:34-47 | ADD_ITEM adds one unit of the product. For a product already present, the length stays the same and only that product's lines may change. For a new product, one line of quantity 1 is appended at the end. All other lines are unchanged, and the invariant is preserved. |
| CartStore.AddAt | lib/cart-store.tsx:38-44 | On a well-formed cart, ADD_ITEM of a product that has a line raises that line's quantity by 1 in place and changes nothing else. |
| CartStore.RemoveLine | lib/cart-store.tsx:48-51 | REMOVE_ITEM leaves no line of the id, never grows the cart, and preserves the invariant. |
| CartStore.RemoveAbsentIsNoOp | lib/cart-store.tsx:48-51 | REMOVE_ITEM of an id with no line leaves the items as they are. |
| CartStore.RemoveLineCutsOut | lib/cart-store.tsx:48-51 | On a well-formed cart, REMOVE_ITEM cuts out exactly the line of the id, and the other lines keep their order. |
| CartStore.UpdateLine | lib/cart-store.tsx:52-59 | After UPDATE_QUANTITY every line has a positive quantity. The id's line, if it survives, holds the requested quantity. A quantity of 0 or less removes the line. Distinct ids stay distinct. |
| CartStore.UpdateLineEffect | lib/cart-store.tsx:52-59 | On a well-formed cart, UPDATE_QUANTITY does one of three things. For an absent id it changes nothing. For a quantity of 0 or less it cuts out that one line. Otherwise it overwrites that line's quantity in place. |
| CartStore.Reduce | lib/cart-store.tsx:32-65 | Every action maps a well-formed cart to a well-formed cart, and CLEAR_CART yields the empty list. |
| CartStore.RunKeepsWellFormed | lib/cart-store.tsx:32-65 | Any sequence of actions dispatched from a well-formed cart, for instance the initial empty cart, yields a well-formed cart. |
| CartStore.TotalsAppend | lib/cart-store.tsx:89-93 | Both folds are additive over concatenation: a cart's totals are the sums over its lines. |
| CartStore.TotalsBounds | lib/cart-store.tsx:89-93 | A cart with positive quantities holds at least as many units as it has lines. With nonnegative prices and quantities, the price total is nonnegative. |
| CartStore.TotalItemsZeroIffEmpty | lib/cart-store.tsx:89 | In a well-formed cart the unit count is 0 exactly when there are no lines. |
| CartStore.TotalsReplace | lib/cart-store.tsx:89-93 | Replacing one line changes each total by that line's difference. |
| CartStore.TotalsCut | lib/cart-store.tsx:89-93 | Cutting one line out lowers each total by that line's contribution. |
| CartStore.AddLineTotals | lib/cart-store.tsx:34-47 | ADD_ITEM raises `totalItems` by 1 and `totalPrice` by the unit price of the line that received the unit. |
| CartStore.RemoveLineTotals | lib/cart-store.tsx:48-51 | On a well-formed cart, REMOVE_ITEM lowers `totalItems` by the removed quantity and `totalPrice` by that line's price times quantity. |
| CartStore.UpdateLineTotals | lib/cart-store.tsx:52-59 | On a well-formed cart, UPDATE_QUANTITY swaps the line's old quantity for `max(0, quantity)` in the unit count. It changes nothing for an absent id. |
| CartStore.UpdateLinePrice | lib/cart-store.tsx:52-59 | On a well-formed cart, UPDATE_QUANTITY swaps the line's old price contribution for its unit price times `max(0, quantity)`. It changes nothing for an absent id. |
| CartStore.ClearCartTotals | lib/cart-store.tsx:60-61 | After CLEAR_CART both totals read 0. |
| CartStore.AddTimesOneLine | lib/cart-store.tsx:34-47 | `n >= 1` consecutive ADD_ITEMs of a product the cart does not hold leave the other lines as they were and append exactly one line, with quantity `n`. |
| CartStore.AddTimesQuantity | lib/cart-store.tsx:34-47 | After those `n` additions the product's quantity is `n`, and its only line is the last one. |
| CheckoutRules.FourZerosRejected | components/checkout-form.tsx:58-64 | "000012345" matches the phone regular expression but is refused by the four-zero refinement. |
| CheckoutRules.PlusPrefixSkipsZeroCheck | components/checkout-form.tsx:58-64 | A phone of the form `+digits` is valid exactly when it has 9 to 15 digits, whatever they are, so the zero refinement never fires after a `+`. |
| CheckoutRules.PlusZerosAccepted | components/checkout-form.tsx:58-64 | "+000012345" is accepted. |
| CheckoutRules.SamplePhoneAccepted | components/checkout-form.tsx:58-64 | A nine-digit number not starting with zeros is accepted. |
| CheckoutRules.ReplaceFirst | components/checkout-form.tsx:76 | `replace` with a string pattern makes the string one character shorter when the character occurs, and leaves it unchanged otherwise. |
| CheckoutRules.FirstIndex | components/checkout-form.tsx:76 | The position `replace` acts on holds the character, and no earlier position does. |
| CheckoutRules.ReplaceFirstAt | components/checkout-form.tsx:76 | `replace` deletes exactly the first occurrence: the text before it and the text after it are kept in order. |
| CheckoutRules.ReplaceFirstDeletesFirst | components/checkout-form.tsx:76 | Some occurrence, with no occurrence before it, is the one deleted, and nothing else changes. |
| CheckoutRules.LeadingDigits | components/checkout-form.tsx:76 | The digits `parseInt` reads are the longest all-digit prefix: the next character, if any, is not a digit. |
| CheckoutRules.ParseInt | components/checkout-form.tsx:76 | `parseInt(s, 10)` is NaN exactly when the string does not start with a digit, and otherwise a nonnegative number. |
| CheckoutRules.PostalRefineRedundant | components/checkout-form.tsx:71-80 | For every string of the shape `DD-DDD`, the refinement parses the five digits and their value lies in 0..99999, so it always holds. |
| CheckoutRules.PostalValidIffShape | components/checkout-form.tsx:71-80 | A postal code is accepted exactly when it has the shape `DD-DDD`. |
| CheckoutRules.ExpiryMonth | components/checkout-form.tsx:44 | Every accepted expiry string denotes a month in 1..12. |
| CheckoutRules.ExpiryFormatThenParse | components/checkout-form.tsx:44 | Every month 01..12 with any two-digit year is accepted and reads back as that month and year. |
| CheckoutRules.ExpiryParseThenFormat | components/checkout-form.tsx:44 | Every accepted expiry string is the `MM/YY` rendering of the month and year it denotes. |
| CheckoutRules.ExpiryMonthBounds | components/checkout-form.tsx:44 | Months 00 and 13 are refused; 12 and 01 are accepted. |
| CheckoutRules.JsLength | components/checkout-form.tsx:48-56 | The length zod's `.min` and `.max` compare counts UTF-16 code units. It lies between the character count and twice that, and it is 0 only for the empty string. |
| CheckoutRules.JsLengthBmp | components/checkout-form.tsx:48-56 | On text without characters above U+FFFF the code-unit length is the character count. |
| CheckoutRules.JsLengthAppend | components/checkout-form.tsx:48-56 | The code-unit length of joined strings is the sum of their lengths. |
| CheckoutRules.AstralCountsTwice | components/checkout-form.tsx:48-52 | A one-emoji first name meets `.min(2)`, and 26 emoji break `.max(50)`. |
| CheckoutRules.SamplePaymentAccepted | components/checkout-form.tsx:112-118 | A 16-digit card, "12/27", a 3-digit CVV and a two-word holder pass their rules. |
| CheckoutFlow.StepOf | components/checkout-form.tsx:132-136 | Every field belongs to one of the three steps. |
| CheckoutFlow.StepFieldsPartition | components/checkout-form.tsx:132-136 | A field is listed in a step's group exactly when that step is the field's own, so the groups are disjoint and cover all fourteen fields. |
| CheckoutFlow.StepFieldsDistinct | components/checkout-form.tsx:132-136 | No group lists a field twice, and the group sizes add up to 14. |
| CheckoutFlow.PersonalStep | components/checkout-form.tsx:48-65 | Step 0 is valid exactly when both names have 2..50 UTF-16 code units and the email and phone are valid. |
| CheckoutFlow.AddressStep | components/checkout-form.tsx:68-82 | Step 1 is valid exactly when street ≥ 3, city ≥ 2, country ≥ 1 UTF-16 code units and the postal code is valid. |
| CheckoutFlow.PaymentStep | components/checkout-form.tsx:112-120 | Step 2 is valid exactly when card, expiry, CVV and holder are valid, the terms are accepted and the token is non-empty. |
| CheckoutFlow.SchemaIsAllSteps | components/checkout-form.tsx:110-136 | The combined schema holds exactly when each of the three steps is valid. |
| CheckoutFlow.HandleNext | components/checkout-form.tsx:167-173 | For a click handled after the page re-rendered: the step stays in 0..2. It changes only when the current step is valid, and then by +1. A valid step below the last advances. Nothing else on the page changes. |
| CheckoutFlow.HandleNextFrom | components/checkout-form.tsx:167-173 | The closure validates the step it was rendered for, then advances the step the page holds by +1, capped at 2. The step changes only when the rendered step is valid. |
| CheckoutFlow.StaleDoubleNextSkipsAddress | components/checkout-form.tsx:167-173 | Two clicks rendered for step 0 reach step 2 with an invalid address step. Handled one at a time, they stop at step 1. |
| CheckoutFlow.HandlePrev | components/checkout-form.tsx:175-177 | The step goes down by one, or stays at 0, and stays in range. |
| CheckoutFlow.HandleSubmit | components/checkout-form.tsx:458-483 | The only submit button renders on the payment step. There, a form satisfying the whole schema opens the success dialog and empties the cart (lines 179-183). On any other step, or with any other form, nothing changes. |
| CheckoutFlow.RunEvents | components/checkout-form.tsx:167-177 | Any sequence of next / back / submit events keeps the step in 0..2. |
| CheckoutFlow.AdvanceNeedsValidStep | components/checkout-form.tsx:167-173 | Reaching step `t` requires an earlier "next" whose form was valid for step `t - 1`. |
| CheckoutFlow.CartChangesOnlyOnValidSubmit | components/checkout-form.tsx:179-183 | If the cart changed on the checkout page, some submission carried a form satisfying the whole schema. |
| CheckoutFlow.DefaultsFailEveryStep | components/checkout-form.tsx:147-162 | The all-empty defaults fail all three steps, so "next" from the first step and a submission of the defaults change nothing. |
| CheckoutFlow.TermsRequired | components/checkout-form.tsx:119 | A form without the terms ticked is never submitted. |
| CheckoutFlow.SampleOrderAccepted | components/checkout-form.tsx:110-122 | A typical complete order passes the address and payment steps, and the whole schema when its email is valid. |
| CartView.Shipping | components/cart-view.tsx:205-208 | The delivery line is free exactly when the subtotal is at least 500 zł, otherwise it is 19.99 zł. |
| CartView.GrandTotal | components/cart-view.tsx:212-215 | The grand total is never below the subtotal, and equals it exactly when the subtotal reaches the threshold. |
| CartView.GrandTotalIsSumOfLines | components/cart-view.tsx:200-215 | The grand total is the products line plus the delivery line, for every subtotal. |
| CartView.GrandTotalStepAtThreshold | components/cart-view.tsx:207-214 | Across the threshold the grand total drops. Elsewhere it grows with the subtotal, and by more than the fee it never falls. |
| CartView.CountLabel | components/cart-view.tsx:67 | The label is "produkt" exactly when the count is 1. |
| CartView.EmptyStateIffNoUnits | components/cart-view.tsx:40 | For a well-formed cart the empty page shows exactly when the store counts no units. |
| CartView.SingularLabelIffOneUnit | components/cart-view.tsx:67 | For a well-formed cart the singular label shows exactly for one line of one unit. |
| CartView.Decrement | components/cart-view.tsx:139-143 | The minus button keeps the cart well formed. |
| CartView.Increment | components/cart-view.tsx:153-157 | The plus button keeps the cart well formed. |
| CartView.Trash | components/cart-view.tsx:172-175 | The trash button keeps the cart well formed. |
| CartView.DecrementEffect | components/cart-view.tsx:139-143 | Minus on a line of one unit removes that line. On a larger line it takes one unit off that line only. Either way the count drops by one and the subtotal by that line's unit price. |
| CartView.IncrementEffect | components/cart-view.tsx:153-157 | Plus adds exactly one unit to that line and changes nothing else. The count rises by one and the subtotal by that line's unit price. |
| CartView.IncrementIsAddItem | components/cart-view.tsx:153-157 | Plus on a row is the same state change as adding the row's product again. |
| CartView.TrashEffect | components/cart-view.tsx:172-175 | Trash cuts out exactly that line, keeps the others in order, and lowers the count by its quantity. |
| Catalog.FindById | lib/data.ts:183-185 | `find` returns nothing exactly when no product carries the id. Otherwise it returns a catalogue product with that id, and no earlier product has it. |
| Catalog.FindByIdUnique | lib/data.ts:183-185 | With distinct ids the lookup returns the product at the id's position. |
| Catalog.CatalogIdsDistinct | lib/data.ts:3-172 | The catalogue ids are "1" to "8", pairwise distinct. |
| Catalog.CatalogPricesWhole | lib/data.ts:3-172 | Every catalogue price is a positive whole number of złoty. |
| Catalog.GetProductByIdFindsCatalogEntry | lib/data.ts:183-185 | Looking up a catalogue product's id returns that product. |
| Catalog.GetProductByIdUnknown | lib/data.ts:183-185 | An id not in the catalogue returns nothing. |
| Catalog.OfCategory | lib/data.ts:187-189 | A category filter returns only products of that category. |
| Catalog.OfCategoryCountsSum | lib/types.ts:2 | The four category filters together hold exactly as many products as the catalogue. |
| Catalog.ByCategoryNameIsOfCategory | lib/data.ts:187-189 | Filtering by a category's literal is filtering by the category. |
| Catalog.GetProductsByCategoryExact | lib/data.ts:187-189 | `getProductsByCategory` of a category's literal is the catalogue filtered by that category, in order, and holds each product of it. A string naming no category gives the empty list. |
| Catalog.FeaturedProducts | lib/data.ts:191-193 | The featured products are those with ids 1, 2 and 6, in that order. |
| ProductsGrid.Filtered | components/products-grid.tsx:23-29 | The grid never shows more than the catalogue, and a category choice shows only that category. |
| ProductsGrid.ChoicesCoverEverySelection | components/products-grid.tsx:12-18 | Every selection has a button, "all" is first, and no button repeats. |
| ProductsGrid.AllShowsEverything | components/products-grid.tsx:23-24 | "all" shows the catalogue unchanged. |
| ProductsGrid.OnlyShowsExactlyCategory | components/products-grid.tsx:25-29 | A category shows exactly the catalogue products of that category. |
| ProductsGrid.FilteredKeepsOrder | components/products-grid.tsx:25-29 | Filtering commutes with concatenation, so the grid keeps catalogue order. |
| ProductsGrid.DistinctCategoriesDisjoint | components/products-grid.tsx:25-29 | Two different categories never show the same product. |
| ProductsGrid.EveryProductHasItsCategory | components/products-grid.tsx:25-29 | Every product is shown under its own category, so the categories cover the catalogue. |
| ProductsGrid.AudioView | components/products-grid.tsx:25-29 | On the shipped catalogue, audio shows products 1 and 3. |
| ProductsGrid.SmartHomeView | components/products-grid.tsx:25-29 | On the shipped catalogue, smart home shows products 6 and 8. |
| ProductDetail.Related | components/product-detail.tsx:49-51 | The strip has at most three entries, each a catalogue product of the same category with another id. |
| ProductDetail.RelatedIsLeadingCandidates | components/product-detail.tsx:49-51 | The strip is the first `min(3, n)` of the `n` related products, in catalogue order. |
| ProductDetail.RelatedExcludesSelf | components/product-detail.tsx:50 | A product never lists itself. |
| ProductDetail.RelatedShowsAllFew | components/product-detail.tsx:49-51 | With at most three related products, all of them are shown. |
| ProductDetail.HeadphonesRelated | components/product-detail.tsx:49-51 | On the shipped catalogue, product 1's strip is product 3. |
| ProductDetail.CaseRelated | components/product-detail.tsx:49-51 | On the shipped catalogue, product 7's strip is product 5. |
| ProductDetail.ClickAddToCart | components/product-detail.tsx:40-47 | A click raises the unit count and the product's quantity by one exactly when the product is in stock. For a missing product it leaves the cart unchanged. It keeps the invariant. |
| ProductDetail.ClickIsAddItem | components/product-detail.tsx:42-43 | A click on an in-stock product is exactly one ADD_ITEM, and the lines of other products are untouched. |
| Dashboard.TotalRevenue | components/dashboard-view.tsx:89 | The revenue sum of nonnegative rows is nonnegative. |
| Dashboard.TotalOrders | components/dashboard-view.tsx:90 | The order sum of nonnegative rows is nonnegative. |
| Dashboard.SalesTotalsAppend | components/dashboard-view.tsx:89-90 | Both sums are additive over concatenation, so each is the plain sum of its column. |
| Dashboard.MonthBelowTotal | components/dashboard-view.tsx:89-90 | With nonnegative figures no single month exceeds the totals. |
| Dashboard.DashboardStats | components/dashboard-view.tsx:162-167 | The products card equals the sum of the four category bars and is at least the in-stock count shown under it. The revenue and orders cards are nonnegative on nonnegative data. |
| Dashboard.StatsAddMonths | components/dashboard-view.tsx:162-167 | Appending months adds their revenue and orders to the cards and leaves the products card alone. |
| Dashboard.StatsBoundEveryMonth | components/dashboard-view.tsx:162-167 | On nonnegative data no month's revenue or orders exceed the cards' totals. |
| Dashboard.ShippedStats | components/dashboard-view.tsx:162-167 | On the shipped data the cards read 300000 zł, 850 orders and 8 products. |
| Dashboard.CategoryData | components/dashboard-view.tsx:120-125 | The chart has four bars in the order audio, wearables, accessories, smart-home, each between 0 and the catalogue size. |
| Dashboard.CategoryDataAddsUp | components/dashboard-view.tsx:120-125 | Every category has a bar, and the bars add up to the number of products. |
| Dashboard.CategoryDataCountsMembers | components/dashboard-view.tsx:124 | A bar counts exactly the products of its category. |
| Dashboard.InStockCount | components/dashboard-view.tsx:201 | The in-stock count never exceeds the number of products. |
| Dashboard.InStockPlusMissing | components/dashboard-view.tsx:201 | Products in stock and products out of stock together make up the catalogue. |
| Dashboard.ShippedInStock | components/dashboard-view.tsx:201 | Seven of the eight shipped products are in stock. |
| Dashboard.MergeSalesData | components/dashboard-view.tsx:75-80 | Each field comes from the update when present, otherwise from the base. |
| Dashboard.MergeIdentityAndReplace | components/dashboard-view.tsx:75-80 | An empty update returns the base row, and a complete one replaces it. |
| Dashboard.MergeComposes | components/dashboard-view.tsx:75-80 | Two merges in a row equal one merge of the combined update, and repeating an update changes nothing more. |
| Stepper.StepBadge | components/ui/stepper.tsx:74 | A check mark is shown exactly for a completed step, otherwise the 1-based number. |
| Stepper.StatusPartition | components/ui/stepper.tsx:61-80 | Exactly one of completed, current or upcoming holds, decided by the comparison with the current step. The title is emphasised exactly for the current step. |
| Stepper.SeparatorFollowsLeftStep | components/ui/stepper.tsx:94-103 | A separator is lit exactly when the step to its left is completed. |
| Stepper.LayoutShape | components/ui/stepper.tsx:34-44 | `n` children render as `2n - 1` nodes. Step `i` sits at `2i` and the separator after it at `2i + 1`, so there are `n - 1` separators and none after the last step. |
| Stepper.CompletedStepsCount | components/ui/stepper.tsx:61 | The number of check marks is the current step clamped to 0..n. |
| Stepper.CheckoutProgress | components/checkout-form.tsx:189-193 | In the wizard the stepper shows `step` check marks and exactly one current step. |

## Left out

- Email syntax: zod's `z.string().email()` pattern is library code, so it is the parameter `isEmail` throughout.
- `paymentSchema`: it is declared but unused. The resolver validates `checkoutSchema`, whose terms rule is a field refinement.
- Formatting: `formatPrice` uses `Intl.NumberFormat` and `formatValue` uses `toFixed` / `toUpperCase`. Both are locale and floating-point rendering.
- Floating point: the average order value is a float division and is not modelled. Prices and the 19.99 zł fee are exact integers in grosze, so float rounding of `totalPrice + 19.99` is not modelled.
- Quantities are `int`. Non-integer or `NaN` quantities passed to `updateQuantity` are out of scope.
- React machinery is not modelled: contexts and hooks, `useCart`'s provider check, `lastAddedRef`, the two-second "added" indicator, `console.log` and the alert dialogs.
- The reCAPTCHA widget is external. Its token is an opaque string that only has to be non-empty.
- The runtime type guards `isProduct` and `isSalesData` depend on dynamic typing. Every catalogue value is a product, so the grid's `isProduct` check never filters anything.
- Product display fields (name, description, image, rating, reviews, specs, currency, creation date) are read by no rule and are not modelled.
- The country options and other rendering files (navbar, footer, hero section, product card, featured list, generic list, pages and layout) hold no logic.
- CheckoutRules.ParseInt: models `parseInt` only on strings without leading whitespace or sign, which is all the postal-code rule passes it (a `DD-DDD` string with its dash removed).
- Dashboard.MergeSalesData: an update field that is present but explicitly `undefined` overwrites the base under object spread. The model treats it as absent, as `Partial<SalesData>` suggests.
- CheckoutFlow.RunEvents, CheckoutFlow.AdvanceNeedsValidStep: events are applied strictly in sequence, each seeing the step the previous one left, as when the page re-renders between clicks. The source's `handleNext` validates the step its closure captured at render time. Two clicks before a re-render can therefore skip a step's validation: `HandleNextFrom` models one such click, and `StaleDoubleNextSkipsAddress` shows the skip. The final submission still checks the whole schema.
- CheckoutFlow.HandleNext, CheckoutFlow.HandlePrev: these require the step to be in 0..2. The page starts at 0, and `RunEvents` proves that no event leaves that range.
- CartView.Decrement, CartView.Increment, CartView.Trash: these require `k` to be a row of the cart, because the buttons exist only on rendered rows.
