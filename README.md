# АвтоПостер cart and order pipeline in Dafny

This project models the cart engine of the АвтоПостер storefront (`app.js`),
a shop without a server. It sells metal posters in five sizes. The cart
lives in one `localStorage` slot (`autoposter_cart_v2`), and an order leaves
the shop as a Telegram message.

The model covers four parts:

- **Catalog.** The static `PRODUCTS` list and the first-match `find` that
  `addToCart` runs twice: by product id, then by size label.
- **Cart store.** The storage slot is the field of a class, `CartStorage`.
  Its methods `LoadCart`, `SaveCart`, `AddToCart`, `ChangeQty` and
  `ClearCart` do what the source does: load the array, change it, and write
  it back over the slot.
  - Each method is proved against a specification function on values:
    `Added` for an add, `Changed` for a quantity change, and the left folds
    `Count` and `Total` for `cartCount` and `cartTotal`.
  - Lemmas prove what the store promises about those functions: unique keys,
    positive quantities, other lines left alone, order kept, and the exact
    change in count and total.
- **Checkout gate.** The minimum-order rule is modelled both times it is
  checked: when the drawer is redrawn (`updateCartUI`) and when checkout is
  pressed (`openTelegramOrder`). Lemmas relate the two checks.
- **Order composer.** `buildOrderMessage` is a pure function of the cart,
  the form (`OrderContext`) and the currency formatter. The formatter is a
  parameter `fmtRub: int -> string` whose behaviour is left open. The model
  also writes out the JavaScript string operations the composer uses: `trim`,
  integer rendering, and `join("\n")` with its inverse `split("\n")`.

Modules:

- `Text`: the string operations.
- `Catalog`: the catalog.
- `Cart`: cart lines, folds, and the add/change functions with their lemmas.
- `Storage`: the slot and the class.
- `OrderMessage`: the composer.
- `Checkout`: the two gates.

## Model

| member | source | states |
|---|---|---|
| `Catalog.Find` | app.js:93-94 | `find` by a field (a product's id in `PRODUCTS`, a variant's size in `options`): `None` exactly when no element has the wanted value; otherwise the first element that has it |
| `Catalog.CatalogMeetsMinimum` | app.js:10-27 | the catalog's minimum order is positive, and every size variant costs at least that minimum, so one poster of any size meets it |
| `Cart.KeyOf` | app.js:96 | the line key `${productId}__${size}` is the product id, then `__`, then the size, with the matching length |
| `Cart.IndexOf` | app.js:97 | the index `find`/`findIndex` locates: it holds `key`, and no earlier line does; it is `|items|` when no line has the key |
| `Cart.FindLine` | app.js:97 | the linear search over the loaded array returns the first line with the key, or the length when there is none; equals `IndexOf` |
| `Cart.Count` | app.js:84-86 | `cartCount` of a cart whose quantities are all positive is at least its number of lines |
| `Cart.Total` | app.js:88-90 | `cartTotal` of a cart with positive quantities and no negative price is not negative |
| `Cart.FoldsConcat` | app.js:84-90 | `cartCount` and `cartTotal` distribute over concatenation of carts |
| `Cart.FoldsUpdate` | app.js:84-90 | replacing one line changes the count and the total by that line's difference only |
| `Cart.FoldsRemove` | app.js:84-90 | removing one line takes exactly its quantity off the count and its `price * qty` off the total |
| `Cart.FoldsPositive` | app.js:88-90 | with positive prices and quantities, the total is at least the number of lines, and positive exactly when the cart is not empty |
| `Cart.TotalMeetsFloor` | app.js:88-90 | a non-empty cart whose lines all cost at least `floor` apiece (with positive quantities) has a total of at least `floor` |
| `Cart.BumpedLineTotal` | app.js:119 | raising a line's quantity by `delta` raises its `price * qty` by `price * delta` |
| `Cart.Bumped` | app.js:98 | `qty += delta` changes the quantity by `delta` and no other field |
| `Cart.NewLine` | app.js:100-108 | the pushed line carries the variant key, the product's id, title and thumbnail, the size, the variant's current price and quantity 1 |
| `Cart.Added` | app.js:96-110 | the saved array has the same length when the key was stored and one more line otherwise; the line at the key's first position, or the new last line, carries the key |
| `Cart.AddPresentIncrements` | app.js:97-99 | adding a variant already in the cart raises that line's quantity by exactly 1; length and every other line unchanged |
| `Cart.AddAbsentAppends` | app.js:99-110 | adding a new variant appends exactly one line at the end; the earlier lines are untouched, and no earlier line had its key |
| `Cart.AddKeepsWellFormed` | app.js:92-110 | adding keeps keys unique and quantities positive, and keeps any price floor the pushed line also meets |
| `Cart.AddPresentCountTotal` | app.js:97-99 | a repeat add raises the count by 1 and the total by the unit price that line captured when it was created |
| `Cart.AddAbsentCountTotal` | app.js:99-110 | a new line raises the count by 1 and the total by its price |
| `Cart.RepeatedAdds` | app.js:92-110 | `n >= 1` adds of a variant not yet in the cart append exactly one line for it, with quantity `n`; the earlier lines are untouched |
| `Cart.Changed` | app.js:116-124 | the array loses at most one line, and every line before the first one with the key is unchanged |
| `Cart.ChangeAbsentIsNoOp` | app.js:117-118 | a change for a key that is not in the cart leaves the cart as it is |
| `Cart.ChangeInPlace` | app.js:119-124 | a change that keeps the quantity positive updates that line in place and no other line |
| `Cart.ChangeRemovesLine` | app.js:120-123 | a change that takes the quantity to 0 or below removes that line alone; the other lines keep their order, and with unique keys the key is gone |
| `Cart.ChangeKeepsWellFormed` | app.js:115-125 | a change keeps keys unique and leaves no line with quantity 0 or below; price floors are kept |
| `Cart.ChangeCountTotal` | app.js:115-125 | the exact change in count and total for each of the three outcomes: absent key, in-place update, removal |
| `Cart.ChangesOnAbsentKey` | app.js:117-118 | a run of changes for a key the cart lacks changes nothing |
| `Cart.ChangesFollowRunningQuantity` | app.js:115-125 | a run of changes on one line: while every running quantity stays positive, the line stays in place with its quantity plus the sum of the deltas; once one reaches 0 or below, the line is gone for good |
| `Storage.CartStorage.constructor` | app.js:7 | the slot starts with the given contents |
| `Storage.CartStorage.LoadCart` | app.js:68-77 | a missing, empty, unparsable or non-array slot reads as the empty cart; a stored array comes back unchanged |
| `Storage.CartStorage.SaveCart` | app.js:79-82 | the slot is overwritten with the array, and reading it back gives the same lines |
| `Storage.CartStorage.AddToCart` | app.js:92-113 | the product must exist; the size must be in its options unless a line with the key is already stored. A stored line is bumped by one in place; when the variant exists, the slot holds `Added` of the loaded cart and the variant's new line. The count rises by 1; well-formedness is kept, and so is the reachable-cart invariant (every price at least the minimum order) |
| `Storage.AddOutcome` | app.js:96-111 | the array `addToCart` saves, bumped or appended, is the add of the variant's new line whenever the variant exists; it keeps the cart invariant and any price floor the variant meets, and its count is one higher |
| `Storage.CartStorage.ChangeQty` | app.js:115-125 | an unknown key leaves the slot untouched; otherwise the slot holds `Changed` of the loaded cart; well-formedness and the reachable-cart invariant are kept |
| `Storage.CartStorage.ClearCart` | app.js:127-130 | the slot holds the empty array: count and total are 0, and the reachable-cart invariant holds |
| `Text.Trim` | app.js:229-230 | `trim()` drops the leading and trailing ECMAScript white space and line terminators: the result is a contiguous piece of the input with only white space before and after it; it is empty exactly when the input is all white space, and otherwise both its ends are kept characters |
| `Text.TrimIdempotent` | app.js:229-230 | trimming twice is trimming once |
| `Text.Decimal` | app.js:237 | the item number `${idx+1}` prints as a non-empty string of decimal digits with no leading zero |
| `Text.DecimalRoundTrip` | app.js:237 | the decimal digits printed for the item number read back as the same number |
| `Text.IntToString` | app.js:239 | a template literal prints an integer quantity as a sign for negatives followed by decimal digits that read back as its magnitude, with no leading zero |
| `Text.JoinLines` | app.js:252 | `lines.join("\n")` of a single line is that line; `SplitJoin` and `JoinSplit` relate the join of several lines to `split` |
| `Text.SplitJoin` | app.js:252 | lines without newlines, joined with `"\n"`, split back into the same lines |
| `Text.JoinSplit` | app.js:252 | splitting a text at newlines and joining the pieces rebuilds it |
| `OrderMessage.DeliveryLine` | app.js:244 | the Belarus surcharge text for the code `"by"`, the free RF text for every other code |
| `OrderMessage.ItemBlock` | app.js:237-240 | each item pushes exactly four lines: number and title, size, quantity and subtotal |
| `OrderMessage.ItemLines` | app.js:236-241 | four lines per item in cart order; item `k` owns lines `4k` to `4k + 3`, numbered `from + k + 1` |
| `OrderMessage.OptionalLines` | app.js:245-246 | the city line exactly when the trimmed city is non-empty, then the comment line exactly when the trimmed comment is non-empty |
| `OrderMessage.ItemsSection` | app.js:233-241 | the greeting, a blank line, then item `k`'s four lines at positions `2 + 4k` to `5 + 4k`; two lines more than four per item in all |
| `OrderMessage.OrderLines` | app.js:232-250 | the `lines` array has four lines per item plus eight, and one more for each of the non-empty trimmed city and comment; the `OrderLines*` lemmas below give its contents |
| `OrderMessage.OrderLinesGreeting` | app.js:233-234 | the message opens with the greeting and a blank line |
| `OrderMessage.OrderLinesItems` | app.js:236-241 | then, for item `k` of the cart in order: `k+1) title`, its size, its quantity and `fmtRub(price * qty)` |
| `OrderMessage.FooterSection` | app.js:243-250 | the part after the items: a blank line, the delivery line, the optional city and comment lines, then a blank line, `Итого:` with the formatted total, a blank line and the closing line |
| `OrderMessage.OrderLinesFooter` | app.js:243-250 | everything after the greeting and the item lines is exactly that footer |
| `OrderMessage.OrderLinesDelivery` | app.js:243-244 | the line after the items is blank, and the next one is the delivery line |
| `OrderMessage.OrderLinesClosing` | app.js:247-250 | the message ends with a blank line, the total formatted by `fmtRub`, a blank line and the closing line |
| `OrderMessage.BuildOrderMessage` | app.js:224-253 | the message is the lines joined with `"\n"`; when no line holds a newline, it splits back into exactly those lines |
| `OrderMessage.MessageSplitsIntoLines` | app.js:224-253 | when titles, sizes, formatted amounts, city and comment hold no newline, no composed line does either, and the sent text splits back into the composed lines |
| `Checkout.DrawerGateOf` | app.js:205-220 | the warning shows exactly when `0 < total < min`; the button is enabled exactly when the cart is non-empty and the warning is off |
| `Checkout.Submit` | app.js:256-266 | an empty cart sends nothing; a non-empty cart with a total under the minimum is refused; otherwise the composed message is dispatched |
| `Checkout.MinimumIsInclusive` | app.js:261 | a total exactly at the minimum enables the button and is dispatched |
| `Checkout.GateAgreement` | app.js:213-219 | with positive prices and quantities, the button is disabled exactly when pressing it would send nothing |
| `Checkout.GatesDisagreeOnFreeLine` | app.js:213 | for a stored line priced 0 the button is enabled but pressing it is refused as below the minimum |
| `Checkout.ReachableCartsMeetMinimum` | app.js:209 | for any cart the store's own operations can produce, the warning never shows, and checkout sends the cart exactly when it is non-empty |
| `Checkout.ShoppingScenario` | app.js:92-130 | the smallest poster alone (9404) meets the minimum; a second size gives 2 lines worth 21514; decrementing the first removes it, leaving 12110; an empty cart disables checkout |
| `Checkout.UpdateCartUI` | app.js:165-220 | the badge count is `cartCount` of the stored cart, and the drawer gate is the one computed from it |
| `Checkout.OpenTelegramOrder` | app.js:255-266 | the outcome for the stored cart matches `Submit`, and a reachable cart is dispatched exactly when non-empty |

## Left out

- Theme handling (`getTheme`, `setTheme`, `toggleTheme`): it only sets document attributes and a stored preference.
- DOM work: rendering the product and the cart rows, the drawer, `toast`, the `$`/`$$` helpers, event wiring, smooth scrolling and the `IntersectionObserver` animations. `UpdateCartUI` keeps only the badge count and the gate decision; it does not model the drawer's total text or the warning's text.
- `fmtRub`: `Intl.NumberFormat` formatting is a library call. It is a parameter of the composer, and nothing is assumed about it except where a lemma states a requirement (no newline in its output).
- JSON: the slot holds an abstract `Slot` value instead of text. `Blank`, `Unparsable` and `NonArray` stand for the empty string, text that `JSON.parse` rejects, and parsed JSON that is not an array. An array whose elements are not well-typed cart lines cannot be represented. In particular, a line whose `qty` is missing cannot be represented, so the `|| 0` fallback of `cartCount` never applies in the model.
- Numbers: prices and quantities are unbounded integers. JavaScript's floating-point `Number` (precision loss above 2^53, `NaN`) is not modelled.
- Dispatch in `openTelegramOrder`: `encodeURIComponent`, the `tg://` and `https://t.me/` navigation, `window.open` and the 450 ms `setTimeout` are browser I/O. `OpenTelegramOrder` returns the message it would dispatch.
- Storage reads: `buildOrderMessage` reloads the cart itself. In one single-threaded call nothing writes the slot between that reload and the checks in `openTelegramOrder`, so the model composes from the same loaded cart.
- `addToCart` with a product id missing from the catalog throws at once, on `product.options`. A size missing from the product's options throws only when no stored line has its key: `opt.price` is read only when a new line is pushed, and an already stored line is bumped and saved. `Storage.CartStorage.AddToCart` requires exactly that much: the product exists, and the size does too unless its line is stored. It does not model the exception itself. The page's only caller passes a size taken from the select filled from the product's options.
- `saveCart` also redraws the drawer (`updateCartUI`). The model keeps that redraw as the separate `Checkout.UpdateCartUI`, which reads the slot `SaveCart` wrote.
- Removal is permanent. One reading of the behaviour is "a line is present exactly while its running quantity is positive". The code removes the line the first time the quantity reaches 0 or below, and a later positive change finds nothing and is a no-op. The model follows the code; `Cart.ChangesFollowRunningQuantity` states it.
