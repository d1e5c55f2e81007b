# BookBazaar core in Dafny

BookBazaar is an online bookstore: an Express/Mongoose backend with a book
catalogue, orders and a simulated payment gateway, and a React client with a
cart, a payment dialog and a book page. This project models the parts of it
that carry logic and proves what they do.

- **Schemas** (`book_schema.dfy`, `order_schema.dfy`): the book and order
  documents as datatypes. The category, status and payment-method
  enumerations each have a parser that inverts the spelling. The schemas'
  bounds and defaults are predicates and constructor functions.
- **Order placement** (`reservation.dfy`, `store.dfy`): the create handler's
  loop. It looks each requested book up in the table as it now stands,
  refuses a missing book (404) or short stock (400), adds to the running
  total, snapshots title and price, and lowers the stock in place.
  `Reservation.Run` describes the loop as a function. `Store.Store.Reserve`
  is the loop itself over the store's `books` map, proved equal to `Run`.
- **The reservation is not all-or-nothing.** A failure at item k leaves the
  decrements of items 0..k-1 in place.
- **Quantities are not checked by the route.** The route never checks that a
  quantity is at least 1. The schema checks it only when the order is
  created, after the stock has moved. The model therefore has no
  `quantity >= 1` precondition. It proves what happens: a negative quantity
  raises the stock and then the order is refused with a 500. The route only
  checks that a payment method is present. An unknown method is likewise
  refused only after the stock was taken.
- **Order lifecycle** (`lifecycle.dfy`): read authorisation, the per-user
  and administrator listings, the owner's guarded cancel, and the
  administrator's unguarded status update. `isDelivered` is raised by
  "delivered" and never lowered, so "isDelivered implies delivered" is not
  maintained. A lemma exhibits this.
- **Payment** (`payment.dfy`): settlement of an order. The gateway's random
  outcome, the clock and the random suffix of the transaction id are
  parameters. There is no already-paid guard and no status check. The
  transaction id format is proved unambiguous only while the clock keeps
  its width. Also here: the mock card check.
- **Catalogue** (`catalog.dfy`): the paginated listing with its exact-match
  category filter. `totalPages` is proved to be a ceiling: every match
  lies on exactly one page within `totalPages`. Also here: get, create,
  update and delete with their 404s.
- **Client** (`cart.dfy`, `payment_form.dfy`, `book_details.dfy`): the
  cart's list operations (id uniqueness, counts and totals, nothing else
  changes). The payment dialog's field formatters: card numbers in groups
  of four, the expiry's 5-character check that can never fire, the CVV.
  The image sanitiser and the quantity stepper.

Order ids are positions in the store's order sequence. Book ids are map
keys. Money is an integer count of the smallest currency unit. Ratings are
reals.

## Model

| member | source | states |
|---|---|---|
| BookSchema.ParseCategoryName | backend/models/Book.js:24-53 | every enumerated category is accepted and read back as itself |
| BookSchema.ParseCategorySpelling | backend/models/Book.js:24-53 | an accepted category text is the spelling of the category it yields |
| BookSchema.Violations | backend/models/Book.js:5-81 | a field is reported exactly when its bound is broken: empty title, author or description, negative price or stock, rating outside [0, 5], category outside the enumeration |
| BookSchema.CreateBook | backend/models/Book.js:3-86 | a book is created exactly when nothing is violated; it then satisfies all bounds, holds the request's title, author, description, price, ISBN and publisher, takes stock 0, rating 0 and the placeholder image when absent, and keeps the requested category; otherwise the violations are reported |
| OrderSchema.ParseStatus | backend/models/Order.js:31-35 | an accepted status text is the spelling of the status it yields |
| OrderSchema.ParseStatusName | backend/models/Order.js:31-35 | every status is accepted under its own spelling |
| OrderSchema.ParsePaymentMethod | backend/models/Order.js:54-59 | an accepted method text is the spelling of the method it yields |
| OrderSchema.ParsePaymentMethodName | backend/models/Order.js:54-59 | every payment method is accepted under its own spelling |
| OrderSchema.LinesTotalNonNegative | backend/models/Order.js:18-30 | with non-negative prices and quantities of at least 1 the sum of line totals is non-negative |
| OrderSchema.NewOrder | backend/models/Order.js:31-82 | a new order is pending, unpaid, undelivered, with no payment or delivery record and an empty tracking note, and keeps the given address, payment method and creation time |
| OrderSchema.ValidateOrder | backend/models/Order.js:10-59 | a document is accepted exactly when every quantity is at least 1, the total is non-negative, the address is complete and the method is enumerated; the accepted method is the one named |
| Failures.HttpStatus | backend/routes/orders.js:24-81 | each failure maps to 400, 403, 404 or 500; 404 exactly for a missing book or order, 403 exactly for a refused caller, 500 exactly for documents the schema refuses |
| Reservation.RunPrefix | backend/routes/orders.js:36-64 | the loop either completes or stops at the first request it could not grant, keeping the lines granted before it, for the reason the table gives at that point |
| Reservation.FailureSticks | backend/routes/orders.js:39-49 | once the loop has returned an error, later requests are never looked at |
| Reservation.CompletedRunTable | backend/routes/orders.js:36-64 | a completed loop granted every request in order and lowered each book's stock by exactly what was asked of it, other books unchanged |
| Reservation.RunTotal | backend/routes/orders.js:33-52 | the running total always equals the sum of price times quantity over the lines so far |
| Reservation.CompletedRunLines | backend/routes/orders.js:54-59 | each line copies the book's title and price as they stood in the table before the order |
| Reservation.RunSucceedsIffFeasible | backend/routes/orders.js:36-64 | the loop completes exactly when every request names a book whose stock, less what earlier lines took, covers it |
| Reservation.StepOutcome | backend/routes/orders.js:38-63 | one iteration grants a request exactly when its book exists and its stock covers the quantity; a grant appends the snapshot line, adds price times quantity to the total and lowers that book's stock by the quantity; a refusal or an earlier failure changes nothing else; the set of book ids never changes |
| Reservation.Run | backend/routes/orders.js:36-64 | the loop produces at most one line per request; what it computes is stated by RunPrefix, CompletedRunTable, CompletedRunLines, RunTotal and RunSucceedsIffFeasible |
| Reservation.RunKeepsCatalogValid | backend/routes/orders.js:45-63 | the loop never takes a stock below zero, even when a book id repeats, changes no other field, and lowers each book by exactly the quantities of the requests it granted |
| Reservation.ValidateRequest | backend/routes/orders.js:16-27 | the body passes exactly when it has an item, all four address fields and a payment method |
| Reservation.InvalidRequestTouchesNothing | backend/routes/orders.js:16-27 | a body failing the route's validation is answered 400 and no book changes |
| Reservation.Place | backend/routes/orders.js:12-84 | an order is created only when the body passes and every request was granted, for the caller and as pending; a refused request always ends in an error; the table is either unchanged or exactly the loop's |
| Reservation.PlaceSucceedsIff | backend/routes/orders.js:12-84 | on a valid catalogue an order is created exactly when the body passes, every request is granted, every quantity is at least 1 and the payment method is enumerated |
| Reservation.SchemaRefusalKeepsDecrements | backend/routes/orders.js:36-81 | when every request is granted but a quantity is below 1 or the method is not enumerated, the schema refuses the order with 500 and every book keeps the loop's decrements |
| Reservation.PlacedOrder | backend/routes/orders.js:33-79 | a created order has one line per request with snapshot title and price, total equal to the sum of line totals, the schema's defaults and bounds (empty tracking note, no payment record, not paid or delivered), the method, address and time given, and every book's stock lowered by exactly its requested quantity |
| Reservation.FailedPlacementKeepsDecrements | backend/routes/orders.js:38-63 | when item n fails no order is created but items 0..n-1 keep their decrements, and no stock is negative |
| Reservation.PartialReservationExample | backend/routes/orders.js:38-43 | an order whose second line names no book is answered 404 after its first line took the last copy |
| Reservation.NegativeQuantityRaisesStock | backend/routes/orders.js:45-73 | a line for -2 copies passes the stock check, raises the stock by 2, and the order is then refused with 500 |
| Reservation.UnknownMethodKeepsDecrements | backend/routes/orders.js:21-73 | an unenumerated payment method is refused only after the stock was taken |
| Reservation.LastCopySoldOnce | backend/routes/orders.js:45-49 | of two successive orders for the last copy, the second is refused for stock and the stock ends at zero |
| Reservation.TwoLineTotal | backend/routes/orders.js:52 | two copies at 200 and one at 150 total 550 |
| Lifecycle.ReadOrder | backend/routes/orders.js:104-122 | an order is returned exactly when it exists and the caller owns it or is an administrator; 404 exactly when it does not exist, 403 otherwise |
| Lifecycle.ReadMatchesListings | backend/routes/orders.js:104-141 | a customer can read exactly the orders of their own listing, an administrator exactly those of the all-orders listing |
| Lifecycle.OrdersOf | backend/routes/orders.js:89-95 | a user's listing holds exactly that user's orders, newest first |
| Lifecycle.AllOrders | backend/routes/orders.js:134-141 | only administrators may list orders, and they get every order, newest first |
| Lifecycle.Cancel | backend/routes/orders.js:182-207 | a cancel succeeds exactly for the owner of an order that is neither delivered nor cancelled, and then changes only the status; non-owner 403, delivered and cancelled orders 400 |
| Lifecycle.CancelTwiceFails | backend/routes/orders.js:200-202 | a second cancel always fails, for the owner with "already cancelled" |
| Lifecycle.SetStatus | backend/routes/orders.js:150-171 | the requested status is stored whatever the current one; an unenumerated one is refused; tracking changes only when supplied; "delivered" raises isDelivered and stamps the time; nothing else changes |
| Lifecycle.AdminReopensCancelled | backend/routes/orders.js:160 | a cancelled order can be set back to pending |
| Lifecycle.DeliveredFlagOutlivesStatus | backend/routes/orders.js:160-169 | after "delivered" then "processing" the order is processing with isDelivered still set, and its owner can then cancel it |
| Lifecycle.DeliveredCannotBeCancelled | backend/routes/orders.js:166-198 | once set to delivered, an order is flagged delivered and its cancel is refused |
| Lifecycle.TransitionsKeepWellFormed | backend/routes/orders.js:160-204 | cancel and status updates keep the order's items, total and address bounds |
| Payment.Decimal | backend/routes/payment.js:26 | a number renders as a non-empty digit string, with a leading zero only for zero, one digit exactly below ten |
| Payment.DecimalValue | backend/routes/payment.js:26 | reading the rendered digits back gives the number |
| Payment.DecimalInjective | backend/routes/payment.js:26 | different numbers render differently |
| Payment.TransactionId | backend/routes/payment.js:26 | a transaction id is "TXN" followed by digits only |
| Payment.TransactionIdInjective | backend/routes/payment.js:26 | for clocks of equal width, equal ids come from equal clock and suffix |
| Payment.TransactionIdAmbiguous | backend/routes/payment.js:26 | clock 1 with suffix 23 and clock 12 with suffix 3 give the same id |
| Payment.Settle | backend/routes/payment.js:19-30 | settling marks the order paid at the given time and records the id, the method text sent and "success"; nothing else changes |
| Payment.SecondSettlementOverwrites | backend/routes/payment.js:21-30 | a second settlement is accepted and replaces the first record |
| Payment.SettleKeepsOrder | backend/routes/payment.js:22-30 | settling keeps status, items, total and well-formedness, so a cancelled order can be paid |
| Payment.RecordedMethodMayDiffer | backend/routes/payment.js:27 | the method recorded with the payment need not be the order's method |
| Payment.ValidateCard | backend/routes/payment.js:61 | card details are valid exactly when the number has at least 16 characters, the CVV exactly 3 and the expiry is non-empty |
| Store.Store.Reserve | backend/routes/orders.js:36-64 | the in-place loop leaves the table, lines, total and failure exactly as `Run` describes, keeps every stock non-negative and touches no order |
| Store.Store.PlaceOrder | backend/routes/orders.js:12-84 | the table and answer are exactly those of `Place`; a created order is appended under the next id; the store stays valid |
| Store.Store.UpdateStatus | backend/routes/orders.js:150-177 | non-administrators 403, missing order 404, otherwise the order becomes `SetStatus` of it; books never change |
| Store.Store.CancelOrder | backend/routes/orders.js:182-211 | missing order 404, otherwise the order becomes `Cancel` of it; no stock is given back |
| Store.Store.ProcessPayment | backend/routes/payment.js:9-51 | a declined payment changes nothing and looks nothing up; otherwise a missing order is 404 and a found one is replaced by its settlement |
| Store.DeliveredOrderScenario | backend/routes/orders.js:182-204 | on a fresh store, the last copy is ordered, delivered, its cancel refused with 400, and the stock stays at zero |
| Catalog.Matches | backend/routes/books.js:15-20 | without a category, or with an empty one, every entry matches; with one, exactly the entries whose category is spelled as given, in listing order (the category filter) |
| Catalog.OfCategory | backend/routes/books.js:18-20 | the filter keeps exactly the entries whose category is spelled as given, in listing order |
| Catalog.OfCategoryAppend | backend/routes/books.js:18-48 | filtering a concatenation concatenates the filtered parts, so the filter keeps the sorted listing's order and each page is a fixed slice of it |
| Catalog.CeilDiv | backend/routes/books.js:42 | the page count is the least count whose pages hold all matches |
| Catalog.ListBooks | backend/routes/books.js:11-48 | with defaults 1 and 10, a listing succeeds for positive limit and page; it echoes the page, counts all matches, and returns at most `limit` books: the slice of the matches starting at (page-1)*limit |
| Catalog.ListedBooksHaveCategory | backend/routes/books.js:18-20 | with a category given, every listed book is in the catalogue with exactly that category |
| Catalog.HomePage | backend/routes/books.js:30 | position k lies on page k/limit+1 and on no other page |
| Catalog.HomeWithinTotal | backend/routes/books.js:42 | the page of every match is within the page count |
| Catalog.EveryMatchOnExactlyOnePage | backend/routes/books.js:30-42 | each match is listed on its page at position k mod limit, within the page count, and on no other page |
| Catalog.PagesPastTheLastAreEmpty | backend/routes/books.js:30-42 | a page number beyond the page count is still answered, with an empty page |
| Catalog.GetBook | backend/routes/books.js:53-61 | a book is returned exactly when its id is stored; 404 otherwise |
| Catalog.AddBook | backend/routes/books.js:73-98 | a book is added exactly when the route's required fields and the schema's bounds hold, and the stored book is the one the schema builds from the request; a refusal changes nothing; the catalogue stays valid |
| Catalog.PatchViolations | backend/routes/books.js:111-118 | an update is refused exactly when a field it sets breaks that field's bound |
| Catalog.ApplyPatch | backend/routes/books.js:111-118 | the modelled patch carries no ISBN or publisher, so both are kept |
| Catalog.PatchKeepsBookValid | backend/routes/books.js:111-118 | a patch the validators pass keeps a valid book valid |
| Catalog.UpdateBook | backend/routes/books.js:103-127 | 404 for a missing id; a refused update changes nothing; an accepted one replaces only that book; the catalogue stays valid |
| Catalog.UpdatedFields | backend/routes/books.js:111-118 | an update takes each of title, author, description, price, category, stock, image and rating when it sets it, and keeps it otherwise |
| Catalog.DeleteBook | backend/routes/books.js:132-143 | 404 for a missing id; otherwise exactly that id leaves and every other book stays |
| Cart.AddToCart | frontend/src/context/CartContext.jsx:28-44 | a book already present has every matching line raised by q, other lines unchanged; a new book is appended with quantity q |
| Cart.RemoveFromCart | frontend/src/context/CartContext.jsx:46-49 | the result holds exactly the lines with another id |
| Cart.RemoveAppend | frontend/src/context/CartContext.jsx:47 | removal distributes over concatenation, so kept lines stay in order |
| Cart.RemoveAbsent | frontend/src/context/CartContext.jsx:47 | removing an absent id changes nothing |
| Cart.UpdateQuantity | frontend/src/context/CartContext.jsx:51-62 | a quantity of zero or less is removal; otherwise only the matching lines' quantities change |
| Cart.ClearCart | frontend/src/context/CartContext.jsx:64-67 | the cart becomes empty, with count and total zero |
| Cart.SumsBounded | frontend/src/context/CartContext.jsx:69-75 | with prices and quantities that are not negative the total is not negative; with every quantity at least 1 the count is at least the number of lines |
| Cart.CountAppend | frontend/src/context/CartContext.jsx:69-75 | count and total add up over concatenated carts |
| Cart.BumpCount | frontend/src/context/CartContext.jsx:33-37 | raising matching lines by q raises the count by q per matching line |
| Cart.AddRaisesCount | frontend/src/context/CartContext.jsx:28-44 | on a cart with unique ids, adding q copies raises the count by exactly q |
| Cart.AddNewRaisesTotal | frontend/src/context/CartContext.jsx:41 | adding a new book raises the total by its price times q |
| Cart.AddKeepsIdsUnique | frontend/src/context/CartContext.jsx:28-44 | adding keeps ids unique; the ids afterwards are the old ones plus the added one |
| Cart.RemoveKeepsIdsUnique | frontend/src/context/CartContext.jsx:46-49 | removal keeps ids unique |
| Cart.RemoveUpdateKeepIdsUnique | frontend/src/context/CartContext.jsx:51-62 | updating a quantity keeps ids unique |
| Cart.RemoveCount | frontend/src/context/CartContext.jsx:46-49 | removing an id takes exactly its quantity out of the count |
| Cart.UpdateCount | frontend/src/context/CartContext.jsx:51-61 | setting a quantity replaces what the id held; a non-positive one drops it |
| PaymentForm.StripSpaces | frontend/src/components/PaymentModal.jsx:23 | the result holds no white space and is no longer than the input |
| PaymentForm.StripSpacesKeeps | frontend/src/components/PaymentModal.jsx:23 | a string without white space is kept as it is; a single character is dropped exactly when it is white space |
| PaymentForm.FormatCardNumber | frontend/src/components/PaymentModal.jsx:22-23 | formatting only moves white space: every other character typed is kept, in order |
| PaymentForm.GroupDigitsSpaces | frontend/src/components/PaymentModal.jsx:23 | the group replacement inserts nothing but spaces |
| PaymentForm.TrimStartSpaces | frontend/src/components/PaymentModal.jsx:23 | trimming the start removes only white space |
| PaymentForm.TrimEndSpaces | frontend/src/components/PaymentModal.jsx:23 | trimming the end removes only white space |
| PaymentForm.Grouped | frontend/src/components/PaymentModal.jsx:23 | the intended display of n digits has n + (n-1)/4 characters |
| PaymentForm.GroupDigitsOfDigits | frontend/src/components/PaymentModal.jsx:23 | on digits, the group replacement gives the grouped display plus one trailing space when the count is a multiple of four |
| PaymentForm.CardNumberFormat | frontend/src/components/PaymentModal.jsx:22-23 | for digits and white space the formatter yields groups of four separated by single spaces, with no trailing space |
| PaymentForm.CardNumberFormatIdempotent | frontend/src/components/PaymentModal.jsx:22-23 | formatting a formatted card number changes nothing |
| PaymentForm.GroupedDigitsBack | frontend/src/components/PaymentModal.jsx:23 | the grouped display carries exactly the typed digits |
| PaymentForm.CardNumberCap | frontend/src/components/PaymentModal.jsx:24 | the 19-character cap admits exactly card numbers of at most 16 digits |
| PaymentForm.FormattedCardLength | backend/routes/payment.js:61 | the server's 16-character rule counts the inserted spaces: a formatted number passes it from 13 digits on |
| PaymentForm.FormatExpiry | frontend/src/components/PaymentModal.jsx:28-34 | the expiry is its digits, with a slash after the first two once there are two; it never exceeds 5 characters, so the rejection cannot fire |
| PaymentForm.ExpiryIdempotent | frontend/src/components/PaymentModal.jsx:28-32 | formatting a formatted expiry changes nothing |
| PaymentForm.ExpirySlashComesBack | frontend/src/components/PaymentModal.jsx:30-31 | deleting the slash of "12/" gives "12", which is formatted back to "12/" |
| PaymentForm.FormatCvv | frontend/src/components/PaymentModal.jsx:37-39 | the CVV is the first three digits typed: digits only, at most 3, a prefix of the input's digits |
| PaymentForm.HandleChange | frontend/src/components/PaymentModal.jsx:17-42 | only the named field changes; a card number formatted beyond 19 characters leaves the state unchanged |
| PaymentForm.HandleChangeKeepsInvariant | frontend/src/components/PaymentModal.jsx:17-42 | from the empty form, every keystroke keeps card number at most 19, expiry at most 5, CVV at most 3 digits |
| PaymentForm.Submit | frontend/src/components/PaymentModal.jsx:51-56 | card details are sent only for Card, the UPI id only for UPI, the bank only for net banking |
| BookDetails.PlaceholderLabel | frontend/src/pages/BookDetails.jsx:35 | the label is the first 20 characters of a non-empty title, else "Book" |
| BookDetails.BlockedHosts | frontend/src/pages/BookDetails.jsx:38-40 | the first host test is subsumed by the third |
| BookDetails.ValidImageUrl | frontend/src/pages/BookDetails.jsx:23-58 | a URL is kept exactly when it is present, not "undefined" or "null", and on no blocked host; otherwise the title's placeholder, unless the label holds a character beyond Latin-1, in which case encoding the placeholder fails and the page reports "Failed to load book details" |
| BookDetails.NonLatinTitleFailsToLoad | frontend/src/pages/BookDetails.jsx:23-54 | an image-less book titled "₹ Book" (U+20B9) cannot be opened, one titled "Dune" shows its placeholder |
| BookDetails.LineImageUrl | frontend/src/components/Cart.jsx:16-27 | the line sanitiser's placeholder is always labelled "Book" |
| BookDetails.LineSanitiserAgrees | frontend/src/pages/OrderDetails.jsx:129-140 | the line sanitiser is the book page's for an untitled book, which never fails, and keeps the same URLs for any title |
| BookDetails.Decrement | frontend/src/pages/BookDetails.jsx:161 | "-" lowers by one above 1 and gives 1 at or below it |
| BookDetails.Increment | frontend/src/pages/BookDetails.jsx:168 | "+" raises by one below the stock and gives the stock at or above it |
| BookDetails.StepperStaysInRange | frontend/src/pages/BookDetails.jsx:161-168 | from a quantity within [1, stock], every sequence of presses stays within [1, stock] |

## Left out

- Persistence: MongoDB and Mongoose calls are replaced by an in-memory map of books and a sequence of orders. `populate` and the HTTP plumbing are not modelled. A thrown database error is a failure value.
- Identifiers: order ids are positions and book ids are map keys, so an id cannot be malformed. The source answers a malformed id with 404 only in the book get, update and delete handlers and the single-order read (backend/routes/books.js:63, 122, 144 and backend/routes/orders.js:124); the order create, status, cancel and payment handlers answer it with 500 (backend/routes/orders.js:81, 175, 209 and backend/routes/payment.js:49). That 500 path is not modelled.
- Order of listings: "newest first" is modelled as order of insertion, not as a sort on `createdAt`.
- Concurrency: every handler runs to completion before the next begins. The read-then-write race in the create loop, and a settlement racing with a cancel, are not modelled.
- Time and randomness: `Date.now()`, `Math.random()` and the simulated delays are parameters or are left out.
- Money: JavaScript floating-point prices are integers in the smallest unit. The client's two-decimal display is not modelled.
- Reservation.Request and BookSchema.BookInput: quantities, stock and prices are integers. Fractional values (a quantity of 1.5 passes the stock check and the schema's minimum of 1) and non-numeric ones (which turn the stock into NaN and make the save fail with 500 after earlier lines were saved) are not modelled.
- The search parameter of the book listing is not modelled: its user-supplied regular expression is matched by the database.
- The authentication and administrator middleware are not part of this model. The caller's id and role are inputs. A non-administrator is assumed to be refused with 403 before the handler runs.
- Catalog.ListBooks: a limit below 1 is reported as `UnsupportedLimit`. The database's meanings of limit 0 and negative limits are not modelled, and neither are non-numeric page or limit texts.
- OrderSchema.ValidateOrder: reports the first violated rule, where the schema reports all of them.
- BookSchema.CreateBook: the schema's trimming of title, author and publisher, the uniqueness of `isbn`, and `publishedDate` are not modelled.
- Catalog.UpdateBook: the patch does not cover `isbn`, `publisher` or `publishedDate`, and does not trim.
- Catalog.ApplyPatch: the route passes the whole request body to the update, so a body carrying `isbn` or `publisher` changes them in the source; the modelled patch has no such fields, and its kept ISBN and publisher follow from that.
- Catalog.AddBook: the route trims the texts before its non-empty checks; here they are checked as given.
- Payment.ValidateCard: inputs that are not strings are not modelled. Lengths are counted in characters, where JavaScript counts UTF-16 code units: a CVV such as "1" followed by an emoji has length 3 there and 2 here.
- PaymentForm.HandleChange: the 19-character cap on the card number counts characters, where JavaScript counts UTF-16 code units, so a number holding characters outside the Basic Multilingual Plane is capped earlier in the source.
- BookDetails.PlaceholderLabel: the 20-character cut counts characters, where `substring` counts UTF-16 code units and can split a surrogate pair.
- Store.Store.ProcessPayment: the caller is not an input, because the handler checks neither ownership nor payment status.
- The cart's localStorage mirroring and toasts, the payment dialog's UPI and bank inputs, and the placeholder's SVG and base64 rendering are not modelled. The placeholder is represented by its label; of the encoding only its failure on characters beyond Latin-1 is kept. The cart and order lines always use the label "Book", so their encoding never fails.
- Cart.AddToCart: the context's default quantity of 1 is not modelled; the quantity is always an argument.
- The shipping fee that the cart page adds for display, and that the receipt subtracts, is presentation only and is not modelled.
- `backend/updateBookImages.js`, `backend/server.js` and `frontend/src/services/api.js` (a one-off migration script, application wiring and an HTTP client) are not part of this model.
