# Order ledger of agriops-lite, in Dafny

This project models the admin ledger of a small order-and-invoicing web app for an agricultural
wholesaler (`src/App.jsx`). It covers three parts:

- **The dashboard view.** The newest-first order list passes through four independent filters:
  buyer name, payment status, calendar month and a case-insensitive text search. The Total Sales,
  Total Collected and Total Outstanding cards are then computed over the orders still visible.
- **Payment status and balance due.** Each order is classified from `total_amount` and a nullable
  `amount_paid`. The due amount `total - (paid || 0)` is shared by the order cards, the payment
  page and the invoice page.
- **The two writes.** Order creation checks the form, prices the order, inserts it with nothing
  paid and takes the quantity off the product's stock. "Add Payment" adds the entered amount to
  the order's paid amount.

The database is an explicit `Store` value and each write is a pure function from one store to
the next. The following are parameters instead of ambient state:

- the current month `now`, as `(year, month0)`;
- each order's `created_at`, decoded to its `(year, month0)`;
- the creation instant in milliseconds;
- the id the database assigns to a new order;
- the prompt's payment amount.

Files, one module each:

- `options.dfy`: `Option` for nullable columns and `Result` for aborted writes.
- `seqs.dfy`: order-preserving `Filter`, subsequence embeddings and `SumOf` with their algebra.
- `text.dfy`: JavaScript `trim`, `toLowerCase`, `includes`, and the decimal rendering of numbers.
- `calendar.dfy`: months and the month carry of `new Date(year, month)`.
- `ledger.dfy`: orders, products, the joined dashboard row, `Due` and the status tests.
- `filtering.dfy`: the filter stages, the conjunction they amount to, and the totals.
- `transitions.dfy`: `CreateOrder`, `AddPayment` and the payment page.
- `scenarios.dfy`: worked examples on concrete orders.

The model follows `src/App.jsx`, including these behaviours (differences are under
"## Left out"):

- The status tests are `amount_paid === 0`, `amount_paid > 0 && due > 0` and `due <= 0`. They
  partition every order whose paid amount is present and not negative and whose total is
  positive. An order with a missing payment and a positive total falls in no bucket, and a
  zero-value order with nothing paid is in two.
- The search term is trimmed only to decide whether search is on. The term that is matched is
  the untrimmed one.
- Quantities are not required to be positive, and stock may go negative.

## Model

| member | source | states |
|---|---|---|
| Filtering.VisibleIsConjunction | src/App.jsx:147-195 | the four filters applied in sequence keep exactly the input rows that pass every active filter, in input order |
| Filtering.StageOrderIrrelevant | src/App.jsx:147-195 | applying the four filter stages in any order, even with repeats, gives the same list as filtering by their conjunction |
| Filtering.VisibleSelectsAdmitted | src/App.jsx:147-195 | the visible list is an order-preserving subsequence of the input; a row is in it iff it is in the input and passes the filters, and it appears as often as in the input |
| Filtering.InactiveFiltersKeepAll | src/App.jsx:149-195 | no buyer selected, status "all", date "all" and a whitespace-only search term leave the list unchanged |
| Filtering.SearchKeepsSubstringMatches | src/App.jsx:189-195 | an active search keeps a row iff the lower-cased untrimmed term occurs in the lower-cased invoice number or in the lower-cased buyer name; a missing name never matches |
| Filtering.LastMonthIsPredecessor | src/App.jsx:177-183 | "last month" keeps exactly the orders of the calendar month before now; in January that is December of the previous year |
| Filtering.OutstandingIsSumOfDues | src/App.jsx:197-202 | the outstanding figure equals the sum of the per-order balances, with a missing payment counted as 0 |
| Filtering.VisibleAndHiddenTotalsAddUp | src/App.jsx:197-202 | the figures over the visible orders plus those over the hidden orders equal the figures over all orders, so hidden orders contribute nothing to the cards |
| Filtering.CollectedWithinSales | src/App.jsx:197-202 | if each order's paid amount lies between 0 and its total, then 0 <= collected <= sales and outstanding >= 0 |
| Filtering.ReduceTotals | src/App.jsx:197-202 | the left-to-right fold from 0 computes the sum of totals and the sum of paid-or-zero amounts; outstanding is their difference and equals the sum of dues; an empty list gives 0, 0, 0 |
| Filtering.AdminView | src/App.jsx:147-202 | the dashboard shows the admitted rows as an order-preserving subsequence, with sales, collected and outstanding summed over those rows only |
| Ledger.StatusPartition | src/App.jsx:155-162 | for an order with a present, non-negative payment and a positive total, exactly one status test passes: unpaid when nothing is paid, partial when less than the total is paid, paid otherwise |
| Ledger.MissingPaymentHasNoStatus | src/App.jsx:157-160 | an order with a missing payment and a positive total passes none of the three status tests |
| Ledger.OverpaymentIsPaid | src/App.jsx:157-160 | paying more than the total makes the order paid, not partial, with a negative balance |
| Ledger.ZeroTotalOverlaps | src/App.jsx:157-160 | without a positive total the tests overlap: a zero-value order with nothing paid is both unpaid and paid |
| Calendar.Normalize | src/App.jsx:178 | `new Date(year, month)` lands in a valid month whose month count since year 0 is `12*year + month` |
| Calendar.PreviousMonthRollsOver | src/App.jsx:178 | the month before now is December of the previous year in January, and the preceding month of the same year otherwise |
| Calendar.NextOfPrevious | src/App.jsx:178 | stepping back one month and forward one month returns to the same month |
| Text.TrimStart | src/App.jsx:189 | the result is a suffix of the input; everything dropped is whitespace; the result starts with a non-whitespace character or is empty |
| Text.TrimEnd | src/App.jsx:189 | the result is a prefix of the input; everything dropped is whitespace; the result ends with a non-whitespace character or is empty |
| Text.TrimEmptyIff | src/App.jsx:189 | a term trims to the empty string exactly when every character is whitespace, which is when search is off |
| Text.ContainsIsSubstring | src/App.jsx:192-193 | the left-to-right `includes` scan succeeds exactly when the needle occurs at some position of the text |
| Text.LowerIdempotent | src/App.jsx:192-193 | lower-casing an already lower-cased string changes nothing |
| Filtering.SearchCaseInsensitive | src/App.jsx:192-193 | a search term and its lower-cased form keep exactly the same rows |
| Text.DecimalInjective | src/App.jsx:106 | different numbers of milliseconds are printed as different digit strings |
| Transitions.InvoiceNumberInjective | src/App.jsx:106 | invoice numbers `INV-<ms>` made at different milliseconds are different |
| Transitions.FindProduct | src/App.jsx:104 | the lookup returns the first product with the selected id, and fails only when no product has that id |
| Transitions.CreateOrder | src/App.jsx:98-124 | an empty buyer, product or quantity aborts with the validation error, and an unknown product aborts with the lookup error, both before any write; otherwise exactly one order is prepended with total = qty * price_per_kg, paid 0, and the `INV-` number; every product with the selected id gets the first match's stock minus qty with all its other columns unchanged, and products with other ids are unchanged |
| Transitions.CreateOrderConservesKilograms | src/App.jsx:108-124 | with unique product ids, catalog stock falls by exactly the ordered quantity, and stock plus ordered kilograms is unchanged |
| Transitions.NewOrderIsUnpaid | src/App.jsx:108-117 | a new order is unpaid with its whole total due |
| Transitions.AddPayment | src/App.jsx:299-313 | no write when nothing is due (not offered) or, on an offered card, when the prompt is empty (cancelled); otherwise every order with the card's id gets paid = (card's paid or 0) + payment, and nothing else changes, including the total and all other orders |
| Transitions.PaymentAccumulates | src/App.jsx:303-313 | on an up-to-date card, the paid amount grows by the payment and the balance shrinks by it; ledger-wide collected grows by exactly the payment while sales and ordered kilograms are unchanged; overpayment is not capped |
| Transitions.FullPaymentSettles | src/App.jsx:299-313 | paying exactly the balance makes the order paid, with no payment button and a completed payment page |
| Transitions.PaymentPage | src/App.jsx:369-380 | the public page shows the UPI pay prompt exactly for the orders whose dashboard card offers "Add Payment", and the prompt carries the amount due |
| Transitions.PaymentPageAgreesWithStatus | src/App.jsx:369-380 | the payment page reports completion exactly for orders that pass the "paid" status test |
| Scenarios.UnpaidScenario | src/App.jsx:155-202 | one unpaid order of 1000 passes the "unpaid" filter, with sales 1000, collected 0 and outstanding 1000 |
| Scenarios.PaidScenario | src/App.jsx:155-202 | one order of 500 paid in full passes the "paid" filter, with nothing outstanding |
| Scenarios.CreateScenario | src/App.jsx:98-124 | 1000 kg at 20 per kg gives an order of 20000 and lowers the stock by 1000 |
| Scenarios.PaymentScenario | src/App.jsx:303-313 | paying 300 against 200 already paid on a 1000 order leaves 500 paid and 500 due |
| Scenarios.LastMonthScenario | src/App.jsx:177-183 | in January 2025 "last month" selects December 2024 |

## Left out

- Network I/O against the hosted backend is not modelled: fetching products, buyers and orders
  (77-94), the inserts and updates (108-124, 307-313), sign-in and session handling (45-65), and
  the invoice lookups of the payment and invoice pages (358-365, 403-410). The store is an
  explicit value. The joined buyer name on each dashboard row is an input.
- The filter is modelled, but no control in the source ever sets the buyer filter
  (`setSelectedBuyerFilter` is never called).
- Concurrency is not modelled, and each write is one atomic step. This excludes the lost update
  between clients, and a failed stock update after a successful insert. `AddPayment` writes the
  card's snapshot plus the payment, as the source does. `PaymentAccumulates` and
  `FullPaymentSettles` assume the card is up to date.
- `Date.now()`, `new Date()` and timestamp parsing are inputs (the milliseconds, `now` and each
  order's decoded month). So are the local time zone they depend on, and the database-assigned
  order id.
- A new order is placed first in the order list, standing in for the refetch ordered by
  `created_at` descending. This assumes its timestamp is the newest.
- `Number()` parsing, NaN and floating-point money are not modelled. Amounts and quantities are
  integers, an empty form field or cancelled prompt is `None`, and ids are strings compared
  exactly.
- Calendar.Normalize: JavaScript's `new Date(year, month)` maps a year from 0 to 99 to 1900 plus
  that year before carrying the month; the model does not, since `now` is the wall clock.
- Text.LowerChar: lower-cases the Basic Latin and Latin-1 letters only. JavaScript's full
  Unicode case mapping, including length-changing cases, is not modelled. Characters are Unicode
  scalar values, not UTF-16 code units.
- The database's foreign-key check on the selected buyer id is not modelled. The client does
  not check that id.
- UI parts are not modelled: clipboard writes, `alert`, `prompt`, routing, JSX rendering, locale
  date formatting and the "Copy Payment Link" button. QR code rendering (387) and the UPI URL
  text (371) are left out; `PayPrompt` carries only the `am` amount.
- `src/Invoice.jsx` and `downloadPDF` (412-420) are not modelled. They only rasterise the DOM
  into a PDF.
