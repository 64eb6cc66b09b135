# MB Vendas: sales service and voice sale parser

This project models two parts of the MB Vendas point-of-sale app.

**The sales service** (`src/lib/salesService.ts`) keeps four collections:
products, sales, cashier transactions and stock movements. It validates
and records a sale, takes each line out of stock, logs one stock movement
per line and posts a cash-in. It cancels a sale with a full reversal:
stock back, one movement per line, one cash-out. It answers the read-side
queries: filtered sales newest first, one sale by id, the sales report,
the cash balance and the stock movements.
- `SalesService.Store` is a class whose four `seq` fields are the four
  collections. Each write operation is a method that reassigns them.
- The read side is made of functions over those fields.
- The pure rules are functions in `SalesLedger` and `SalesQueries`, with
  their lemmas: the stock guard, the validation order, the stock and
  movement folds, the rollback and the cash balance.

**The voice sale parser** (`src/lib/voiceSaleParser.ts`) turns a spoken
transcript and the product catalogue into a sale draft. It extracts the
quantity, the payment method, the customer name and a product-name guess,
matches the guess against the catalogue in three tiers, and scores its
confidence. A separate check lists what is missing from a draft.
- `VoiceParser` holds these as pure functions.
- `VoicePatterns` holds hand-written scanners for the few regular
  expressions the parser uses. They backtrack in the same order the
  JavaScript engine does: greedy, then lazy, leftmost match first.
- `Text` holds the case map, trimming, splitting and joining.
- `VoiceExamples` proves what each stage gives for the sample phrase the
  voice dialog shows, and what the whole parse gives for it over the seed
  catalogue.

Modelling choices:
- Money and quantities are integers (cents).
- Ids, clock readings and the acting user are an `Env` parameter.
  `ids(k)` is the k-th generated id of the call; `clock(k)` is the k-th
  clock reading.
- A missing payment method or customer name is the empty string, which
  is falsy in the source.
- The service's error strings are the cases of `SaleError`, which carry
  the data each message shows.

## Model

| member | source | states |
|---|---|---|
| SalesService.Store.constructor | src/lib/salesService.ts:22-29 | a store holds exactly the four collections it is given |
| SalesService.Store.UpdateProductStock | src/lib/salesService.ts:74-95 | answers false and writes nothing when the id is missing or the stock would go negative; otherwise only that product's stock becomes stock + change; non-negative stocks stay non-negative; the other collections are untouched |
| SalesLedger.ProductIndexSpec | src/lib/salesService.ts:76-81 | the lookup finds the first product with the id, and finds none exactly when no product has it |
| SalesLedger.AdjustStock | src/lib/salesService.ts:74-95 | an update can only succeed for an id some product has, and it keeps the number of products; an unknown id always fails |
| SalesLedger.AdjustStockSpec | src/lib/salesService.ts:74-95 | the update fails iff the product is missing or its stock + change < 0; on success exactly the first such product gets stock + change, the ids stay the same and non-negative stocks stay non-negative |
| SalesLedger.AdjustStockUnique | src/lib/salesService.ts:83-91 | with unique ids, every product with the id gets the change and every other product is unchanged |
| SalesLedger.AdjustStockUp | src/lib/salesService.ts:84-89 | with non-negative stocks, adding a non-negative amount succeeds iff the product exists |
| SalesService.Store.CreateStockMovement | src/lib/salesService.ts:98-124 | appends exactly one movement with the given product, quantity, type and sale id; nothing else changes |
| SalesService.Store.CreateCashierTransaction | src/lib/salesService.ts:127-151 | appends exactly one transaction with the given type, value, category and sale id; nothing else changes |
| SalesLedger.ItemCheckSpec | src/lib/salesService.ts:177-183 | a line passes iff its product exists and has stock >= quantity; otherwise the error says the product is missing, or gives the stock of the first product with that id |
| SalesLedger.ValidateItemsSpec | src/lib/salesService.ts:176-184 | the line checks pass iff every line passes; a failure is the error of the first line that fails |
| SalesLedger.ValidateSale | src/lib/salesService.ts:154-187 | validation passes iff there are items, the total is positive, a payment method is present and every line passes; otherwise the error is that of the first rule broken, in the order empty, total, payment, lines |
| SalesLedger.NewSale | src/lib/salesService.ts:198-225 | the new sale keeps the items, is confirmed, has subtotal = the sum of the line subtotals and total = subtotal - discount, and gets 'Cliente não identificado' when no customer is named |
| SalesService.Store.CreateSale | src/lib/salesService.ts:190-264 | a failed validation returns its error and changes nothing; success appends one sale, takes every line out of stock, logs one 'venda' movement per line and posts one cash-in of the total under 'Vendas'; a failed decrement removes the sale again, posts no cash-in, and keeps the decrements and movements of the earlier lines |
| SalesService.Store.RecordSale | src/lib/salesService.ts:205-263 | once validation has passed: the sale built from the arguments (fresh id and clock reading, the default customer for an empty name), then the success state, or the rollback state at the first line whose decrement fails; stocks stay non-negative |
| SalesService.Store.SellItems | src/lib/salesService.ts:233-250 | the stock loop succeeds iff every decrement in order succeeds; on failure it reports the first failing line, with the earlier decrements and movements made |
| SalesService.Store.SellLine | src/lib/salesService.ts:234-249 | one pass takes the line out of stock and logs its movement, or changes nothing when the decrement fails |
| SalesLedger.SellLinesKeeps | src/lib/salesService.ts:233-240 | the stock loop keeps the product ids and keeps stocks non-negative |
| SalesLedger.SellLinesPrefix | src/lib/salesService.ts:233-240 | if all of the first n decrements succeed, so do all of the first k <= n |
| SalesLedger.SellLinesEffect | src/lib/salesService.ts:233-250 | with unique ids, each product's stock falls by the total quantity of its lines |
| SalesLedger.LineMovementsAt | src/lib/salesService.ts:243-249 | movement k names line k's product, has its signed quantity and the sale id, and has the loop's type |
| SalesLedger.LineMovementsAccount | src/lib/salesService.ts:243-249 | a product's logged movements add up to minus (sale) or plus (cancel) the quantity of its lines |
| SalesLedger.RollbackRestores | src/lib/salesService.ts:237-238 | filtering the new sale out by id gives back the sales stored before it, when no earlier sale has its id |
| SalesLedger.WithoutIdSpec | src/lib/salesService.ts:237 | the filtered sales are exactly those whose id differs |
| SalesLedger.DuplicateLinesReachRollback | src/lib/salesService.ts:176-184 | two lines for one product, each within its stock but together above it, pass validation; the first decrement succeeds and the second fails, so the rollback path runs |
| SalesLedger.SaleEntry | src/lib/salesService.ts:253-259 | the cash-in is an 'entrada' of the sale total under 'Vendas', tied to the sale |
| SalesLedger.Last8 | src/lib/salesService.ts:255 | the description uses the last eight characters of the id, or all of it when shorter |
| SalesService.Store.CancelSale | src/lib/salesService.ts:267-321 | a missing id or an already cancelled sale fails and changes nothing; otherwise only that sale's status, cancellation time and reason change, each line goes back into stock, one 'cancelamento' movement is logged per line and one cash-out of the total is posted under 'Estornos' |
| SalesService.Store.RestockLine | src/lib/salesService.ts:296-307 | one pass adds the line back to stock, ignoring a failed update, and logs its movement |
| SalesLedger.Cancelled | src/lib/salesService.ts:287-292 | the cancelled sale has the new status, time and reason, and keeps its id, items, totals, discount, payment method, customer and user |
| SalesLedger.ReversalEntry | src/lib/salesService.ts:310-316 | the reversal is a 'saida' of the sale total under 'Estornos', tied to the sale |
| SalesLedger.RestockLinesKeeps | src/lib/salesService.ts:296-307 | the restock loop keeps the product ids and keeps stocks non-negative |
| SalesLedger.RestockLinesEffect | src/lib/salesService.ts:296-307 | with unique ids, non-negative stocks and positive quantities, each product's stock rises by the total quantity of its lines |
| SalesLedger.SellThenRestock | src/lib/salesService.ts:233-307 | with unique product ids, non-negative stocks and positive quantities, restocking the lines of a completed sale gives back exactly the stocks it started from |
| SalesService.Store.CreateThenCancel | src/lib/salesService.ts:190-321 | a created sale that is then cancelled stays stored and marked cancelled; two transactions are added and the cash balance ends where it started; with unique ids, non-negative stocks and positive quantities, the stocks do too |
| SalesService.Store.CancelLatest | src/lib/salesService.ts:267-321 | cancelling the sale stored last, when it is confirmed and no earlier sale has its id, succeeds; it stays in place, marked cancelled and found at its own position; its lines go back into stock, one 'cancelamento' movement per line is logged and one reversal is posted |
| SalesService.Store.CancelTwice | src/lib/salesService.ts:271-282 | a second cancel of the same sale is refused and adds nothing, so the pair leaves the state of a single cancel; when the first cancel fails, both fail and nothing changes |
| SalesLedger.BalanceInOut | src/lib/salesService.ts:419-427 | an 'entrada' and a 'saida' of the same value leave the balance unchanged |
| SalesLedger.BalanceAppend | src/lib/salesService.ts:422-426 | the balance of two logs in a row is the sum of their balances |
| SalesLedger.Balance | src/lib/salesService.ts:419-427 | the balance is the sum of the 'entrada' values minus the sum of the 'saida' values |
| SalesService.Store.GetCashierBalance | src/lib/salesService.ts:419-427 | the balance is the cash-in values minus the cash-out values |
| SalesQueries.FilterSales | src/lib/salesService.ts:333-349 | every kept sale is a stored sale that satisfies every supplied filter, every stored sale that does is kept, and nothing is added |
| SalesQueries.FilterSalesMatches | src/lib/salesService.ts:333-349 | the chain of filters keeps exactly the sales that satisfy every supplied filter, in their order |
| SalesQueries.FilterSalesAppend | src/lib/salesService.ts:333-349 | filtering distributes over concatenation |
| Sorting.SortDesc | src/lib/salesService.ts:351 | the sort is a permutation of its input |
| Sorting.SortDescSorted | src/lib/salesService.ts:351 | the sort puts newer `createdAt` stamps first |
| SalesService.Store.GetSales | src/lib/salesService.ts:324-352 | the result holds exactly the stored sales that satisfy every supplied filter, with multiplicity, newest first |
| SalesService.Store.GetSaleById | src/lib/salesService.ts:355-358 | the first stored sale with the id, or none exactly when no sale has it |
| SalesLedger.SaleIndex | src/lib/salesService.ts:272 | the index of the first sale with the id, or none exactly when no sale has it |
| SalesService.FoundAfter | src/lib/salesService.ts:272 | a sale whose id no earlier sale has is found at its own position |
| SalesService.Store.GetStockMovements | src/lib/salesService.ts:430-438 | the movements of the product (all of them for no id), with multiplicity, newest first |
| SalesService.Store.GetSalesReport | src/lib/salesService.ts:361-416 | the report is `Report` of the confirmed sales within the dates, newest first: their count, revenue and discount; the per-method and per-user revenues add up to the revenue; the per-user counts add up to the count; each product's entry gives what its lines sold |
| SalesQueries.Report | src/lib/salesService.ts:361-416 | the report gives the number of sales, their revenue and their discount; the per-method revenues add up to the revenue; the per-user counts add up to the count and the per-user revenues to the revenue; each product's entry holds the quantity and revenue its lines sold |
| SalesQueries.PaymentTotalsKeys | src/lib/salesService.ts:373-376 | the per-method map has a key exactly for each payment method used |
| SalesQueries.PaymentTotalsSum | src/lib/salesService.ts:373-376 | the per-method revenues add up to the total revenue |
| SalesQueries.ProductTotalsEffect | src/lib/salesService.ts:379-392 | a product has an entry iff some line sold it; the entry's quantity and revenue are the sums over its lines |
| SalesQueries.AddLinesEffect | src/lib/salesService.ts:380-390 | folding in one sale's lines adds each line's quantity and subtotal to its product's entry, starting from 0 |
| SalesQueries.UserCountsSum | src/lib/salesService.ts:395-406 | the per-user sale counts add up to the number of sales |
| SalesQueries.UserRevenueSum | src/lib/salesService.ts:395-406 | the per-user revenues add up to the total revenue |
| VoiceParser.ExtractPaymentMethod | src/lib/voiceSaleParser.ts:34-50 | PIX when "pix" occurs in the lower-cased text; else cash when "dinheiro", "cash" or "espécie" does; else card when one of the card words does; else none |
| VoiceParser.PixRoot | src/lib/voiceSaleParser.ts:13 | some PIX keyword occurs iff "pix" does |
| VoiceParser.CashRoot | src/lib/voiceSaleParser.ts:14 | some cash keyword occurs iff "dinheiro", "cash" or "espécie" does |
| VoiceParser.CardRoot | src/lib/voiceSaleParser.ts:15 | some card keyword occurs iff one of the six card words does |
| VoiceParser.PaymentIgnoresCase | src/lib/voiceSaleParser.ts:35 | a transcript and its lower-cased form get the same payment method |
| VoiceParser.ExtractQuantity | src/lib/voiceSaleParser.ts:55-73 | when a vocabulary word occurs in the lower-cased text, the quantity lies in 1..10 |
| VoiceParser.QuantityFromWord | src/lib/voiceSaleParser.ts:59-63 | the first vocabulary word, in table order, that occurs in the lower-cased text gives the quantity, which lies in 1..10 |
| VoiceParser.QuantityFromNumber | src/lib/voiceSaleParser.ts:65-69 | with no vocabulary word, the leftmost whole-word digit run gives the quantity as its decimal value |
| VoiceParser.QuantityDefault | src/lib/voiceSaleParser.ts:71-72 | with neither a vocabulary word nor a whole-word number, the quantity is 1 |
| VoiceParser.UmWins | src/lib/voiceSaleParser.ts:18-19 | any transcript holding "um", even inside a word, gets quantity 1 |
| VoiceParser.VocabularyRange | src/lib/voiceSaleParser.ts:18-29 | every vocabulary value lies in 1..10 |
| VoicePatterns.FindNumberSpec | src/lib/voiceSaleParser.ts:66 | the scan finds the leftmost whole-word digit run, and none exactly when there is none |
| VoicePatterns.FindNumber | src/lib/voiceSaleParser.ts:66 | a found span is a run of digits starting and ending at a word boundary, at or after the scan's start |
| VoiceParser.FirstNameMatchSpec | src/lib/voiceSaleParser.ts:90-99 | the patterns are tried in the order para, pro, do, da; the first that matches gives the match |
| VoiceParser.FindNamePicks | src/lib/voiceSaleParser.ts:84-87 | one pattern's scan returns the leftmost match, with the longest space run and then the shortest name, or none when the pattern cannot match |
| VoicePatterns.FindName | src/lib/voiceSaleParser.ts:84-87 | a found match is a match of the pattern: the keyword at a word start, a space run, a non-empty group of name characters and then a stop or the end |
| VoicePatterns.FindNameSpec | src/lib/voiceSaleParser.ts:84 | the scan returns the leftmost match; at that start the longest space run and then the shortest group that reaches a stop or the end; none exactly when nothing matches |
| VoicePatterns.EndsNameSpec | src/lib/voiceSaleParser.ts:84 | a name may end exactly where a stop word follows after spaces, or at the end of the text |
| VoicePatterns.StopAheadSpec | src/lib/voiceSaleParser.ts:84 | the stop test holds iff spaces and then " no ", " em ", " pelo " or " via " follow |
| VoicePatterns.GreedyThenLazySpec | src/lib/voiceSaleParser.ts:84 | the space run is tried longest first and the group shortest first, as the engine backtracks |
| VoiceParser.PickedUnique | src/lib/voiceSaleParser.ts:84-87 | the match a pattern picks is unique |
| VoiceParser.CustomerNone | src/lib/voiceSaleParser.ts:101 | when no pattern matches, the name is empty |
| VoiceParser.CustomerFromMatch | src/lib/voiceSaleParser.ts:90-98 | the name is the title-cased group of the first pattern that matches |
| VoiceParser.TitleWordSpec | src/lib/voiceSaleParser.ts:96 | title-casing a word keeps its length and its spaces, and gives a capital first letter and a lower-case rest |
| VoiceParser.TitleCaseWords | src/lib/voiceSaleParser.ts:94-97 | the title-cased name has one title-cased word for each word of the trimmed group |
| VoiceParser.ExtractCustomerName | src/lib/voiceSaleParser.ts:79-102 | every word of the customer name is title-cased |
| VoiceParser.QuantityWordFor | src/lib/voiceSaleParser.ts:113 | the word removed for a quantity is the first vocabulary entry with that value, or none when no entry has it |
| VoiceParser.QuantityWordsStripped | src/lib/voiceSaleParser.ts:112-116 | for 1, 2 and 3 the words looked up are "uma", "duas" and "três", never "um", "dois" or "tres" |
| VoiceParser.ExtractProductName | src/lib/voiceSaleParser.ts:108-146 | the guessed name is empty or words joined by single spaces, with no space at either end, each starting with a capital or uncased character |
| VoiceParser.CleanUpShape | src/lib/voiceSaleParser.ts:139-145 | the guessed name is empty or words joined by single spaces, with no space at either end, each starting with a capital or uncased character |
| VoiceParser.JoinCleanWords | src/lib/voiceSaleParser.ts:145 | joined clean words start with the first word's first character, end with the last word's last character and hold no double space |
| VoiceParser.StrippedIsSubsequence | src/lib/voiceSaleParser.ts:108-137 | the removals only delete: what is left is the lower-cased transcript with characters taken out, the rest in order |
| VoicePatterns.RemoveFromSubsequence | src/lib/voiceSaleParser.ts:115-135 | a global removal keeps the remaining characters in order |
| VoicePatterns.RemoveFrom | src/lib/voiceSaleParser.ts:115-135 | a removal never lengthens the text, and one whose pattern matches nowhere leaves it as it is |
| VoiceParser.FindBestMatchProduct | src/lib/voiceSaleParser.ts:151-178 | an empty name or an empty catalogue gives none; any result is a catalogue product |
| VoiceParser.MatchTiers | src/lib/voiceSaleParser.ts:154-177 | the first product with exactly the search as its lower-cased name; failing that, the first whose name and the search contain one another; failing that, the first holding a search word longer than two characters; none iff no tier matches |
| VoiceParser.CatalogueNameMatches | src/lib/voiceSaleParser.ts:151-160 | a name equal, up to case, to some catalogue name always finds a product |
| VoiceParser.ScoreCounts | src/lib/voiceSaleParser.ts:188 | the score is the number of flags set |
| VoiceParser.CalculateConfidence | src/lib/voiceSaleParser.ts:183-193 | high iff all three flags are set, medium iff exactly two are, low iff at most one is |
| VoiceParser.ParseVoiceSale | src/lib/voiceSaleParser.ts:198-225 | the draft echoes the transcript and holds the quantity, customer and payment method the three extractions give |
| VoiceParser.MatchedTier | src/lib/voiceSaleParser.ts:151-178 | a non-empty guess is matched to the first product of the first tier some product passes, and to none exactly when the guess is empty or no product passes any tier |
| VoiceParser.ParseRules | src/lib/voiceSaleParser.ts:198-225 | the product name is that of the product picked by the tiers when it has a name, else the guess, and the guess when nothing is picked; the confidence is high, medium or low as three, two, or at most one of "a product matched", "a customer was named" and "a payment method was found" hold |
| VoiceParser.ValidateParsedSale | src/lib/voiceSaleParser.ts:230-259 | valid iff the name equals a catalogue name up to case, the quantity is at least 1 and a payment method is present, iff there are no errors; each message is present iff its rule is broken, there is exactly one message per broken rule, and they come in the order product, quantity, payment |
| VoiceParser.HighConfidenceIsValid | src/lib/voiceSaleParser.ts:198-259 | a high-confidence draft with quantity at least 1 passes validation when every catalogue product has a name |
| Text.JoinSplit | src/lib/voiceSaleParser.ts:142-145 | joining the pieces of a split gives the text back |
| Text.SplitJoin | src/lib/voiceSaleParser.ts:142-145 | splitting words joined by a separator they do not hold gives the words back |
| Text.Trim | src/lib/voiceSaleParser.ts:141 | the trimmed text is the middle of the text with only white space (the JavaScript `\s` set) cut at either end, and does not start or end with white space |
| Text.LowerIdempotent | src/lib/voiceSaleParser.ts:35 | lower-casing twice is lower-casing once |
| Text.NatToStringValue | src/lib/voiceSaleParser.ts:117 | a number's decimal digits read back as the number |
| VoiceExamples.SampleQuantity | src/components/VoiceSaleModal.tsx:280 | the sample phrase has quantity 1 |
| VoiceExamples.SamplePayment | src/components/VoiceSaleModal.tsx:280 | the sample phrase is paid by PIX |
| VoiceExamples.SampleCustomer | src/components/VoiceSaleModal.tsx:280 | the sample phrase's customer is "João Félix" |
| VoiceExamples.SampleProduct | src/components/VoiceSaleModal.tsx:280 | with quantity 1, customer "João Félix" and PIX, the sample phrase's product-name guess is "Coxinha" |
| VoiceExamples.FirstExactMatch | src/lib/voiceSaleParser.ts:151-160 | a non-empty name whose trimmed lower-cased form is the first product's lower-cased name matches that product |
| VoiceExamples.SeedMatch | src/lib/initializeProducts.ts:6-12 | "Coxinha" matches the first product of the seed catalogue |
| VoiceExamples.SampleParse | src/lib/initializeProducts.ts:6-12 | over the seed catalogue, the sample phrase parses to one "Coxinha" for "João Félix", paid by PIX, with high confidence |

## Left out

- Local storage and JSON: the four collections are the fields of one store. The reads and saves, and the parse and save errors they swallow, are not modelled.
- `generateId`, the clock and `getCurrentUser` are the `Env` parameter of each call, not computed.
- `console.error` messages are not modelled; a failure is the `false` answer or the `SaleError` case.
- Money is integer cents, so floating-point rounding of prices and totals is not modelled.
- Sorting: the source compares `new Date(createdAt)` values; the model compares the ISO `createdAt` strings, which order the same way for well-formed stamps. Its insertion sort keeps equal stamps in their stored order, as the engine's stable sort does.
- SalesLedger.SellThenRestock: requires unique product ids and non-negative stocks as well as positive quantities. Positive quantities alone would do, because both loops act on the first product with each id and a completed sale leaves every stock it touched at 0 or more, but the stock-loop lemmas it rests on (`SellLinesEffect`, `RestockLinesEffect`) are stated per product id. Positive quantities are needed: with a stock of 2 and lines of -3 and 5 the sale succeeds, the -3 restock fails and is ignored, and the stock ends at 5.
- SalesService.Store.CreateThenCancel: the stocks are only promised to come back under the same three conditions, for the same reason.
- VoiceParser.QuantityFromNumber: gives the exact decimal value; `parseInt` loses precision above 2^53.
- Case mapping covers ASCII and the accented letters of the name pattern only; `\b` uses the ASCII word characters, as JavaScript does without the `u` flag.
- StripCustomer: the customer name goes into the pattern literally. A name extracted by the parser holds only letters and spaces, so no regular-expression character needs escaping.
- The `CashierSession` and `CashierSale` types are not used by the modelled code.
- Authentication, the Supabase client, speech capture, the React pages and hooks, the report screen and the seeding routine are not part of this model; the seed catalogue itself is the constant `VoiceExamples.SeedProducts`.
