# walmart-autocart: a Dafny model of the shopping-list pipeline

walmart-autocart turns a shopping list into a cart. The list can be typed, pasted as text or
photographed. A language service reads the list into products with quantities. A search service
looks each product name up in a fixed catalogue. Three React pages let the user edit the list,
pick one product per category and manage a cart with coupons. This project models the logic of
those six parts and proves what each one does.

- **Extractor** (`nlp-service/server.js`): the Node `POST /api/extract-products` handler. It has
  the request checks and the line-by-line quantity rule. The rule is written as an explicit
  backtracking search for `^(\d+)\s*(.+)$`. The module also has the connector and bullet strips,
  the vocabulary fallback, and the canned answer to an image request. **ExtractorCases** proves
  what these rules do with lines their patterns were not written for.
- **Catalogue** (`search-service/server.js`): `findProductsByName` over the mock table, and the
  `/api/search-products` handler looping over the request items.
- **Carts** (the cart helpers shared by `CartPage.tsx` and `ResultsPage.tsx`): quantity update,
  removal, subtotal and coupon codes. **CartPage**, **ResultsPage** and **HomePage** are classes
  whose fields are the React state of each page. Each handler is a method that states the whole
  new state.
- **GeminiReply** (`nlp-service/main.py`): the FastAPI service. It models
  `convert_to_final_format`, the clean-up of the model's reply before `json.loads`, the retry in
  `process_input` and the request validation of `InputPayload`.
- **Js**, **Py**, **Assoc**, **Seqs**, **Wrappers**: the JavaScript and Python string primitives
  the code relies on (`trim`, `split`, `toLowerCase`, `parseInt`, `strip`, `split()`,
  `replace`, `startswith`), an insertion-ordered dictionary standing for a JavaScript object or
  a Python dict (see "## Left out" for where a JavaScript object differs), two sequence facts, and `Option`.

Money is an integer number of hundredths of the price unit, so 1149.99 is 114999 and the generic
9.99 is 999. Ratings are in tenths, so 4.0 is 40. Lowercasing covers ASCII letters only. The
random suffix of a generic product id (`Math.random().toString(36)`) is a parameter. So are the
language model's reply and `json.loads`.

## Model

| member | source | states |
|---|---|---|
| Extractor.ExtractProducts | nlp-service/server.js:11-76 | 400 exactly when `type` or `data` is falsy. 500 exactly when a text request's data is truthy but no string, because `split` throws. A text request gets the products of its lines. An image request gets milk, bread and eggs, one each. Any other type gets an empty list. |
| Extractor.ImageProducts | nlp-service/server.js:62-69 | The canned answer to an image request: milk, bread and eggs, one each. ExtractProducts states that an image request with truthy data gets exactly this list. |
| Extractor.ExtractText | nlp-service/server.js:21-61 | The loop over the non-blank lines pushes the entry of each line the line rule keeps, and the fallback replaces an empty list. The result is the products of the text. |
| Extractor.ParseLine | nlp-service/server.js:28-42 | The line rule. Its meaning is stated by the lemmas below: QuantityLine and ParseLineOfMatch for the quantity branch, ParseLineOfNoMatch and BulletDropped for the others, and ParseLineNone for when a line gives nothing. |
| Extractor.TextProducts | nlp-service/server.js:21-61 | The products of a text: the line pass, or the fallback when it finds nothing. TextProductsAreLinePass shows it is always the line pass. |
| Extractor.ParseLines | nlp-service/server.js:27-44 | The line pass: the entries the loop pushes, one line at a time, in line order. ExtractText proves the loop computes it; ParseLinesEmpty, ParseLinesAppend, ParseLinesAtMostOnePerLine and BlankLineContributesNothing state its meaning. |
| Extractor.Fallback | nlp-service/server.js:47-60 | The vocabulary pass. FallbackEntries, FallbackAppend and FallbackFindsNothing state its meaning. |
| Extractor.QuantityMatch | nlp-service/server.js:32 | A match's first group is a non-empty run of ASCII digits. |
| Extractor.TrySpaces | nlp-service/server.js:32 | The split point that `\s*` backtracks to lies within the whitespace after the digits. |
| Extractor.TryDigits | nlp-service/server.js:32 | `(\d+)` keeps at least one digit, and the second group starts after the digits kept. |
| Extractor.QuantityMatchOfTrimmed | nlp-service/server.js:32 | On a trimmed line: no leading digit means no match. Digits, spaces and then a one-line remainder give the digits and the remainder. A line terminator in the remainder means no match. Two or more digits alone give the last digit as the name. A single digit alone gives no match. |
| Extractor.MatchBlocked | nlp-service/server.js:32 | A line terminator after the spaces leaves no way to match. |
| Extractor.TrySpacesBlocked | nlp-service/server.js:32 | No split of the spaces gets past a line terminator. |
| Extractor.TryDigitsBlocked | nlp-service/server.js:32 | No number of digits kept gets past a line terminator. |
| Extractor.MatchDigitsOnly | nlp-service/server.js:32 | A line of digits only matches with its last digit as the second group, and a single digit does not match. |
| Extractor.FirstConnector | nlp-service/server.js:35 | The alternative found is the first one, in the order the pattern tries them, that the name starts with, ignoring ASCII case. The end of the list is returned if and only if no alternative matches. |
| Extractor.StripConnector | nlp-service/server.js:35 | When the name starts with an alternative, the first such alternative and all the whitespace after it go, and the rest stays. Otherwise the name is unchanged. |
| Extractor.StripBullet | nlp-service/server.js:39 | A line starting with a character of the bullet class loses it and all the whitespace after it. Any other line stays as it is. |
| Extractor.QuantityLine | nlp-service/server.js:32-36 | A line made of digits, whitespace and a one-line name gives the name, with its connector removed and trimmed, and the value of the digits as the quantity. |
| Extractor.QuantityLineMatch | nlp-service/server.js:28-32 | Such a line is already trimmed, and the pattern splits it into the digits and the name. |
| Extractor.ParseLineOfMatch | nlp-service/server.js:33-36 | When the pattern matches a trimmed line, the entry is the stripped second group with the first group's value as quantity. |
| Extractor.ParseLineOfNoMatch | nlp-service/server.js:37-42 | A trimmed line with no match and no leading bullet is its own name, with quantity 1. |
| Extractor.DigitsOnlyLine | nlp-service/server.js:32-42 | "12" is 1 of "2": the last digit becomes the name and the rest the quantity. A single digit is its own name, with quantity 1. |
| Extractor.DigitNoConnector | nlp-service/server.js:35 | A digit starts no connector word. |
| Extractor.ParseLineNone | nlp-service/server.js:28-42 | A line gives no entry if and only if it is blank or is a single bullet character once trimmed. |
| Extractor.ParseLinesEmpty | nlp-service/server.js:27-47 | The line pass finds nothing if and only if every line gives no entry. |
| Extractor.NonBlankParse | nlp-service/server.js:25 | Filtering out blank lines first does not change the entries. |
| Extractor.ParseLinesAppend | nlp-service/server.js:27-44 | The entries of two runs of lines are those of each, in line order. |
| Extractor.ParseLinesAtMostOnePerLine | nlp-service/server.js:27-44 | There are never more entries than lines. |
| Extractor.BlankLineContributesNothing | nlp-service/server.js:25-29 | A blank line adds nothing, wherever it stands. |
| Extractor.OnlyBulletsLeft | nlp-service/server.js:25-47 | When the line pass finds nothing, every non-blank character of the text is a bullet character. |
| Extractor.FallbackFindsNothing | nlp-service/server.js:47-60 | Whatever tokenizer produced the tokens, the fallback finds no vocabulary word, because it runs only on text whose non-blank characters are all bullets. |
| Extractor.TextProductsAreLinePass | nlp-service/server.js:25-61 | Hence the products of a text request are exactly those of the line pass. |
| Extractor.FallbackAppend | nlp-service/server.js:51-52 | The fallback keeps vocabulary tokens in order, duplicates included. |
| Extractor.FallbackEntries | nlp-service/server.js:50-52 | Every fallback entry is a vocabulary word with quantity 1, and there is at most one per token. |
| Extractor.NotAWord | nlp-service/server.js:50 | The empty token and a token starting with a bullet are not vocabulary words. |
| ExtractorCases.ConnectorWithoutBoundary | nlp-service/server.js:35 | The connector pattern has no word boundary, so "xylitol gum" loses its "x". |
| ExtractorCases.OneConnectorOnly | nlp-service/server.js:35 | Only one connector goes: "bottles of water" keeps "of water". |
| ExtractorCases.BoxIsNoConnector | nlp-service/server.js:35 | "box" is not matched by `boxes?` and stays in the name. |
| ExtractorCases.EmptyNamePushed | nlp-service/server.js:33-36 | "3 of" pushes an entry with an empty name and quantity 3. |
| ExtractorCases.OfIsAConnector | nlp-service/server.js:35 | A name that is just "of" strips to nothing. |
| ExtractorCases.BulletDropped | nlp-service/server.js:37-40 | A line starting with a character of the bullet class loses it and the whitespace after it, with quantity 1. |
| ExtractorCases.RoundBulletKept | nlp-service/server.js:39 | A line starting with '•' keeps it, because '•' is not in the class as the file is written. |
| ExtractorCases.NoDigitsNoMatch | nlp-service/server.js:32 | A line not starting with a digit never matches. |
| Catalogue.MockTable | search-service/server.js:60-156 | The mock table has distinct category keys. |
| Catalogue.MockShape | search-service/server.js:60-156 | The table holds "toothpaste" and then "shampoo", and neither list is empty. |
| Catalogue.FirstPartial | search-service/server.js:168-172 | The category the partial-match loop returns matches partially, and no earlier one does. |
| Catalogue.Lookup | search-service/server.js:159-185 | What `findProductsByName` returns. ExactKeyWins, FirstPartialWins and NoMatchIsGeneric cover its three cases, and LookupNonEmpty shows it is never empty. |
| Catalogue.FindProductsByName | search-service/server.js:159-185 | The method (an exact lookup, then a loop over the keys, then the generic product) returns the lookup result, and that result is never empty. |
| Catalogue.ExactKeyWins | search-service/server.js:160-165 | A term whose lowercase form is a key gets that key's list. |
| Catalogue.FirstPartialWins | search-service/server.js:166-172 | A term that is no key gets the list of the first partially matching category, in key order. |
| Catalogue.NoMatchIsGeneric | search-service/server.js:175-184 | A term matching nothing gets one product: id `generic_` plus the suffix, the term as typed followed by " - Generic Product", price 9.99, rating 4.0 and 100 reviews. |
| Catalogue.LookupNonEmpty | search-service/server.js:159-185 | With no empty category, every lookup finds something. |
| Catalogue.MockProductsNonEmpty | search-service/server.js:159-185 | Every search of the mock table finds something. |
| Catalogue.TermIsLowercased | search-service/server.js:160-165 | "ToothPaste" finds the toothpaste list. |
| Catalogue.SearchProducts | search-service/server.js:187-209 | The handler's loop answers the same as the reference definition: 400 for a body that is not an array, 500 if an item throws, and otherwise 200 with the results object. |
| Catalogue.Search | search-service/server.js:187-209 | The reference answer of the handler. NotArrayRejected, ThrowIsFinal, ResultKeys and LastItemWins state its meaning. |
| Catalogue.Results | search-service/server.js:195-202 | The results object after the loop. ResultKeys gives its keys and LastItemWins its values. |
| Catalogue.ThrowIsFinal | search-service/server.js:197-208 | Once one item throws, the whole request is a 500. |
| Catalogue.NotArrayRejected | search-service/server.js:191-193 | A body that is not an array is answered 400. |
| Catalogue.ResultKeys | search-service/server.js:197-202 | A name is a key of the results if and only if some searched item carries it untrimmed. |
| Catalogue.LastItemWins | search-service/server.js:199-200 | The value under a name is the search of the last item with that name. |
| Carts.Ids | frontend/src/components/CartPage.tsx:28-39 | The ids of the items, one per item, in cart order. |
| Carts.IndexOfId | frontend/src/components/ResultsPage.tsx:74 | The first item with the id, or the end exactly when the id is absent. |
| Carts.WithQuantity | frontend/src/components/CartPage.tsx:33-37 | Every item with the id takes the new quantity. Every other item, every product and the length stay as they were. |
| Carts.Without | frontend/src/components/CartPage.tsx:41-43 | An item stays if and only if it was in the cart and has another id. |
| Carts.WithoutAppend | frontend/src/components/CartPage.tsx:41-43 | Removal keeps the order of the cart. |
| Carts.WithoutLength | frontend/src/components/CartPage.tsx:41-43 | Removal keeps the length if and only if no item has the id. |
| Carts.WithoutIdempotent | frontend/src/components/CartPage.tsx:41-43 | Removing twice is removing once. |
| Carts.Subtotal | frontend/src/components/CartPage.tsx:45-47 | The sum of price times quantity over the cart. SubtotalAppend, SubtotalWithout and SubtotalWithQuantity state how it moves. |
| Carts.SubtotalAppend | frontend/src/components/CartPage.tsx:45-47 | The subtotal of two carts in a row is the sum of their subtotals. |
| Carts.SubtotalWithout | frontend/src/components/CartPage.tsx:41-47 | Removal lowers the subtotal by exactly what the removed items added. |
| Carts.SubtotalWithQuantity | frontend/src/components/CartPage.tsx:28-47 | A quantity update changes the subtotal only by what the items with that id add. |
| Carts.AmountOfUnique | frontend/src/components/CartPage.tsx:45-47 | With unique ids, an id adds its item's price times its quantity. |
| Carts.WithQuantityIds | frontend/src/components/CartPage.tsx:33-37 | A quantity update never changes the ids. |
| Carts.CouponOf | frontend/src/components/CartPage.tsx:54-67 | SAVE10 is recognised if and only if the lowercased code is "save10", and WELCOME if and only if it is "welcome". |
| Carts.PaddedCodeRefused | frontend/src/components/CartPage.tsx:55 | The code is not trimmed, so a code with leading whitespace is refused. |
| Carts.CouponIgnoresCase | frontend/src/components/CartPage.tsx:55 | Codes that differ only in ASCII case are read alike. |
| CartPage.CartPage.constructor | frontend/src/components/CartPage.tsx:9-21 | The mounted page holds the saved cart, or an empty one, and no coupon. |
| CartPage.CouponDiscount | frontend/src/components/CartPage.tsx:56-62 | SAVE10 gives a tenth of the subtotal, rounded down to a hundredth. WELCOME gives $5. |
| CartPage.Total | frontend/src/components/CartPage.tsx:49-52 | The subtotal less the discount. WelcomeCanMakeTotalNegative shows it has no floor. |
| CartPage.CartPage.UpdateQuantity | frontend/src/components/CartPage.tsx:28-39 | A quantity of zero or less removes the item. Otherwise the items with that id take the quantity. The coupon state stays. |
| CartPage.CartPage.RemoveFromCart | frontend/src/components/CartPage.tsx:41-43 | The items with another id stay, in order, and nothing else changes. |
| CartPage.CartPage.SetCouponCode | frontend/src/components/CartPage.tsx:205 | The coupon input takes the typed text. The cart, the discount and the applied coupon stay. |
| CartPage.CartPage.ApplyCoupon | frontend/src/components/CartPage.tsx:54-67 | A known code sets the discount (10% of the current subtotal rounded down, or $5) and the label, and clears the input. An unknown code alerts and changes nothing. |
| CartPage.CartPage.RemoveCoupon | frontend/src/components/CartPage.tsx:69-72 | There is no discount and no label afterwards. The cart and the input stay. |
| CartPage.CartPage.Checkout | frontend/src/components/CartPage.tsx:74-86 | An empty cart only alerts. Otherwise the alert shows the total from before the checkout, and the cart, discount and label are cleared. |
| CartPage.WelcomeCanMakeTotalNegative | frontend/src/components/CartPage.tsx:49-52 | The total has no floor: WELCOME on a subtotal under $5 makes it negative. |
| CartPage.Save10IsStale | frontend/src/components/CartPage.tsx:57 | The 10% discount is fixed when the coupon is applied, so raising a quantity afterwards leaves it below 10% of the new subtotal. |
| ResultsPage.Initial | frontend/src/components/ResultsPage.tsx:42-48 | Every category with at least one product starts out selecting its first product's id, and no other category has a selection. |
| ResultsPage.InitialSelections | frontend/src/components/ResultsPage.tsx:42-48 | The `forEach` over the keys builds exactly that selection. |
| ResultsPage.FindById | frontend/src/components/ResultsPage.tsx:66 | The first product with the id, or the end when there is none. |
| ResultsPage.SelectedProduct | frontend/src/components/ResultsPage.tsx:62-68 | A product comes back if and only if the category selects a non-empty id that one of its products carries. The product is the first of the category with that id, as `find` returns it. |
| ResultsPage.Bump | frontend/src/components/ResultsPage.tsx:75-79 | The items with the id grow by `n`, and everything else stays. |
| ResultsPage.Merge | frontend/src/components/ResultsPage.tsx:74-81 | An id already in the cart keeps the products, ids and length: the items with that id grow by the quantity and the others stay. A new id appends one item with the quantity. Unique ids stay unique. |
| ResultsPage.MergeSubtotal | frontend/src/components/ResultsPage.tsx:70-87 | With unique ids, adding `n` of a product raises the subtotal by `n` times the price of the item already in the cart, or of the product when it is new. |
| ResultsPage.BumpIsWithQuantity | frontend/src/components/ResultsPage.tsx:75-79 | With unique ids, growing an item by `n` is setting its quantity to the sum. |
| ResultsPage.ResultsPage.constructor | frontend/src/components/ResultsPage.tsx:34-53 | With saved results, the page holds them and their initial selections. Without them, it goes back to the home page. The cart starts empty. |
| ResultsPage.ResultsPage.SelectProduct | frontend/src/components/ResultsPage.tsx:55-60 | The category now selects the id, every other category keeps its selection. The results, the cart, the coupon input and the loading and redirect flags stay. |
| ResultsPage.ResultsPage.AddToCart | frontend/src/components/ResultsPage.tsx:70-87 | Nothing happens without a selected product. Otherwise the product is merged with the quantity. The results, the selections, the coupon input and the loading and redirect flags stay. |
| ResultsPage.ResultsPage.UpdateCartQuantity | frontend/src/components/ResultsPage.tsx:89-103 | A quantity of zero or less removes the item. Otherwise the items with that id take the quantity. The results, the selections, the coupon input and the loading and redirect flags stay. |
| ResultsPage.ResultsPage.RemoveFromCart | frontend/src/components/ResultsPage.tsx:105-109 | The items with another id stay, in order. The results, the selections, the coupon input and the loading and redirect flags stay. |
| ResultsPage.ResultsPage.ApplyCoupon | frontend/src/components/ResultsPage.tsx:115-124 | Only an alert for SAVE10, WELCOME or an invalid code. No state changes. |
| ResultsPage.ResultsPage.SetCouponCode | frontend/src/components/ResultsPage.tsx:215 | The coupon input takes the typed text. The results, the selections, the cart and the loading and redirect flags stay. |
| ResultsPage.ResultsPage.AddAllToCart | frontend/src/components/ResultsPage.tsx:126-130 | Every call merges into the cart as it was before the loop, so the result is the cart of the last selected category's merge. The results, the selections, the coupon input and the loading and redirect flags stay. |
| ResultsPage.LatestCart | frontend/src/components/ResultsPage.tsx:126-130 | The cart `addAllToCart` leaves. AddAllAddsAtMostOne, AddAllTakesTheLast, AddAllWithoutSelection and AddAllKeepsOnlyTheLast state its meaning. |
| ResultsPage.ResultsPage.Checkout | frontend/src/components/ResultsPage.tsx:132-141 | An empty cart only alerts. Otherwise the alert shows the subtotal. The cart is empty afterwards. The results, the selections, the coupon input and the loading and redirect flags stay. |
| ResultsPage.AddAllAddsAtMostOne | frontend/src/components/ResultsPage.tsx:126-130 | Adding all selected products adds at most one item, however many categories are selected. |
| ResultsPage.AddAllTakesTheLast | frontend/src/components/ResultsPage.tsx:126-130 | The product that lands is the one of the last category, in key order, whose selected id is found among its results. |
| ResultsPage.AddAllWithoutSelection | frontend/src/components/ResultsPage.tsx:126-130 | With nothing selected, the cart stays. |
| ResultsPage.AddAllKeepsOnlyTheLast | frontend/src/components/ResultsPage.tsx:126-130 | Two selected products give a one-item cart. Chained calls would give both. |
| ResultsPage.SameIdOtherCategory | frontend/src/components/ResultsPage.tsx:74-81 | A shampoo with a toothpaste's id raises the toothpaste's quantity instead of being added. |
| ResultsPage.TableIdsCollide | search-service/server.js:63-117 | The first toothpaste and the first shampoo share the id "0". |
| HomePage.ChangeTouchesOneField | frontend/src/components/HomePage.tsx:60-64 | A change writes its own field and leaves the other two as they were. |
| HomePage.WithoutRow | frontend/src/components/HomePage.tsx:70-74 | The row at the index goes and the others keep their order. An index outside the list changes nothing. |
| HomePage.ValidProducts | frontend/src/components/HomePage.tsx:77 | The rows submitted are never more than the rows. ValidProductsMembers gives exactly which. |
| HomePage.ValidProductsMembers | frontend/src/components/HomePage.tsx:77 | A row is submitted if and only if it is in the list and its name is not blank after `trim`. |
| HomePage.ValidProductsAppend | frontend/src/components/HomePage.tsx:77 | The filter keeps the order of the rows. |
| HomePage.AllBlankIsInvalid | frontend/src/components/HomePage.tsx:77-81 | A list of blank names submits nothing. |
| HomePage.QuantityInput | frontend/src/components/ProductTable.tsx:46 | The number the text starts with, or 1 when there is none or it is 0. Never 0, and a negative number is kept. |
| HomePage.HomePage.constructor | frontend/src/components/HomePage.tsx:16-18 | No rows, no text and not processing. |
| HomePage.HomePage.HandleProductChange | frontend/src/components/HomePage.tsx:60-64 | The row at the index takes the new field value. The length and every other row stay. |
| HomePage.HomePage.AddProduct | frontend/src/components/HomePage.tsx:66-68 | An empty row with quantity 1 is appended. |
| HomePage.HomePage.RemoveProduct | frontend/src/components/HomePage.tsx:70-74 | With more than one row, the row at the index goes. The last row is never removed. |
| HomePage.HomePage.BeginSubmit | frontend/src/components/HomePage.tsx:76-83 | With no valid row, it alerts and sends nothing. Otherwise it sends exactly the valid rows and raises the processing flag. |
| HomePage.HomePage.FinishSubmit | frontend/src/components/HomePage.tsx:105-110 | A failure alerts, and the processing flag comes down either way. |
| GeminiReply.RecordOf | nlp-service/main.py:36-40 | A non-blank line gives its first word as the name and the stripped line as the query, which starts with the name. |
| GeminiReply.ConvertToFinalFormat | nlp-service/main.py:33-41 | The loop returns the records of the lines, with the blank lines skipped. |
| GeminiReply.FinalFormat | nlp-service/main.py:33-41 | The records of the lines. OneRecordPerLine, FinalFormatAppend and RecordsWellFormed state its meaning. |
| GeminiReply.NonBlankMembers | nlp-service/main.py:36-37 | A line is kept if and only if `strip` does not empty it. |
| GeminiReply.OneRecordPerLine | nlp-service/main.py:33-41 | There is one record per non-blank line, and record `j` comes from the `j`-th such line. |
| GeminiReply.FinalFormatAppend | nlp-service/main.py:33-41 | The records of two runs of lines are those of each, in order. |
| GeminiReply.BlankLineSkipped | nlp-service/main.py:36-37 | A blank line adds no record. |
| GeminiReply.RecordsWellFormed | nlp-service/main.py:33-41 | Every name is one word and its query starts with it. |
| GeminiReply.Load | nlp-service/main.py:97-100 | A reply that `json.loads` accepts is its value. Otherwise the result is the error dictionary with the message and the text as raw. |
| GeminiReply.TextContent | nlp-service/main.py:90-95 | The text `handle_text_input` parses. TextJsonBranch and TextOtherBranch give both branches. |
| GeminiReply.HandleText | nlp-service/main.py:67-100 | `handle_text_input` once the model has replied: the parsed TextContent, or the error dictionary holding that text. Load states both outcomes. |
| GeminiReply.ListContent | nlp-service/main.py:137-146 | The text `handle_list_input` parses. ListContentNoFence shows it never holds a triple backtick. |
| GeminiReply.HandleList | nlp-service/main.py:102-150 | `handle_list_input` once the model has replied: the parsed ListContent, or the error dictionary holding that text. Load and ListContentNoFence state its meaning. |
| GeminiReply.TextJsonBranch | nlp-service/main.py:92-93 | A reply starting with "json" loses its "json"s but keeps every backtick. |
| GeminiReply.TextOtherBranch | nlp-service/main.py:94-95 | Any other reply loses every triple backtick. |
| GeminiReply.ListContentNoFence | nlp-service/main.py:139-146 | The last `if` always runs, so the list handler never parses a triple backtick. |
| GeminiReply.RetryContent | nlp-service/main.py:167 | The second clean-up leaves no triple backtick. |
| GeminiReply.RetryCanLeaveJson | nlp-service/main.py:167 | A "json" can survive it: "js```on" cleans to "json". |
| GeminiReply.ProcessInput | nlp-service/main.py:155-180 | 422 if and only if the payload fails `InputPayload`. Never 400. An image request is a 500. A list request is the list handler's result. |
| GeminiReply.ValidPayload | nlp-service/main.py:23-25 | `InputPayload`: the type is "image", "text" or "list", and the content is a string or a list. ProcessInput answers 422 if and only if it fails. |
| GeminiReply.TextRetried | nlp-service/main.py:161-171 | A text reply that does not parse is parsed again, cleaned. If that fails too, the answer is the after-cleaning error with the cleaned text. |
| GeminiReply.TextParsed | nlp-service/main.py:161-164 | A text reply that parses to any value that is not a dictionary holding both "error" and "raw" is the answer. |
| GeminiReply.TextErrorDictionary | nlp-service/main.py:161-169 | A text reply that parses to a dictionary holding both "error" and "raw" is cleaned and parsed again when "raw" is a string, and the cleaned text holds no triple backtick. Any other "raw" makes `.replace` raise, giving a 500. |
| GeminiReply.BackticksJsonRemoval | nlp-service/main.py:93 | Removing "json" removes no backtick. |
| GeminiReply.BackticksStrip | nlp-service/main.py:90 | `strip` removes no backtick. |
| Py.Strip | nlp-service/main.py:36-39 | `strip()` returns the text between the leading and trailing whitespace. It is empty if and only if the line is all whitespace. |
| Py.Split | nlp-service/main.py:38 | `split()` returns whitespace-free words, and none at all if and only if the line is all whitespace. |
| Py.FirstTokenStartsStripped | nlp-service/main.py:38-39 | The stripped line starts with the first word of `split()`. |
| Py.ReplaceEmptyIsIdentity | nlp-service/main.py:93 | `.replace("", "")` changes nothing. |
| Py.Replace | nlp-service/main.py:93-95 | `str.replace`: every non-overlapping occurrence, from the left, is replaced, and an empty pattern inserts the replacement around every character. ReplaceEmptyIsIdentity, NoFenceAfterRemoval and JsonCanReform state its meaning. |
| Py.StartsWithEmpty | nlp-service/main.py:94 | `startswith("")` holds for every string. |
| Py.NoFenceAfterRemoval | nlp-service/main.py:95 | Removing every triple backtick in one pass leaves none. |
| Py.StripKeepsNoFence | nlp-service/main.py:95 | `strip` cannot bring a triple backtick back. |
| Py.JsonCanReform | nlp-service/main.py:93 | Removing "json" in one pass can leave a new "json": "jsjsonon" becomes "json". |
| Js.Trim | nlp-service/server.js:25-28 | `trim` returns the text between the leading and trailing whitespace. The result is trimmed, and empty if and only if the line is all whitespace. |
| Js.TrimKeeps | nlp-service/server.js:28 | Every non-blank character survives `trim`. |
| Js.Lower | search-service/server.js:160 | `toLowerCase` lowercases each character in place. |
| Js.StartsWith | nlp-service/main.py:92-94 | `startswith` / `startsWith`: the string begins with the prefix. StartsWithEmpty shows every string begins with "". |
| Js.Includes | search-service/server.js:168-172 | `includes`: IncludesIffOccurs shows it holds if and only if the string occurs at some position. IncludesLonger shows no string includes a longer one. |
| Js.IncludesIffOccurs | search-service/server.js:169 | `includes` holds if and only if the string occurs at some position of the text. |
| Js.SplitOn | nlp-service/server.js:25 | `split('\n')` returns pieces without the separator that join back to the text. |
| Js.SplitWs | nlp-service/server.js:56-57 | `split(/\s+/)` returns pieces made of the text's non-blank characters. |
| Js.ParseInt | frontend/src/components/ProductTable.tsx:46 | `parseInt` with no radix gives `NaN` exactly when no digit follows the leading whitespace and optional sign, where the digits are hexadecimal after a "0x" or "0X" and decimal otherwise. |
| Js.ParseIntOfDigits | frontend/src/components/ProductTable.tsx:46 | Decimal digits followed by a non-digit are read back as their value. |
| Js.MinusNegates | frontend/src/components/ProductTable.tsx:46 | A minus sign in front of text that starts with a digit negates the value read. |
| Js.ParseIntOfHex | frontend/src/components/ProductTable.tsx:46 | "0x1A" is 26, and "0x" with no digit after it is `NaN`. |
| Assoc.Get | search-service/server.js:163 | A lookup finds a value if and only if the key is present, and the value is stored under that key. |
| Assoc.Put | search-service/server.js:200 | Writing a key sets its value and leaves every other key. A new key goes at the end of the key order, as in a Python dict or a JavaScript object without integer-like keys. |

## Left out

- Storage, routing and the network: `localStorage`, `useNavigate`, `fetch`, the request of `handleSubmit`, `save_json` and the servers' start-up are I/O. Each page's state after loading and after each handler is modelled. What is read from storage is a constructor parameter.
- Extractor: the image branch is the canned answer. The `WordTokenizer` of the `natural` package is outside the repository. The fallback is modelled on the `split(/\s+/)` path, and `FallbackFindsNothing` holds for any tokenizer whose tokens are made of the text's non-blank characters.
- Catalogue: products keep id, name, rating and review count. Image URLs are left out. The commented-out larger catalogue is not part of this model.
- Carts.Subtotal: every price is one integer. In the mock table each price is an object `{price, currency, price_min, price_max}`, and the backend passes it on unchanged. So `item.price * item.quantity` is `NaN` for every table product, and the cart page's subtotal, total and checkout alert show `NaN` once one is in the cart. The model computes with the amount in the `price` field. Only the generic product's price is a plain number in the source.
- Assoc.Get: a JavaScript object also finds the properties it inherits from `Object.prototype`. The model's lookup finds only the pairs written into it.
- Catalogue.FindProductsByName: a term whose lowercase form is "constructor" or "__proto__" finds an inherited value (the `Object` function, `Object.prototype`) in the exact lookup and returns it. The model returns the generic product for such a term. The random id suffix is a parameter, and the exact digits of `Math.random().toString(36).substr(2, 9)` are not modelled.
- Assoc.Put: in JavaScript, writing the key "__proto__" sets the object's prototype and creates no key. A new integer-like key ("2", "10") is listed before the other keys, in ascending numeric order, and not at the end. The model appends every new key. This also decides which category is "last" for `ResultsPage.AddAllTakesTheLast` when a category name is integer-like.
- Catalogue.SearchProducts: for an item named "__proto__" the source's results object gets no key. For an item whose trimmed name lowercases to "constructor" or "__proto__", the value is the inherited function or object, which `res.json` drops or sends as `{}`. The model records the generic product under the name in both cases.
- Catalogue.ResultKeys: holds for the model's results. In the source it fails for an item named "__proto__", and for one whose value is the inherited `Object` function, which `res.json` leaves out of the reply.
- Extractor.ParseLine: the quantity is the exact value of the digits. `parseInt` returns a double, so a digit run above 2^53 is rounded, and one of about 309 digits or more gives `Infinity`, which JSON sends as `null`.
- Js.ParseInt: the value is exact. JavaScript's result is a double, rounded above 2^53, and a negative zero (`parseInt("-0")`) is the integer 0. Both are falsy under `|| 1`, so `HomePage.QuantityInput` is unaffected.
- GeminiReply.ProcessInput: the reply's JSON is a parameter. `json.loads` accepts `NaN` and `Infinity`, which Starlette's `JSONResponse` refuses to render, so the source answers a 500 where the model answers with the parsed value.
- Floating point: prices are exact hundredths. `CartPage.CouponDiscount` floors 10% to a whole hundredth, where the source computes a float. `toFixed` display rounding is not modelled.
- React batching: the batching of state updates is not modelled. Each handler's updates take effect together when it returns.
- HomePage.HomePage.HandleProductChange: requires an index inside the list. In JavaScript, writing past the end creates a sparse slot, and the table never passes such an index.
- GeminiReply: the Gemini calls, the prompts, `json.dumps`, PIL and the `print` calls are outside the model. The model's reply and `json.loads` are parameters, and so is the retry test on the parsed value (`inspect`).
- GeminiReply.ProcessInput: `handle_image_input` reads `image` before assigning it, so it always raises. The model answers a 500.
- Quirks of the code, proved as lemmas:
  - `boxes?` does not match "box" (`ExtractorCases.BoxIsNoConnector`);
  - the cart total is not clamped at zero (`CartPage.WelcomeCanMakeTotalNegative`);
  - product ids collide across categories (`ResultsPage.TableIdsCollide`, `ResultsPage.SameIdOtherCategory`);
  - "Add all to cart" keeps only the last selected product (`ResultsPage.AddAllKeepsOnlyTheLast`);
  - `main.py:92` tests for "json" rather than a code fence, and `.replace("", "")` and `startswith("")` are no-ops (`Py.ReplaceEmptyIsIdentity`, `Py.StartsWithEmpty`, `GeminiReply.TextOtherBranch`);
  - removing "json" can re-form it (`Py.JsonCanReform`, `GeminiReply.RetryCanLeaveJson`).
