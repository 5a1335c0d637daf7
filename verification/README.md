# Negotiation chatbot: decision engine model

A Dafny model of the decision logic of a small price-negotiation chatbot (`app.py`).
A user picks a product from a fixed catalog and types a message with a price in it.
The page then does four things:

- it reads the first number in the message as the offer;
- it scores the message's sentiment;
- on the first valid offer of the session, it fixes a random discount whose range depends on the sentiment tier;
- it accepts the offer, rejects it as below the floor, or counters with the discounted asking price.

The chat history and the discount live in the per-user session store. They are modelled as an explicit `Session` value that each submission takes in and returns.

Modules:

- `Wrappers`: the `Option` datatype, standing for Python's `None`.
- `Extraction`: `extract_price`. `re.findall(r'\d+', …)` is modelled as `FindAll`, the list of maximal digit runs found by scanning the text left to right (`FindAllFrom`). `int(...)` is `Value`. The f-string rendering of a number is `Show`.
- `Catalog`: the `PRODUCTS` table.
- `Negotiation`: `negotiate`, returning a `Decision` that carries the numbers each response template embeds. `Accept(offer, product, discount)` is the template at line 38, `RejectTooLow(offer, minPrice)` the one at line 42, and `Counter(offer, product, discountedPrice, discount)` the one at line 45.
- `Discount`: the sentiment thresholds and the `random.randint` ranges.
- `Sessions`: the submit branch of the page as `Submit`, and a series of page runs as `Run`, with the session invariant `WellFormed`.

## Model

| member | source | states |
|---|---|---|
| Extraction.FindAll | app.py:16 | every element is a non-empty run of digits; the list is empty exactly when the text has no digit |
| Extraction.FindAllMaximal | app.py:16 | every element of the list is a maximal run of digits of the text: a slice `s[i..j]` with no digit right before it and none right after it. The elements after it are exactly the runs found by scanning on from `j`, so the runs come in text order |
| Extraction.FindAllCoversDigits | app.py:16 | the runs `findall` returns, joined in order, are exactly the digits of the text: none lost, none invented, order kept |
| Extraction.ExtractPrice | app.py:15-19 | the result is None exactly when the text contains no decimal digit |
| Extraction.ExtractPriceSpec | app.py:15-19 | whenever `s[i..j]` is the first maximal digit run, the result is the value of that run |
| Extraction.ExtractPriceWitness | app.py:16-18 | a returned price is always the value of some first maximal digit run of the text |
| Extraction.FirstRunUnique | app.py:16-18 | a text has at most one first maximal digit run, so the price returned is determined |
| Extraction.LaterNumbersIgnored | app.py:16-18 | once a number is closed by a non-digit, anything appended after it leaves the extracted price unchanged |
| Extraction.LeadingTextIgnored | app.py:16-18 | digit-free text put in front of a message leaves the extracted price unchanged |
| Extraction.FirstNumberWins | app.py:16-18 | after digit-free leading text, a number followed by a non-digit is the extracted price, whatever numbers come later |
| Extraction.SeparatorSplitsNumber | app.py:16-18 | "1,200" yields 1: a thousands separator ends the number |
| Extraction.Value | app.py:18 | the value of a digit run of length n is a natural number below 10^n |
| Extraction.ValueConcat | app.py:18 | reading digits left to right: the value of `a + b` is the value of `a` times 10^len(b) plus the value of `b` |
| Extraction.LeadingZerosIgnored | app.py:18 | leading zeros do not change the value read, as `int("0050") == 50` |
| Extraction.Show | app.py:115 | the rendering of a number is a non-empty digit string with no leading zero |
| Extraction.ValueShow | app.py:18 | reading back the decimal rendering of a number gives the number |
| Extraction.OfferLineRoundTrip | app.py:115 | extracting the price from the recorded user line `Offered: $<offer> - Message: <input>` gives back the offer |
| Catalog.CatalogWellPriced | app.py:22-26 | every catalog entry has min_price <= start_price <= max_price |
| Catalog.CatalogDiscountRoom | app.py:22-26 | every catalog entry's asking price is at least 50 (the largest discount) above its floor |
| Negotiation.Negotiate | app.py:29-45 | Accept iff offer >= start_price - discount, whatever min_price is; RejectTooLow iff the offer is below both the discounted price and min_price; Counter iff min_price <= offer < start_price - discount. Each carries the offer, and the other numbers its template embeds |
| Negotiation.MonotoneInOffer | app.py:34-45 | raising the offer never moves the decision down the order reject < counter < accept |
| Negotiation.MonotoneInDiscount | app.py:34-45 | a larger discount never moves the decision down that order |
| Negotiation.CounterWithinBand | app.py:34-45 | with a discount in (0, 50], a counter-offer is above the buyer's offer, at or above the floor and below the asking price; a rejection happens exactly when the offer is below the floor |
| Negotiation.AcceptBeforeFloor | app.py:37-42 | accept is checked before the floor: with a discount of 100 on Headphones, an offer of 120 (below the floor of 150) is accepted |
| Negotiation.LaptopBoundaries | app.py:29-45 | for the Laptop with discount 40: 810 and 811 are accepted, 809 and 700 get a counter at 810, 699 is rejected with floor 700 |
| Discount.Classify | app.py:105-110 | Positive iff score > 0.5, Neutral iff 0 <= score <= 0.5, Negative iff score < 0, so the three tiers partition the reals |
| Discount.ClassifyBoundaries | app.py:105-110 | 0.5 and 0 are Neutral, -0.0001 is Negative, 0.5001 is Positive |
| Discount.Pick | app.py:106-110 | a drawn discount lies in its tier's closed range, and so in [5, 50] |
| Discount.PickCoversRange | app.py:106-110 | every value of a tier's closed range is the result of some draw |
| Discount.InitialDiscount | app.py:104-110 | a fixed discount lies in [30, 50] when score > 0.5, in [10, 30] when 0 <= score <= 0.5, and in [5, 15] when score < 0 |
| Sessions.FixDiscount | app.py:104-112 | a discount already fixed is kept; otherwise the new one lies in the range of the score's tier |
| Sessions.Submit | app.py:96-124 | without a button press or with empty text, nothing changes. Text with no digit shows the invalid-price error and changes nothing. A valid offer keeps an already fixed discount and otherwise fixes one in its score's tier. It answers with the decision on the extracted offer at that discount, and appends exactly the user entry and then the bot entry to the unchanged earlier history |
| Sessions.Run | app.py:96-124 | over any series of submissions, the history only grows by appending, by exactly two entries per valid offer, and a discount once fixed never changes |
| Sessions.FreshWellFormed | app.py:80-83 | the initial session (empty history, no discount) satisfies the session invariant |
| Sessions.SubmitPreservesWellFormed | app.py:104-121 | one submission keeps the history a sequence of user-offer/bot-reply turns, each reply carrying the session's one discount, which lies in [5, 50] |
| Sessions.RunPreservesWellFormed | app.py:96-124 | any series of submissions keeps that invariant |
| Sessions.IdleRunsChangeNothing | app.py:123-124 | a series of runs with no valid offer leaves the session exactly as it was |
| Sessions.DiscountFromFirstOffer | app.py:104-112 | the session's discount is the one fixed by the first valid offer, in the tier of that offer's score; no later submission changes it, whatever its sentiment |

## Left out

- Sentiment scoring (`get_sentiment`, app.py:10-12) is a foreign library with floating-point internals. Its compound score is an input of type `real`, and only the threshold comparisons are modelled.
- `random.randint` is modelled as `Pick`, which maps an environment-supplied natural number onto the closed range. The uniformity of the draw cannot be stated here.
- The page layout, styles, widgets and the HTML rendering of the history (app.py:48-93, 126-132) are presentation only and are not modelled.
- The English wording of the three responses (app.py:38, 42, 45) is not modelled. Bot entries in the history hold the `Decision`, which carries the category and every number the template embeds. The user line's template is modelled as `OfferLine`.
- Extraction.ExtractPrice: treats only ASCII `0`-`9` as digits. Python's `\d` on a `str` also matches other Unicode decimal digits, such as Arabic-Indic or fullwidth digits, and `int` accepts them. Unicode character classes are not modelled.
- Extraction.Value: is unbounded. Recent Python versions make `int` raise `ValueError` on a digit string longer than 4300 characters. That limit is interpreter configuration, not part of this program.
- Negotiation.Negotiate: requires the product to be a catalog key. `negotiate` raises `KeyError` otherwise, but the page only offers catalog keys.
- The chat history holds typed entries instead of `(str, str)` pairs. The speaker tag is `Speaker.User` / `Speaker.Bot` in place of "user" / "bot".

## Notes on app.py

- `app.py` sets the discount only while it is still `None` (app.py:104), so a second valid offer keeps the first discount (`FixDiscount`, `DiscountFromFirstOffer`). There is no operation that resets or re-fixes it.
- `app.py` has no error handling around the sentiment call (app.py:101). A failure there is not an outcome of the model.
- The accept check comes before the floor check (app.py:37-42), so when `start_price - discount < min_price` an offer below the floor is accepted (`AcceptBeforeFloor`). With the catalog's prices and tier discounts of at most 50 this cannot happen (`CatalogDiscountRoom`, `CounterWithinBand`).
- The discount is fixed once per session, not once per product. If the user switches products between submissions, the discount fixed for the first product is applied to the next. `Submission` carries the product for that reason.
