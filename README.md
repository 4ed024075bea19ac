# ShopWise price comparison — a Dafny model

This project models the part of the ShopWise prototype that turns product search pages into one
price-sorted list, and the derived view state of the page that shows that list.

The backend (`BACKEND/app.py`) does the following:

- It opens one browser and visits the search pages of Flipkart, Amazon, Vijay Sales and JioMart.
- On each page it picks the product containers with a list of fallback CSS locators.
- From each container it pulls a title, price, rating, link and image, again through fallback locators.
- It drops records whose title is not relevant to the query.
- It normalises the price text to an integer and classifies each title into a category by keyword.
- Finally it keeps only records priced at 10 or more, sorts them stably by price, and always tries to quit the browser.

The frontend (`frontend/src/App.jsx`) builds its view from that list:

- it filters the list by source and category and re-sorts it;
- it derives the lists of categories and sources offered as filter choices;
- it picks the first entry as the "best deal";
- it chooses an icon per source.

The browser is replaced by data:

- A `Page.Document` maps each CSS locator to the containers it finds. A locator missing from the map is a lookup that raised.
- A `Page.Container` maps each locator to the first element it finds inside it, plus the container's visible text.
- `Page.Element` carries an element's visible text and its attributes. An attribute missing from the map is one the browser reports as None.
- A search page that failed to load is `None`.

Every record-building step of a source is a function (`Record`) over this data. The code's step-by-step loops are methods proved against those functions:

- the choice among container locators (`Page.ChooseContainers`);
- the "try each locator, keep what was read, stop at the first acceptable value" loops (`Page.ScanField`);
- each source's per-container extraction (`*.Extract`);
- the container loop (`Scrapers.CollectRecords`);
- `compare_prices` (`Comparison.PriceComparer.ComparePrices`).

Modules:

- `Wrappers`: Option.
- `Text`: lower-casing, whitespace, `strip`, `split`, substring search.
- `Price`: `extract_price`.
- `Relevance`: `is_relevant_product`.
- `Category`: `auto_categorize_product`.
- `Sequences`: list comprehension filter, stable sort, insertion-ordered de-duplication.
- `Page`: the page abstraction and the fallback-locator loops.
- `Listing`: the record and its sources.
- One module per source: `FlipkartExtractor`, `AmazonExtractor`, `VijaySalesExtractor`, `JioMartExtractor`.
- `Scrapers`: navigation outcome, container choice, cap and loop.
- `Comparison`: `compare_prices` and the browser teardown.
- `Frontend`: the derivations in `App.jsx`.

## Model

| member | source | states |
|---|---|---|
| Price.ExtractPrice | BACKEND/app.py:38-46 | the normalised price is missing exactly when the text contains no digit (this covers "" and "N/A") |
| Price.ExtractPriceValue | BACKEND/app.py:42-45 | otherwise the price is the decimal value of the text's digits in order, with every other character (₹, commas, spaces) discarded |
| Price.ExtractPriceRoundTrip | BACKEND/app.py:38-46 | the decimal spelling of any natural number normalises back to that number |
| Price.ExtractPriceIgnoresNonDigits | BACKEND/app.py:42-43 | inserting any non-digit character anywhere leaves the normalised price unchanged |
| Price.DigitsPresent | BACKEND/app.py:42-44 | the digits kept by the clean-up are non-empty exactly when the text has a digit, i.e. when the search for a digit run succeeds |
| Price.DecimalStringValue | BACKEND/app.py:45 | reading back the decimal spelling of n gives n |
| Price.Examples | BACKEND/app.py:38-46 | "₹1,23,456" gives 123456, "₹999" gives 999, "N/A" and "" give nothing |
| Text.Words | BACKEND/app.py:66 | `split()` yields non-empty words without whitespace |
| Text.WordsOfWord | BACKEND/app.py:66 | a run without whitespace is one word |
| Text.WordsSplitAt | BACKEND/app.py:66 | splitting at a whitespace character gives the words of each side, in order; with the empty string and the single run this fixes the words of every string |
| Relevance.SignificantWords | BACKEND/app.py:65-66 | the query words kept are the query's words filtered in order, repeats kept, by "longer than two characters and not a stop word"; so a word is kept exactly when it passes that test |
| Relevance.SignificantWordsCounted | BACKEND/app.py:66 | each significant word is kept as many times as it occurs in the query, and no other word is kept |
| Relevance.MatchCount | BACKEND/app.py:71 | the count is the number of query words, repeats included, that occur in the lower-cased title, hence at most the number of query words |
| Relevance.IsRelevant | BACKEND/app.py:48-72 | titles under 3 characters are rejected; accessory titles are rejected for device queries; queries without significant words reject everything; otherwise a title is relevant exactly when at least half the query words occur in it |
| Relevance.MatchCountAll | BACKEND/app.py:71 | when every query word occurs in the title, all of them are counted |
| Relevance.MatchCountNone | BACKEND/app.py:71 | when none occurs, none is counted |
| Relevance.MatchCountMonotone | BACKEND/app.py:71 | a title containing another matches at least as many query words |
| Relevance.FullMatchRelevant | BACKEND/app.py:68-72 | for a query with at least one significant word, a non-accessory title of 3 or more characters containing every significant query word is relevant |
| Relevance.NoMatchIrrelevant | BACKEND/app.py:68-72 | a title containing none of the query words is never relevant |
| Relevance.RelevanceExtends | BACKEND/app.py:71-72 | a relevant title stays relevant when extended, unless the extension makes it an accessory listing |
| Relevance.RelevanceIgnoresCase | BACKEND/app.py:53-54 | relevance does not depend on letter case of title or query |
| Relevance.AccessoryExample | BACKEND/app.py:56-62 | "iPhone 15 Pro Case" is not relevant to "iphone 15" |
| Relevance.DeviceExample | BACKEND/app.py:48-72 | "Samsung Galaxy S23 5G" is relevant to "samsung galaxy" |
| Category.FirstMatchIsFirst | BACKEND/app.py:95-97 | the category is that of the first table row with a keyword in the title |
| Category.FirstMatchFound | BACKEND/app.py:95-99 | the fallback is returned exactly when no row matches, and a returned category's row matches while no earlier one does |
| Category.CategorizeFallback | BACKEND/app.py:95-99 | "General Products" exactly when no keyword of any row occurs in the lower-cased title |
| Category.CategorizeFirstMatch | BACKEND/app.py:78-97 | with the source's 14 rows in order, the first matching row decides |
| Category.PhoneKeywordWins | BACKEND/app.py:79 | a title containing any mobile-phone keyword is a mobile phone whatever else it contains |
| Category.HeadphoneIsPhone | BACKEND/app.py:79-82 | "headphone" is classified as a mobile phone, because it contains "phone" and that row comes first |
| Category.CategorizeIgnoresCase | BACKEND/app.py:76 | classification does not depend on letter case |
| Category.FirstMatch | BACKEND/app.py:95-99 | with no row matching the fallback is returned, and any other result is the label of a row with a keyword in the title |
| Category.AutoCategorize | BACKEND/app.py:74-99 | a label other than "General Products" comes from a row of the table with a keyword in the lower-cased title |
| Category.FootwearExample | BACKEND/app.py:88 | "Nike Running Shoes" is footwear |
| Category.UnknownGadgetExample | BACKEND/app.py:74-99 | "Unknown Gadget XYZ" names no keyword of any row and is a general product |
| Category.LabelInjective | BACKEND/app.py:78-99 | distinct categories have distinct names |
| Page.ChooseContainers | BACKEND/app.py:117-130 | the containers are those of the first locator that finds at least the minimum number, skipping locators that raise, and none when no locator qualifies |
| Page.FirstQualifyingIsFirst | BACKEND/app.py:122-129 | when locator i is the first that finds at least the minimum, its containers are the ones chosen |
| Page.FirstQualifyingNone | BACKEND/app.py:121-129 | when no locator qualifies, no containers are chosen |
| Page.FirstQualifyingEmpty | BACKEND/app.py:121-129 | with a positive minimum, no containers means no locator qualified |
| Page.FirstQualifying | BACKEND/app.py:121-130 | a non-empty choice is the list found by some locator that finds at least the minimum number |
| Page.ScanField | BACKEND/app.py:138-146 | the field holds the value read from the last locator that did not raise, stopping at the first acceptable value, and the loop reports the element that stopped it |
| Page.ScanStopsAtFirstAccepted | BACKEND/app.py:166-173 | when locator i is the first acceptable one, its value is the result and its element the hit |
| Page.ScanKeepsLastRead | BACKEND/app.py:166-173 | with no acceptable locator, there is no hit and the field is the initial value or the last value read |
| Page.ScanValueOfHit | BACKEND/app.py:263-271 | when there is a hit, the field is what the hit element read and it is acceptable |
| Page.KeepLast | BACKEND/app.py:139-146 | the field ends as its initial value or as the value read by one of the locators that did not raise |
| Page.FirstAccepted | BACKEND/app.py:139-146 | a hit is the element of a locator whose value is acceptable; no hit means no locator gives an acceptable value |
| Listing.MakeProduct | BACKEND/app.py:198-207 | a record is built with the price normalised, the title classified and the source named |
| Listing.AbsoluteUrl | BACKEND/app.py:157 | an `http` link is kept, anything else is prefixed with the site origin |
| FlipkartExtractor.Record | BACKEND/app.py:134-207 | a record a Flipkart container yields is relevant, has a price other than "N/A", and carries its source, normalised price and category |
| FlipkartExtractor.RecordKept | BACKEND/app.py:134-207 | a container is kept exactly when the title loop read a non-empty, relevant title and the price loop left something other than "N/A"; a kept record carries the title and price those loops left, the rating loop's value, the product link and the image |
| FlipkartExtractor.Extract | BACKEND/app.py:132-210 | one Flipkart container yields its record or nothing; a kept record is relevant, has a price other than "N/A", and carries its source, normalised price and category |
| AmazonExtractor.Record | BACKEND/app.py:243-320 | a record an Amazon result yields is relevant, has a price other than "N/A", and carries its source, normalised price and category |
| AmazonExtractor.RecordKept | BACKEND/app.py:243-320 | a result is kept exactly when the title loop read a non-empty, relevant title and the price loop left something other than "N/A"; a kept record carries the title and price those loops left, the rating read, the product link and the image |
| AmazonExtractor.Extract | BACKEND/app.py:240-323 | the same for an Amazon result, with its own locators, acceptance tests, link rule and rating rule |
| VijaySalesExtractor.Record | BACKEND/app.py:362-435 | a record a Vijay Sales card yields is relevant, has a price other than "N/A", and carries its source, normalised price and category |
| VijaySalesExtractor.RecordKept | BACKEND/app.py:362-435 | a card is kept exactly when the title loop read a non-empty, relevant title and the price, after the rupee-amount fallback, is something other than "N/A"; a kept record carries the title the title loop left, the price after the rupee-amount fallback, the rating read, the product link and the image |
| VijaySalesExtractor.Extract | BACKEND/app.py:360-438 | the same for a Vijay Sales card, including the link taken from the accepted title and the fallback to the first rupee amount in the card's text |
| VijaySalesExtractor.RupeeSearchNone | BACKEND/app.py:399-400 | the search for `₹\s*[\d,]+` finds nothing exactly when no position starts a match |
| VijaySalesExtractor.RupeeSearchLeftmost | BACKEND/app.py:399-401 | the search returns the greedy match at the leftmost position that starts one |
| VijaySalesExtractor.RupeeSearchSome | BACKEND/app.py:399-401 | whatever the search returns is the match at some position |
| VijaySalesExtractor.MatchShape | BACKEND/app.py:399-406 | a match starts with ₹, ends with a digit or comma, is unchanged by `strip`, and so is never "N/A" |
| VijaySalesExtractor.PriceFallback | BACKEND/app.py:384-406 | a card is dropped for its price exactly when no price element gives one and its text holds no rupee amount |
| VijaySalesExtractor.ReadTitle | BACKEND/app.py:362-378 | the title is what the title loop last read, and the link is the accepted title's non-empty `href` made absolute, else the search page |
| VijaySalesExtractor.ReadPrice | BACKEND/app.py:383-403 | the price is the first plausible price element's text, or the last one read, or, while still "N/A", the stripped first rupee amount in the card's text |
| VijaySalesExtractor.ReadDetails | BACKEND/app.py:408-424 | the rating is the stripped rating text or "N/A"; the image is `src or "N/A"`, with a site-relative path made absolute |
| JioMartExtractor.Record | BACKEND/app.py:464-491 | a record a JioMart card yields is relevant, has rating "N/A", and carries its source, normalised price and category |
| JioMartExtractor.Extract | BACKEND/app.py:462-491 | one JioMart card yields its record or nothing; a kept record is relevant, has rating "N/A", and carries its source, normalised price and category |
| JioMartExtractor.RecordKept | BACKEND/app.py:464-468 | a card is kept exactly when it has both title and price elements and its title is relevant; the price text is not checked |
| Scrapers.Take | BACKEND/app.py:132 | the cap keeps the first n containers, or all of them when there are fewer |
| Scrapers.Record | BACKEND/app.py:132-491 | a container is handled by its own source's rules, and any record it yields is one that source may emit |
| Scrapers.Collect | BACKEND/app.py:132-210 | a source yields at most one record per container |
| Scrapers.CollectAppend | BACKEND/app.py:132-210 | records are appended in container order |
| Scrapers.CollectMembers | BACKEND/app.py:132-210 | a record is in the result exactly when some container yields it |
| Scrapers.ExtractFrom | BACKEND/app.py:101-498 | each source's container is handled by that source's extraction rules |
| Scrapers.Scrape | BACKEND/app.py:101-498 | a page that failed to load gives no records; otherwise a scraper returns at most its cap (20, 12, 15, 15 records), and every record is one its source may emit |
| Scrapers.CollectRecords | BACKEND/app.py:132-491 | the container loop each of the four scrapers runs (lines 132, 240, 360 and 462) returns the records of the containers in order, each a record the source may emit |
| Scrapers.ScrapeSource | BACKEND/app.py:101-498 | a scraper yields its page's records; a failed page yields none; it yields at most its cap (20, 12, 15, 15 containers) |
| Comparison.Compare | BACKEND/app.py:511-525 | the result is no longer than the scraped records, and every record in it is priced at 10 or more and was scraped |
| Comparison.CompareCorrect | BACKEND/app.py:523-525 | the result is sorted by price and holds exactly the records priced at 10 or more, each as often as scraped, with equal prices in scraped order |
| Comparison.ComparedFromSources | BACKEND/app.py:511-524 | every returned record is priced at 10 or more and comes from one of the four sources |
| Comparison.TiesInSourceOrder | BACKEND/app.py:511-525 | among equal prices, Flipkart's records come first, then Amazon's, Vijay Sales' and JioMart's |
| Comparison.Driver.Quit | BACKEND/app.py:515-520 | quitting is attempted once; a failure is swallowed and leaves the browser open |
| Comparison.PriceComparer.constructor | BACKEND/app.py:18-19 | a new comparer holds no browser |
| Comparison.PriceComparer.CreateDriver | BACKEND/app.py:21-35 | on success a fresh open browser is stored; on failure the error propagates and the field is unchanged |
| Comparison.PriceComparer.ComparePrices | BACKEND/app.py:500-528 | a browser that cannot be started aborts the comparison with nothing scraped; otherwise the result is the filtered and sorted records of all four sources, every one relevant and priced at 10 or more, and the browser is quit exactly once whether or not quitting fails |
| Sequences.FilterSortCorrect | BACKEND/app.py:524-525 | filtering then sorting gives a sorted list holding exactly the passing copies, in the filtered order among equal keys |
| Sequences.SortByCorrect | BACKEND/app.py:525 | the stable sort returns a sorted permutation of its input that keeps the order among equal keys |
| Sequences.FilterMultiset | BACKEND/app.py:524 | the comprehension keeps exactly the copies of the elements that pass |
| Frontend.SourceIcon | frontend/src/App.jsx:58-66 | an unknown source gets the shopping-bag icon |
| Frontend.SourceIconsDistinct | frontend/src/App.jsx:58-66 | the four sources get four distinct icons, none of them the default |
| Frontend.FilteredProducts | frontend/src/App.jsx:68-75 | the shown list is no longer than the received one and holds exactly the products that pass both filters |
| Frontend.FilterTwice | frontend/src/App.jsx:68-70 | the two successive filters keep the products passing both tests, in order |
| Frontend.FilteredContents | frontend/src/App.jsx:68-75 | the shown list holds every product passing both filters, as often as received, and nothing else |
| Frontend.FilteredAscending | frontend/src/App.jsx:71-72 | "price-asc" lists the cheapest first, keeping the received order among equal prices |
| Frontend.FilteredDescending | frontend/src/App.jsx:71-73 | "price-desc" lists the most expensive first, keeping the received order among equal prices |
| Frontend.FilteredUnsorted | frontend/src/App.jsx:71-74 | any other choice keeps the received order |
| Frontend.Categories | frontend/src/App.jsx:77 | the category choices are exactly the categories of the received products |
| Frontend.Sources | frontend/src/App.jsx:78 | the source choices are exactly the sources of the received products |
| Frontend.CategoriesOffered | frontend/src/App.jsx:77 | the category choices are exactly the products' categories, each once, in first-occurrence order |
| Frontend.SourcesOffered | frontend/src/App.jsx:78 | the source choices are exactly the products' sources, each once, in first-occurrence order |
| Frontend.BestDeal | frontend/src/App.jsx:79 | the best deal is the first shown product, or none when nothing is shown |
| Frontend.BestDealCheapest | frontend/src/App.jsx:68-79 | under "price-asc" the best deal is a shown product that no shown product undercuts, and there is none exactly when no product passes the filters |

## Left out

- The browser itself is not modelled: headless Chrome, navigation, the random sleeps, scrolling and the explicit wait on Amazon. The page as served is an input. A page that never loads is `None`, and the outer handler turns it into an empty list.
- A result container as the browser sees it is a fixed snapshot. Stale elements and exceptions raised while reading `container.text` are not modelled.
- `quote_plus` is not modelled. The URL-encoded query is an input (`encodedQuery`), used only to build the search URLs.
- Logging, the Flask routes (`/`, `/api/health`, `/api/search`) and their JSON envelopes are not modelled. They only wrap `compare_prices`.
- Text: `str.lower`, `\d` and whitespace are modelled on ASCII only. Letters A–Z are lower-cased; digits are 0–9; whitespace is space, `\t`–`\r` and `\x1c`–`\x1f`. Python's Unicode case mapping, Unicode digits and Unicode whitespace are not.
- Comparison.PriceComparer.ComparePrices: `list.sort` sorts in place. The model computes the sorted list as a value (`Sequences.SortBy`, a stable insertion sort), so it does not model the in-place update.
- Frontend.SourceIcon: JavaScript object lookup also finds inherited property names such as `constructor`. The model treats every name other than the four sources as unknown.
- Price.ExtractPrice: `int()` on more than 4300 digits raises `ValueError` on Python versions with the integer-string conversion limit, and the per-container handler then skips that container. The model has no such limit: it reads any number of digits and keeps the record. The Python version is not fixed, so the limit is left out.
- Frontend: React state, the search request, loading and error messages, and the rendered markup are not modelled. Only the derived values on lines 58-79 are.
- Frontend.FilteredProducts: a missing `price_num` counts as 0 in the comparators, as JavaScript's `null - x` does. The backend never sends one.
