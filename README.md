# Kumoart catalog core, modelled in Dafny

Kumoart is a small web shop for handmade crochet goods. Most of it is
markup. This project models the parts that compute something and proves
what they promise:

- **Contact links.** `generateWhatsAppLink` picks a message template in a
  fixed priority order. It percent-encodes the message into
  `https://wa.me/<phone>?text=<message>`. The cart and inquiry builders do
  the same with their own messages. `encodeURIComponent` is modelled
  over UTF-8 for strings of Unicode scalar values, and
  `decodeURIComponent` is its proved inverse.
- **Locale.** The two translation tables and the `t` lookup that falls back
  to the key. The `LanguageProvider` holds the locale, persists it in local
  storage and hides its children until mounted. The language switch flips
  the locale, and its view follows from the locale alone.
- **Catalog search.** The lower-cased, trimmed substring filter of the
  product page, and the count it shows.
- **Event rules.** Date-range formatting, the free-price rule, and the
  ongoing and upcoming predicates.
- **Content accessors.** Events and products are loaded from a directory
  listing. The model covers the active filters, lookup by slug and the slug
  lists.
- **Display rules.** The pager's buttons, the navigation bar's badges and
  promotion banner with its maximum discount, the mobile menu, and the
  product card's stock badges and label.

Files:

| File | Contents |
|---|---|
| `wrappers.dfy` | Option and Result types |
| `text.dfy` | JavaScript string operations: `toLowerCase`, `trim`, `includes`, `join`, `split`, decimal digits |
| `seqs.dfy` | `filter`, `map` and `find` |
| `uri.dfy` | `encodeURIComponent` and `decodeURIComponent` |
| `whatsapp.dfy` | the link builders |
| `language.dfy` | the tables, `t`, the provider class, `useLanguage` |
| `language_switch.dfy` | the switch |
| `products.dfy`, `catalog.dfy` | the product record and the search page |
| `events.dfy` | the event record and its rules |
| `content.dfy`, `events_server.dfy`, `products_server.dfy` | loading and accessors |
| `pagination.dfy`, `navbar.dfy`, `product_card.dfy` | display rules |

Some inputs are outside the model and are passed in as parameters:

- the current time;
- `Intl` date and currency formatting;
- the directory listing with parsed front matter;
- whether a storage access throws.

## Model

| member | source | states |
|---|---|---|
| WhatsApp.SelectIsFirstApplicable | src/lib/whatsapp.ts:25-57 | The if/else chain yields the first template, in the order custom, product with price, product only, event, greeting, whose own condition holds; one always holds |
| WhatsApp.SelectTemplate | src/lib/whatsapp.ts:25-57 | The chosen template is one of the five and its own condition holds for the parameters |
| WhatsApp.CustomMessageWins | src/lib/whatsapp.ts:25-27 | A non-empty custom message is sent verbatim whatever the other fields are |
| WhatsApp.ProductWithPriceNamesBoth | src/lib/whatsapp.ts:28-35 | Without a custom message, a non-empty product name and price give the product template, and it contains both values |
| WhatsApp.ProductWithPriceLines | src/lib/whatsapp.ts:30-35 | That template's lines are exactly: heading, blank, `Nama Produk : <name>`, `Harga       : <price>`, blank, request |
| WhatsApp.ProductOnlyLines | src/lib/whatsapp.ts:36-42 | The template without a price has exactly five lines, naming the product |
| WhatsApp.ProductOnlyHasNoPriceLine | src/lib/whatsapp.ts:36-42 | The template without a price has no line starting with `Harga` |
| WhatsApp.PriceAloneIgnored | src/lib/whatsapp.ts:28-43 | Without a product name, the price has no effect on the message |
| WhatsApp.EventTemplateCondition | src/lib/whatsapp.ts:43-49 | The event template is chosen iff there is no custom message, no product name, and an event title |
| WhatsApp.EmptyParamsGreet | src/lib/whatsapp.ts:14-61 | With no fields, the link goes to the configured number and carries the greeting, which names the brand |
| WhatsApp.LinkRoundTrip | src/lib/whatsapp.ts:59-61 | Splitting a built link at its first `?` and decoding the text parameter gives back the phone and the message, for any phone without `?` |
| WhatsApp.GenerateWhatsAppLink | src/lib/whatsapp.ts:14-61 | The link starts with `https://wa.me/<phone>?`, the phone being the given one or the configured default when absent. For a phone without `?`, the link reads back as that phone and the selected message |
| WhatsApp.EmptyPhoneFallback | src/lib/whatsapp.ts:16-94 | An empty phone is kept by the destructuring default of `generateWhatsAppLink` (line 16). The cart and inquiry builders (lines 71 and 94) replace it with the configured number |
| WhatsApp.EmptyCartList | src/lib/whatsapp.ts:73-75 | An empty cart gives an empty item list |
| WhatsApp.CartListLines | src/lib/whatsapp.ts:73-75 | The cart list has one line per item in input order; line i is `"<i>. name x<quantity> - price"` (1-based) |
| WhatsApp.GenerateCartWhatsAppLink | src/lib/whatsapp.ts:67-85 | The link starts with `https://wa.me/<phone>?`, an empty or absent phone giving the configured number. For a phone without `?`, it reads back as that phone and the cart message |
| WhatsApp.CartMessageHoldsList | src/lib/whatsapp.ts:77-81 | The cart message contains the cart list |
| WhatsApp.InquiryNamesSubject | src/lib/whatsapp.ts:96-100 | The inquiry message contains its subject |
| WhatsApp.GenerateInquiryWhatsAppLink | src/lib/whatsapp.ts:90-104 | The link starts with `https://wa.me/<phone>?`, an empty or absent phone giving the configured number. For a phone without `?`, it reads back as that phone and the inquiry message |
| Uri.DecodeEncode | src/lib/whatsapp.ts:60 | `decodeURIComponent(encodeURIComponent(s)) == s` for every string |
| Uri.EncodeIsQuerySafe | src/lib/whatsapp.ts:60-61 | The encoded message has only unreserved characters and `%XX` escapes, and so no `?`, `&`, `#` or `=` |
| Uri.Encode | src/lib/whatsapp.ts:60 | The encoding is never shorter than the message and at most twelve characters per input character |
| Uri.EncodeSingle | src/lib/whatsapp.ts:60 | One character encodes to itself when unreserved, otherwise to the `%XX` escapes of its UTF-8 bytes |
| Uri.EncodeAppend | src/lib/whatsapp.ts:60 | Encoding works character by character: encoding a concatenation is concatenating the encodings |
| Uri.EncodeKeepsUnreserved | src/lib/whatsapp.ts:60 | A message made only of unreserved characters is left unchanged |
| Uri.Decode | src/lib/whatsapp.ts:60 | The inverse of the encoding: a text without `%` decodes to itself, and decoding never lengthens the text |
| Language.ParseLocale | src/lib/language.tsx:212-215 | A stored value is accepted iff it is `"id"` or `"en"`, and the accepted locale's code is that value |
| Language.SameKeys | src/lib/language.tsx:20-200 | The `id` and `en` tables define the same set of keys |
| Language.IdHasNoEmptyEntry | src/lib/language.tsx:21-110 | No entry of the `id` table is the empty string, so `\|\| key` never replaces an `id` translation |
| Language.EnHasNoEmptyEntry | src/lib/language.tsx:111-200 | No entry of the `en` table is the empty string |
| Language.Lookup | src/lib/language.tsx:232-235 | `table[key] \|\| key`: the result is the key itself or a non-empty entry of the table for that key; a missing key gives the key |
| Language.LookupEntryOrKey | src/lib/language.tsx:232-235 | For a table without empty entries, `t(key)` is the table's non-empty entry for every key it has and the key itself for every other key |
| Language.Translate | src/lib/language.tsx:232-235 | `t(key)` in a locale is the key itself or that locale's non-empty entry for the key |
| Language.TranslateIdEntry | src/lib/language.tsx:232-235 | In Indonesian, `t(key)` is the table's entry for every key the `id` table has |
| Language.TranslateEnEntry | src/lib/language.tsx:232-235 | In English, `t(key)` is the table's entry for every key the `en` table has |
| Language.MissingKeyFallsBack | src/lib/language.tsx:232-235 | A key missing from the tables renders as itself in both locales |
| Language.BenefitsHeadingShowsKey | src/lib/language.tsx:232-235 | `misc.benefits`, which the product detail page asks for, renders as the key in both locales |
| Language.LoadedLocale | src/lib/language.tsx:209-219 | A failed read or a missing stored value keeps the current locale; any other change is to the locale whose code is stored |
| Language.LoadedLocaleAcceptsOnlyCodes | src/lib/language.tsx:211-218 | Loading changes the locale only to one whose code is the stored value; any other stored value leaves it unchanged |
| Language.PersistedLocaleReloads | src/lib/language.tsx:212-228 | A locale that was written successfully is the one the next load picks up |
| Language.LanguageProvider.constructor | src/lib/language.tsx:205-206 | The provider starts in `id`, not mounted |
| Language.LanguageProvider.Mount | src/lib/language.tsx:209-219 | The mount effect sets `mounted` and loads a valid stored locale; storage is untouched |
| Language.LanguageProvider.SetLanguage | src/lib/language.tsx:222-229 | The locale always becomes the new one. Storage records its code under `kumoart-language` unless the write throws |
| Language.LanguageProvider.ChildrenClass | src/lib/language.tsx:240-242 | The children are wrapped in `invisible` exactly until the mount effect has run, and in no class after it |
| Language.UseLanguage | src/lib/language.tsx:248-254 | The hook fails exactly when there is no provider; otherwise it returns the context |
| LanguageSwitch.Toggled | src/components/UI/LanguageSwitch.tsx:13 | The toggle always gives the other locale |
| LanguageSwitch.ToggleTwice | src/components/UI/LanguageSwitch.tsx:12-15 | Toggling twice restores the locale |
| LanguageSwitch.ToggleLanguage | src/components/UI/LanguageSwitch.tsx:12-15 | A click sets the provider's locale to the toggled one and persists it as `setLanguage` does |
| LanguageSwitch.ViewMatchesLocale | src/components/UI/LanguageSwitch.tsx:20-43 | `aria-checked` holds iff the locale is `en`, the knob is on the right iff checked, and the label names the language a click switches to |
| LanguageSwitch.ToggleChangesView | src/components/UI/LanguageSwitch.tsx:20-43 | Background, checked state, knob, flag and label each differ between the two locales |
| Catalog.FilterProducts | src/components/Product/ProductPageContent.tsx:19-29 | A blank normalized query returns the list unchanged. Otherwise every result matches in its lower-cased name, description or category, every matching product is kept as often as it occurs, and nothing else appears |
| Catalog.FilterKeepsOrder | src/components/Product/ProductPageContent.tsx:23-28 | The result is an order-preserving subsequence of the input |
| Catalog.FilterTwice | src/components/Product/ProductPageContent.tsx:23-28 | Filtering the result again with the same query changes nothing |
| Catalog.NormalizeIgnoresCaseAndSpace | src/components/Product/ProductPageContent.tsx:20 | Case and surrounding white space do not change the normalized query |
| Catalog.QueryCaseAndSpaceIrrelevant | src/components/Product/ProductPageContent.tsx:20 | Queries that differ only in case or surrounding white space give the same result |
| Catalog.StatusShowsCountAndQuery | src/components/Product/ProductPageContent.tsx:62-76 | The status line shows the count it is given, and ends with the quoted raw query when that is non-empty |
| Catalog.StatusLine | src/components/Product/ProductPageContent.tsx:62-76 | The line always starts with `<showing> <count> <products>`, and is exactly that iff the raw query is empty |
| Catalog.StatusCountsShownProducts | src/components/Product/ProductPageContent.tsx:62-76 | The page's status line shows the number of filtered products, between spaces |
| Catalog.StatusOpensWithCount | src/components/Product/ProductPageContent.tsx:62-76 | The page's status line opens with the translated "showing", the number of filtered products and the translated "products" |
| Catalog.BlankQueryShowsEverything | src/components/Product/ProductPageContent.tsx:20-67 | A query of white space alone lists every product, yet the status line still quotes it |
| Catalog.ProductPage.constructor | src/components/Product/ProductPageContent.tsx:16 | The page starts with an empty query |
| Catalog.ProductPage.HandleSearch | src/components/Product/ProductPageContent.tsx:31-33 | A search replaces the query |
| Events.FormatDateRange | src/lib/events.ts:33-38 | Equal strings give the one formatted date. Different strings give the formatted start, then `" - "`, then the formatted end, and nothing else |
| Events.FreeExactlyWhenNoPrice | src/lib/events.ts:64-74 | `"Gratis"` is shown iff the price is absent or 0; otherwise the currency formatting is shown |
| Events.FormatEventPrice | src/lib/events.ts:64-74 | An absent or zero price gives `"Gratis"`; any other price goes to the currency formatter |
| Events.EndOfDay | src/lib/events.ts:47 | The bound is the last millisecond of the same local day |
| Events.OngoingMeansWithinDays | src/lib/events.ts:43-50 | Ongoing iff the event has started and today is not after the end date's day |
| Events.IsOngoing | src/lib/events.ts:43-50 | An invalid date is never ongoing; at an ongoing instant the event has started and the end date is less than a day behind |
| Events.IsUpcoming | src/lib/events.ts:55-59 | An invalid start is never upcoming, and an upcoming event is not ongoing at the same instant, whatever its end |
| Events.OneDayEventOngoingAllDay | src/lib/events.ts:43-50 | A one-day event that starts at local midnight is ongoing until the last millisecond of that day and not after it |
| Content.MarkdownFiles | src/lib/events.server.ts:9-12 | A missing directory gives nothing. Otherwise exactly the files whose names end in `.md` are kept |
| Content.MarkdownFilesAppend | src/lib/events.server.ts:12 | A further listed file is kept, at the end, iff its name ends in `.md`; so files keep listing order |
| EventsServer.Load | src/lib/events.server.ts:14-19 | A record is its front matter with `content` set to the body, which overrides any front-matter `content` |
| EventsServer.GetAllEvents | src/lib/events.server.ts:8-20 | One record per markdown file, in order; none for a missing directory |
| EventsServer.GetAllEventsAppend | src/lib/events.server.ts:12-19 | A further file adds its record at the end iff it is markdown |
| EventsServer.EventsComeFromMarkdown | src/lib/events.server.ts:12-19 | Every record is loaded from a markdown file of the listing |
| EventsServer.GetActiveEvents | src/lib/events.server.ts:22-24 | Exactly the active records are returned, each as often as it occurs |
| EventsServer.ActiveEventsKeepOrder | src/lib/events.server.ts:22-24 | The active records keep their order |
| EventsServer.GetEventBySlug | src/lib/events.server.ts:26-28 | Finds a record carrying the slug, active or not; nothing iff no record carries it |
| EventsServer.EventBySlugIsFirst | src/lib/events.server.ts:26-28 | The record found is the first one carrying the slug |
| EventsServer.GetAllEventSlugs | src/lib/events.server.ts:30-32 | The slug list matches the record list in length and order |
| EventsServer.SlugListedIffFound | src/lib/events.server.ts:26-32 | A slug is listed iff looking it up finds an event |
| ProductsServer.Load | src/lib/products.server.ts:14-19 | The body overrides any front-matter `content`; everything else is the front matter |
| ProductsServer.LoadedProducts | src/lib/products.server.ts:9-19 | One candidate per markdown file, in order; none for a missing directory |
| ProductsServer.GetAllProducts | src/lib/products.server.ts:8-21 | Exactly the active candidates are returned; none for a missing directory |
| ProductsServer.ProductsKeepOrder | src/lib/products.server.ts:20 | The active products keep listing order |
| ProductsServer.GetAllProductsAppend | src/lib/products.server.ts:12-20 | A further file adds a product at the end iff it is markdown and marked active |
| ProductsServer.GetProductBySlug | src/lib/products.server.ts:23-25 | Finds an active product with the slug; nothing iff no active product has it |
| ProductsServer.ProductBySlugIsFirst | src/lib/products.server.ts:23-25 | The product found is the first active product carrying the slug |
| ProductsServer.InactiveProductNotFound | src/lib/products.server.ts:23-25 | A slug that only inactive products carry is not found |
| ProductsServer.GetAllProductSlugs | src/lib/products.server.ts:27-29 | The slug list matches the active products in length and order |
| ProductsServer.SlugListedIffFound | src/lib/products.server.ts:23-29 | A slug is listed iff looking it up finds a product |
| Pagination.Render | src/components/Common/Pagination.tsx:18-56 | Nothing is rendered iff there is at most one page; otherwise there is one button per page |
| Pagination.PagesAreOneToTotal | src/components/Common/Pagination.tsx:20-36 | The numbered buttons are 1 to `totalPages`, ascending |
| Pagination.OneHighlighted | src/components/Common/Pagination.tsx:37-41 | A button is highlighted iff it is the current page. At most one is highlighted, and exactly one when the page is in range |
| Pagination.RequestsStayInRange | src/components/Common/Pagination.tsx:24-50 | Previous requests the page before and is disabled iff on page 1. Next requests the page after and is disabled iff on the last page. With the current page in range every enabled request stays in range; the page is not clamped, so past the end Next stays enabled and requests a page beyond the last |
| Navbar.Navigation | src/components/Layout/Navbar.tsx:22-26 | Three entries in order: `nav.home` to `/`, `nav.products` to `/produk`, `nav.events` to `/event`; only the last has a notification |
| Navbar.BadgeOnlyOnEvents | src/components/Layout/Navbar.tsx:22-76 | A badge shows iff the item is Events and there are active events |
| Navbar.CountBadge | src/components/Layout/Navbar.tsx:73-77 | The count beside an item (the tooltip with `nav.active_events`, lines 73-77, and the mobile pill with `events.ongoing`, lines 134-138) shows iff the item has a notification and there are active events; it is the count in decimal, a space, and the translated label |
| Navbar.Max | src/components/Layout/Navbar.tsx:159-163 | The maximum is one of the values and at least each of them |
| Navbar.BannerDiscount | src/components/Layout/Navbar.tsx:153-163 | The banner shows iff some active event has a truthy discount |
| Navbar.BannerShowsMaximum | src/components/Layout/Navbar.tsx:159-163 | The banner's percentage equals some truthy discount and is at least every truthy discount |
| Navbar.NoDiscountIgnored | src/components/Layout/Navbar.tsx:160-162 | An event whose discount is 0 or absent does not change the banner |
| Navbar.NavigationBar.constructor | src/components/Layout/Navbar.tsx:15-16 | `activeEvents` defaults to empty, and the menu starts closed |
| Navbar.NavigationBar.ToggleMenu | src/components/Layout/Navbar.tsx:91-111 | The menu button flips the menu; with active events, it also flips the mobile dot |
| Navbar.NavigationBar.CloseMenu | src/components/Layout/Navbar.tsx:111-130 | A mobile link closes the menu; the dot then shows iff there are active events |
| Navbar.DefaultShowsNothing | src/components/Layout/Navbar.tsx:15-153 | Without active events there is no badge, no mobile dot and no banner |
| ProductCard.Href | src/components/Product/ProductCard.tsx:17 | The link is `/produk/` followed by the slug, which can be read back |
| ProductCard.Badges | src/components/Product/ProductCard.tsx:30-45 | Featured iff flagged, and then first; limited stock iff 1 to 5 pieces; sold out iff exactly 0; never both stock badges; exactly one badge per condition that holds, so no badge repeats |
| ProductCard.StockLabelShowsCount | src/components/Product/ProductCard.tsx:62-63 | With stock, what follows the label reads back as the stock. The sold-out text and red dot appear iff stock is not positive |
| ProductCard.StockLabel | src/components/Product/ProductCard.tsx:63 | With stock the line is `<stock label>: <count in decimal>`; otherwise it is the sold-out text |
| ProductCard.NegativeStock | src/components/Product/ProductCard.tsx:36-63 | A negative stock gets no stock badge, yet the label says sold out |

## Left out

- Letter case: `toLowerCase` maps only the ASCII letters A-Z here. The search is therefore exact for ASCII text only. Unicode case mapping is a large table outside this model.
- `Intl` formatting: `formatDate` and the non-zero branch of `formatEventPrice` are function parameters. Their output is not modelled.
- The product price display (`formatPrice` on the product card and detail page) is not part of this model.
- Dates, the clock and time zones: `now` is a parameter. Dates are local-time milliseconds, or `None` for an invalid date. How `new Date` parses a date string, including date-only strings read as UTC midnight, is not modelled.
- The file system and `gray-matter`: a directory is a list of files with parsed front matter. Missing or mistyped front-matter fields, and the unchecked `as Event` / `as Product` casts, are not modelled.
- `localStorage` is a map field of the provider. A throwing access is a boolean input. `console.error` is not modelled.
- Inherited object keys: a key such as `constructor` makes `t` return an inherited property of the table object. Here such a key is treated as missing and returns itself.
- Numbers are integers: NaN, fractions and infinities of prices, stock, discounts, page numbers and the cart `quantity` are not modelled.
- Lone surrogates: JavaScript strings are UTF-16, and `encodeURIComponent` throws a URIError on a lone surrogate. A Dafny `char` is a Unicode scalar value, so that error path is not modelled.
- Configuration: the phone number and brand name are fixed to their defaults. Environment overrides are not modelled.
- Rendering: the markup and style classes beyond those named above, and `useMemo` and `useCallback` caching are not modelled.
- OAuth routes, the presentation-only pages and components, the stale pages that import missing functions, and the duplicate `src/lib/translations.ts` are not part of this model.
