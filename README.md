# Wedding LINE bot — a Dafny model

This project models a LINE chat bot for a wedding. Guests type their name and get their table number, the table's name and a picture of the seating plan. They can also ask for a random wedding photo, open a menu, or tap a rich menu under the chat.

The model covers:

- the webhook dispatch of both entry points: `index.js`, the deployed cloud function, and `src/app.js`, the local server;
- the services behind them: guest lookup from a CSV file, a five-minute Google Sheets guest cache, random photos, and the `/api/tables` controller;
- the configuration object and the rich-menu layout.

Each Dafny module stands for one source file:

| module | source |
|---|---|
| `GoogleSheetsService` | src/services/googleSheetsService.js (class `GuestCache` holds the module variable `guestsCache`) |
| `GuestService` | src/services/guestService.js |
| `GuestRows` | the row-parsing loop shared by `loadGuests` and `loadGuestsFromSheet` |
| `PhotoService` | src/services/photoService.js |
| `TableController` | src/controllers/tableController.js |
| `IndexHandler` | index.js |
| `AppHandler` | src/app.js |
| `LineMessages` | events, replies and the keyword/postback dispatch common to both handlers |
| `Config` | config/index.js |
| `RichMenuService` | src/services/richMenuService.js |
| `JsString` | the JavaScript built-ins the code relies on |
| `Wrappers` | `Option` |

`JsString` models these built-ins: `trim` with ECMAScript's whitespace set, `split`, `||` defaults on environment variables, UTF-16 `.length`, number printing, `toLowerCase` on extensions, and `filter`. `AsciiLower` lowers only the letters A-Z. `toLowerCase` also lowers non-ASCII letters, but the photo filter decides the same either way: `.jpg`, `.jpeg` and `.png` are ASCII, and the only other characters whose lower case contains an ASCII letter are the Kelvin sign (to `k`) and `İ` (to `i` and a combining dot), letters that none of the three contains.

Everything the code reads from outside is an input:

- **Files:** the guest CSV file is `Option<string>`, with `None` when it cannot be read. Directory listings are `Option<seq<string>>`. The table images are a set of names, and for the controller a map from names to sizes.
- **Environment:** each variable is `Option<string>`.
- **Clock:** the time is an explicit millisecond argument.
- **Spreadsheet call:** its outcome is passed in.
- **`Math.random()`:** a real in [0, 1).
- **`encodeURIComponent`:** an opaque function, with `None` where it throws.

A handler's reply is the list of messages it passes to `replyMessage`, or `None` where `handleEvent` resolves to `null`.

Behaviour the model has to state, because the code as written does it:

- **Sheet loads in the shipped configuration:** `config/index.js` exports no `googleSheets` section. `getSheetClient` therefore throws before any request, so every sheet load fails and returns an empty map (`ExportedConfigNeverLoads`).
- **`cleancache`:** `guestService` exports no `clearCache`, so in both handlers the keyword always gets the "Failed to clear cache: guestService.clearCache is not a function" reply.
- **`clearPhotoCache`:** in index.js the keyword gets the matching failure reply, because `photoService` has no `refreshImgurCache`.
- **Photo `url`:** the photo service never sets `url`, so index.js always serves photos under `APP_BASE_URL/pictures/`.
- **`follow` in src/app.js:** the welcome branch sits after a guard that has already returned `null` for `follow` events. A new friend gets no welcome there.

## Model

| member | source | states |
|---|---|---|
| GoogleSheetsService.SheetGuests | src/services/googleSheetsService.js:36-42 | the guest map of the sheet rows: every key is a non-empty name and every value a trimmed table |
| GoogleSheetsService.ParseRows | src/services/googleSheetsService.js:37-42 | the loop from row 1 builds exactly the guest map of the rows: header skipped, rows with both cells kept, table trimmed, last row wins |
| GoogleSheetsService.SheetRecord | src/services/googleSheetsService.js:38 | `const [name, table] = rows[i]`: the first two cells; with fewer than two cells the table is empty and a single cell is the name |
| GoogleSheetsService.SheetRecords | src/services/googleSheetsService.js:38 | one (name, table) record per row, from its first two cells, with missing cells read as empty |
| GoogleSheetsService.SheetRows | src/services/googleSheetsService.js:10-33 | rows arrive only when the configuration has a `googleSheets` section and the response carries `values` |
| GoogleSheetsService.ExportedConfigNeverLoads | src/services/googleSheetsService.js:10-13 | with the exported configuration no load succeeds, whatever the environment and the response |
| GoogleSheetsService.MustRefetch | src/services/googleSheetsService.js:68 | the refetch test: a forced call or an empty cache always refetches; otherwise an entry is refetched exactly when `now` is past its timestamp plus `CACHE_TTL` |
| GoogleSheetsService.ServedWhileFresh | src/services/googleSheetsService.js:68 | an entry at most `CACHE_TTL` old, including exactly 300000 ms, is served when not forced |
| GoogleSheetsService.RefetchedWhenStale | src/services/googleSheetsService.js:59-68 | one millisecond past `CACHE_TTL` the entry is refetched, forced or not |
| GoogleSheetsService.GuestCache.constructor | src/services/googleSheetsService.js:58 | the cache starts empty |
| GoogleSheetsService.GuestCache.LoadGuestsFromSheet | src/services/googleSheetsService.js:25-55 | success replaces the whole entry with the parsed map and the load time and returns that map; failure returns an empty map and leaves the entry as it was |
| GoogleSheetsService.GuestCache.GetGuests | src/services/googleSheetsService.js:66-77 | refetches iff forced, empty or older than `CACHE_TTL`; otherwise returns the cached map unchanged and the cache is untouched |
| GoogleSheetsService.GuestCache.ClearCache | src/services/googleSheetsService.js:82-86 | returns true and empties the cache, after which every call refetches whatever `forceRefresh` is |
| GoogleSheetsService.FailedLoadsKeepRefetching | src/services/googleSheetsService.js:51-70 | with an expired entry and failing fetches, two successive calls both return empty maps, the stale entry survives and the next call must refetch again |
| GuestRows.GuestsEntries | src/services/guestService.js:48-52 | every key of the guest map is a non-empty name and every value a trimmed table |
| GuestRows.GuestsKeys | src/services/guestService.js:48-52 | a name is a key iff some line after the header has that name and a non-empty table |
| GuestRows.GuestsLastWins | src/services/guestService.js:48-52 | a name's value is the trimmed table of its last such line |
| GuestRows.GuestsValues | src/services/guestService.js:48-52 | every value is the trimmed table of some kept line with that name, and carries no surrounding whitespace |
| GuestService.CsvLines | src/services/guestService.js:46 | `data.trim().split('\n')`: at least one line, no line holds a newline, and joining the lines with newlines gives the trimmed file back |
| GuestService.CsvRecord | src/services/guestService.js:49 | `const [name, table] = line.split(',')`: neither field holds a comma, and a comma-free line is all name with an empty table |
| GuestService.CsvGuests | src/services/guestService.js:43-52 | an unreadable file gives an empty map; every key of the map is a non-empty, comma-free name field |
| GuestService.LoadGuests | src/services/guestService.js:43-59 | an unreadable file gives an empty map; otherwise the map of the trimmed file's lines |
| GuestService.CollectGuests | src/services/guestService.js:47-53 | the loop from line 1 builds exactly the guest map of the lines' first two comma fields |
| GuestService.CsvRecords | src/services/guestService.js:49 | one record per line, from its first two comma-separated fields |
| GuestService.HeaderOnlyFileIsEmpty | src/services/guestService.js:46-48 | a file that is one line after trimming (including an empty file) gives an empty map |
| GuestService.CsvLookup | src/services/guestService.js:48-52 | a name is found iff a line after the header has exactly that raw first field and a non-empty second field |
| GuestService.CsvLastLineWins | src/services/guestService.js:51 | with duplicate names the last kept line's trimmed table is stored |
| GuestService.CrlfLine | src/services/guestService.js:49-51 | on a CRLF line the `\r` stays in the raw table field and the trim removes it from the stored value |
| GuestService.CsvPair | src/services/guestService.js:49 | a line with one comma gives the text before it as name and the text after it as table |
| GuestService.TableName | src/services/guestService.js:83 | the name of a key of `tableNames`, and empty for any other table |
| GuestService.TableNamesCoverOneToTwentyThree | src/services/guestService.js:13-37 | each of '1'..'23' has a non-empty table name |
| GuestService.TableFileName | src/services/guestService.js:81 | `table_${table}.png`: 10 characters longer than the table, and the table is exactly what lies between `table_` and `.png` |
| GuestService.TableImageUrl | src/services/guestService.js:66-70 | `HOST_URL`, or `http://localhost:3000` when unset or empty, then `/api/tables/` and the table |
| GuestService.QuerySeat | src/services/guestService.js:77-100 | found iff the name is a key; then the table, its name, the message `您的桌號是:第<table>桌(<name>)`, `table_<table>.png`, whether it exists, and the image URL; otherwise the fixed retry message |
| GuestService.FoundTableIsTrimmed | src/services/guestService.js:51 | a found table number carries no surrounding whitespace |
| PhotoService.LastDot | src/services/photoService.js:18 | the position of a dot with no dot after it, or none when the name has no dot |
| PhotoService.ExtName | src/services/photoService.js:18 | `path.extname`: a suffix of the name from its last dot, empty when there is no dot, the only dot is the first character, or the name is `..` |
| PhotoService.Title | src/services/photoService.js:58 | the title followed by the extension is the file name |
| PhotoService.IsPhotoFile | src/services/photoService.js:17-20 | the filter: `extname` lower-cased is `.jpg`, `.jpeg` or `.png`; a kept name's extension is 4 or 5 characters and shorter than the name |
| PhotoService.AllPhotos | src/services/photoService.js:14-25 | an unreadable directory gives no photos; each kept name is from the listing and has a lower-cased extension of .jpg, .jpeg or .png |
| PhotoService.AllPhotosExact | src/services/photoService.js:17-20 | a name is kept iff it is listed and its extension qualifies |
| PhotoService.AllPhotosSingle | src/services/photoService.js:17-20 | a one-entry listing yields that entry iff it is an image file, else nothing |
| PhotoService.AllPhotosAppend | src/services/photoService.js:17-20 | the photos of a concatenated listing are the photos of each part, in listing order |
| PhotoService.RandomIndex | src/services/photoService.js:37 | `Math.floor(Math.random() * n)` is an index below n |
| PhotoService.EveryIndexReachable | src/services/photoService.js:37 | every index below n is chosen for some random value |
| PhotoService.RandomPhotoPath | src/services/photoService.js:31-40 | null iff there is no photo; otherwise the photo directory joined with one of the photos |
| PhotoService.RandomPhoto | src/services/photoService.js:46-67 | fails with the fixed message iff there is no photo; otherwise the chosen photo's path, file name, title without extension, bilingual message, and no `url` |
| PhotoService.OnePhotoListing | src/services/photoService.js:14-67 | a listing holding `a.jpg` yields that photo, so the success case is reachable |
| PhotoService.PhotoTitleLength | src/services/photoService.js:56-58 | the title is non-empty and 4 or 5 characters shorter than the file name |
| TableController.DigitPrefix | src/controllers/tableController.js:12 | the longest prefix made of digits of the radix |
| TableController.ParseInt | src/controllers/tableController.js:12 | `parseInt` without a radix: a number only if, after leading whitespace, the text starts with a digit or a sign; always a number when it starts with a digit and is not a `0x`/`0X` prefix |
| TableController.ParseIntDecimalPrefix | src/controllers/tableController.js:12 | `parseInt` reads a printed positive number back, ignoring any non-digit text after it (`"7x"` is 7) |
| TableController.ParseIntHex | src/controllers/tableController.js:12 | without a radix, after an optional sign a `0x` or `0X` prefix switches to hexadecimal: the run of hex digits is the value, negated after `-`, and anything after the run is ignored |
| TableController.ParseIntHexNoDigits | src/controllers/tableController.js:12 | a `0x` prefix with no hex digit after it is NaN |
| TableController.TableImage | src/controllers/tableController.js:10-65 | 400 iff the parameter does not parse to a number in 1..23; then 404 iff `table_<n>.png` is missing, with its message; the shrunk image iff larger than 1 MiB and shrinking succeeds; the original file otherwise |
| TableController.MatchesAt | src/controllers/tableController.js:83 | `table_`, at least one digit, then `.png` at a position: such a match is at least 11 characters and its first character after `table_` is a digit |
| TableController.FirstMatch | src/controllers/tableController.js:83 | the leftmost position where `table_<digits>.png` matches, or none if it matches nowhere |
| TableController.TableNumberOf | src/controllers/tableController.js:82-85 | a name yields a number iff the pattern matches somewhere in it |
| TableController.TableNumberOfCanonical | src/controllers/tableController.js:83-84 | `table_<d>.png` yields the number its digits spell, leading zeros included |
| TableController.TableFileNameRoundTrip | src/controllers/tableController.js:23-84 | the file served for table n is listed as n |
| TableController.IsTableFile | src/controllers/tableController.js:81 | the first filter: the name starts with `table_` and ends with `.png`, so it is at least 10 characters long (the two ends cannot overlap) |
| TableController.MatchedNumbers | src/controllers/tableController.js:82-86 | the numbers of the matching names, never more than the names |
| TableController.MatchedNumbersExact | src/controllers/tableController.js:82-86 | a number is listed iff some candidate name yields it |
| TableController.MatchedNumbersSingle | src/controllers/tableController.js:82-86 | one name yields its table number when it carries one, and nothing otherwise |
| TableController.MatchedNumbersCons | src/controllers/tableController.js:82-86 | the first name's numbers come before those of the rest |
| TableController.MatchedNumbersAppend | src/controllers/tableController.js:82-86 | the numbers of concatenated name lists are the numbers of each part, in order |
| TableController.Insert | src/controllers/tableController.js:87 | inserting into a sorted list keeps it sorted and adds exactly the element |
| TableController.SortAscending | src/controllers/tableController.js:87 | `sort((a, b) => a - b)`: sorted ascending and a permutation of its input |
| TableController.SortedUnique | src/controllers/tableController.js:87 | two sorted permutations of the same numbers are equal, so any correct sort gives this result |
| TableController.AvailableTables | src/controllers/tableController.js:72-103 | 500 with the server-error message iff the directory cannot be read; otherwise the sorted permutation of the matched numbers and its length as `count` |
| TableController.AvailableTablesExact | src/controllers/tableController.js:80-93 | a number is listed iff a listed name starting `table_` and ending `.png` yields it |
| TableController.DuplicatesKept | src/controllers/tableController.js:83-87 | two names spelling the same number (table_01.png, table_1.png) list it twice |
| TableController.LeadingZeroIgnored | src/controllers/tableController.js:84 | a leading `0` does not change the value of a digit string |
| Config.StaffIds | config/index.js:17 | the kept ids are non-blank and contain no comma; an unset variable gives none |
| Config.StaffIdsExact | config/index.js:17 | an id is kept iff it is a comma-separated piece of `STAFF_IDS` that is not blank, kept untrimmed |
| Config.StaffIdsConcat | config/index.js:17 | order is preserved: the ids of `a,b` are the ids of `a` followed by those of `b` |
| Config.StaffIdsSingle | config/index.js:17 | a comma-free non-blank value is exactly one id, surrounding spaces kept |
| Config.ServerPort | config/index.js:9 | `PORT` when set and non-empty, else 3000 |
| Config.Load | config/index.js:6-30 | the port and host with their defaults, the channel token and secret passed through, the staff ids as above, GCS enabled with bucket `kgerickg-wedding-bot` and project `neon-metric-459818-v5`, Imgur disabled, no `googleSheets` section |
| JsString.Trim | src/services/guestService.js:46 | the result is no longer than the input |
| JsString.TrimStartShape | src/services/guestService.js:46 | the leading-whitespace pass removes a prefix that is all whitespace and leaves a suffix that does not start with whitespace |
| JsString.TrimEndShape | src/services/guestService.js:46 | the trailing-whitespace pass removes a suffix that is all whitespace and leaves a prefix that does not end with whitespace |
| JsString.TrimStart | src/services/guestService.js:46 | the leading-whitespace pass of `trim`; never longer than its input (its shape is TrimStartShape) |
| JsString.TrimEnd | src/services/guestService.js:46 | the trailing-whitespace pass of `trim`; never longer than its input (its shape is TrimEndShape) |
| JsString.TrimShape | src/services/guestService.js:46 | the result is a slice of the input with only whitespace before and after it, and neither starts nor ends with whitespace |
| JsString.TrimPadded | src/services/guestService.js:51 | padding a trimmed string with whitespace on both sides trims back to that string |
| JsString.TrimIdempotent | src/services/guestService.js:46 | trimming twice is trimming once |
| JsString.Split | src/services/guestService.js:46 | at least one piece, and no piece contains the separator |
| JsString.JoinSplit | src/services/guestService.js:46 | joining the pieces with the separator gives back the string |
| JsString.SplitSeparatorFree | src/services/guestService.js:46 | a string without the separator is one piece |
| JsString.AsciiLower | src/services/photoService.js:19 | `toLowerCase` on an extension, for ASCII only: each of A-Z becomes its lower-case letter and every other character is unchanged, length kept |
| JsString.EnvOr | config/index.js:10 | a variable that is set and non-empty is used, an unset or empty one falls back to the default |
| JsString.Utf16Length | index.js:206 | `.length` counts one or two code units per character |
| JsString.Utf16LengthAppend | index.js:206 | the length of a concatenation is the sum of the lengths |
| JsString.Decimal | src/controllers/tableController.js:23 | a number prints as digits that spell it, with no leading zero except for 0 itself |
| LineMessages.PostbackRoute | index.js:97-106 | `seat_lookup` gives the instructions, `wedding_photo` a photo, anything else no reply |
| LineMessages.KeywordRoute | index.js:141-149 | the two-language seat, photo and menu keywords, otherwise a seat query on the text itself |
| LineMessages.MenuPostbacksAreDispatched | index.js:162-176 | both buttons of the menu template send data the postback dispatch answers |
| IndexHandler.TextRoute | index.js:109-149 | each cache keyword, seat keyword, photo keyword and menu keyword gets its own route (iff); every other text is a seat query on the text itself (iff); never null |
| IndexHandler.Route | index.js:87-153 | welcome iff `follow`; null iff another non-message, non-postback type or an unknown postback; seat instructions iff the `seat_lookup` postback or a seat keyword, a photo iff the `wedding_photo` postback or a photo keyword; the menu iff a non-text message or a menu keyword; each cache keyword iff the trimmed text is it; a seat query on the trimmed text iff that text is no keyword |
| IndexHandler.PhotoReply | index.js:185-226 | a failure's message (or the fallback); a set `url` as is; otherwise `APP_BASE_URL/pictures/<encoded name>`, replaced by the too-long text beyond 1000 code units and by the fallback when encoding throws |
| IndexHandler.SeatImageUrl | index.js:241-244 | no URL iff `encodeURIComponent` throws; otherwise the URL is `APP_BASE_URL` (or empty) plus `/api/tables/`, followed by exactly the encoded file name |
| IndexHandler.SeatReplies | index.js:228-264 | one or two messages: the text, then the `/api/tables/` image only if it exists, is named and fits 1000 code units; an encoding error replaces everything with the system-error text |
| IndexHandler.Respond | index.js:87-153 | no reply exactly for the null route; each route's messages: the welcome text, the seat instructions, the photo reply for the looked-up photo, the menu, the two cache-failure texts, the seat replies for the looked-up name |
| IndexHandler.HandleEvent | index.js:87-153 | `null` iff the route is null; otherwise at least one message; the welcome, instructions, photo, menu and seat-query routes each send the messages named for it |
| IndexHandler.CleanCacheAlwaysFails | index.js:108-125 | for every world, a text that trims to `cleancache` is answered with the cache-failure text |
| IndexHandler.ClearPhotoCacheAlwaysFails | index.js:126-140 | for every world, a text that trims to `clearPhotoCache` is answered with the photo-cache-failure text |
| IndexHandler.ImageUrlsWithinLimit | index.js:196-254 | every image index.js sends has a URL of at most 1000 code units, the same for original and preview |
| IndexHandler.PhotoWithinLimit | index.js:196-217 | a photo sent as an image is within the limit |
| IndexHandler.SeatWithinLimit | index.js:239-256 | a table image sent with a seat is within the limit |
| IndexHandler.SeatTextFirst | index.js:239-256 | a seat query answers with a text first; a second message is the image of the guest's existing table file |
| IndexHandler.PhotoImageIsSent | index.js:196-217 | with a single listed photo, an encoder that keeps its name and no `APP_BASE_URL`, the photo postback is answered with the image `/pictures/<name>` |
| IndexHandler.PaddedNameNeverFound | index.js:109-148 | the name looked up is the trimmed text, so a key with surrounding whitespace is never asked for |
| IndexHandler.KeywordsShadowGuests | index.js:111-149 | a text that trims to a keyword never becomes a seat query |
| IndexHandler.PhotoAlwaysLocal | index.js:196-204 | with this photo service every photo sent is `APP_BASE_URL/pictures/<encoded file name>` |
| AppHandler.Route | src/app.js:58-115 | never the welcome and never `clearPhotoCache`; null iff not a message or postback, or an unknown postback; seat instructions, photo, menu and `cleancache` exactly as in index.js; a seat query on the trimmed text iff that text is `clearPhotoCache` or no keyword |
| AppHandler.StripTrailingSlash | src/app.js:175 | a URL ending in `/` loses exactly that slash; any other is unchanged |
| AppHandler.StripsOneSlashOnly | src/app.js:224 | only one slash goes: the base of `b/` is `b` even when `b` itself ends in `/` |
| AppHandler.BaseUrl | src/app.js:171-175 | `NGROK_URL`, or the placeholder default when unset or empty, with one trailing slash removed: unchanged without a slash, and the slash restored gives the configured URL back |
| AppHandler.PhotoReply | src/app.js:159-193 | a failure's message; otherwise `<base>/pictures/<encoded name>` with no length check, or the fallback when encoding throws |
| AppHandler.SeatReplies | src/app.js:196-258 | the text always first; the `/tables/` image second iff the file exists, encodes and its URL fits 1000 code units |
| AppHandler.Respond | src/app.js:58-115 | no reply for the null route (and the `clearPhotoCache` route this handler never takes); each other route's messages, with image links built on the ngrok base |
| AppHandler.HandleEvent | src/app.js:58-115 | `null` iff the route is null; otherwise at least one message; never the welcome route; the instructions, photo, menu and seat-query routes each send the messages named for it |
| AppHandler.CleanCacheAlwaysFails | src/app.js:80-98 | for every world, a text that trims to `cleancache` is answered with the cache-failure text |
| AppHandler.FollowGetsNoReply | src/app.js:59-66 | a `follow` event gets no reply |
| AppHandler.RoutesDiffer | src/app.js:58-115 | the two handlers route an event differently iff it is `follow` or a text trimming to `clearPhotoCache`, which src/app.js looks up as a name |
| AppHandler.PhotoUrlUnchecked | src/app.js:171-185 | a found photo whose name encodes, under a base longer than 1000 code units, is still sent as an image whose URL exceeds the limit |
| AppHandler.TableImageWithinLimit | src/app.js:229-242 | a table image sent with a seat is within the limit |
| RichMenuService.WeddingRichMenu | src/services/richMenuService.js:8-46 | a selected 2500×843 menu with two areas posting `seat_lookup` and `wedding_photo` |
| RichMenuService.AreasTileCanvas | src/services/richMenuService.js:17-44 | every point of the canvas lies in exactly one area |
| RichMenuService.AreasInsideCanvas | src/services/richMenuService.js:17-44 | no area reaches outside the canvas |
| RichMenuService.AreasMatchMenu | src/services/richMenuService.js:25-41 | each area posts the data and shows the caption of the matching template button, and the dispatch answers it |

## Left out

- Express and the LINE SDK are not modelled: the webhook middleware and signature check, `replyMessage` itself, static file serving, the health and debug endpoints, the error middleware and the server start. A reply is the value handed to `replyMessage`.
- A single message and a one-element array are the same reply here. `replyMessage` accepts both.
- Google authentication and the Sheets API request are replaced by the outcome passed in (`Option<Option<seq<Row>>>`).
- File system calls become inputs: `readFileSync`, `readdirSync`, `existsSync` and `statSync`.
- Path joining is symbolic: `path.join` normalisation is not modelled, and the basename of a joined photo path is taken to be the listed name.
- `encodeURIComponent` is an opaque function. Its output is only concatenated and measured.
- `Math.random` is a real argument in [0, 1). No claim is made about floating-point products.
- The resizing done by `sharp` is not modelled; only whether it succeeds.
- The megabyte test uses `bytes > 1048576`. For integer sizes this is equivalent, since dividing by a power of two is exact.
- JavaScript numbers are unbounded integers here. `parseInt` of a digit run longer than 15 digits is not rounded to a double.
- `tableNames[table]` is read as a plain dictionary. Inherited names such as `constructor` or `toString` would find `Object.prototype` members in JavaScript; they count as absent here.
- Only lookups are modelled on a `Map`, not its insertion order. The code only calls `has`, `get` and `set`.
- Asynchrony, promise ordering, concurrent webhook events and logging are not modelled. Two overlapping `getGuests` calls are treated one after the other.
- `setupRichMenu` is not modelled. It performs only I/O: it checks the image file and calls the LINE rich-menu API.
- scripts/cli.js, scripts/generate_table_images.js, scripts/setupRichMenu.js, server.js and src/routes/tableRoutes.js are not part of this model.
- Configuration entries that no modelled code reads are carried but not used: the LINE channel token and secret and the Google Cloud Storage settings.
- getTableImage's outer `catch` (src/controllers/tableController.js:58-64), which answers 500 with `服務器錯誤`, is not modelled: `TableImage` treats the size lookup (`statSync`) as always succeeding once `existsSync` has, so a file removed between the two calls is out of scope.
- index.js's `LINE_CHANNEL_*` environment fallbacks for the channel token and secret are not modelled: `Config.Environment` has no fields for them, because only the LINE SDK client reads those values.
- `event.source.userId` is only logged, and the reply token only addresses the reply. Neither is modelled.
- Events are assumed to carry the fields their type implies. A `postback` event without `postback`, or a `message` without `message`, would throw in JavaScript.
