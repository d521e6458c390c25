# astroai_bot core in Dafny

A Dafny model of astroai_bot, a Telegram bot that sells three readings for
Telegram Stars:

- **Numerology** ("NUM_200"). The user sends `DD.MM.YYYY Name`. The bot computes:
  - the life-path number;
  - the Pythagoras matrix: digit counts, eight line totals, the missing and dominant digits and a 3×3 grid.

  It then replies with an express reading and asks an LLM for a detailed JSON report.
- **Palmistry** ("PALM_300"). The user sends a photo, then optional context. The bot tries a Mistral vision request on the photo. Failing that, it asks the text LLM chain.
- **Natal chart** ("NATAL_500"). The user sends four lines in one message: name, date, time (or "не знаю") and city. An older step-by-step entry (date, then time, then city) is still handled.

Every purchase creates an order row. The handlers merge what they collect, the parsed report, or the raw LLM reply into the order's JSON meta.

## Modules

| Module | File | Contents |
|---|---|---|
| `Text` | text.dfy | The Python `str` operations the bot relies on: `strip`, `lower`, `split`, `split(maxsplit=1)`, `find`, `rfind`, `f"{n:02d}"`, `join`, slicing |
| `Json` | json.dfy | The values `json.loads` yields, plus Python truthiness, `or`, `.get` and `[0]` on them |
| `Numerology` | numerology.dfy | Life path, digit counts, line totals, saturation bands, matrix meta, grid |
| `Extractors` | extractors.dfy | Dates and `strptime` validity, the free and strict time formats, the four-line natal message, the numerology entry, palm context and dominant hand |
| `JsonRepair` | json_repair.dfy | `_try_parse_json_from_text`. It is the exact chain of string repairs. `json.loads` is a parameter `parse: string -> Option<Json>` |
| `Router` | router.dfy | The model-candidate loops of the OpenAI and Mistral clients, the OpenAI → Gemini → Mistral chain, the Gemini prompt and reply normalisation, reply-content extraction, the MIME guess, the photo download and the vision path |
| `Ledger` | ledger.dfy | The `profiles` and `orders` tables as a class with map fields. `upsert_profile`, `create_order`, `update_order` and `fetch_last_orders` are its methods |
| `Reports` | reports.dfy | The three `generate_and_send_*` generators as functions from settings and world answers to order writes and chat notices |
| `Session` | session.dfy | `context.user_data` and each handler's transition as a pure step: new session, order writes, replies, report requests |
| `Bot` | bot.dfy | The bot as a class: per-user sessions, a ledger reference and an outbox. Each Telegram handler is a method that runs the step and applies it |

All network I/O is abstracted the same way. The answer to the k-th HTTP request a router run makes is `net(k)`, a parameter. The palm generator additionally receives Telegram's answers (`getFile`, the file download) and the vision reply. The clock is a `now` parameter.

## Model

| member | source | states |
|---|---|---|
| Text.Strip | src/bot.py:1539 | The result has no surrounding whitespace and is a no-op on text without any whitespace |
| Text.Lower | src/bot.py:1606 | Lower-cases character by character and keeps the length |
| Text.Find | src/bot.py:516 | The index of the first occurrence of the character, or none exactly when it is absent |
| Text.RFind | src/bot.py:516 | The index of the last occurrence of the character, or none exactly when it is absent |
| Text.SplitOn | src/bot.py:1191 | `split("\n")`: at least one piece, no piece contains the separator, and the first piece is the text up to the first separator |
| Text.SplitOnJoinAll | src/bot.py:1191 | Splitting a join of separator-free pieces gives back the pieces |
| Text.SplitFirstWord | src/bot.py:1697 | `split(maxsplit=1)`: no pieces exactly for blank text; otherwise the first piece is the leading word of the left-stripped text (non-empty, no whitespace, ended by whitespace or the end), and a second piece exists exactly when something non-blank follows it, and is that remainder left-stripped |
| Text.SplitFirstWordBlank | src/bot.py:1697-1698 | No pieces exactly when the text is all whitespace |
| Text.SplitFirstWordJoin | src/bot.py:1697 | A word, one space and a rest that does not start with whitespace split back into the word and the rest |
| Text.Pad2 | src/bot.py:1225 | `f"{n:02d}"` for n ≤ 99 is two digits whose value is n |
| Text.Take | src/bot.py:797 | `s[:n]` is a prefix of length min(n, len(s)) |
| Json.Or | src/bot.py:791 | `a or b` is a when a is truthy, else b |
| Json.Get | src/bot.py:791 | `.get(key, default)` on a dict gives the value or the default, and fails on a non-dict |
| Json.First | src/bot.py:791 | `[0]`: the head of a non-empty list or the first character of a non-empty string; IndexError on an empty one, KeyError on a dict, TypeError on a number, bool or null |
| Json.DigitKeyed | src/bot.py:1728 | Serialising the count dict keys each digit count under its digit as a string |
| Json.IntList | src/bot.py:1731 | A list of ints becomes a JSON array holding the same ints in the same order |
| Json.OptStr | src/bot.py:1558 | `None` becomes JSON null, and only `None` does |
| Numerology.DecimalDigitSum | src/bot.py:1004 | One reduction step never grows the number, shrinks any n > 9 and keeps a positive number positive |
| Numerology.Reduce | src/bot.py:1002-1005 | The loop terminates in 0..9, 11 or 22, and gives 0 only for 0 |
| Numerology.CalcLifePath | src/bot.py:999-1006 | The summing loop and the reducing loop compute LifePath of the date string |
| Numerology.DigitSumPermutation | src/bot.py:1000-1001 | The digit sum depends only on the multiset of characters |
| Numerology.LifePathPermutation | src/bot.py:999-1006 | The life path is invariant under any permutation of the characters |
| Numerology.LifePathRange | src/bot.py:999-1006 | With a nonzero digit the result is in 1..9, 11 or 22. With none it is 0 |
| Numerology.LifePathExample | src/bot.py:999-1006 | "21.09.1999" has digit sum 40 and life path 4 |
| Numerology.CountsOf | src/bot.py:1009-1017 | The keys are exactly 1..9, and count[d] is the number of occurrences of the character d. '0' and non-digits are ignored |
| Numerology.PythagorasCounts | src/bot.py:1009-1017 | The in-place counting loop yields CountsOf of the date string |
| Numerology.CountsStep | src/bot.py:1012-1016 | One character adds one to its own digit's count and nothing elsewhere |
| Numerology.PythagorasLines | src/bot.py:1031-1047 | Each of the eight named totals is the sum of its three digit counts, an absent key counting 0 |
| Numerology.RowsAndColumnsBalance | src/bot.py:1038-1044 | The three rows and the three columns each add up to the total count |
| Numerology.LineTotalOfDate | src/bot.py:1031-1047 | For a date, a line total is the number of occurrences of its three digit characters |
| Numerology.DigitTier | src/bot.py:1150-1160 | Five bands: ≤0 → 0, 1, 2, 3, ≥4 → 4 |
| Numerology.DigitTierMonotone | src/bot.py:1150-1160 | A larger count never has a lower band |
| Numerology.SaturationPhrase | src/bot.py:1049-1063 | The phrase is the one for the count's band |
| Numerology.SaturationBands | src/bot.py:1049-1063 | Two totals get the same phrase exactly when they fall in the same band, so the five phrases are distinct |
| Numerology.MissingFrom | src/bot.py:1172 | Exactly the digits with count 0, strictly ascending |
| Numerology.HeavyFrom | src/bot.py:1173 | Exactly the digits with count ≥ 3, strictly ascending |
| Numerology.InsertByKey | src/bot.py:1173 | Insertion keeps the order by (-count, digit) and adds exactly one element |
| Numerology.SortByKey | src/bot.py:1173 | `sorted(key=lambda x: (-counts[x], x))`: a permutation ordered by descending count, then ascending digit |
| Numerology.ExtendedMatrixMeta | src/bot.py:1171-1177 | `missing` is the digits with count 0. `dominant` is the digits with count ≥ 3, by descending count then ascending digit |
| Numerology.MetaNoDuplicates | src/bot.py:1171-1177 | `missing` is strictly ascending, and no digit appears twice in `dominant` |
| Numerology.MissingDominantDisjoint | src/bot.py:1171-1177 | No digit is both missing and dominant |
| Numerology.MissingAllZero | src/bot.py:1172-1173 | With all counts zero every digit from the bound is missing and none is heavy |
| Numerology.AllZeroMeta | src/bot.py:1171-1177 | The all-zero dict has all nine digits missing and none dominant |
| Numerology.AllZeroLines | src/bot.py:1031-1063 | The all-zero dict has every line total 0, and each is in the "empty" band |
| Numerology.Repeat | src/bot.py:1024 | `str(n) * c` has length c and consists only of that character |
| Numerology.GridCell | src/bot.py:1022-1024 | The digit repeated count times, or "—" when the count is not positive |
| Numerology.PadRight | src/bot.py:1025 | `:<7` keeps the text as a prefix and pads with spaces to the width |
| Numerology.NoNewlineInRow | src/bot.py:1025-1027 | A grid row contains no newline |
| Numerology.GridLines | src/bot.py:1019-1028 | The grid splits into exactly the rows 1-4-7, 2-5-8 and 3-6-9 |
| Extractors.DaysInMonth | src/bot.py:1204 | 28..31 days, and 29 exactly for February of a Gregorian leap year |
| Extractors.CheckDate | src/bot.py:1201-1206 | A shape error exactly when the text is not `\d{2}\.\d{2}\.\d{4}`. OK exactly when it is also a real calendar date with year ≥ 1 |
| Extractors.FormatDateRoundTrip | src/bot.py:1201-1206 | Formatting d, m and y gives a date of the right shape that reads back as d, m and y, and it is accepted exactly when the date is valid |
| Extractors.DateShapeIsFormatted | src/bot.py:1201 | Every date of the right shape is the formatting of its own fields |
| Extractors.DigitsInjective | src/bot.py:1201 | Two digit strings of equal length and value are equal |
| Extractors.FormatClockValid | src/bot.py:1225 | `f"{hh:02d}:{mm:02d}"` of an in-range time is a valid HH:MM whose fields read back as hh and mm |
| Extractors.SuffixPart | src/bot.py:1213 | The optional suffix group splits the text into a whitespace gap and one of утра, вечера, am, pm, with a gap only before a word |
| Extractors.AfterSep | src/bot.py:1213 | After the separator, the reading has optional two minute digits and a suffix, and covers the text exactly |
| Extractors.AfterHour | src/bot.py:1213 | After the hour, the reading has an optional `:` or `.` and the tail, and covers the text exactly |
| Extractors.WithHour | src/bot.py:1213 | A reading with the given hour digits that covers hour + rest |
| Extractors.MatchFreeTime | src/bot.py:1213 | Any match is a well-formed reading of the regex that covers the whole text |
| Extractors.MatchFreeTimeComplete | src/bot.py:1213 | Every well-formed reading is found: the matcher accepts every text the regex matches, with that reading |
| Extractors.NoSecondHourDigit | src/bot.py:1213 | When the second character is a digit, the one-digit-hour reading cannot match, so the regex reading is unique |
| Extractors.TwelveHour | src/bot.py:1219-1222 | pm/вечера add 12 to hours 1..11, am/утра map 12 to 0, and otherwise the hour is unchanged |
| Extractors.ClockOf | src/bot.py:1216-1225 | Accepted exactly when the hour after the am/pm rule is ≤ 23 and the minutes (0 when absent) are ≤ 59, otherwise the range error; the accepted value is a zero-padded HH:MM whose fields read as that hour and those minutes |
| Extractors.ParseFreeTime | src/bot.py:1209-1225 | Unknown-time words give None exactly. A format error exactly when the regex does not match. Otherwise the result is the time of the regex reading. An accepted time is valid HH:MM |
| Extractors.FreeTimeOfReading | src/bot.py:1209-1225 | A text whose lower-cased, stripped form is a reading parses to that reading's clock |
| Extractors.ClockRead | src/bot.py:1213-1225 | The reading of "HH:MM" gives back the same HH:MM |
| Extractors.FreeTimeOfPlain | src/bot.py:1209-1225 | For trimmed lower-case text, parsing is the clock of its reading |
| Extractors.FreeTimeFixesClock | src/bot.py:1209-1225 | A formatted HH:MM parses to itself |
| Extractors.FreeTimePm | src/bot.py:1219-1220 | "7 pm" is 19:00 |
| Extractors.FreeTimeNoSeparator | src/bot.py:1213-1217 | "930" is 09:30 |
| Extractors.ParseStrictTime | src/bot.py:1605-1617 | In the step-by-step entry, unknown-time words give None exactly, a format error exactly when the text is not `\d{1,2}:\d{2}`, and an accepted time is valid HH:MM |
| Extractors.StrictClockOf | src/bot.py:1610-1617 | A strict `H:MM` or `HH:MM` is read as the free-format reading with a colon |
| Extractors.StrictRefinesFree | src/bot.py:1610-1617 | On every strict-shaped text the four-line parser and the step parser agree |
| Extractors.KeepNonBlank | src/bot.py:1191 | The kept lines are non-empty and stripped, and there are no more of them than pieces |
| Extractors.ParseNatalAll | src/bot.py:1190-1235 | Each error exactly in its case, checked in the code's order: fewer than four non-blank lines; a date not shaped DD.MM.YYYY; a shaped but impossible date; a time format error; a time out of range; a city under two characters. An accepted input is (line 1, line 2, the parsed time of line 3, line 4) |
| Extractors.TypedLinesKept | src/bot.py:1190-1191 | A message joined from trimmed single lines splits back into those lines |
| Extractors.DateLineTyped | src/bot.py:1201 | A date of the right shape is a trimmed single line |
| Extractors.ValidClockIsFormatted | src/bot.py:1225 | Every valid HH:MM is the formatting of its own fields |
| Extractors.ClockLineTyped | src/bot.py:1225 | A valid HH:MM is a trimmed single line |
| Extractors.ClockLineParses | src/bot.py:1209-1225 | A stored HH:MM reads back as itself |
| Extractors.UnknownLineTrimmed | src/bot.py:1209-1210 | The unknown time is written as the first unknown-time word |
| Extractors.UnknownLineParses | src/bot.py:1209-1211 | The unknown-time line reads back as None |
| Extractors.TimeLineReads | src/bot.py:1209-1225 | The time line of any stored time reads back as that time |
| Extractors.FourLinesKept | src/bot.py:1190-1191 | Four trimmed single lines joined by newlines are the four non-blank lines |
| Extractors.NatalAllAccepts | src/bot.py:1190-1235 | Four non-blank lines with a valid date, a readable time and a long-enough city are accepted as (name, date, time, city) |
| Extractors.NatalAllRoundTrip | src/bot.py:1181-1235 | Parsing the four-line message composed from any valid input gives that input back |
| Extractors.ParseNumInput | src/bot.py:1697-1709 | A shape error exactly when there are fewer than two pieces or the first is not a date pattern; a date error exactly when the first piece has the shape but is not a calendar date. An accepted entry is the two pieces |
| Extractors.NumInputRoundTrip | src/bot.py:1697-1709 | A valid date, a space and a name that does not start with whitespace parse back to (date, name) |
| Extractors.PalmContext | src/bot.py:1655-1657 | None exactly for the skip words (case-insensitive), otherwise the stripped text |
| Extractors.DominantHand | src/bot.py:1671-1677 | "правая" wins, "левая" only when "правая" is absent, and none without context or either word |
| Extractors.DominantHandIgnoresCase | src/bot.py:1673 | The guess does not change when the context is lower-cased first |
| JsonRepair.LStripChar | src/bot.py:505 | `lstrip(c)` removes exactly the leading run of c |
| JsonRepair.Normalize | src/bot.py:502-505 | After strip, `\r` removal, NBSP replacement and BOM lstrip, no `\r`, no NBSP and no leading BOM remain |
| JsonRepair.Unfence | src/bot.py:508-513 | Text without a leading fence is unchanged, and the result is never longer |
| JsonRepair.UnfenceOf | src/bot.py:508-513 | A fenced block with any one-line tag yields exactly the trimmed body |
| JsonRepair.BraceSpan | src/bot.py:516-518 | Either the text is unchanged, or the result runs from a `{` to a `}`. The text is unchanged when either brace is missing |
| JsonRepair.BraceSpanOf | src/bot.py:516-518 | Prose without braces around a `{…}` span yields exactly the span |
| JsonRepair.StripLineComments | src/bot.py:521 | Removing `//…` comments never lengthens the text |
| JsonRepair.LineCommentsGone | src/bot.py:521 | No `//` is left afterwards |
| JsonRepair.NoLineComment | src/bot.py:521 | Text without `//` is unchanged |
| JsonRepair.LineCommentRemoved | src/bot.py:521 | One `//` comment is cut up to, not including, its newline, and the text before it is kept |
| JsonRepair.StripBlockComments | src/bot.py:522 | Removing `/*…*/` comments never lengthens the text |
| JsonRepair.NoBlockComment | src/bot.py:522 | Text without `/*` is unchanged |
| JsonRepair.BlockCommentRemoved | src/bot.py:522 | One `/*…*/` comment, the shortest, is cut and the text around it is kept |
| JsonRepair.DropTrailingCommas | src/bot.py:525 | Removing `,\s*` before `}` or `]` never lengthens the text |
| JsonRepair.DropKeepsSkeleton | src/bot.py:525 | Only commas and whitespace are removed: the text without them is the same |
| JsonRepair.DropNoTrailing | src/bot.py:525 | Text without a trailing comma is unchanged |
| JsonRepair.DropCommaBeforeCloser | src/bot.py:525 | A comma followed by whitespace and a closer is dropped, and both sides are processed as before |
| JsonRepair.SwapGuillemets | src/bot.py:534 | No « or » is left, the length is kept, and text without them is unchanged |
| JsonRepair.TryParseJsonFromText | src/bot.py:499-538 | A non-string gives {}. When the repaired text parses, that value is the result |
| JsonRepair.SecondAttemptOnly | src/bot.py:527-538 | After a failed first parse, the guillemet-swapped text's value is the result, or {} when it fails too |
| JsonRepair.GuillemetsOnlyOnRetry | src/bot.py:527-538 | A first parse that succeeds is used even though the swap would have changed the text |
| JsonRepair.PlainObjectUntouched | src/bot.py:499-538 | A clean object text passes every repair unchanged and parses as itself |
| JsonRepair.ProseAroundObject | src/bot.py:502-525 | An object with brace-free prose before and after it is cut out exactly |
| JsonRepair.FencedObjectRecovered | src/bot.py:507-518 | A fenced clean object with any tag is recovered and parsed as the bare object |
| JsonRepair.PrepareFenced | src/bot.py:502-525 | A fenced object without comments is repaired to the object with its trailing commas removed |
| JsonRepair.FencedTrailingCommaRecovered | src/bot.py:499-538 | A fenced object with a trailing comma before a closer is recovered without that comma and parsed |
| Router.Is2xxIsFloorDivision | src/bot.py:379 | The 2xx range is exactly the codes with `status // 100 == 2` |
| Router.Candidates | src/bot.py:363-389 | One request per model at most, and at least one when there is a model |
| Router.CandidatesInOrder | src/bot.py:363-389 | Models are asked in list order. Every request but the last was a non-2xx. A body is returned exactly when the last request succeeded, and it is that request's body. The loop stops early only on a 2xx or an exception |
| Router.CandidatesAllRefused | src/bot.py:363-389 | When every model answers non-2xx, each is asked once and the error names the last refusal's body |
| Router.CandidatesRefusal | src/bot.py:381-387 | A refusal moves on to the next model with that body as the last error |
| Router.CandidatesStop | src/bot.py:378-380 | A 2xx returns its body and an exception propagates, both after one request |
| Router.TryCandidates | src/bot.py:363-389 | The loop with `last_err_text` computes the candidate specification: same result, same requests |
| Router.ChatCompletion | src/bot.py:350-389 | Without a key: the "<PROVIDER>_API_KEY is not set" error (OPENAI, GEMINI, MISTRAL) and no request. Otherwise the provider's candidate loop |
| Router.ProviderCall | src/bot.py:393-436 | Every request goes to this provider, none before the last succeeded, and a result comes back exactly when the last one succeeded |
| Router.GeminiResult | src/bot.py:471-482 | A 2xx is wrapped as `{choices:[{message:{content:text}}]}`. A non-2xx is the "Gemini HTTP code: body" error |
| Router.GeminiTextRead | src/bot.py:475 | The text put in a Gemini reply is the text read out |
| Router.GeminiTextOfEmpty | src/bot.py:473-477 | A reply without candidates gives the empty text |
| Router.Chunks | src/bot.py:336-347 | At most one chunk per message |
| Router.ChunkShape | src/bot.py:342-347 | Every chunk is `[role]` on a line followed by the content |
| Router.ChunksAppend | src/bot.py:337-347 | A message adds its chunk at the end, or nothing when its content is empty |
| Router.FormatAppend | src/bot.py:334-348 | The prompt grows by a blank line and the new chunk, and an empty message leaves it unchanged |
| Router.EmptyMessagesIgnored | src/bot.py:340-341 | Messages with empty content contribute nothing |
| Router.Attempt | src/bot.py:445-492 | A disabled or already-answered provider changes nothing. An attempt only appends its own requests. An answer means the last request succeeded. No earlier request succeeded |
| Router.AttemptStopsAtFirstSuccess | src/bot.py:445-492 | Each attempt keeps "stopped at the first successful request" |
| Router.RouteOrder | src/bot.py:440-497 | Only providers with a key are called, in the order OpenAI, Gemini, Mistral |
| Router.RouteStopsAtFirstSuccess | src/bot.py:440-497 | A success is the first successful request and the last one made. A failure means no request succeeded |
| Router.RouteErrors | src/bot.py:494-497 | No keys: "No LLM keys configured" with no request. Otherwise at least one request, and a failure is "All LLM providers failed…" |
| Router.RouteReportsLastError | src/bot.py:486-497 | With Mistral enabled, a failure names the last provider's error |
| Router.RouteOpenAiFirst | src/bot.py:445-447 | With OpenAI enabled, a 2xx from its first model is the answer after one request |
| Router.RouteGeminiWrapped | src/bot.py:453-479 | With only Gemini first, its 2xx answer is wrapped in the chat shape after one request |
| Router.RouteOpenAiRefused | src/bot.py:445-458 | Two OpenAI refusals are followed by exactly one Gemini request |
| Router.LlmChatCompletion | src/bot.py:440-497 | The router with `last_error` computes the chain specification: same result, same requests |
| Router.ExtractContent | src/bot.py:791 | A non-dict reply raises AttributeError; a dict `choices` raises KeyError and a number or `true` TypeError; any failure is one of these three |
| Router.ContentOfChatReply | src/bot.py:791 | The content of a chat-shaped reply is read back exactly |
| Router.GeminiContentRoundTrip | src/bot.py:475-479 | The text of a Gemini reply is the content the generators read |
| Router.ContentWithoutChoices | src/bot.py:791 | A dict with missing or empty `choices` gives the empty string |
| Router.MimeFor | src/bot.py:28-31 | The guess is always png, webp or jpeg |
| Router.PngMime | src/bot.py:30 | A `.png` path, in any case, is image/png |
| Router.WebpMime | src/bot.py:31 | A `.webp` path, in any case, is image/webp |
| Router.JpegMime | src/bot.py:28-31 | A `.jpg` path is image/jpeg |
| Router.DownloadDataUrl | src/bot.py:2-37 | A data URL comes back exactly when `getFile` succeeded with a non-empty `result.file_path` and the download was a 2xx, and it is `data:<mime of that path>;base64,<bytes>` |
| Router.FilePath | src/bot.py:10-16 | A path exactly when `getFile` was a 2xx whose body is a dict with a dict `result` holding a non-empty string `file_path`, and it is that string |
| Router.DownloadOfGetFile | src/bot.py:2-37 | A `getFile` answer naming a path, then a 2xx download, give the data URL with the MIME type of that path |
| Router.DownloadNeedsPath | src/bot.py:10-17 | A refused `getFile`, or one whose `result` has no path, downloads nothing |
| Router.VisionReport | src/bot.py:904-930 | A vision report exists only when vision is enabled for Mistral with a key and a photo, a data URL was obtained, the reply was a 2xx and its content parsed to a non-empty value |
| Router.VisionReportOfReply | src/bot.py:905-930 | A 2xx chat-shaped vision reply whose content parses to a non-empty value yields that report |
| Reports.OrderWrite | src/bot.py:813-814 | `if order_id:` means exactly one write when there is an order, to that order, and none otherwise |
| Reports.Failure | src/bot.py:818-828 | One message: the technical reason exactly for the admin |
| Reports.RawValue | src/bot.py:797 | `(content or "")[:4000]` keeps at most 4000 elements, keeps the prefix of a string, gives "" for a falsy content and raises for other values |
| Reports.Snippet | src/bot.py:806-808 | The admin snippet is the whole text up to 800 characters, else the first 800 and "…" |
| Reports.SnippetOf | src/bot.py:805-809 | The snippet of a string reply, "" for a falsy one, and an exception otherwise |
| Reports.UnparsedKeepsRaw | src/bot.py:793-811 | An unparsed reply writes at most the raw key, ≤ 4000 characters and no status, to its own order, and never renders a report |
| Reports.StoredReportRendered | src/bot.py:812-828 | A parsed report is merged under its report key, and rendered exactly when the renderer does not raise on it; otherwise the renderer's exception goes to the admin and the apology to others |
| Reports.RenderError | src/bot.py:541-545 | Rendering anything but a dict raises AttributeError; a dict fails only as the renderer does |
| Reports.RenderFailureAfterStore | src/bot.py:812-828 | A report the renderer raises on is still stored with the success status, and the admin reads the exception |
| Reports.ContentFailureReported | src/bot.py:789-828 | A reply whose content cannot be read writes nothing, and the admin reads KeyError for a dict `choices` and TypeError for a number |
| Reports.ParsedEffectsOutcome | src/bot.py:789-817 | At most one write, to the own order. A non-admin gets one message without technical details. A parse failure writes only the raw key |
| Reports.ReportWritesOwnOrder | src/bot.py:771-828 | A generator writes at most once, only to its own order, and shows non-admins no technical detail |
| Reports.RenderedIffParsed | src/bot.py:789-817 | A report is shown exactly when the reply's content parsed to a non-empty value the renderer accepts. It is then stored with the success status |
| Reports.ParseFailureKeepsRaw | src/bot.py:793-799 | After a parse failure the only write is the raw reply, ≤ 4000 characters, with no status change |
| Reports.RouterFailureReported | src/bot.py:818-828 | A router failure writes nothing. The admin sees the reason and others a generic message |
| Reports.UnparsedProse | src/bot.py:793-811 | A prose reply stores its first 4000 characters and shows the admin the snippet |
| Reports.ProseReplyKept | src/bot.py:789-811 | End to end: a reply that does not parse is kept raw in the order and reported as unparsed |
| Reports.NumerologyNeedsOpenAiOrGemini | src/bot.py:781-783 | Numerology without OpenAI and Gemini keys only says so, even when a Mistral key would route |
| Reports.PalmOutcomeWrites | src/bot.py:920-972 | The palm generator writes at most twice, only to its own order. A shown report is stored with status done |
| Reports.PalmTextWrites | src/bot.py:945-972 | The text path writes once at most. A shown report is stored done with the photo id |
| Reports.PalmWritesOwnOrder | src/bot.py:898-982 | The whole palm generator writes only to its own order, and a shown report is stored done |
| Reports.VisionReportIsFinal | src/bot.py:920-930 | A vision report the renderer accepts is shown and stored, and the text chain is not asked |
| Reports.VisionRenderFailureFallsBack | src/bot.py:920-945 | A vision report the renderer raises on is stored with status done, then the text path runs and its messages are the only ones sent |
| Reports.PalmWithoutVision | src/bot.py:904-905 | Without vision eligibility the text chain alone decides |
| Reports.GeneratorsWriteOwnOrder | src/bot.py:771-982 | All three generators write only to the order they were given |
| Session.AmountFor | src/bot.py:1482 | The listed price of the payload, or 0 for an unknown payload |
| Session.BeginFlowOpens | src/bot.py:1479-1529 | Payment clears the session, keeps only the new order id, and opens natal/natal_all, palm/palm_photo or num/num_input by payload. An unknown payload opens none |
| Session.PricedIffFlow | src/bot.py:1482-1529 | A flow opens exactly for a priced payload |
| Session.CancelForgets | src/bot.py:1297-1316 | `/cancel` clears the session, writes no order and sends the welcome |
| Session.NoFlowIgnored | src/bot.py:1541-1543 | Without a flow a text changes nothing and sends nothing |
| Session.TextDispatch | src/bot.py:1538-1764 | The stripped text goes to the step of the open flow and state, and is otherwise ignored |
| Session.NatalAnswerOutcome | src/bot.py:1547-1585 | A parse error only replies. On success the order is closed done with the four fields, the session is closed and the natal report is requested |
| Session.NatalAllOutcome | src/bot.py:1547-1585 | The same for the message text as parsed by the four-line parser |
| Session.NatalAllStoresInput | src/bot.py:1547-1562 | The four-line message of any valid input stores exactly that input in the order |
| Session.NumAnswerOutcome | src/bot.py:1696-1764 | A bad entry only replies. A good one closes the order done with date, name, life path, counts, lines and matrix meta, closes the session and requests the report |
| Session.NumInputOutcome | src/bot.py:1696-1764 | The same for the message text as parsed |
| Session.PalmContextOutcome | src/bot.py:1654-1693 | Without a stored photo, the state goes back to palm_photo. Otherwise the session closes and the report is requested with the context and the dominant hand |
| Session.PhotoOutcome | src/bot.py:1767-1791 | Only in palm/palm_photo with photos: the last photo is kept, the state moves to palm_ctx and the order gets awaiting_input plus the file id |
| Session.PhotoThenContext | src/bot.py:1767-1784 | A photo followed by any context closes the flow with a report request for that photo |
| Session.NatalStepsOutcome | src/bot.py:1587-1650 | Date and time steps only advance the state on valid input. The city step closes the order and the session once the city has ≥ 2 characters |
| Session.NatalStepsRecordAnswers | src/bot.py:1587-1641 | Valid date, time and city answers are exactly what the closing write stores |
| Session.TextStepWritesOwnOrder | src/bot.py:1538-1764 | A text message never writes any order but the session's own |
| Ledger.MergeContents | src/storage.py:80-81 | The merged meta has the old and the new keys, and the new values win |
| Ledger.UpdatedIdempotent | src/storage.py:72-90 | Repeating the same update changes nothing more |
| Ledger.UpdatedKeepsIdentity | src/storage.py:82-90 | The update keeps user, payload, amount and creation time. It keeps status and charge id unless they are given, keeps every meta key and refreshes `updated_at` |
| Ledger.ApplyWritesFrame | src/storage.py:77-90 | Writes add no row, and a row no write names stays as it was |
| Ledger.ApplyWritesLastStatus | src/storage.py:83-84 | A row's status is the last one written to it |
| Ledger.UpsertedKeepsCreation | src/storage.py:38-54 | An update keeps `created_at` and sets `last_seen`. An insert sets both to now |
| Ledger.LastOrdersBounded | src/bot.py:171-184 | At most `limit` rows, all existing ids |
| Ledger.LastOrdersDescending | src/bot.py:177 | `ORDER BY id DESC`: strictly descending |
| Ledger.LastOrdersComplete | src/bot.py:171-184 | When fewer than the limit are listed, or an id is newer than the last one listed, it is listed |
| Ledger.AllOrdersListed | src/bot.py:171-184 | With no limit every order is listed |
| Ledger.FetchLimit | src/bot.py:1338-1342 | The argument clamped to 1..50, and 5 when there is none or it is not a number |
| Ledger.Ledger.constructor | src/storage.py:11-36 | Empty tables with the first id 1 |
| Ledger.Ledger.UpsertProfile | src/storage.py:38-54 | Inserts or updates the profile as Upserted says and touches no order |
| Ledger.Ledger.CreateOrder | src/storage.py:56-70 | The next id, the row exactly as given with `created_at == updated_at`, every other row kept, and the counter advanced by one |
| Ledger.Ledger.UpdateOrder | src/storage.py:72-92 | The table becomes the specification's update: merged meta, status and charge id only when given, fresh `updated_at`, and an unknown id changes nothing |
| Ledger.Ledger.FetchLastOrders | src/bot.py:171-184 | The scanning loop yields the newest `limit` ids, and all ids for a negative limit |
| Bot.OwnWritesFrame | src/storage.py:90 | A step's writes to its own order leave every other order as it was |
| Bot.DatePart | src/bot.py:1351 | The date part is the prefix of the timestamp before its first "T", all of it when there is none |
| Bot.LastOrdersEmptyIff | src/bot.py:1344-1347 | "No orders yet" exactly when the table is empty |
| Bot.ListedRows | src/bot.py:1344-1352 | Listed rows are real orders, newest first and without gaps |
| Bot.OrdersAnswerShape | src/bot.py:1327-1352 | Refused exactly for a non-admin, when an admin is set. Empty exactly when there are no orders. Otherwise 1..limit rows of real orders, newest first, without gaps |
| Bot.Bot.constructor | src/bot.py:1793-1815 | No sessions and nothing sent, over the given ledger |
| Bot.Bot.Apply | src/bot.py:153-168 | A step's writes are applied in order, the session replaced and its replies sent |
| Bot.Bot.BeginFlowAfterPayment | src/bot.py:1479-1529 | One new awaiting_input order priced by the payload under the next id, which then advances by one; profiles kept; the flow it opens |
| Bot.Bot.TextRouter | src/bot.py:1538-1764 | Applies the text step. The set of orders, the profiles and the id counter are unchanged, every order other than the session's own is untouched, and only this user's session and messages change |
| Bot.Bot.PhotoRouter | src/bot.py:1767-1791 | Applies the photo step. An existing order gets status awaiting_input and the photo's file id. Profiles, the id counter and other users' sessions and messages are unchanged |
| Bot.Bot.Cancel | src/bot.py:1297-1316 | The session is cleared, the orders, profiles and id counter are untouched, the welcome is sent, and other users are unaffected |
| Bot.Bot.Start | src/bot.py:1256-1274 | The profile is upserted and the welcome is sent. Orders, the id counter and sessions are untouched |
| Bot.Bot.OrdersLast | src/bot.py:1327-1352 | Sends the answer the specification gives, and nothing else changes |

## Behaviour of the code worth knowing

- An order's status can move backwards: a photo sets its order back to `awaiting_input` (src/bot.py:1779), so no monotonicity is proved.
- The step-by-step natal entry (date, then time, then city) closes the order and the flow without requesting a report (src/bot.py:1626-1650). `Session.NatalStepsOutcome` states this.
- The numerology generator stops unless an OpenAI or a Gemini key is set, even when only a Mistral key is configured (src/bot.py:781-783).
- A Gemini answer is wrapped in the OpenAI chat shape (src/bot.py:479), and every generator reads the content from that shape (src/bot.py:791).
- The life-path number of "21.09.1999" is 4 (src/bot.py:999-1006), as `Numerology.LifePathExample` shows.

## Left out

- HTTP is a parameter and is never performed:
  - the router's requests are `net: nat -> Outcome`;
  - the Telegram `getFile` and download answers, and the base64 text of the file, are `World` fields;
  - `_mistral_vision_analyze_palm`'s request is `World.visionReply`.
- `json.loads` is a parameter `parse: string -> Option<Json>`. `json.dumps` of the meta is left out: meta values are kept as JSON values.
- The model does not state that the repair is idempotent on a re-serialised object. That needs `json.dumps`.
- Prompt texts are not modelled, because they are fixed text: `SYSTEM_PROMPT`, the developer prompts and `build_user_prompt_*`. A report request records the input the prompt is built from.
- The HTML and Markdown renderings are not modelled, because they are presentation templating. This covers `_render_*_report_html`, `render_pythagoras_summary`, `render_digit_interpretations`, the `NUM_DESCRIPTIONS` and `DIGIT_MEANINGS` tables and the reply texts. Replies are named constructors carrying the data they show.
- Telegram transport beyond the outbox is not modelled: `send_stars_invoice`, `on_menu`, `menu_cmd`, `whoami`, `send_service_text`, `precheckout_handler`, `successful_payment_handler` (which only calls the payment step) and `main`'s handler registration.
- The `TEST_MODE` suffix of the welcome text is not modelled.
- Concurrency is not modelled: `asyncio.to_thread`, and the replies sent before a generator is awaited. A handler's replies are appended in the order the code sends them.
- The sampling parameters `temperature`, `top_p` and `max_tokens` are not modelled. They are passed through unchanged.
- SQLite plumbing is not modelled: `_conn`, the `init_db` DDL, `meta_json` encoding and database failures. The tables are maps, and the autoincrement id is a counter.
- Logging is not modelled.
- `src/config.py` is not part of this model. The keys are booleans, `ADMIN_ID` is a string, and `int(...)` on text is a parameter `toInt`.
- The clock is a `now` parameter.
- JSON floats are not modelled: a JSON number is an integer (`JNum(int)`), so a float in an LLM reply or in stored meta has no counterpart.
- Unicode digits are not modelled. `\d` and `str.isdigit()` are taken as ASCII digits, so non-ASCII decimal digits are not accepted.
- Text.Lower: lower-cases ASCII and the basic Cyrillic block only, which covers the words the bot compares.
- Exception messages other than the bot's own are represented by the exception's class name. Examples are an `AttributeError` from `.get` on a non-dict, or a `TypeError` from slicing a non-string.
- Router.ExtractContent: its ensures names the exception class of each failure but not the content of a successful read. That is stated by `Router.ContentOfChatReply` and `Router.ContentWithoutChoices`.
- Router.Candidates: its ensures bounds the number of requests only. The order, stopping rule and error are stated by `Router.CandidatesInOrder` and `Router.CandidatesAllRefused`.
- JsonRepair.StripLineComments, JsonRepair.StripBlockComments and JsonRepair.DropTrailingCommas: their ensures bound the length only. What each removes is stated by the lemmas that follow them.
