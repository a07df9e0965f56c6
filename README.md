# Evolv recruitment assistant: roster ingestion, direct lookup and chat turns

This project models the deterministic core of a recruitment chat assistant.
Candidates check their interview status by typing their phone number.

- **Roster ingestion** (`utils.ts`). The recruiting sheet arrives as CSV text. A lenient scanner, `parseCSV`, splits it into rows of fields. The first row gives the headers, lower-cased and trimmed. Every later row becomes a `Candidate`: each header is matched by substring against `name`, `phone|mobile|contact`, `status`, `date` and `position|role`, in that order. Phone values keep only their digits. Unrecognised headers keep their cell under their own name.
- **Phone helpers** (`utils.ts`). `normalizePhone` keeps the decimal digits of a string. `isLikelyPhoneNumber` accepts a text holding 7 to 15 digits.
- **Direct lookup** (`App.tsx`). `performDirectLookup` finds the first cached candidate whose digits equal the query's digits. It formats either a found reply or a not-found reply that ends with the HR contact.
- **Chat turns** (`App.tsx`). `handleSend` ignores blank input and sends made while a turn is in progress. Otherwise it clears the input, appends the trimmed user message and asks the agent. It then appends exactly one model reply:
  - the agent's text, or a default when that text is empty;
  - when the agent fails, a lookup for phone-like messages, the HR contact for messages mentioning `hr` or `contact`, and a generic apology otherwise.

Modules:

- `JsText`: the JavaScript string built-ins the source uses: `trim`, `toLowerCase`, `includes` and the `\D` test.
- `Types`: `Candidate` and `Message`.
- `Phone`: the phone helpers.
- `Csv`: `parseCSV`. It is written as the method `ParseCsv`, whose loop is proved to compute the function `Parse`. `Parse` runs a scanner over the rest of the input with one character of look-ahead.
- `Roster`: the header mapping. It is written as the loops `RowToCandidate` and `CandidatesFromRows`, proved to build the column-by-column description `ExpectedCandidate`.
- `Lookup`: `performDirectLookup`.
- `Chat`: the reply of a turn, `TurnReply`. The class `ChatSession` holds the component state `messages`, `input`, `isLoading` and `cachedCandidates`.

The definitions behind each source line (the table under "## Model" lists the members whose contracts state properties of them):

- utils.ts:19, the header keys: `Roster.HeaderKeys`.
- utils.ts:25, a cell: `Roster.Cell`.
- utils.ts:27-32, the header patterns in priority order: `Roster.Classify`.
- utils.ts:84-86: `Phone.NormalizePhone`.
- utils.ts:91-94: `Phone.IsLikelyPhoneNumber`.
- App.tsx:38-39, the search: `Lookup.FindMatch` (corrected) and `Lookup.FindAsWritten` (as written).
- App.tsx:37-45, the whole lookup with its two reply templates: `Lookup.DirectLookup` (corrected) and `Lookup.DirectLookupAsWritten` (as written).
- App.tsx:63-83, the three-way fallback: `Chat.FallbackReply` (corrected) and `Chat.FallbackReplyAsWritten` (as written).
- App.tsx:56-83, the reply of a turn: `Chat.TurnReply` and `Chat.TurnReplyAsWritten`.

The agent's answer for a turn is an input: `AgentOk(text)` or `AgentFailed`. `handleSend` is split in two at its `await`:

- `BeginSend` runs the guard and the appends before the agent call. It returns the trimmed message and the roster the callback captured.
- `CompleteSend` appends the reply and clears the loading flag.
- `HandleSend` runs both back to back.

Where JavaScript semantics matter they are written out:

- A missing `name` or `status` prints as `undefined` in the template.
- `x || fallback` treats a missing value and `""` alike.
- Assigning to `candidate["__proto__"]` changes nothing.
- `row[index]?.trim() || ''` reads a missing cell as `""`.
- A sheet without a phone column leaves `phone` unset, so `phone` is an `Option`.

## Model

| member | source | states |
|---|---|---|
| Phone.NormalizePhone | utils.ts:84-86 | the result is all digits and no longer than the input |
| Phone.NormalizePhoneAppend | utils.ts:84-86 | normalising a concatenation concatenates the normal forms, so the digits keep their order |
| Phone.NormalizeDigitsUnchanged | utils.ts:84-86 | a string of digits is returned unchanged |
| Phone.NormalizeNoDigits | utils.ts:84-86 | a string without digits gives the empty string |
| Phone.NormalizePhoneIdempotent | utils.ts:84-86 | normalising twice is normalising once |
| Phone.NormalizedLengthCountsDigits | utils.ts:84-86 | the result is exactly as long as the number of digit positions of the input |
| Phone.LikelyPhoneIffDigitCount | utils.ts:91-94 | a text is a likely phone number iff it holds between 7 and 15 digits |
| Phone.LikelyPhoneOfDigits | utils.ts:91-94 | on a digit string the test is `7 <= length <= 15`, so 6 and 16 digits are refused and 7 and 15 accepted |
| JsText.TrimEmptyIffBlank | App.tsx:49 | `input.trim()` is empty iff the input is all whitespace, so such input is refused |
| Csv.Parse | utils.ts:73-78 | empty text gives no rows |
| Csv.ParseCsv | utils.ts:45-79 | the scanning loop, with its skip over a doubled quote, returns `Parse(text)` |
| Csv.ScanConcat | utils.ts:51-71 | the scanner reads a concatenation part by part unless a `""` pair straddles the seam |
| Csv.ScanSeparator | utils.ts:60-67 | outside quotes a comma ends the field and a line feed ends the row; inside quotes both are field content |
| Csv.ParseNewlineTerminated | utils.ts:63-76 | input ending right after an unquoted line feed yields no trailing empty row |
| Csv.ScanKeepsNoCR | utils.ts:68-70 | the scanner never puts a carriage return into any field, row or result |
| Csv.ParseNoCR | utils.ts:68-70 | no parsed field contains a carriage return |
| Csv.ScanOpenQuote | utils.ts:58-70 | inside an open quote, quote-free input is appended to the field without its carriage returns |
| Csv.ParseUnterminatedQuote | utils.ts:51-76 | an unterminated quote absorbs the rest of the input, commas and line feeds included, into the final field of the last row |
| Csv.ScanEscaped | utils.ts:55-57 | a field with its quotes doubled is read back as the field inside quotes |
| Csv.ScanQuoted | utils.ts:55-59 | a quoted field with doubled inner quotes is read back as the field, whatever commas, line feeds or quotes it holds |
| Csv.ScanEncodedRow | utils.ts:55-67 | a row of quoted fields ended by a line feed is read back as that row |
| Csv.ScanEncodedTable | utils.ts:51-76 | a table of quoted rows is appended to the result row by row |
| Csv.ParseEncodedTable | utils.ts:45-79 | round trip: a carriage-return-free table with every field quoted parses back to itself |
| Csv.ParseQuotedField | utils.ts:55-76 | a lone quoted field parses to one row holding it, except the empty field, which gives no row |
| Roster.LastMatch | utils.ts:24-32 | finds the last header of a category before `n`, or reports that there is none |
| Roster.LastIndexOf | utils.ts:24-32 | finds the last occurrence of a header before `n`, or reports its absence |
| Roster.ExtraLastColumn | utils.ts:24-32 | after the first `n` columns, a key is a pass-through field iff some column carries it, it is unrecognised and it is not `__proto__`; its value is the cell of the last such column |
| Roster.ExpectedFieldStep | utils.ts:24-31 | one more column sets a recognised field iff the column is of that field's kind, and leaves it alone otherwise |
| Roster.ExpectedCandidateStep | utils.ts:24-33 | visiting one more column with the first matching pattern extends the description of the first `n` columns to `n + 1` |
| Roster.RowToCandidate | utils.ts:22-34 | the header loop builds `ExpectedCandidate`: each field comes from the last column of its kind, and the first matching pattern decides the kind |
| Roster.CandidatesFromRows | utils.ts:17-35 | fewer than two rows give no roster; otherwise there is one candidate per data row, in order, built under the lower-cased and trimmed headers |
| Roster.RecognisedFieldIsLastColumn | utils.ts:24-31 | a recognised field holds the cell of the last column of its kind (a later header overwrites an earlier one); a phone keeps only its digits, and a missing cell reads as `""` |
| Roster.RowPhone | utils.ts:28 | a mapped phone is all digits, and it is absent iff no header is phone-like |
| Roster.ExtraFieldIsLastColumn | utils.ts:32 | an unrecognised header, other than `__proto__`, is stored under its own name with the cell of its last column, and no other key is stored |
| Roster.FetchSheetData | utils.ts:9-40 | a network failure or a non-OK response gives the empty roster; otherwise the body is parsed and mapped as above |
| Lookup.FindFrom | App.tsx:39 | returns the first index at or after `i` whose phone has the query's digits, or none when no such index exists |
| Lookup.FirstMatchWins | App.tsx:38-39 | with several matching candidates, the earliest is found |
| Lookup.FindFromAsWritten | App.tsx:39 | the search as written throws iff it reaches a candidate without a phone before any match; otherwise it agrees with `FindFrom` |
| Lookup.FoundReplyShowsCandidate | App.tsx:41-42 | a found reply contains the name, the status, the position or `N/A`, and the interview date or `To be scheduled` |
| Lookup.NotFoundReplyEchoesQuery | App.tsx:44 | with no match the reply contains the query as typed and the HR contact block |
| Lookup.EmptyRosterNotFound | App.tsx:39-44 | an empty roster always gives the not-found reply with the HR contact |
| Lookup.FormattedQueryFindsCandidate | App.tsx:38-42 | a query with dashes between the digits finds the candidate stored with the bare digits |
| Lookup.AsWrittenAgreesWithPhones | App.tsx:37-45 | when every candidate has a phone, the lookup as written returns the corrected reply |
| Lookup.MissingPhoneThrows | App.tsx:39 | as written, a candidate without a phone makes the lookup throw, where the corrected lookup answers "not found" |
| Chat.TurnReply | App.tsx:56-83 | every turn's model reply is non-empty |
| Chat.AgentReplyVerbatim | App.tsx:58-59 | on agent success a non-empty text is the reply verbatim, and a missing or empty text gives the default reply |
| Chat.PhoneCheckTakesPrecedence | App.tsx:64-71 | when the agent fails, a likely phone number gets the system note followed by the direct lookup, and never the HR reply, even if it mentions HR |
| Chat.NonPhoneReplyIgnoresRoster | App.tsx:71-83 | when the agent fails, a message that is not a phone number gets the HR reply if it mentions `hr` or `contact` and the generic reply otherwise, whatever the roster |
| Chat.HrRequestGetsHrReply | App.tsx:71-76 | a digit-free message containing `HR` in capitals gets the HR reply, since the message is lower-cased before the test |
| Chat.AsWrittenAgreesWithPhones | App.tsx:56-86 | when every candidate has a phone, the turn as written gives the corrected reply |
| Chat.MissingPhoneColumnDropsReply | App.tsx:63-70 | as written, a phone-number message against a roster without phones gets no reply; the corrected turn answers "not found" |
| Chat.UserMessageKeepsLog | App.tsx:53-54 | appending a non-empty user message to a finished conversation keeps it well formed and starts a turn |
| Chat.ReplyKeepsLog | App.tsx:59-85 | appending a non-empty model reply to a conversation with a turn in progress keeps it well formed and ends the turn |
| Chat.ChatSession.constructor | App.tsx:10-19 | the session starts with the greeting alone, empty input, not loading and an empty roster |
| Chat.ChatSession.SetInput | App.tsx:157 | typing replaces the input and keeps the session invariant |
| Chat.ChatSession.SetCachedCandidates | App.tsx:24-25 | the prefetched roster replaces the cache |
| Chat.ChatSession.BeginSend | App.tsx:47-54 | blank input or a turn in progress changes nothing; otherwise the input is cleared, the trimmed message is appended, loading is set and the captured roster is returned |
| Chat.ChatSession.CompleteSend | App.tsx:56-86 | exactly one model message, `TurnReply`, is appended and loading is cleared; the greeting, the alternation of roles and the non-empty texts are preserved |
| Chat.ChatSession.CompleteSendAsWritten | App.tsx:56-86 | as written, a throwing lookup appends nothing while `finally` still clears loading, which breaks the one-reply-per-turn invariant |
| Chat.ChatSession.HandleSend | App.tsx:47-87 | a turn either changes nothing or clears the input and appends one user message and one model reply, ending not loading |

## Left out

- `geminiService.ts` is not part of this model. It wraps a chat library that is not visible here, so the agent's answer for a turn is an input (`AgentOutcome`). Its tool handler (geminiService.ts:58-60) repeats the search as written, `Lookup.FindFromAsWritten`: on a sheet without a phone column it throws too.
- `Roster.FetchSheetData`: the HTTP request is replaced by its outcome (`FetchResponse`), and the logged error is not modelled.
- The session-start prefetch `useEffect` (App.tsx:23-27) is not modelled. Its effect is `SetCachedCandidates`, which may run at any point, also while a turn waits for the agent (App.tsx:24-25 against App.tsx:58). `SetCachedCandidates` does not require the session to be idle, and a turn keeps the roster `BeginSend` captured in its `PendingTurn`, as the callback's closure does.
- `Chat.ChatSession.HandleSend` runs a turn without interruption. React's asynchronous state updates and any interleaving at the `await` are left out. While a turn is in progress the guard refuses new sends, and `BeginSend` and `CompleteSend` model the two halves.
- Message timestamps, `console.warn`/`console.error`, scrolling, the quick-reply buttons and all rendering are left out. That includes the `**` bold splitter, because it is presentation only.
- `JsText.ToLower` maps ASCII letters only. No non-ASCII character lower-cases into any of the patterns tested (`name`, `phone`, `mobile`, `contact`, `status`, `date`, `position`, `role`, `hr`), so the outcomes of the tests are the same. The lower-cased header is also the key of a pass-through field (utils.ts:32), and there the model differs: a header such as `Ä` is stored as `Ä` rather than `ä`, so two headers that differ only in a non-ASCII capital are two keys in the model but collide in the source.
- Strings are sequences of Unicode code points, not UTF-16 code units. This makes no difference to the ASCII delimiters and digits the scanner and the helpers look at.
- `Phone.LikelyPhoneOfDigits` states the 6/7/15/16-digit boundary for every digit string rather than for particular literal numbers.
- `Csv.ParseEncodedTable`: the quoting writer (`EncodeTable`) is a reference encoder defined for the round trip. The source has no CSV writer.

## Findings

| source | as written | input that shows it | evidently intended | confidence | as-written member | corrected member |
|---|---|---|---|---|---|---|
| App.tsx:39 | `normalizePhone(c.phone)` is applied to every cached candidate. A sheet with no header containing `phone`, `mobile` or `contact` leaves `phone` undefined (utils.ts:23-33), so `undefined.replace` throws inside the `catch` branch of `handleSend`. The agent's tool handler runs the same search (geminiService.ts:60), so a status check on such a sheet also makes the agent fail and reach this fallback. The `finally` clears the loading flag, and the user's message is left with no reply. | the agent fails; the roster is `[c]` where `c` has no phone; the message is `9876543210` | a candidate without a phone does not match, and the reply is "not found" with the HR contact | not executed | Chat.MissingPhoneColumnDropsReply | Lookup.FindFrom |
