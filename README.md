# Verified model of the legal-research chat backend

This project models, in Dafny, the core of a chat assistant for Turkish constitutional-court rulings and statutes. It covers the following parts.

- The personal-data redaction engine. Turkish names, e-mail addresses, phone numbers, identity numbers (TCKN) and addresses are masked by an ordered cascade of regular-expression replaces. There is the server's cascade (`utils/privacyUtils.js`), its recursive walk over objects, and the browser's own copy (`client/src/App.js`).
- The retrieval pipeline (`services/embeddingService.js`). Vector search falls back to full-text search. A hybrid search merges the two result lists and removes duplicates on (ruling, chunk). A context assembler turns the rows into a numbered text block.
- The context and prompt assembly of the chat model (`services/geminiService.js`). The retrieval context is used when it is long enough. Otherwise rulings, constitution articles and penal-code articles are searched separately. The result is a prompt plus a mapped history for the completion call.
- The chat routes (`routes/chat.js`):
  - the client address and the admin allow-list;
  - the user id;
  - the daily usage counter and its quota gate;
  - the clean-up of the answer text;
  - the conversation store that `/send`, `/conversation`, `/conversations` and the soft delete change.
- The admin data routes (`routes/database.js`):
  - the parameterised query builder of `/kararlar`;
  - the guard of `/search`;
  - the keyed merge of `/sync` with its counters.

The source's regular expressions are written out as hand-made matchers (`Patterns`), one per pattern. For each matcher two lemmas or contracts state that whatever it matches is a reading of the pattern, with the replacement the source's callback builds, and that every reading the pattern admits is matched, with the greedy choice of where a match ends. A global `String.replace` is a left-to-right scan that replaces each match and resumes after it.

Database queries, the embedding provider and the chat model are oracles: function parameters that return either a failure or the rows or text. The clock, the UUID generator and the request headers are plain parameters. State the source changes in place appears in two classes:
- `Chat.ChatStore` holds the conversations and messages tables as maps.
- `AdminData.SyncTarget` holds the four tables `/sync` writes.

Loops in the source are methods with loop invariants. Each is proved equal to a specification function, and the properties are lemmas about those functions.

Modules:
- `Text`: characters, word boundaries, `parseInt`, number printing, `trim`, dash removal.
- `Patterns`: the matchers and the global replace.
- `Privacy`: the server's sanitizers and `sanitizeObject`.
- `ClientPrivacy`: the browser's cascade and user id.
- `Retrieval`: the embedding service.
- `Gemini`: context, prompt and completion.
- `Chat`: the chat routes.
- `AdminData`: the data routes.

Where the code and its comments or design notes disagree, the model follows the code. The lemmas below state the behaviour as written:

- Masks have fixed widths (`***`, `****`) whatever the length of the masked word.
- The full-name pattern runs first, so it also takes forms of address and honorifics:
  - "Ahmet Bey" becomes "A*** B****", not "A*** Bey" (`Privacy.AhmetBey`);
  - "Sayın Ahmet Yılmaz" becomes "S*** A**** Yılmaz", leaving the surname readable (`Privacy.SayinAhmetYilmaz`).
- The `\b` before `\+90` holds only after a word character. So an international number at the start of the text or after a space is never matched by that pattern (`Patterns.IntlNeedsWordBefore`).
- The browser's cascade has no address step and no bare `5XX` phone step. A five-digit postal code is masked on the server and not in the browser (`ClientPrivacy.PostalCodeServerOnly`).
- The key test of `sanitizeObject` runs both ways (`lowerKey.includes(field) || field.includes(lowerKey)`). So the empty key, `id` and any key containing `tc` (such as `fetchedAt`) count as personal.
- The daily usage counts every message of the user's conversations: both roles, and conversations that are soft-deleted. As each turn stores two messages, the limit of 10 allows five turns a day (`Chat.FiveTurnsADay`).
- The hybrid search runs the vector search and then the text search, one after the other. Its catch branch cannot be reached, because both searches catch their own failures.
- The client address is the first entry of `X-Forwarded-For` whenever that header is present. So a request that sends `X-Forwarded-For: 127.0.0.1` is treated as an admin (`Chat.ForwardedLoopbackIsAdmin`).
- `/send` does not check that the conversation it appends to belongs to the caller. It only checks that the conversation exists, through the foreign key of `messages.conversation_id`; that key is part of the database schema and is assumed here.
- A turn sent into another user's conversation is counted for that conversation's owner, not for the sender (`Chat.ForeignTurnIsFree`).
- A text conversation id is read by `parseInt` with no radix, so `"0x1f"` names conversation 31 (`Chat.HexIdTargets`).
- Without an `x-user-id` header every request draws a new UUID, so it gets a new user id (`Chat.FallbackIdsDiffer`), which owns no conversation and so has a usage of 0 (`Chat.UnseenUserAdmitted`): the daily limit never applies to such a caller.
- `/send` calls `generateResponse(message)` with no history, so its default `[]` is used: each answer is computed from the message alone, and earlier turns of the conversation never reach the chat model (`Chat.AnswerFor`). `Gemini.MapHistory` is only ever given the empty list.
- A `null` entry in the `yeniTablolar` list of `/sync` makes the route answer 500 after the four tables were already written. The entries' names are read outside the per-item `try` (`AdminData.SyncTarget.Sync`).
- The title UPDATE of `/send` writes the same title the conversation was created with, so it changes nothing.

## Model

| member | source | states |
|---|---|---|
| Text.ParseMagnitude | routes/chat.js:51 | the part of `parseInt`'s input after white space and sign gives a number exactly when it starts with a decimal digit, or with `0x`/`0X` followed by a hexadecimal digit; otherwise NaN (None) |
| Text.ParseIntOfDigits | routes/database.js:35 | a string of decimal digits is read whole, as its base-ten value |
| Text.ParseIntOfHex | routes/chat.js:191 | `0x` or `0X` followed by hexadecimal digits is read whole, in base sixteen |
| Text.HexMagnitude | routes/chat.js:191 | after a `0x` prefix, a run of hexadecimal digits to the end of the text is the value read |
| Text.ParseIntNegated | routes/chat.js:191 | a leading `-` negates the value read after it, and NaN stays NaN |
| Text.ParseIntHexExample | routes/chat.js:191 | `parseInt("0x1f")` is 31 and `parseInt("-0x1f")` is -31 |
| Text.ParseIntBareHexPrefix | routes/database.js:35 | `0x` or `0X` with no hexadecimal digit after it is NaN |
| Text.ParseIntStopsAtLetter | routes/chat.js:51 | reading stops at the first character that is not a digit: `12abc` is 12 |
| Text.NatToStringRoundTrip | routes/chat.js:87 | the decimal text a template literal prints for a number reads back as that number |
| Text.ParseIntOfNat | routes/chat.js:51 | `parseInt` of the printed count gives the count back |
| Text.Trim | routes/chat.js:117 | `trim` removes white space, and only white space, from both ends: the result is a slice of the input whose cut-off prefix and suffix are all white space, and it neither starts nor ends with white space |
| Text.Prefix | client/src/App.js:78 | `substring(0, n)` is the first min(length, n) elements |
| Text.RemoveDashes | client/src/App.js:78 | `replace(/-/g, '')` leaves no dash, adds no character and is no longer than its input |
| Text.RemoveDashesKeeps | client/src/App.js:78 | a text without dashes is left as it is |
| Text.RemoveDashesConcat | routes/chat.js:85 | removing dashes distributes over concatenation |
| Text.ShortUuid | client/src/App.js:78 | the short id has at most eight characters and no dash |
| Text.ShortUuidOfCanonical | routes/chat.js:85 | for a UUID in its usual form the short id is its first block of eight characters |
| Patterns.LastWordComplete | utils/privacyUtils.js:14 | a capitalised word ending at any word boundary the pattern admits is found, and the end found is the largest (greedy `[a-z…]+\b`) |
| Patterns.TwoNamesComplete | utils/privacyUtils.js:14 | whenever `U L+ \s+ U L+ \b` reads from j, the matcher finds it with the same two word starts and an end at least as far |
| Patterns.MatchFullName | utils/privacyUtils.js:14-32 | a match is a boundary, two capitalised words and a boundary; it is replaced by the two first letters with fixed `***` and `****`, whatever the word lengths; no match means no such reading exists at i; the end is the greediest |
| Patterns.FirstWordFinds | utils/privacyUtils.js:16 | among alternatives no two of which can both be read at one place followed by `\b`, the one that can be read is the one found, whatever their order |
| Patterns.DifferExcludes | utils/privacyUtils.js:18 | two alternatives that disagree at a common position cannot both be read at the same place |
| Patterns.ApartExcludes | utils/privacyUtils.js:134 | when one alternative ends in a word character where the other goes on with one, both cannot be read at one place each followed by `\b` |
| Patterns.HonorificsAreKeywords | utils/privacyUtils.js:16 | Bey, Hanım and Efendi begin with a capital and exclude one another |
| Patterns.WordThenKeywordFinds | utils/privacyUtils.js:16 | whenever `U L+ \s+ w\b` reads from i with a listed keyword w, the matcher finds that keyword at that place |
| Patterns.MatchKeywordSound | utils/privacyUtils.js:16-34 | a match of the honorific or street pattern is a capitalised word, white space and a listed keyword at a boundary; it becomes the first letter, `*** ` and the keyword unchanged |
| Patterns.MatchKeywordComplete | utils/privacyUtils.js:134-147 | every capitalised word followed by white space and a listed keyword at a boundary is matched, and replaced by its first letter, `*** ` and the keyword |
| Patterns.TitlesDiffer | utils/privacyUtils.js:18-20 | no two titles (Av., Dr., Prof., Doç., Yrd. Doç.), and neither of Sayın and Değerli, can be read at the same place |
| Patterns.PrefixedNamesFinds | utils/privacyUtils.js:18 | a title followed by white space and two capitalised words is found with that title and those words |
| Patterns.MatchTitledName | utils/privacyUtils.js:18-20 | a match starts at a word boundary and is not empty |
| Patterns.MatchTitledNameSound | utils/privacyUtils.js:18-38 | a match is a title (or Sayın, Değerli), white space and two capitalised words at a boundary; the title is kept, then `F*** S****` |
| Patterns.MatchTitledNameComplete | utils/privacyUtils.js:18-38 | every title followed by two capitalised words is matched, the surname read at least as far as the reading given, and replaced by the title and `F*** S****` |
| Patterns.MatchInitialed | utils/privacyUtils.js:22 | a match starts at a boundary with a capital and a `.` |
| Patterns.MatchInitialedSound | utils/privacyUtils.js:22-40 | a match is `X.`, white space and a capitalised surname at a boundary; it becomes `X. ` and the surname's first letter and `****` |
| Patterns.MatchInitialedComplete | utils/privacyUtils.js:22-40 | every initial followed by a surname is matched, the surname read at least as far as the reading given, and becomes `X. S****` |
| Patterns.MaskUser | utils/privacyUtils.js:62-64 | a user part longer than 2 keeps its length and its first and last characters, the rest being `*`; a user part of length 1 or 2 becomes its first character and one `*` |
| Patterns.MatchEmail | utils/privacyUtils.js:59 | a match ends after its start and within the text |
| Patterns.MatchEmailSound | utils/privacyUtils.js:59-66 | a match is an address as the pattern reads it; the replacement is the masked user part, `@` and the domain unchanged |
| Patterns.DomainEndComplete | utils/privacyUtils.js:59 | every `.letters\b` ending the domain that the pattern admits is found, and the end taken is the largest |
| Patterns.MatchEmailComplete | utils/privacyUtils.js:59-66 | every address the pattern admits at i is matched, with the longest domain, and becomes the masked user part, `@` and the domain |
| Patterns.PhoneSound | utils/privacyUtils.js:80 | the digit groups found after the first are separated by white space only, as `\s*` allows |
| Patterns.PhoneComplete | utils/privacyUtils.js:80-84 | every reading of the 3, 2 and 2 digit groups with white space between them ends where the matcher says: the groups can be read in one way only |
| Patterns.SpaceBeforeDigit | utils/privacyUtils.js:80 | `\s*` followed by a digit takes all the white space there is |
| Patterns.MatchMobile | utils/privacyUtils.js:80-93 | a match starts at a boundary with `05`; it becomes its first group, ` *** ** ` and its last two digits |
| Patterns.MatchMobileSound | utils/privacyUtils.js:80 | a match is a `05XX` number with its 3, 2 and 2 digit groups, white space between, ending at a boundary |
| Patterns.MatchMobileComplete | utils/privacyUtils.js:80-93 | every `05XX` number the pattern admits is matched whole and becomes `05XX *** ** XX` |
| Patterns.MatchIntl | utils/privacyUtils.js:82 | a match starts at a boundary with `+90` and is at least 13 characters long |
| Patterns.MatchIntlSound | utils/privacyUtils.js:82 | a match is `+90`, white space, a `5XX` group and the 3, 2 and 2 digit groups, ending at a boundary |
| Patterns.MatchIntlComplete | utils/privacyUtils.js:82-95 | every `+90` number the pattern admits is matched whole and becomes `+90 `, the `5XX` group, ` *** ** ` and its last two digits |
| Patterns.IntlNeedsWordBefore | utils/privacyUtils.js:82 | the `\b` before `+` only holds after a word character, so `+90` at the start of the text or after a space is never matched by this pattern |
| Patterns.MatchBare | utils/privacyUtils.js:84-97 | a match starts at a boundary with `5`; it becomes its first group, ` *** ** ` and its last two digits |
| Patterns.MatchBareSound | utils/privacyUtils.js:84 | a match is a `5XX` number with its 3, 2 and 2 digit groups, white space between, ending at a boundary |
| Patterns.MatchBareComplete | utils/privacyUtils.js:84-97 | every bare `5XX` number the pattern admits is matched whole and becomes `5XX *** ** XX` |
| Patterns.MatchTckn | utils/privacyUtils.js:116-120 | matches exactly when eleven digits stand between two word boundaries; they become the first 3 digits, ` *** *** ` and the last 2 |
| Patterns.StreetWordsAreKeywords | utils/privacyUtils.js:134 | Sokak, Sokağı, Cadde, Caddesi, Mahalle and Mahallesi exclude one another at a boundary: `Cadde` inside `Caddesi` is not followed by `\b` |
| Patterns.MatchDoor | utils/privacyUtils.js:136 | a match starts at a boundary with `No` |
| Patterns.MatchDoorSound | utils/privacyUtils.js:136-149 | a match is `No`, optional white space, an optional `:`, optional white space and digits at a boundary; the prefix is kept as written and the digits become ` ***` |
| Patterns.MatchDoorComplete | utils/privacyUtils.js:136-149 | every door number the pattern admits is matched whole, whichever way its prefix is spaced, and becomes the prefix and ` ***` |
| Patterns.MatchPostal | utils/privacyUtils.js:138-151 | matches exactly when five digits stand between two word boundaries; they become the first two digits and `***` |
| Patterns.MatchCollapse | routes/chat.js:102-114 | matches exactly at a run of three or more of the character; the whole run becomes two of them |
| Patterns.MatchLoneStar | routes/chat.js:105 | matches exactly a `*` with no `*` on either side, which is removed |
| Patterns.HeadingCloseFinds | routes/chat.js:108-111 | neither `:` nor `*` is a heading character, so the heading body ends where `:?**` starts |
| Patterns.MatchNumberedHeading | routes/chat.js:108 | a match starts with `**` |
| Patterns.MatchNumberedHeadingSound | routes/chat.js:108 | a match is `**`, digits, `.`, heading characters, an optional `:` and `**`; it becomes a blank line, the same bold heading and a newline |
| Patterns.MatchNumberedHeadingComplete | routes/chat.js:108 | every numbered bold heading is matched whole and set on a line of its own, the optional `:` kept |
| Patterns.MatchCapsHeading | routes/chat.js:111 | a match starts with `**` |
| Patterns.MatchCapsHeadingSound | routes/chat.js:111 | a match is `**`, at least three upper-case or space characters, an optional `:` and `**`; it becomes a blank line, the same bold heading and a newline |
| Patterns.MatchCapsHeadingComplete | routes/chat.js:111 | every such capitalised bold heading is matched whole and set on a line of its own |
| Patterns.ReplaceFromNoMatch | utils/privacyUtils.js:29 | a global replace whose pattern matches nowhere from i on copies the text unchanged |
| Patterns.ReplaceFirstOnly | utils/privacyUtils.js:29 | with a single match at the start, the replace gives that replacement followed by the rest of the text |
| Patterns.ReplaceWhole | utils/privacyUtils.js:29 | a match that covers the whole text is the whole result of the global replace |
| Patterns.ApplyAllConcat | utils/privacyUtils.js:28-45 | folding a pattern list and then another equals folding their concatenation |
| Patterns.ApplyAllEmpty | utils/privacyUtils.js:28-45 | no pattern fold changes the empty text |
| Patterns.ApplyAllInert | utils/privacyUtils.js:28-45 | a text where no pattern of the list matches anywhere comes out of the fold unchanged |
| Patterns.CollapseNoTriple | routes/chat.js:102-114 | after replacing runs of three or more by two, no three of that character follow each other |
| Privacy.RunPatterns | utils/privacyUtils.js:25-47 | the loop that reassigns the text with each pattern's global replace ends with the in-order fold of the whole pattern list |
| Privacy.SanitizeNames | utils/privacyUtils.js:8-48 | a falsy or non-string input is returned unchanged; text goes through the five name patterns in array order |
| Privacy.EmailAlone | utils/privacyUtils.js:55-67 | an address standing alone comes out as the masked user part, `@` and the domain unchanged |
| Privacy.EmailNeedsAt | utils/privacyUtils.js:55-67 | a text without `@` passes `sanitizeEmails` unchanged |
| Privacy.SanitizePhoneNumbers | utils/privacyUtils.js:74-105 | a falsy or non-string input is returned unchanged; text goes through the `05XX`, `+90` and bare `5XX` patterns in that order |
| Privacy.MobileAlone | utils/privacyUtils.js:74-105 | a `05XX` number standing alone comes out of the three phone patterns as `05XX *** ** XX` |
| Privacy.MobileMaskInert | utils/privacyUtils.js:82-84 | the masked `05XX *** ** XX` holds no `+90` and no bare number, so the later phone patterns leave it alone |
| Privacy.PhoneSteps | utils/privacyUtils.js:89-102 | the phone step is the `05XX` replace, then the `+90` replace, then the bare one |
| Privacy.TcknAlone | utils/privacyUtils.js:112-121 | eleven digits standing alone become the first three, ` *** *** ` and the last two |
| Privacy.TwelveDigitsKept | utils/privacyUtils.js:116 | twelve digits in a row pass `sanitizeTCKN` unchanged: `\b` is needed after exactly eleven |
| Privacy.SanitizeAddresses | utils/privacyUtils.js:128-159 | a falsy or non-string input is returned unchanged; text goes through the street, door-number and postal-code patterns in that order |
| Privacy.GuardedThen | utils/privacyUtils.js:166-179 | two guarded steps in a row equal one guarded step over both pattern lists, because an earlier step never turns a non-empty text into "" that a later guard would treat differently |
| Privacy.SanitizeAllPersonalData | utils/privacyUtils.js:166-179 | non-text inputs are returned unchanged; text is exactly the single fold names → e-mails → phones → identity numbers → addresses |
| Privacy.NameMatchHasLower | utils/privacyUtils.js:14-22 | every match of a name pattern needs a lower-case letter in the text |
| Privacy.NamesNeedLowercase | utils/privacyUtils.js:25-47 | a text without lower-case letters passes the name step, or any part of it, unchanged |
| Privacy.FullNameAtStart | utils/privacyUtils.js:14-32 | two name words at the start of the text are matched exactly and become `F*** S****` |
| Privacy.FullNameOfLayout | utils/privacyUtils.js:14 | two name words at the start of the text, one space apart, are matched exactly as far as the second word goes |
| Privacy.FullNameWhole | utils/privacyUtils.js:14-32 | two name words standing alone are replaced by `F*** S****`, whatever their lengths |
| Privacy.HonorificShadowed | utils/privacyUtils.js:14-45 | a name followed by Bey, Hanım or Efendi comes out of the name step as `F*** H****`: the full-name pattern runs first and takes the honorific for a surname, so the honorific pattern never fires |
| Privacy.AhmetBey | utils/privacyUtils.js:33 | "Ahmet Bey" becomes "A*** B****", not the "A*** Bey" the comment states |
| Privacy.NameMatchNeeds | utils/privacyUtils.js:14-22 | every name match needs a lower-case letter followed later by white space, or a `.` after its first character |
| Privacy.NameTailInert | utils/privacyUtils.js:25-47 | masked or capital-only text followed by one word without white space passes the name step unchanged |
| Privacy.FullNameThenWord | utils/privacyUtils.js:14-29 | for three name words, the full-name pattern masks the first two and leaves the third as written |
| Privacy.NameStepSplit | utils/privacyUtils.js:28-45 | the name step is the full-name replace followed by the other four patterns |
| Privacy.MaskThenWordInert | utils/privacyUtils.js:16-22 | a masked pair followed by a word is not matched by the four later name patterns |
| Privacy.RespectfulLeaksSurname | utils/privacyUtils.js:14-38 | "Sayın/Değerli First Last" comes out as `S*** F**** Last`: the form of address is taken for a first name and the surname is left unmasked |
| Privacy.SayinAhmetYilmaz | utils/privacyUtils.js:37 | "Sayın Ahmet Yılmaz" becomes "S*** A**** Yılmaz", not the "Sayın A*** Y****" the comment states |
| Privacy.SanitizeObject | utils/privacyUtils.js:186-220 | the returned copy equals SanitizedValue: a string under a personal key is redacted by the full pipeline, a nested object is walked, every other field is copied, and a non-object is returned as it is |
| Privacy.SanitizePreservesSkeleton | utils/privacyUtils.js:189-217 | the walk changes strings only: keys, their order, nesting and non-string values are the input's |
| Privacy.NoPersonalKeysUnchanged | utils/privacyUtils.js:203-217 | a record with no personal-looking key at any depth comes back equal to the input |
| Privacy.ShortKeysArePersonal | utils/privacyUtils.js:207-209 | the test runs both ways, so the empty key and "id" (part of "identity") count as personal |
| Privacy.FetchedAtIsPersonal | utils/privacyUtils.js:207-209 | any key whose lower-case form contains "tc", such as "fetchedAt", counts as personal |
| Privacy.UpperCaseKeyIsPersonal | utils/privacyUtils.js:204-209 | the key is lower-cased before the test, so `EMAIL` counts as personal |
| Privacy.PersonalByField | utils/privacyUtils.js:204-209 | a key whose lower-case form contains a listed field counts as personal |
| Privacy.ToLowerConcat | utils/privacyUtils.js:204 | `toLowerCase` works piece by piece over a concatenation |
| Privacy.ToLowerOfLower | utils/privacyUtils.js:204 | lower-case ASCII text is left as it is |
| Privacy.ToLowerOfUpper | utils/privacyUtils.js:204 | ASCII capitals are lowered one for one, each to the letter 32 code points further |
| ClientPrivacy.ClientSanitizeAllPersonalData | client/src/App.js:35-57 | non-text inputs are returned unchanged; text is exactly the fold e-mails → `05XX` phones → `+90` phones → identity numbers → the five name patterns, with no bare-phone and no address step |
| ClientPrivacy.ClientFirstSteps | client/src/App.js:38-51 | the four inline replaces, one after the other, are the fold of the client's first four patterns |
| ClientPrivacy.DigitMatchNeeds | client/src/App.js:38-54 | every client pattern, and every server pattern but the postal code, needs a non-digit or at least ten characters to match |
| ClientPrivacy.ShortDigitsInert | client/src/App.js:38-54 | a text of fewer than ten digits passes all those steps unchanged |
| ClientPrivacy.PostalCodeAlone | utils/privacyUtils.js:138-151 | five digits standing alone become their first two digits and `***` |
| ClientPrivacy.PostalCodeServerOnly | client/src/App.js:35-57 | a five-digit code is masked by the server's cascade and passes the client's unchanged: the two cascades differ |
| ClientPrivacy.ClientUserId | client/src/App.js:76-81 | the id starts with `client_` and is longer than eight characters; with the server's header branch it gives the id Chat.ClientIdOnServer states |
| Retrieval.GetEmbedding | services/embeddingService.js:11-20 | null exactly when the embedding call throws, otherwise the vector it returned |
| Retrieval.LikeTerm | services/embeddingService.js:99 | the search term is the query wrapped in `%` on both sides |
| Retrieval.FallbackRows | services/embeddingService.js:78-91 | one result row per ruling, in the query's order |
| Retrieval.FallbackTextSearch | services/embeddingService.js:74-109 | every row is chunk 0 of section `tum_metin` at distance 1; the rows are the matched rulings in order; a throwing query gives [] |
| Retrieval.SearchByEmbedding | services/embeddingService.js:23-71 | without an embedding, or when the vector query throws, the result is exactly the text search for the same query and limit; otherwise the vector query's rows |
| Retrieval.KeyTextInjective | services/embeddingService.js:140 | two rows get the same `karar_id-chunk_index` key exactly when they agree on ruling and chunk |
| Retrieval.DedupShape | services/embeddingService.js:137-147 | the de-duplicated list is a subsequence of the input in input order made of first occurrences of keys, and every first occurrence is in it |
| Retrieval.DedupKeysDistinct | services/embeddingService.js:137-147 | no two output rows share a key |
| Retrieval.DedupKeepsEveryKey | services/embeddingService.js:137-147 | the output has exactly the keys of the input |
| Retrieval.DedupKeepsNewPairs | services/embeddingService.js:137-147 | a row that agrees with no earlier row on ruling and chunk is kept |
| Retrieval.EmbeddingCopyKept | services/embeddingService.js:125-126 | when a key comes from both searches, the copy kept is the vector-search one |
| Retrieval.FallbackRowsOnePerRuling | services/embeddingService.js:80-90 | after de-duplication, text-search rows list each ruling at most once |
| Retrieval.Deduplicate | services/embeddingService.js:137-147 | the filter with its `seen` set returns Dedup of the input |
| Retrieval.Half | services/embeddingService.js:117-121 | `Math.ceil(limit / 2)`: the least h with 2h ≥ limit |
| Retrieval.HybridResult | services/embeddingService.js:112-134 | a hybrid search returns at most `limit` rows |
| Retrieval.HybridRowsDistinct | services/embeddingService.js:124-129 | the rows of a hybrid search are unique on ruling and chunk |
| Retrieval.HybridSearch | services/embeddingService.js:112-129 | the vector search and then the text search, each asked for half the limit, their concatenation de-duplicated and cut to `limit` |
| Retrieval.ChunkBlocks | services/embeddingService.js:158-167 | the blocks exist exactly when no result has a NULL chunk text (otherwise `substring` throws) |
| Retrieval.ContextSnoc | services/embeddingService.js:158-167 | appending one result appends its block, numbered with its position, to the context |
| Retrieval.EmbeddingContext | services/embeddingService.js:156 | the context starts with the fixed header |
| Retrieval.ContextLengthRule | services/embeddingService.js:156-167 | the context is longer than 50 characters exactly when there is at least one result |
| Retrieval.PrepareContextFromEmbeddings | services/embeddingService.js:150-171 | the context of the hybrid search for five results, so at most five blocks |
| Retrieval.AppendBlocks | services/embeddingService.js:156-167 | the loop's buffer, grown by `+=`, ends as the header followed by one block per result numbered from 1, each text cut to 600 characters and followed by `...` |
| Gemini.RowsOrEmpty | services/geminiService.js:12-102 | a `search*` method returns at most `limit` of its query's rows, the first in the query's order, or [] when the query throws, never an error |
| Gemini.SearchSimilarCases | services/geminiService.js:12-46 | at most five rulings |
| Gemini.SearchAnayasaMaddeleri | services/geminiService.js:49-75 | at most three constitution articles |
| Gemini.SearchCezaKanunu | services/geminiService.js:78-102 | at most three penal-code articles |
| Gemini.CaseBlocks | services/geminiService.js:131-139 | the ruling blocks exist exactly when no ruling's text is NULL (otherwise `substring` throws) |
| Gemini.ArticleBlock | services/geminiService.js:146-151 | an article block starts with its number, article number, title and content; the `Gerekçe` line is there exactly when the column is truthy |
| Gemini.FallbackContext | services/geminiService.js:121-164 | the fallback context is built exactly when no ruling text is NULL |
| Gemini.FallbackEmptyIff | services/geminiService.js:126-164 | the fallback context is "" exactly when all three searches found nothing |
| Gemini.FallbackSectionOrder | services/geminiService.js:129-162 | the text opens with the first non-empty section in the order rulings, constitution, penal code |
| Gemini.RetrievalContextChosen | services/geminiService.js:110-116 | the retrieval context is used exactly when the hybrid search found at least one row and none has a NULL text (so it is built and longer than 50 characters) |
| Gemini.ContextFallsBack | services/geminiService.js:110-124 | when the hybrid search finds nothing, the context is the fallback built from the three searches |
| Gemini.ContextFor | services/geminiService.js:105-165 | the context is missing only when one of the rulings the similar-case search returns has a NULL text (the fallback loop throws on it) |
| Gemini.PrepareContext | services/geminiService.js:105-165 | the method gives ContextFor: the retrieval context when truthy and longer than 50 characters, else (also when it threw) the three sections appended in order, each numbered from 1 |
| Gemini.AssembleFallback | services/geminiService.js:121-164 | the fallback half of the method appends the three sections in order, each only when its search found rows; None when a ruling text is NULL |
| Gemini.AppendCaseBlocks | services/geminiService.js:131-139 | the rulings loop appends one block per ruling, numbered from 1, each text cut to 800 characters and followed by `...`; None when a text is NULL |
| Gemini.AppendArticleBlocks | services/geminiService.js:145-152 | the constitution loop appends one block per article, numbered from 1 |
| Gemini.AppendPenalBlocks | services/geminiService.js:158-161 | the penal-code loop appends one block per article, numbered from 1 |
| Gemini.PromptLayout | services/geminiService.js:177-200 | a prompt is its fixed instructions, then the context, then the user's question at the very end |
| Gemini.MapHistory | services/geminiService.js:205-208 | same length and order and same texts; role `user` stays `user` and every other role becomes `model` |
| Gemini.GenerateResponse | services/geminiService.js:168-251 | success exactly when the context is built and the chat call returns; success carries the answer and the context; any failure carries the fixed error text |
| Gemini.Converse | services/geminiService.js:177-251 | once the context is settled: success exactly when it exists and the chat call on the mapped history and the prompt returns; the answer and context are carried back |
| Chat.BeforeComma | routes/chat.js:21 | `split(',')[0]`: the longest comma-free prefix, ending at the first comma or at the end |
| Chat.IndexFrom | routes/chat.js:24-25 | the first occurrence at or after i, or None when there is none |
| Chat.RemoveFirst | routes/chat.js:25 | `replace` with a string pattern cuts out the first occurrence only and keeps what is before and after it; nothing changes when there is none |
| Chat.RemoveFirstSplit | routes/chat.js:25 | when w first occurs right after a, removing it from a + w + b gives a + b |
| Chat.GetClientIp | routes/chat.js:18-29 | with neither header nor socket address the address is `unknown`; a present `x-forwarded-for` gives an address without a comma (the exact sources are in ClientIpSource and MappedAddressUnwrapped) |
| Chat.ClientIpSource | routes/chat.js:20-28 | the first `x-forwarded-for` entry is used whenever the header is present, whatever the socket says; otherwise the socket's address |
| Chat.MappedAddressUnwrapped | routes/chat.js:24-26 | an address `::ffff:a.b.c.d` is reported as `a.b.c.d` |
| Chat.ForwardedLoopbackIsAdmin | routes/chat.js:10-34 | any request whose `x-forwarded-for` is `127.0.0.1` is an admin request, whatever address it came from |
| Chat.MappedLoopbackIsAdmin | routes/chat.js:18-34 | a request from `::ffff:127.0.0.1` without `x-forwarded-for` is unwrapped to the loopback address and is an admin request |
| Chat.UnknownNotAdmin | routes/chat.js:18-34 | a request with neither header nor socket address is `unknown`, which is not an admin address |
| Chat.AlnumOnly | routes/chat.js:69 | the address keeps only ASCII letters and digits |
| Chat.AlnumOnlyConcat | routes/chat.js:69 | the filter works piece by piece over a concatenation, so characters are kept in their order |
| Chat.AlnumOnlyDrops | routes/chat.js:69 | dots, colons and every other non-alphanumeric character are dropped |
| Chat.AlnumOnlyKeeps | routes/chat.js:69 | an address of letters and digits only is kept whole |
| Chat.LastSegment | routes/chat.js:68 | `split('_').pop()`: the `_`-free suffix that follows the last `_`, or the whole text |
| Chat.LastSegmentAfter | routes/chat.js:68 | the last segment of `a_b`, for b without `_`, is b |
| Chat.HeaderUserIdSegment | routes/chat.js:64-70 | the last `_` segment of the id built from `x-user-id` is the header's last segment, or `unknown` when that is empty |
| Chat.ClientIdOnServer | routes/chat.js:64-70 | a browser id `client_<time>_<short uuid>` sent as `x-user-id` becomes `user_` + the address's letters and digits + `_` + the same short uuid |
| Chat.ToInt32 | routes/chat.js:80-81 | the value is wrapped into [-2^31, 2^31) and differs from its input by a multiple of 2^32 |
| Chat.ToInt32Periodic | routes/chat.js:80-81 | adding a multiple of 2^32 does not change the wrapped value |
| Chat.HashIsPolynomial | routes/chat.js:76-82 | the `(hash << 5) - hash + char` recurrence, wrapped to 32 bits at each step, is the base-31 polynomial hash of the text wrapped once |
| Chat.Hash | routes/chat.js:76-82 | the loop returns the 32-bit wrapped base-31 polynomial hash of the string |
| Chat.GenerateUserId | routes/chat.js:59-88 | with an `x-user-id` header the id is built from the address and the header's last segment (`unknown` if empty); otherwise `user_` + the absolute hash of address, user agent and UUID + `_` + the UUID's first eight non-dash characters |
| Chat.DeleteKeepsUsage | routes/chat.js:41-48 | a soft delete leaves every user's daily count as it was |
| Chat.DeleteHidesConversation | routes/chat.js:364-368 | a soft delete removes exactly that conversation from its owner's listing |
| Chat.MessageAddsOne | routes/chat.js:43-48 | a new message counts once, for the owner of its conversation on its day, and for nobody else |
| Chat.EmptyConversationKeepsUsage | routes/chat.js:43-48 | adding a conversation that holds no message changes nobody's count |
| Chat.CheckDailyUsage | routes/chat.js:37-56 | the number of the user's messages of the day, both roles and deleted conversations included, read back through `parseInt`; 0 when the query fails |
| Chat.QuotaGate | routes/chat.js:141-155 | rejected exactly when the caller is not an admin and the usage is 10 or more; the rejection carries the usage and the limit 10 |
| Chat.TurnCountsTwice | routes/chat.js:187-198 | a stored turn counts twice for the owner of its conversation on the day it is stamped with, and for nobody else |
| Chat.ForeignTurnIsFree | routes/chat.js:43-48 | a turn stored in someone else's conversation leaves the sender's count as it was |
| Chat.OwnTurnsCount | routes/chat.js:43-48 | k turns stored in the user's own conversations, with fresh ids, raise the user's count of that day by 2k |
| Chat.FreshPrefix | routes/chat.js:187-198 | the turns before a given one were stored with fresh ids too |
| Chat.UnseenUserAdmitted | routes/chat.js:37-56 | a user id that owns no conversation has a usage of 0 and passes the quota gate |
| Chat.FallbackIdsDiffer | routes/chat.js:71-87 | without `x-user-id`, two UUIDs with different short ids give different user ids, whatever the hashes |
| Chat.FiveTurnsADay | routes/chat.js:146-198 | a non-admin who starts the day with no message and sends into their own conversations passes the gate before turn t exactly when t < 5, when the count query succeeds and the messages are stamped with the day the usage count reads |
| Chat.FormatText | routes/chat.js:102-117 | after the rewrites and the trim, no three newlines follow each other and the text neither starts nor ends with white space |
| Chat.FormatAIResponse | routes/chat.js:91-124 | the step-by-step rewrite gives FormattedReply: JSON-looking text is unwrapped to its truthy `response` field; a parse error returns the answer unformatted; a truthy non-text field is returned as it is |
| Chat.TargetId | routes/chat.js:191 | a non-negative integer is its own id and a negative one names none; a text id is `parseInt` of it, none when that is NaN or negative; no id and a boolean give none |
| Chat.PrintedIdTargets | routes/chat.js:178-191 | an id the server handed out, sent back as text, names the same conversation and does not ask for a new one |
| Chat.TempIdNeedsNew | routes/chat.js:178 | a `temp_` id asks for a new conversation and names none |
| Chat.HexIdTargets | routes/chat.js:191 | the text id `0x1f` names conversation 31 |
| Chat.ChatStore.constructor | routes/chat.js:6 | an empty, valid store |
| Chat.ChatStore.CreateConversation | routes/chat.js:178-184 | the insert adds one active conversation under a fresh id and changes no one's daily count |
| Chat.ChatStore.InsertMessage | routes/chat.js:189-198 | the insert fails exactly when the conversation does not exist; otherwise one message under a fresh id, and the owner's count for that day goes up by one |
| Chat.ChatStore.NewConversation | routes/chat.js:229-256 | a new active conversation titled `Yeni Konuşma` appears in the caller's listing; the counts are unchanged |
| Chat.ChatStore.ListConversations | routes/chat.js:259-306 | the caller's active conversations only, the daily count (0 when its query fails), the limit 10 and the admin flag |
| Chat.ChatStore.SoftDelete | routes/chat.js:355-391 | found exactly when the conversation exists and belongs to the caller; then only its `is_active` is cleared, it leaves the caller's listing and no count changes; otherwise nothing changes |
| Chat.ChatStore.RecordTurn | routes/chat.js:187-198 | the user's message with order 1 and the answer with order 2 under two fresh ids; the conversation owner's count goes up by two |
| Chat.ChatStore.Send | routes/chat.js:127-226 | an empty message is rejected first; a non-admin with usage 10 or more is rejected with that usage; the answer is `generateResponse(message)` with the empty history (`AnswerFor`); a reply is sent exactly when that answer exists and the conversation is new or exists; a new conversation is created exactly when the id is falsy (absent, `0`, `false`, empty) or starts with `temp_`; both messages are stored redacted; the reply echoes the id as the request gave it (`"0x1f"` stays `"0x1f"` though the turn is stored in conversation 31), or the new row's id; nothing changes unless the turn is sent |
| Chat.ChatStore.Deliver | routes/chat.js:172-215 | once the answer is in: sent exactly when the conversation is new or exists; a new conversation is created with the redacted title; the redacted question and the formatted, redacted answer are stored under two fresh ids; the reply's `conversationId` is the request's own value, or the new row's id; nothing changes on failure |
| AdminData.Numbered | routes/database.js:20-34 | the running placeholder numbers 1, 2, ..., n, in order |
| AdminData.Filters | routes/database.js:22-32 | one filter per given query value, `mahkeme` before `baslik`, and none for an absent or empty value |
| AdminData.FilterFragments | routes/database.js:22-32 | the j-th filter's clause text is followed by the placeholder `$j+1` |
| AdminData.FilterParams | routes/database.js:24-30 | the j-th parameter is the j-th filter's value wrapped as `%value%` |
| AdminData.SlotsConcat | routes/database.js:10-34 | the placeholders of concatenated SQL are those of each part, in order |
| AdminData.FilterSlots | routes/database.js:20-32 | the filter clauses use the placeholders $1..$n, each once and in order |
| AdminData.TailSlots | routes/database.js:34 | the tail `LIMIT $k OFFSET $k+1` uses exactly the placeholders k and k+1 |
| AdminData.ListSlotsNumbered | routes/database.js:19-35 | the placeholders of the listing query are $1, $2, ..., one per parameter, in the parameters' order |
| AdminData.ListBinding | routes/database.js:19-35 | placeholder $j+1 follows the j-th filter's clause and binds its `%value%`; LIMIT and OFFSET bind `parseInt` of the query values (defaults 50 and 0) as the last two parameters |
| AdminData.HexLimitBinds | routes/database.js:8-35 | `limit=0x10` binds 16, read in base sixteen, and an absent limit binds the default 50 |
| AdminData.ListDefaults | routes/database.js:8-35 | with no filter and no paging values the query ends `LIMIT $1 OFFSET $2`, bound to 50 and 0 |
| AdminData.AddFilter | routes/database.js:22-32 | one `if (filter)` block extends the text by the clause and `$paramIndex`, the parameters by `%value%`, and the index by one, keeping text and parameters in step |
| AdminData.ListQuery | routes/database.js:6-35 | the builder's text and parameter list are exactly the rendered fragments and the parameter list above |
| AdminData.Search | routes/database.js:193-230 | refused exactly when `q` is missing or empty; otherwise the query runs with `[q, '%q%', limit]` and the reply carries its rows, `q` and the row count, or the failure |
| AdminData.InsertNew | routes/database.js:286-359 | an insert-only merge never updates, and counts at most one of added or errors per item |
| AdminData.InsertNewKeeps | routes/database.js:294-353 | no stored message, ruling or chunk is changed by a sync |
| AdminData.InsertNewKeys | routes/database.js:294-353 | the table gains exactly the keys of the items whose statements did not fail |
| AdminData.InsertNewAdded | routes/database.js:301-352 | `added` is the number of rows the table gained |
| AdminData.InsertNewErrors | routes/database.js:303-357 | `errors` is the number of items whose statements failed |
| AdminData.InsertNewFirstWins | routes/database.js:295-302 | a row the sync added is the first non-failing item with that key |
| AdminData.ExistingKeyIgnored | routes/database.js:295-302 | an item whose key is stored changes neither the table nor any counter |
| AdminData.FailureOnlyCounts | routes/database.js:303-306 | a failing item bumps `errors` only, and the loop goes on |
| AdminData.Upsert | routes/database.js:255-284 | each conversation is counted exactly once, as added, updated or an error |
| AdminData.UpsertIds | routes/database.js:262-278 | every conversation is stored under its own id after the merge |
| AdminData.UpsertKeepsOwner | routes/database.js:271-276 | a stored conversation keeps its owner and creation time: the UPDATE writes neither |
| AdminData.UpsertKeys | routes/database.js:262-278 | the table gains exactly the ids of the conversations whose statements did not fail |
| AdminData.UpsertAdded | routes/database.js:268-276 | `added` is the number of conversations the table gained; updates add none |
| AdminData.UpsertLastWins | routes/database.js:271-276 | a conversation carries the title, update time and active flag of the last non-failing item for its id |
| AdminData.InsertEach | routes/database.js:287-308 | the loop computes the insert-only merge of the items, table and counters |
| AdminData.InsertKeepsKeys | routes/database.js:294-302 | an insert-only merge keeps every row under its own key |
| AdminData.SyncTarget.SyncConversations | routes/database.js:255-284 | the loop leaves the conversations table and counters of the upsert, keeps every row under its id, and touches no other table |
| AdminData.SyncTarget.Sync | routes/database.js:233-392 | a missing source is refused and changes nothing; otherwise each table is merged by its own rule, in order; the route fails exactly when `yeniTablolar` holds a null entry, with all four merges already written; otherwise it reports each merge's counters and one added per listed table |

## Left out

- Regular expressions in general: each pattern of the source is a hand-written matcher, and no regex engine is modelled.
- Case mapping: `toLowerCase` covers the ASCII letters and the Turkish letters the patterns name. Other Unicode case mappings are not modelled.
- Character width: strings are sequences of characters. JavaScript's UTF-16 surrogate pairs (characters outside the Basic Multilingual Plane) are not modelled.
- Databases, pgvector, the embedding provider and the chat model are oracles given as parameters. `ORDER BY`, `ts_rank`, `ILIKE` and vector-distance ranking are the database's business and are not modelled; the rows come back in the oracle's order.
- `JSON.parse` in `formatAIResponse` is an oracle that returns a parsed field or a parse error.
- Clocks (`Date.now`, `CURRENT_DATE`, `NOW()`), `uuidv4` and request headers are parameters, not generated.
- Logging (`console.log`/`console.error`) and HTTP status codes beyond the outcome datatypes are not modelled.
- `GET /conversation/:id`, `/stats`, `/mahkemeler`, `/kararlar/:id`, `/kararlar/:id/chunks` and `/sync/status` are read-only routes and are not part of this model.
- The response of `/kararlar` (rows, count and the `parseInt` of limit and offset echoed back) is not modelled; only the SQL text and parameters it builds are.
- `routes/auth.js`, `sync-to-ubuntu.js`, the configuration, the server bootstrap and the React UI are not part of this model.
- Concurrency: two requests for the same user interleaving between the usage check and the inserts are not modelled; each route runs to completion.
- AdminData.SyncTarget.Sync: which statement of an item fails (the lookup or the insert) is folded into one per-item failure oracle.
- AdminData.SyncTarget.Sync: ids are natural numbers. Negative, fractional or non-numeric ids sent to `/sync` are not modelled, and neither are collisions between ids given to `/sync` and serial ids that the chat routes draw.
- Chat.ChatStore: `updated_at` and `message_count` of a conversation are not kept.
- ClientPrivacy.ClientUserId: states the `client_` prefix and the length only. The time stamp's digits are those that `Text.NatToString` prints, and the short id's properties are in `Text.ShortUuid`.
- Chat.ChatStore.Send: the day the usage check reads (the UTC date of the server's clock) and the day the new messages are stamped with (the database's default `created_at`, in its own time zone) are separate parameters. Chat.FiveTurnsADay holds only when the two are the same day; a turn sent across midnight is counted for the later day.
- Gemini.RowsOrEmpty: SQL `LIMIT` is the first `limit` rows of the query's result in the oracle's order; the ordering itself is not modelled.
- Text.ParseMagnitude: the digits are unbounded; the loss of precision of `parseInt` beyond 2^53 is not modelled.
- Chat.ChatStore.Send: a `conversationId` that is a fraction (`3.7`, which `parseInt` reads as 3), an object or an array is not modelled; the model's ids are absent, booleans, integers or text.
- Chat.ChatStore.Send: `message` is text. A truthy non-string message (a number, an object) is not modelled: the source stores it unredacted in an existing conversation and throws on `substring` when it must create one.
