# Research-chat backend, modelled in Dafny

This project models the Express server of a research assistant. A signed-in user opens a chat and states a research topic. One language model proposes a title and a few clarifying questions. The user answers the questions one by one. After the last answer, two providers (OpenAI and Gemini) write research pages, which are stored as assistant messages. The report can then be mailed to the user.

The model covers:

- the database queries, as pure functions over an immutable `Db` of users, chats, messages and daily counters;
- the chat routes: listing, creation under a daily quota, the topic turn, the clarification turns, and the open/completed/errored life cycle;
- the email route: which message is the report, how the topic, questions and answers are read back, and how the Gemini section is chosen or regenerated;
- the two provider adapters, from the completion they receive to the result they return;
- authentication: the JWT middleware, the register, login, OAuth-complete, status and Google-callback routes, the Google verify callback with its username generation, and the debug-session endpoint;
- the configuration helpers: URL normalisation, environment defaults and chat limits.

Whatever the server cannot see is an input. This covers:

- what a language model returned;
- what `jwt.verify` decodes, which is a `Verifier` function;
- what `jwt.sign`, `bcrypt.hash` and `bcrypt.compare` compute, which are `Signer`, `Hasher` and `Comparer` functions;
- the random username suffixes;
- the current day and time;
- whether the mailer delivered.

The JavaScript library behaviour the routes depend on is modelled exactly where it matters:

- `String.prototype.split`, `join` and `trim`, with the ECMAScript whitespace set;
- `encodeURIComponent`, together with its inverse;
- `||` and truthiness on possibly missing strings;
- `toLowerCase`, for ASCII letters.

Modules follow the source files:

- `Store`: `server/database/queries.js`.
- `Constants`: `server/config/constants.js`.
- `OpenAIService`, `GeminiService`: `server/services/`.
- `ChatRoutes`, `EmailRoutes`, `AuthRoutes`, `Health`: `server/routes/`.
- `AuthMiddleware`: `server/middleware/auth.js`.
- `Passport`: `server/config/passport.js`.
- `Js`, `Text`, `Lists`, `Uri`: the language and library semantics listed above.
- `Lifecycle`: properties that span several chat requests.
- `Transcript`: how what the chat routes write is read back by the email route.

## Model

| member | source | states |
|---|---|---|
| Js.Or | server/config/constants.js:12-22 | `a \|\| b` on a possibly missing string: the value when it is non-empty, otherwise the fallback |
| Text.Split | server/routes/email.js:56 | `split` on one character gives at least one piece, and no piece contains the separator |
| Text.JoinSplit | server/routes/email.js:56 | joining the pieces of a split with the separator gives back the original string |
| Text.SplitJoin | server/routes/chats.js:112-114 | splitting a join of separator-free pieces gives back the pieces |
| Text.SplitWithoutSeparator | server/middleware/auth.js:20 | a string without the separator splits into itself alone |
| Text.SplitAround | server/middleware/auth.js:20 | splitting `a + c + b` is the split of `a` followed by the split of `b` |
| Text.JoinAppend | server/routes/chats.js:112-114 | joining two non-empty lists is joining each and putting the separator between them |
| Text.Spaced | server/routes/chats.js:113-114 | the list with an empty string between neighbours contains only the original items and empty strings |
| Text.JoinSpaced | server/routes/chats.js:114 | joining with a doubled separator equals joining the spaced list with a single separator |
| Text.FirstPiece | server/middleware/auth.js:20 | the first piece of a split is a prefix of the string that stops at the first separator or at the end |
| Text.DigitChar | server/routes/chats.js:113 | a decimal digit's character is a digit |
| Text.NatToString | server/routes/chats.js:113 | a number's decimal text is non-empty and all digits |
| Text.NatToStringValue | server/routes/chats.js:113 | the decimal text reads back as the number |
| Text.NatToStringNoLeadingZero | server/routes/chats.js:113 | a positive number's text has no leading zero |
| Text.LeadingDigits | server/routes/email.js:57 | the length of the longest digit prefix: everything before it is a digit, and the next character is not |
| Text.LeadingDigitsOf | server/routes/email.js:57 | digits followed by a non-digit have exactly that many leading digits |
| Text.TrimStart | server/services/openai.js:129 | drops exactly the leading whitespace: a suffix, all whitespace before it, and it does not start with whitespace |
| Text.TrimEnd | server/services/openai.js:129 | drops exactly the trailing whitespace |
| Text.TrimEnds | server/services/openai.js:129 | a trimmed string neither starts nor ends with whitespace |
| Text.TrimInfix | server/services/openai.js:129 | the trimmed string sits inside the original, with only whitespace around it |
| Text.TrimFixedPoint | server/services/openai.js:129 | a string with no whitespace at either end trims to itself |
| Text.TrimIdempotent | server/services/openai.js:129 | trimming twice is trimming once |
| Text.LowerChar | server/config/passport.js:28 | an ASCII capital `A`-`Z` becomes the letter 32 code points later, `a`-`z`; every other character is unchanged; the result is never an ASCII capital |
| Text.Lower | server/config/passport.js:58 | lower-casing keeps the length and lower-cases each character in place, `A`-`Z` to `a`-`z` |
| Text.LowerIdempotent | server/config/passport.js:58 | lower-casing twice is lower-casing once |
| Lists.Filter | server/routes/email.js:34 | `filter` keeps exactly the elements that pass, each one drawn from the input |
| Lists.FilterAppend | server/routes/email.js:34 | filtering distributes over concatenation |
| Lists.FilterSnoc | server/routes/email.js:34 | filtering a list with one more element adds that element exactly when it passes |
| Lists.FilterAll | server/routes/email.js:34 | when every element passes, the filter is the identity |
| Lists.FilterNone | server/routes/email.js:34 | when no element passes, the filter is empty |
| Lists.FilterCongruent | server/routes/email.js:34 | two predicates that agree on the elements filter alike |
| Lists.FindFirstIndex | server/routes/email.js:36 | `find` returns the element at the first position that satisfies the predicate |
| Lists.FindFilter | server/routes/email.js:34-37 | searching the filtered list finds the first element that is kept and satisfies the predicate |
| Lists.FilterHead | server/routes/email.js:44 | the head of a filter is the element `find` returns, and exists exactly when `find` finds one |
| Lists.Find | server/routes/email.js:36-37 | `find` returns the first element that passes, and none exactly when no element passes |
| Lists.FindFirst | server/routes/email.js:36 | a head that passes is found |
| Lists.FindSkips | server/routes/email.js:36 | a prefix where nothing passes does not change the result |
| Lists.FindAt | server/config/passport.js:77-82 | the element at `i` is found when it passes and nothing before it does |
| Lists.FindInFilterNone | server/routes/email.js:34-37 | when the search over the filtered list finds nothing, no kept element passes |
| Lists.Reverse | server/database/queries.js:35-41 | reversal is a permutation that mirrors the positions |
| Lists.FilterIncreasing | server/database/queries.js:87-93 | filtering keeps a list increasing by a key |
| Store.Empty | server/database/queries.js:1-136 | the empty database satisfies the invariant: ids follow insertion order, and no chat is both completed and errored |
| Store.FindUserById | server/database/queries.js:15-18 | on a well-formed database, a user is found exactly when a row has that id, and it is that row |
| Store.FindUserByUsername | server/database/queries.js:5-8 | the row with that username, and none exactly when no row has it |
| Store.FindUserByEmail | server/database/queries.js:10-13 | the row with that email, and none exactly when no row has it |
| Store.CreateUser | server/database/queries.js:20-26 | appends one user with the next id and the given fields, leaves the other tables alone, and keeps the invariant |
| Store.UpdateLastLogin | server/database/queries.js:28-30 | changes only that user's last-login time |
| Store.FindChat | server/database/queries.js:43-46 | a chat is found exactly when a row has that id |
| Store.FindChatsByUser | server/database/queries.js:35-41 | exactly the user's chats |
| Store.FindChatsByUserNewestFirst | server/database/queries.js:35-41 | the user's chats come newest first |
| Store.CreateChat | server/database/queries.js:48-54 | appends one open chat with the next id, and keeps the invariant |
| Store.UpdateChat | server/database/queries.js:56-78 | rewrites only the chat with that id |
| Store.UpdateTitle | server/database/queries.js:56-62 | changes only that chat's title and time |
| Store.MarkAsCompleted | server/database/queries.js:64-70 | marks only that chat completed and not errored |
| Store.MarkAsError | server/database/queries.js:72-78 | marks only that chat errored and not completed |
| Store.MessagesOf | server/database/queries.js:87-93 | exactly the messages of that chat |
| Store.MessagesOfOldestFirst | server/database/queries.js:87-93 | a chat's messages come oldest first |
| Store.AppendMessage | server/database/queries.js:95-101 | appends one message with the next id, and keeps the invariant |
| Store.AppendedMessageIsLast | server/database/queries.js:87-101 | a new message is the last one in its chat's listing |
| Store.ListingAfterAppends | server/database/queries.js:87-101 | messages appended to a chat extend its listing by exactly those messages and leave other chats' listings alone |
| Store.GetTodayCount | server/database/queries.js:110-117 | today's count, or 0 when there is no row |
| Store.IncrementTodayCount | server/database/queries.js:119-130 | the upsert: the count becomes one more (1 for a new row), and every other (user, day) is unchanged |
| Store.CanCreateChat | server/database/queries.js:132-136 | true exactly when today's count is below 20 for premium users and below 5 otherwise |
| Constants.StripTrailingSlashes | server/config/constants.js:6 | removes exactly the run of trailing slashes |
| Constants.NormalizeUrlSpec | server/config/constants.js:6 | a missing or empty URL gives ""; otherwise a prefix of it, with only slashes removed and no trailing slash |
| Constants.NormalizeUrlKeepsClean | server/config/constants.js:6 | a URL without a trailing slash is unchanged |
| Constants.NormalizeUrlIdempotent | server/config/constants.js:6 | normalising twice is normalising once |
| Constants.GetEnvConfig | server/config/constants.js:11-24 | the JWT secret and `NODE_ENV` are the variable when it is set and non-empty and the default otherwise; each URL is the variable or its default with the trailing slashes removed; the port is the variable's text as given when it is set and non-empty, and the number 3000 when it is unset or empty |
| OpenAIService.GenerateTitleAndQuestions | server/services/openai.js:16-71 | success exactly when the completion parses; the parsed title and questions on success, the fixed fallback otherwise |
| OpenAIService.QaBlockLines | server/services/openai.js:85-86 | a block whose question and answer hold no line break is exactly two lines, `Q{i+1}: ` and the question, then `A{i+1}: ` and the answer |
| OpenAIService.QaContext | server/services/openai.js:85-87 | the context is built unless questions are null, or answers are null while there are questions, which throws |
| OpenAIService.QaLines | server/services/openai.js:85-87 | the expected lines of the context for n questions: 3n-1 lines, where line 3i is `Q{i+1}: ` and question i, line 3i+1 is `A{i+1}: ` and answer i or "No answer provided", and line 3i+2 is empty between blocks |
| OpenAIService.QaContextLines | server/services/openai.js:85-87 | when no question or answer holds a line break, the context splits into exactly those lines (a single empty line when there are no questions) |
| OpenAIService.QaContextNoQuestions | server/services/openai.js:85-87 | with no questions the context is empty, even when the answers are null |
| OpenAIService.QaContextIgnoresExtraAnswers | server/services/openai.js:85-87 | answers beyond the last question are ignored |
| OpenAIService.QaContextMissingAnswer | server/services/openai.js:86 | an empty answer reads the same as a missing one |
| OpenAIService.GenerateResearchPage | server/services/openai.js:80-147 | a page exactly when the context builds and the completion succeeds; the page is the trimmed completion; otherwise the fixed error |
| GeminiService.QaContextNullQuestions | server/services/gemini.js:26-29 | null questions give an empty context |
| GeminiService.QaContextAgrees | server/services/gemini.js:26-29 | wherever the OpenAI context builds, the Gemini context is the same text; null answers read as empty |
| GeminiService.GenerateResearchPage | server/services/gemini.js:20-42 | a page exactly when a key is configured and the completion succeeds, untrimmed; otherwise the fixed error |
| GeminiService.SummarizeCombinedReport | server/services/gemini.js:49-61 | a trimmed summary exactly when configured and the completion succeeds; otherwise the fixed error |
| ChatRoutes.OwnedChat | server/routes/chats.js:55-59 | the chat is available exactly when it exists and belongs to the caller |
| ChatRoutes.ListChats | server/routes/chats.js:10-19 | exactly the caller's chats, each a row of the table, newest first (strictly decreasing id) on a well-formed store |
| ChatRoutes.GetChat | server/routes/chats.js:51-66 | 404 exactly when the chat is missing or another user's; otherwise the chat |
| ChatRoutes.GetMessages | server/routes/chats.js:69-85 | 404 exactly when the chat is not the caller's; otherwise exactly that chat's messages, each a row of the table, oldest first (strictly increasing id) on a well-formed store |
| ChatRoutes.CreateChat | server/routes/chats.js:22-48 | 404 for an unknown user, 403 at the quota with the limit in the message; success exactly when under quota, adding one open chat ("New Chat" when no title is given) and one count |
| ChatRoutes.NumberedQuestions | server/routes/chats.js:113 | line i lists question i as `i+1. q` |
| ChatRoutes.Guard | server/routes/chats.js:94-102 | 404 exactly when the chat is not the caller's, 400 exactly when it is closed, and no refusal exactly when it is the caller's open chat |
| ChatRoutes.TopicAccepted | server/routes/chats.js:104-124 | the topic and the questions message are appended to this chat only, the title is set, and the questions are returned |
| ChatRoutes.TurnFailed | server/routes/chats.js:125-130 | the message and the fallback reply are appended, the chat becomes errored, and the reply still has status 200 |
| ChatRoutes.ResearchTopic | server/routes/chats.js:88-135 | a refused request writes nothing; otherwise the accepted topic when generation parsed, else the failed turn |
| ChatRoutes.PrimaryPage | server/routes/chats.js:157-170 | the primary page exists exactly when the join resolved, the context builds and OpenAI completed; it is the trimmed text |
| ChatRoutes.SecondaryPage | server/routes/chats.js:172-175 | the secondary page exists exactly when Gemini is configured, completed and returned non-empty text |
| ChatRoutes.AnswerAcknowledged | server/routes/chats.js:193-202 | the answer and the fixed acknowledgment are appended to this chat only; the chat rows are untouched |
| ChatRoutes.PostPages | server/routes/chats.js:154-178 | the listing grows by the answer, the primary page and the secondary page only when there is one |
| ChatRoutes.ResearchCompleted | server/routes/chats.js:170-186 | the pages are appended, the chat becomes completed, and both pages are returned |
| ChatRoutes.ClarificationAnswer | server/routes/chats.js:138-207 | a refused request writes nothing; an answer before the last is acknowledged; the last one completes or fails the chat, depending on the primary page |
| EmailRoutes.ReportMessage | server/routes/email.js:34-36 | the message at the first position holding an assistant message with the OpenAI heading; when there is none, the message at the first assistant position; none exactly when there is no assistant message |
| EmailRoutes.GeminiMessage | server/routes/email.js:37 | the message at the first position holding an assistant message with the Gemini heading; none exactly when there is no such message |
| EmailRoutes.OriginalTopic | server/routes/email.js:44 | the text of the first user message when that text is non-empty; "Research Topic" when there is no user message or the first one is empty |
| EmailRoutes.Contents | server/routes/email.js:62 | the texts of the messages, in order |
| EmailRoutes.UserAnswers | server/routes/email.js:62 | answer i is the text of the (i+2)-th user message |
| EmailRoutes.RecoverQuestions | server/routes/email.js:51-59 | nothing from an empty message; no recovered question contains a line break |
| EmailRoutes.NumberedQuestionRecognised | server/routes/email.js:57-59 | a numbered question line passes the `^\d+\.\s` filter, and stripping the prefix gives back the question |
| EmailRoutes.SplitQuestionsText | server/routes/email.js:56 | the questions message splits into its paragraphs, the numbered lines and the blank lines between them |
| EmailRoutes.FilterQuestionsLines | server/routes/email.js:57 | exactly the numbered question lines pass the filter |
| EmailRoutes.RecoverQuestionsRoundTrip | server/routes/email.js:55-59 | reading the questions back from the questions message gives the questions, when none contains a line break |
| EmailRoutes.SendGuard | server/routes/email.js:16-41 | each of the four refusals exactly in its case, in order: 404 for a chat not found or not owned, 400 without a user email, 400 when the chat has no messages, 400 when no report message is found; none of them sends anything |
| EmailRoutes.GeminiSection | server/routes/email.js:49-71 | the stored Gemini page when there is one; otherwise exactly one regeneration, labelled on success, the placeholder on failure |
| EmailRoutes.SendEmail | server/routes/email.js:10-91 | mail is sent exactly when no check refuses, to the caller's address with the report, the Gemini section and the topic; the mailer's outcome gives 200 or 500 |
| EmailRoutes.GeminiSectionHeaded | server/routes/email.js:63-67 | the Gemini section always starts with the Gemini heading |
| EmailRoutes.LabelsAgree | server/routes/chats.js:171-174 | the headings the chat routes write are the ones the email route searches for |
| EmailRoutes.ChatCount | server/routes/email.js:94-117 | 401 exactly for an unknown user; otherwise today's count and the tier's limit |
| Passport.SpaceRunsToUnderscore | server/config/passport.js:60 | the result has no whitespace, and a string without whitespace is unchanged |
| Passport.SpaceRunIsOneUnderscore | server/config/passport.js:60 | a whole run of whitespace becomes exactly one underscore |
| Passport.SpaceRunsSplit | server/config/passport.js:60 | a character that is not whitespace is kept and ends any run: the result on `a + [x] + b` is the result on `a`, then `x`, then the result on `b`; with the row above this fixes the result on every string |
| Passport.SpaceRunsKeepOtherChars | server/config/passport.js:60 | every character other than whitespace and the underscore survives, in order |
| Passport.KeepUsernameChars | server/config/passport.js:61 | the result is the input filtered to `[a-z0-9_]`, in order; a string of those is unchanged |
| Passport.CollapseUnderscores | server/config/passport.js:62 | no two underscores in a row, and the first non-underscore character is kept |
| Passport.UnderscoreRunIsOne | server/config/passport.js:62 | a whole run of underscores becomes exactly one |
| Passport.CollapseSplit | server/config/passport.js:62 | a character other than the underscore is kept and ends any run: the result on `a + [x] + b` is the result on `a`, then `x`, then the result on `b`; with the row above this fixes the result on every string |
| Passport.CollapseKeepsOtherChars | server/config/passport.js:62 | every character other than the underscore survives, in order |
| Passport.DropLeadingUnderscores | server/config/passport.js:63 | a suffix of the input that does not start with an underscore, and what is cut off is underscores only |
| Passport.DropTrailingUnderscores | server/config/passport.js:63 | a prefix of the input that does not end with an underscore, and what is cut off is underscores only |
| Passport.TrimUnderscores | server/config/passport.js:63 | a slice `s[a..b]` of the input with only underscores before `a` and after `b`, starting and ending with something else: exactly the input without its leading and trailing underscore runs |
| Passport.Take | server/config/passport.js:64-65 | `slice(0, n)`: the first n characters of a longer string, and the whole string when it is short enough |
| Passport.SliceKeepsShape | server/config/passport.js:64 | a slice keeps the alphabet and the no-double-underscore property |
| Passport.TrimUnderscoresShape | server/config/passport.js:63 | trimming underscores keeps the alphabet and the no-double-underscore property |
| Passport.SanitizeShape | server/config/passport.js:58-64 | the sanitised name has at most 20 characters from `[a-z0-9_]`, no double underscore and no leading underscore; the 20-character cut can leave a trailing one |
| Passport.ToBaseUsername | server/config/passport.js:57-66 | the sanitised name when it is non-empty, otherwise `user_` and the first six raw characters; 1 to 20 characters |
| Passport.LowerOfUsernameChars | server/config/passport.js:58 | lower-casing leaves a `[a-z0-9_]` string unchanged |
| Passport.CollapseClean | server/config/passport.js:62 | collapsing leaves a string without double underscores unchanged |
| Passport.ToBaseUsernameFixesCleanNames | server/config/passport.js:57-66 | an already clean name of at most 20 characters is its own base username |
| Passport.SpaceBetweenWords | server/config/passport.js:60 | the single space between two words of `[a-z0-9]` becomes one underscore |
| Passport.SanitizeTwoWords | server/config/passport.js:58-65 | the replacement chain and the cut turn two lower-case words around one space, 20 characters at most, into the words joined by an underscore |
| Passport.ToBaseUsernameTwoWords | server/config/passport.js:57-66 | two lower-case words around one space, 20 characters at most, give the words joined by an underscore |
| Passport.SanitizeSeesLowered | server/config/passport.js:58-65 | names with the same lower-cased form sanitise alike |
| Passport.ToBaseUsernameTwoWordsAnyCase | server/config/passport.js:57-66 | a name that lower-cases to two words around one space gives the lower-cased words joined by an underscore |
| Passport.ToBaseUsernameBobSmith | server/config/passport.js:57-66 | `Bob Smith` gives `bob_smith` |
| Passport.Candidates | server/config/passport.js:77-79 | candidate i is the base, an underscore and suffix i |
| Passport.Last6 | server/config/passport.js:85 | `slice(-6)`: the last six characters, or all of them when there are fewer |
| Passport.UniqueUsername | server/config/passport.js:72-86 | the first candidate nobody holds, with every earlier candidate taken; otherwise the timestamp name; always starts with `base_` |
| Passport.FirstFreeCandidate | server/config/passport.js:77-82 | the loop returns the first free candidate, as `find` over the candidates does |
| Passport.GenerateUniqueUsername | server/config/passport.js:72-86 | the generated name is the reference choice for the base derived from the display name or the email |
| Passport.GoogleVerify | server/config/passport.js:18-49 | no email fails and writes nothing; a known lower-cased email signs in that user; otherwise one new non-premium user with the Google marker hash, under the unique username derived from the display name or the email's local part |
| Passport.SignIn | server/config/passport.js:23-44 | fails exactly when the profile has no email; a signed-in user is in the resulting table under the lower-cased email; existing users are kept |
| Passport.SignInAgain | server/config/passport.js:28-44 | a second sign-in with the same profile returns the same user and writes nothing, whatever the random draws and the clock |
| AuthMiddleware.JwtSecret | server/middleware/auth.js:4 | the configured secret when set, otherwise the fixed default |
| AuthMiddleware.JwtSecretAgrees | server/config/constants.js:14 | the middleware and the configuration use the same secret |
| AuthMiddleware.BearerToken | server/middleware/auth.js:19-21 | the text after "Bearer " up to the next space, with no space in it |
| AuthMiddleware.BearerRoundTrip | server/middleware/auth.js:19-21 | a token without spaces sent as "Bearer token" is read back unchanged |
| AuthMiddleware.SelectToken | server/middleware/auth.js:16-29 | a Bearer header wins, then a non-empty query token, then a non-empty body token |
| AuthMiddleware.Authenticate | server/middleware/auth.js:13-43 | 401 "Authentication required" without a usable token, 401 "Invalid or expired token" when verification fails; otherwise proceeds with the decoded claims |
| AuthMiddleware.BearerShadowsOtherSources | server/middleware/auth.js:19-29 | with a Bearer header, the query and body tokens make no difference |
| AuthMiddleware.QueryShadowsBody | server/middleware/auth.js:23-29 | without a Bearer header, a non-empty query token makes the body token irrelevant |
| AuthMiddleware.EmptyBearerDoesNotFallBack | server/middleware/auth.js:19-33 | a Bearer header with an empty token is rejected even when the other sources hold a valid token |
| AuthMiddleware.BearerHeaderAuthenticates | server/middleware/auth.js:13-43 | a Bearer token is accepted exactly when verification accepts it, with its claims |
| Health.SessionToken | server/routes/health.js:20-27 | the middleware's token choice with the body token removed |
| Health.DebugSession | server/routes/health.js:19-39 | a null user without a token; the decoded claims, or "invalid_token" exactly when verification fails |
| Health.DebugSessionIgnoresBody | server/routes/health.js:23-27 | the body token never changes the answer |
| Health.DebugSessionAgreesWithMiddleware | server/routes/health.js:19-39 | without a body token, a user is shown exactly when the middleware would proceed, and it is the same user |
| Health.BodyTokenOnlyAuthenticates | server/routes/health.js:23-31 | a token only in the body authenticates through the middleware but shows no session here |
| Uri.HexDigit | server/routes/auth.js:42 | a value below 16 is written as a hex digit |
| Uri.HexValue | server/routes/auth.js:42 | a hex digit reads as a value below 16 |
| Uri.HexValueOfDigit | server/routes/auth.js:42 | a written hex digit reads back as its value |
| Uri.Utf8 | server/routes/auth.js:42 | a character encodes as one to four bytes; unreserved ASCII encodes as itself |
| Uri.SequenceLength | server/routes/auth.js:42 | the length a UTF-8 lead byte announces is at most four |
| Uri.DecodeUtf8 | server/routes/auth.js:42 | the decoder accepts only canonical encodings: what it decodes re-encodes to the same bytes |
| Uri.DecodeUtf8OfEncoding | server/routes/auth.js:42 | decoding the UTF-8 encoding of a character gives the character back |
| Uri.Split64 | server/routes/auth.js:42 | the six-bit groupings the UTF-8 encoder uses |
| Uri.Escape | server/routes/auth.js:42 | a byte escapes to three characters starting with '%' |
| Uri.EscapeAll | server/routes/auth.js:42 | each byte occupies its own three-character escape, in order |
| Uri.EscapeAllAlphabet | server/routes/auth.js:42 | escapes use only '%' and hex digits |
| Uri.EncodeChar | server/routes/auth.js:42 | an unreserved character stays as it is, and any other is percent-escaped |
| Uri.EncodeURIComponent | server/routes/auth.js:42 | the output uses only unreserved characters and '%', is no shorter than the input, and is the input when that is all unreserved |
| Uri.EncodedHasNoDelimiters | server/routes/auth.js:42 | an encoded value contains no '&', '=', '?' or '#' |
| Uri.ReadByte | server/routes/auth.js:42 | a read escape is a byte taken from three characters |
| Uri.ReadBytes | server/routes/auth.js:42 | reading n escapes consumes 3n characters |
| Uri.DecodeEscapedChar | server/routes/auth.js:42 | a decoded escaped character consumes between 3 characters and the rest of the string |
| Uri.ReadEscape | server/routes/auth.js:42 | an escaped byte reads back |
| Uri.ReadEscapes | server/routes/auth.js:42 | a run of escaped bytes reads back |
| Uri.EscapesReadBack | server/routes/auth.js:42 | the first escape and the whole run read back |
| Uri.LeadAnnouncesLength | server/routes/auth.js:42 | the lead byte of an encoding announces the encoding's length |
| Uri.DecodeEscapedFrom | server/routes/auth.js:42 | escapes of a canonical sequence decode to its character |
| Uri.DecodeEscapedOfEncoding | server/routes/auth.js:42 | an escaped character decodes back, consuming exactly its encoding |
| Uri.DecodeAfterEncodedChar | server/routes/auth.js:42 | decoding an encoded character followed by more text is that character followed by the decoding of the rest |
| Uri.DecodeEncode | server/routes/auth.js:42 | `decodeURIComponent(encodeURIComponent(s)) == s` for every string |
| AuthRoutes.Register | server/routes/auth.js:54-95 | 400 for a missing field, a taken username (checked first) or a taken email; otherwise exactly one new non-premium user with the hashed password and a token; no write on refusal |
| AuthRoutes.Login | server/routes/auth.js:97-133 | 401 for an unknown username or a password that does not match; 500 when the request carries no password for a known username, because `bcrypt.compare` throws; otherwise the user and a token |
| AuthRoutes.LoginTouchesOnlyThatUser | server/routes/auth.js:111 | a login changes only the last-login time of the user who logged in |
| AuthRoutes.RegisteredUserIsFound | server/routes/auth.js:67-75 | a new account is found by its username |
| AuthRoutes.RegisterThenLogin | server/routes/auth.js:54-133 | registering and then logging in with the same credentials succeeds and returns the new user |
| AuthRoutes.RegisterTwice | server/routes/auth.js:61-62 | the same registration a second time is refused because the username is taken |
| AuthRoutes.OauthComplete | server/routes/auth.js:136-182 | 400 without a token, 401 when it fails verification, 404 when the user is gone; otherwise the same token and the user |
| AuthRoutes.RegisterTokenCompletes | server/routes/auth.js:67-174 | the token a registration issues completes the OAuth exchange for the same user |
| AuthRoutes.Status | server/routes/auth.js:185-204 | the middleware's 401 when not authenticated; otherwise status 200, with the user when the row exists |
| AuthRoutes.StatusAuthenticatedIff | server/routes/auth.js:185-204 | `authenticated` is true exactly when the request authenticates and the user row exists |
| AuthRoutes.FrontendUrl | server/routes/auth.js:11 | the frontend URL never ends with a slash |
| AuthRoutes.FrontendUrlAgrees | server/routes/auth.js:11 | the route file and the configuration compute the same frontend URL |
| AuthRoutes.OAuthCallback | server/routes/auth.js:17-51 | without a user, the login page with `error=no_user`; otherwise the login page with the encoded signed token and the success flag |
| AuthRoutes.CallbackTokenRecoverable | server/routes/auth.js:42 | the success query has exactly two parameters, and the first decodes back to the signed token |
| AuthRoutes.JwtTokenUnencoded | server/routes/auth.js:42 | a token made only of unreserved characters appears in the redirect unchanged |
| Lifecycle.StepPreservesWf | server/routes/chats.js:22-207 | every chat request keeps the database invariant and leaves the users alone |
| Lifecycle.RunPreservesWf | server/routes/chats.js:22-207 | any sequence of chat requests keeps the invariant, and no chat is ever both completed and errored |
| Lifecycle.StepOtherChat | server/routes/chats.js:22-207 | a request about another chat leaves this chat's row and messages unchanged |
| Lifecycle.StepClosedChat | server/routes/chats.js:144-152 | a request on a closed chat is refused and writes nothing |
| Lifecycle.ClosedChatIsFinal | server/routes/chats.js:94-102 | once a chat is completed or errored, no sequence of requests changes its row or its messages |
| Lifecycle.StepWithinQuota | server/routes/chats.js:32-43 | every request keeps a user's daily count within the tier's limit |
| Lifecycle.RunWithinQuota | server/routes/chats.js:32-43 | under any sequence of requests, the daily count stays within 5 for a free user and 20 for a premium one |
| Lifecycle.CreatesFillQuota | server/routes/chats.js:22-48 | k creates in a row raise the count by one each until the limit, and then it stays at the limit |
| Lifecycle.LimitsAgree | server/config/constants.js:39-44 | the configuration, the counter query, the quota message and the count route name the same limits, 20 and 5 |
| Transcript.ExtractFromFirstTurn | server/routes/email.js:44-62 | after one user message and one reply, the topic is the user's text, the first reply is the reply, and there are no answers |
| Transcript.FilterAfterTurn | server/routes/email.js:44-62 | one more user message and reply add exactly one to each filtered list, at the end |
| Transcript.AnswersAfterTurn | server/routes/email.js:62 | one more user message after the first adds exactly its text to the answers |
| Transcript.ExtractAfterTurn | server/routes/chats.js:193-202 | after an acknowledged answer's two messages, the answers gain that answer and the topic and first reply are unchanged |
| Transcript.ResearchPagesFound | server/routes/email.js:34-37 | after the research step's messages on a listing with no labelled page, the report is the OpenAI page and the Gemini page is found exactly when one was written |
| Transcript.ResearchAfterTopic | server/routes/chats.js:170-179 | after an accepted topic and then completed research on a new chat, the email route reports the OpenAI page it was given, and finds a Gemini page exactly when one was written |
| Transcript.TopicThenEmail | server/routes/chats.js:104-124 | after an accepted topic on an empty chat, the email route recovers the topic as written, the questions as generated, and no answers |

## Left out

- Language-model SDK calls, prompts and `JSON.parse` are not modelled. The completion each call produced is an input: either parsed fields or a failure.
- `jwt.sign`, `jwt.verify`, `bcrypt.hash` and `bcrypt.compare` are function parameters. Token expiry is folded into `verify`.
- Passport's strategy registration, sessions and `failureRedirect` are left out. So is the callback's `server_error` catch, because no modelled step throws.
- The mail sender (`emailService.js`) is not part of this model. Its outcome is an input: delivered, or failed with a message.
- Concurrency is not modelled. Requests run one after another. The two provider calls are one input that records each result and whether the join rejected. The join cannot reject in the source, since the OpenAI call catches its own errors and the Gemini call carries a `.catch`; the flag only keeps the route's try/catch branch. The race between `canCreateChat` and the increment is therefore not modelled.
- `server/index.js`, `server/database/connection.js` and `server/setup-db.js` are left out: server wiring, the connection pool and schema creation. So are `getCorsConfig` and the health endpoints other than `/debug/session`, which report the clock and the environment.
- The deletion queries are left out, because no route calls them.
- Message and row timestamps are not stored. Ordering uses the serial ids, which grow with insertion time.
- `toLowerCase` is modelled for ASCII letters only. Other characters are kept unchanged.
- JSON values that are not strings are modelled only where the code converts them. `questionIndex` and `totalQuestions` hold the integer JavaScript converts each value to: `null`, `false`, the empty string and a string of only whitespace give 0, `true` gives 1, a numeric string gives its value. A missing field, or a string that is neither blank nor numeric, converts to NaN and is None, which makes the comparison false. Fractional numbers, arrays and nested objects are not modelled.
- The catch-all 500 handlers are not modelled, except Login's: the throw of `bcrypt.compare` on a missing request password is modelled. Most of the others guard database failures, which cannot happen in this model. The exception is the topic route, below.
- ChatRoutes.ResearchTopic: a reply that parses but has no `questions` array (for example `{"title":"x"}`) still counts as success (server/services/openai.js:54-61). The route then throws on `questions.map` (server/routes/chats.js:112-113) after writing the user message and the new title, and answers 500. The model's parsed completion always carries a list of questions, so this path is not modelled.
- Passport.ToBaseUsername: the fallback `"user_" + name.slice(0, 6)` takes six UTF-16 code units in the source. The model takes six characters, which differs for names with characters outside the Basic Multilingual Plane.
- Passport.UniqueUsername: the timestamp fallback name is not checked for uniqueness, as in the source. The model states only its form.
- Transcript.ExtractAfterTurn is stated on message listings, not through a full run of ChatRoutes.ClarificationAnswer. ChatRoutes.AnswerAcknowledged's own contract supplies the listing it applies to.
