# Portfolio message moderation, modelled in Dafny

The portfolio site takes messages from its contact form and stores them with a Mongoose schema
(`models/Message.js`). An administrator works through them in a small admin panel (`admin.js`)
backed by a token-protected REST API (`router/adminRoutes.js`). The admin can list, page, open,
re-status, delete and answer them by email. This project models that store and its API as a
`MessageStore` class over a sequence of message records. It also models the panel's own state and
the rules it applies when building requests and rendering the table.

The site's front-end scripts also carry some small deterministic rules and state machines, which
are modelled too:

- the rule-based chat assistant (`public/ai-chatbot.js`): keyword dispatch, history, session ids;
- the chat-conversation record (`models/ChatConversation.js`);
- the two site scripts (`public/script.js`, `script.js`):
  - API base-URL selection;
  - contact-form checks and the handling of the server's answer;
  - the theme switch, the one-time start-up guard and the mobile menu;
  - the bounded mouse trails;
  - the hero typing animation and the Konami-code key buffer.

Layout, one module per file:

| file | module | models |
|---|---|---|
| `text.dfy` | `Text` | the JavaScript string operations used by the code: `\s`, `trim`, ASCII `toLowerCase`, `includes`, `join("")`, number printing, `parseInt` |
| `email.dfy` | `Email` | the two email regular expressions, each as the split it describes and as a direct check, proved equal |
| `message_model.dfy` | `MessageModel` | the status enum, casting and validation, the `sanitize` pre-save hook (`MessageDocument`), `getStats` |
| `admin_routes.dfy` | `AdminRoutes` | the token gate, login, listing, get, status update, delete, reply mail, counters; the `MessageStore` class |
| `admin_panel.dfy` | `AdminPanel` | the list URL, the pagination bar (a loop), truncation and badges, the `Panel` class with the page's handlers |
| `chatbot.dfy` | `Chatbot` | keyword dispatch and the `Assistant` widget class |
| `effects.dfy` | `Effects` | the typing animation (`Typewriter`) and the Konami buffer (`Konami`), shared by both scripts |
| `public_script.dfy` | `PublicScript` | `getApiUrl`, `validateFormData`, the contact submit handler, themes, the `App` state, the mouse trail |
| `root_script.dfy` | `RootScript` | `API_URL`, the contact submit handler, reply interpretation as written and with the body read once, the particle trail |
| `chat_conversation.dfy` | `ChatConversation` | the conversation schema's validation and defaults, and `conversationDuration` |

Inputs that come from outside the code are parameters of the operation that receives them:

- `jwt.verify` and `jwt.sign` are function parameters; so is bcrypt's `comparePassword`;
- whether nodemailer delivered a mail, or a `fetch` succeeded, is a `bool` parameter;
- the current time is an `int` parameter; so are `Math.random` draws and generated ids;
- the value of local storage at page load is a parameter.

Each request handler and each UI event is one atomic step.

Some behaviour of the code worth knowing before reading the model:

- The list route queries `{}`, so the panel's `&status=` has no effect
  (`AdminRoutes.ListIgnoresStatusFilter`, `AdminPanel.FilterDoesNotFilter`).
- The schema's status enum is `{new, read, replied, sent, archived, failed, spam}`. The status
  route accepts only `new, read, replied, archived, failed` (`AdminRoutes.RouteStatusesWithinEnum`).
- The gate answers a missing token with `No token provided` and a token that does not verify
  with `Invalid or expired token` (`AdminRoutes.Authenticate`).
- The list route takes any non-zero `limit`; nothing bounds the page size.
- The pre-save hook strips markup from the name, the email, the subject and the message, and
  it runs after validation (see Findings).
- A successful delete answers only `Message deleted successfully`, not the deleted record
  (`AdminRoutes.DeleteMessageSpec`).

## Model

| member | source | states |
|---|---|---|
| Text.TrimIsSlice | script.js:229-231 | `trim` returns a contiguous piece of its input with no white space at either end, and everything it cuts off is white space |
| Text.TrimKeepsChars | models/Message.js:8 | trimming adds no character that was not in the input |
| Text.TrimNoSpace | models/Message.js:8 | a string without white space is its own trim |
| Text.ToLower | models/Message.js:14 | lower-casing keeps the length and maps each character through the ASCII letter case map |
| Text.LowerCharFixes | models/Message.js:14 | a lower-cased character is never upper case, is unchanged exactly when it was not upper case, keeps being (or not being) white space, and lower-casing twice is lower-casing once |
| Text.ToLowerNoUpper | models/Message.js:14 | a string with no upper-case letter is its own lower-case form |
| Text.ContainsIff | public/ai-chatbot.js:408-410 | the `includes` scan succeeds exactly when the keyword occurs at some position of the message |
| Text.ContainsInLonger | public/ai-chatbot.js:408-410 | a keyword found in a message is still found once more text is appended |
| Text.NatToDecimal | admin.js:168 | a printed non-negative integer is a non-empty string of digits |
| Text.DecimalRoundTrip | admin.js:168 | the digits printed for `n` have value `n` |
| Text.ParseIntOfDecimal | router/adminRoutes.js:87-88 | `parseInt` reads back every integer as JavaScript prints it in decimal, negative ones included |
| Email.SchemaEmailOkIff | models/Message.js:15 | the direct check accepts exactly the strings `^\S+@\S+\.\S+$` matches: no white space, split as non-empty `a@b.c` |
| Email.FormEmailOkIff | public/script.js:511 | exactly one `@`, no white space, a non-empty local part and a `.` inside the domain (not first, not last) is exactly what `^[^\s@]+@[^\s@]+\.[^\s@]+$` accepts |
| Email.FormImpliesSchema | script.js:240 | every address the contact forms accept also satisfies the schema |
| Email.SchemaAcceptsMoreThanForm | models/Message.js:15 | the schema accepts `a@b@c.d`, which the forms refuse |
| Email.CountCharOne | public/script.js:511 | a character at `i` occurs exactly once precisely when no other position holds it |
| MessageModel.ParseStatusIff | models/Message.js:27-32 | a string is accepted by the enum validator exactly when it is the name of one of the seven statuses, and then it names that status |
| MessageModel.StatusNameInjective | models/Message.js:29 | distinct statuses have distinct names |
| MessageModel.Sanitize | models/Message.js:82 | the tag-stripper's output is never longer than its input and holds no `<` |
| MessageModel.SanitizeWithoutTags | models/Message.js:82 | a string without `<` passes through `sanitize` unchanged |
| MessageModel.SanitizeIdempotent | models/Message.js:82 | sanitizing twice is sanitizing once |
| MessageModel.SanitizeAppend | models/Message.js:82 | text without markup is kept in front of whatever the rest sanitizes to |
| MessageModel.NoTagAfterTrim | models/Message.js:84-87 | trimming a markup-free field keeps it markup-free |
| MessageModel.NoTagAfterLower | models/Message.js:85 | lower-casing a markup-free email keeps it markup-free |
| MessageModel.CastEmailShape | models/Message.js:10-16 | a cast email has no upper-case letter and no white space at either end |
| MessageModel.SaveAsWrittenFacts | models/Message.js:5-32 | save succeeds exactly when the cast draft passes validation; then name, email and message were supplied, the status is `new` by default and otherwise the supplied enum value, a missing subject is stored empty, no stored text field holds `<`, and the stored email has no upper-case letter |
| MessageModel.SaveAsWrittenStoresInvalid | models/Message.js:79-87 | (as written) the draft with name `<b>` and email `a@b.<c` is saved with an empty name and the email `a@b.`, which fails the schema's own pattern |
| MessageModel.SaveSanitizedFirstValid | models/Message.js:5-32 | (corrected) with sanitizing before validation every stored record has a non-empty name and message, an email matching the schema, the defaults, and no markup |
| MessageModel.MessageDocument.constructor | models/Message.js:4-44 | a document built from a valid draft holds the cast draft's fields |
| MessageModel.MessageDocument.PreSaveHook | models/Message.js:79-96 | the hook reassigns the fields to their pre-save values: name, subject (unless empty) and message sanitized and trimmed, the email sanitized, lower-cased and cast again; afterwards no field holds `<` and the status is untouched |
| MessageModel.CountStatus | router/adminRoutes.js:271-274 | a per-status count never exceeds the number of records |
| MessageModel.StatusCountsPartition | models/Message.js:27-32 | the seven per-status counts add up to the number of records |
| MessageModel.SumCountsAllStatuses | router/adminRoutes.js:270-274 | the per-status sum is the sum of the seven individual counts |
| MessageModel.GetStatsSpec | models/Message.js:62-76 | `getStats` maps `total` to the document count and the name of each status that has records to its count; statuses with no records have no key, and there are no other keys |
| MessageModel.GetStatsSumsToTotal | models/Message.js:62-76 | the per-status values `getStats` reports add up to its `total` |
| AdminRoutes.Authenticate | router/adminRoutes.js:10-29 | the gate lets a request through exactly when a token is present and verifies; otherwise 401, with `No token provided` exactly when the token is missing or empty |
| AdminRoutes.Guarded | router/adminRoutes.js:10-29 | a route behind `auth` answers `No token provided` without a token, a 401 for a token that does not verify, and runs its handler only for one that does |
| AdminRoutes.FindAdmin | router/adminRoutes.js:43 | the account found has the user name asked for; none is found only when no account has that name |
| AdminRoutes.LoginOutcomes | router/adminRoutes.js:32-82 | login fails with 400 exactly when a credential is missing; an unknown user and a wrong password both get the same 401; a success carries a token signed for an account with that name whose password matched |
| AdminRoutes.IntParamOr | router/adminRoutes.js:87-88 | `parseInt(x) \|\| d` with non-zero `d` is never 0 |
| AdminRoutes.IntParamOrCases | router/adminRoutes.js:87-88 | an absent parameter gives the default; a printed integer is read back, except 0, which gives the default |
| AdminRoutes.SummarizeAll | router/adminRoutes.js:92 | the projection keeps one summary per record, in order |
| AdminRoutes.InsertByDate | router/adminRoutes.js:93 | inserting keeps every record and adds exactly the new one |
| AdminRoutes.SortNewestFirst | router/adminRoutes.js:93 | sorting is a permutation of the records |
| AdminRoutes.InsertByDateOrdered | router/adminRoutes.js:93 | inserting into a newest-first sequence keeps it newest-first |
| AdminRoutes.SortNewestFirstOrdered | router/adminRoutes.js:93 | the sorted records are newest-first |
| AdminRoutes.CeilDivLeast | router/adminRoutes.js:107 | for a positive limit `ceil(total/limit)` is the least number of pages of `limit` records that hold every record |
| AdminRoutes.PageSlice | router/adminRoutes.js:94-95 | `.skip(s).limit(n)` returns at most `n` records, all of them when enough remain, each the record `s` places further on |
| AdminRoutes.PageDataSpec | router/adminRoutes.js:91-98 | a page of the sorted collection is a contiguous newest-first run starting at the skip, of the expected length |
| AdminRoutes.ListMessagesSpec | router/adminRoutes.js:85-117 | the listing fails (500) exactly when the skip `(page-1)*limit` is negative; otherwise it holds at most `\|limit\|` summaries, newest first, the run of the sorted collection starting at the skip, with `total` the collection size and `pages = ceil(total/limit)` |
| AdminRoutes.ListIgnoresStatusFilter | router/adminRoutes.js:91-97 | the listing is the same whatever `status` the query carries |
| AdminRoutes.PagePosition | router/adminRoutes.js:89 | position `k` lies on page `k/limit + 1` at offset `k % limit`, within the page count |
| AdminRoutes.EveryMessageOnSomePage | router/adminRoutes.js:85-108 | with a positive limit every message of the newest-first order is listed on page `k/limit + 1` at offset `k % limit`, and that page is within `pages` |
| AdminRoutes.MessageOnPage | router/adminRoutes.js:85-108 | a page within the page count holds the record at its skip plus offset |
| AdminRoutes.PageQueryReadBack | router/adminRoutes.js:87-88 | the `page` and `limit` the panel prints are the values the route reads |
| AdminRoutes.IndexOf | router/adminRoutes.js:122 | the lookup finds the first record with that id, or reports that none has it |
| AdminRoutes.GetMessage | router/adminRoutes.js:120-140 | a message is returned exactly when a record has that id, and it is that record; otherwise 404 |
| AdminRoutes.RouteStatusesWithinEnum | router/adminRoutes.js:154 | every status the route accepts is in the schema enum, but the enum's `sent` and `spam` cannot be set through the route |
| AdminRoutes.UpdateStatusSpec | router/adminRoutes.js:143-186 | a missing status (400), a status outside the allow-list (400) and an unknown id (404) each leave the collection unchanged; a success changes only the record with that id, only in its status and `updatedAt`, and returns it |
| AdminRoutes.DeleteMessageSpec | router/adminRoutes.js:189-210 | deletion removes exactly the record with that id and keeps the others, and answers `Message deleted successfully`; an unknown id is a 404 that changes nothing |
| AdminRoutes.DeleteTwiceNotFound | router/adminRoutes.js:189-197 | deleting the same id a second time is a 404 |
| AdminRoutes.DashboardCountsBound | router/adminRoutes.js:268-293 | `totalMessages` is the record count; the four reported counts sum to at most the total, and to exactly the total precisely when no record is `spam`, `sent` or `failed` |
| AdminRoutes.BreakLines | router/adminRoutes.js:242 | the HTML body has no line feed left |
| AdminRoutes.BreakLinesLength | router/adminRoutes.js:242 | each line feed becomes the four characters of `<br>` |
| AdminRoutes.BreakLinesKeepsSingleLine | router/adminRoutes.js:242 | a one-line message is unchanged |
| AdminRoutes.SendReplyMailSpec | router/adminRoutes.js:213-265 | a missing field is a 400 whatever the mailer would do; with all fields, a failed delivery is a 500, and a delivered mail goes to the given address with the given subject and text, its HTML body free of line feeds |
| AdminRoutes.SendReplyMailAcceptsAnyAddress | router/adminRoutes.js:217 | the recipient is checked only for presence: `x`, which is no email address, is sent to |
| AdminRoutes.MessageStore.constructor | router/adminRoutes.js:6 | the store starts empty |
| AdminRoutes.MessageStore.Create | models/Message.js:4-96 | a new message is stored with a fresh id exactly when its sanitized fields pass validation, and then it meets the schema; otherwise the store is unchanged; ids stay unique |
| AdminRoutes.MessageStore.List | router/adminRoutes.js:85 | a rejected token answers with the gate's 401 and nothing else; an accepted one answers with the listing of the stored records |
| AdminRoutes.MessageStore.Get | router/adminRoutes.js:120 | a rejected token answers with the gate's 401; an accepted one answers with the lookup in the stored records |
| AdminRoutes.MessageStore.SetStatus | router/adminRoutes.js:143-186 | a rejected token is a 401 that leaves the store as it was; otherwise the store becomes the result of the status update; any failure leaves the store unchanged; ids stay unique |
| AdminRoutes.MessageStore.Delete | router/adminRoutes.js:189-210 | a rejected token is a 401 that leaves the store as it was; otherwise the store becomes the result of the deletion; any failure leaves the store unchanged |
| AdminRoutes.MessageStore.Stats | router/adminRoutes.js:268 | a rejected token answers with the gate's 401; an accepted one answers with the counters of the stored records |
| AdminRoutes.MessageStore.SendEmail | router/adminRoutes.js:213 | a rejected token answers with the gate's 401 and sends nothing; an accepted one answers as the reply route does |
| AdminRoutes.MessageStore.VerifyToken | router/adminRoutes.js:296-301 | `/verify` succeeds exactly when the token is present and verifies |
| AdminPanel.ListUrlShape | admin.js:168-171 | the list URL always starts with the page and `limit=50`, and continues with `&status=<filter>` exactly when the filter is not `all` |
| AdminPanel.ListQueryReadBack | admin.js:168-171 | the route reads back the requested page and a limit of 50, and sees a status exactly when the filter is not `all` |
| AdminPanel.FilterDoesNotFilter | admin.js:169-171 | every filter yields the same listing |
| AdminPanel.PageControls | admin.js:248-258 | the loop builds exactly the bar that `Controls` describes |
| AdminPanel.WindowNumbers | admin.js:248-254 | the loop emits a link for page `n` exactly when `1 <= n <= pages` and `n` is the first, the last or within two of the current page, active exactly on the current page |
| AdminPanel.WindowIncreasing | admin.js:248-254 | the page links come in increasing order |
| AdminPanel.WindowGaps | admin.js:255-257 | an ellipsis appears exactly when a page three away from the current one is not shown |
| AdminPanel.ControlsSpec | admin.js:227-262 | no bar for one page or fewer; otherwise Previous (disabled exactly on page 1), the shown page links in increasing order, ellipses exactly for hidden pages three away, and Next (disabled exactly on the last page) |
| AdminPanel.TruncateSpec | admin.js:305-308 | a value longer than `n` keeps its first `n` characters and gains `...`; a shorter non-empty value is shown as is; an absent or empty one shows the placeholder |
| AdminPanel.DisplayRules | admin.js:305-308 | a shown message is at most 103 characters, a subject at most 53, and an empty subject shows `No subject` |
| AdminPanel.KnownBadgesDistinct | admin.js:354-365 | exactly six statuses have their own badge, and no two of them share a badge |
| AdminPanel.GenericBadge | admin.js:354-365 | any other status that is not an `Object.prototype` name gets the generic badge with the raw value inside it |
| AdminPanel.SpamHasNoBadge | admin.js:354-365 | of the schema's seven statuses only `spam` falls through to the generic badge, and none of them is an `Object.prototype` name |
| AdminPanel.MissingStatusShownAsNew | admin.js:311 | a missing or empty status is displayed with the `New` badge |
| AdminPanel.Panel.constructor | admin.js:17-29 | at page load the filter is `all`, the page 1 of 1, and no bar is drawn; a stored token is verified, leading to the dashboard and loads of page 1 and the counters when valid, or to both copies of the token dropped and the login screen when not; without a token the login screen is shown, nothing is sent and storage is untouched |
| AdminPanel.Panel.LoadMessages | admin.js:146-171 | without a token only the login screen is shown and nothing is sent; otherwise the page becomes current and the list URL for it and the filter is requested |
| AdminPanel.Panel.LoadStats | admin.js:118-133 | the counters are requested with the current token |
| AdminPanel.Panel.OnMessages | admin.js:192-216 | a 401 removes the stored token and shows the login screen while the in-memory token stays; a successful answer redraws the pagination bar; nothing else changes |
| AdminPanel.Panel.UpdatePagination | admin.js:220-279 | the old bar is removed; for more than one page the bar becomes `Controls(currentPage, pages)` and `totalPages` is updated |
| AdminPanel.Panel.FilterMessages | admin.js:684-686 | the filter is remembered; with a token page 1 is requested with it and the screen stays; without one nothing is sent, the page stays and the login screen is shown; the bar and the page count stay |
| AdminPanel.Panel.ChangeStatus | admin.js:535-589 | the status request is sent; a successful answer reloads the current page (with a token) and the counters; the login screen is shown only when a reload finds no token; page, filter, tokens, bar and page count stay |
| AdminPanel.Panel.MarkAsReplied | admin.js:535-561 | the request sets `replied`; a successful answer reloads the current page (with a token) and the counters; the screen changes only when a reload finds no token; page, filter, tokens, bar and page count stay |
| AdminPanel.Panel.ArchiveMessage | admin.js:563-589 | the request sets `archived`; a successful answer reloads the current page (with a token) and the counters; the screen changes only when a reload finds no token; page, filter, tokens, bar and page count stay |
| AdminPanel.Panel.DeleteMessage | admin.js:591-617 | nothing is sent unless the admin confirms; a confirmed delete is requested, and a successful one is followed by exactly the reload of the current page (with a token) and of the counters; the screen changes only when that reload finds no token; page, filter, tokens, bar and page count stay |
| AdminPanel.Panel.RefreshMessages | admin.js:699-703 | the current page (with a token) and the counters are reloaded; the screen stays with a token and becomes the login screen without one; page, filter, tokens, bar and page count stay |
| AdminPanel.Panel.AutoRefresh | admin.js:711-715 | while the dashboard is shown the timer reloads the current page, or shows the login screen when there is no token; otherwise nothing changes; page, filter, tokens, bar and page count stay |
| AdminPanel.Panel.SendReply | admin.js:492-533 | nothing is sent without a subject and a message; the mail request goes first, and a `replied` status request (with its reload) follows only when the mail was delivered, never otherwise; page, filter, tokens, bar and page count stay, and the screen changes only when a reload finds no token |
| AdminPanel.Panel.VerifyToken | admin.js:75-101 | a valid token shows the dashboard and loads page 1 and the counters; a rejected one is removed from storage and memory and the login screen is shown; filter, bar and page count stay |
| AdminPanel.Panel.SubmitLogin | admin.js:33-64 | a successful reply with a token stores it in memory and storage, shows the dashboard and loads page 1 and the counters; any other reply changes nothing but the request log; filter, bar and page count stay |
| AdminPanel.Panel.Logout | admin.js:67-72 | both copies of the token are dropped and the login screen is shown; nothing is sent and page, filter, bar and page count stay |
| Chatbot.MatchesPatternIff | public/ai-chatbot.js:408-410 | `matchesPattern` holds exactly when some keyword of the list occurs in the message |
| Chatbot.FirstMatchSpec | public/ai-chatbot.js:351-406 | first match wins: the fallback is returned exactly when no rule matches, and otherwise the topic of a matching rule with no matching rule before it |
| Chatbot.GenerateResponseIgnoresCase | public/ai-chatbot.js:352 | the reply does not depend on letter case |
| Chatbot.HiGreets | public/ai-chatbot.js:355 | any input containing `hi` in any case gets the greeting |
| Chatbot.ThisGreets | public/ai-chatbot.js:355 | `this` gets the greeting |
| Chatbot.HireAndWorkShadowed | public/ai-chatbot.js:365-395 | an input containing `hire` or `work` never gets the availability reply |
| Chatbot.AvailabilityNeedsOwnKeyword | public/ai-chatbot.js:395 | the availability reply comes only for an input with `available` or `freelance` and without `hire` or `work` |
| Chatbot.RuleShadows | public/ai-chatbot.js:351-406 | a matching rule hides every later rule's topic |
| Chatbot.MatchedRule | public/ai-chatbot.js:351-406 | a non-fallback reply comes from a rule that matches and has that topic |
| Chatbot.CountsCover | public/ai-chatbot.js:9 | every history entry is a user entry or a bot entry |
| Chatbot.CountsAppend | public/ai-chatbot.js:307-322 | appending an entry adds one to its own kind's count only |
| Chatbot.Assistant.constructor | public/ai-chatbot.js:108-126 | the widget starts closed with nothing pending, the saved history loaded and left in storage as it was, a new session id, and the stored user id reused or a new one stored |
| Chatbot.Assistant.InitializeSession | public/ai-chatbot.js:116-126 | the session id is new on every call; a stored user id is reused, otherwise a new one is generated and stored |
| Chatbot.Assistant.ToggleChat | public/ai-chatbot.js:279-280 | the window's open flag flips and nothing else changes, so two toggles restore it |
| Chatbot.Assistant.OnKey | public/ai-chatbot.js:265-269 | Escape leaves the window closed; other keys change nothing; history, pending replies, storage and the ids stay |
| Chatbot.Assistant.HandleUserMessage | public/ai-chatbot.js:305-308 | the message is appended to the history at once and its reply is pending; every handled message is answered once its reply fires; the window, storage and the ids stay |
| Chatbot.Assistant.HandleSubmit | public/ai-chatbot.js:294-303 | white-space-only input changes nothing; other input is handled trimmed; the window, storage and the ids stay |
| Chatbot.Assistant.DeliverReply | public/ai-chatbot.js:318-324 | the reply to a pending message appends one bot entry with the dispatched topic, removes that message from the pending ones, and saves the history; entries are never removed; the window and the ids stay |
| Effects.TextsNonEmpty | public/script.js:363-368 | there are four texts, none empty |
| Effects.Step | public/script.js:373-391 | one step keeps `0 <= textIndex < 4`, with `charIndex` below the length while typing and between 1 and the length while deleting |
| Effects.StepSpec | public/script.js:373-391 | each step shows the current text cut at the new `charIndex`; deleting starts exactly when `charIndex` reaches the length; the text advances modulo 4 exactly when deletion reaches 0; otherwise `charIndex` moves by one |
| Effects.StepN | script.js:477-496 | any number of steps keeps the state's bounds |
| Effects.TypeToEnd | public/script.js:373-384 | typing from `c` reaches the end of the text, switching to deleting, in `length - c` steps |
| Effects.DeleteToStart | public/script.js:385-388 | deleting from `c` reaches the start of the next text in `c` steps |
| Effects.StepNAdd | script.js:477-496 | `a + b` steps are `a` steps followed by `b` steps |
| Effects.TextCycle | script.js:477-496 | each text is typed and deleted in twice its length of steps, after which the next text (modulo 4) starts, so the texts cycle forever |
| Effects.Typewriter.constructor | script.js:473-475 | the animation starts at the first text, typing, at character 0 |
| Effects.Typewriter.Type | public/script.js:373-391 | `type()` writes the prefix of the current text up to the new `charIndex`, moves to the next state, and returns 1500 ms when deleting starts, 500 ms when the next text starts, and otherwise 50 ms while deleting and 100 ms while typing |
| Effects.LastN | public/script.js:1232 | `slice(-n)` keeps the last `n` elements, or all when there are fewer |
| Effects.SlideWindow | public/script.js:1231-1232 | sliding the window one key at a time keeps exactly the last ten keys of everything pressed |
| Effects.Konami.constructor | public/script.js:1223-1228 | the buffer starts empty with the ten-key code |
| Effects.Konami.KeyDown | public/script.js:1230-1243 | the buffer holds at most ten keys and equals the last ten keys pressed; a match is the joined buffer equal to the joined code; public/script.js empties the buffer after a match, script.js (667-677) keeps it |
| PublicScript.GetApiUrlSpec | public/script.js:46-84 | an explicit backend URL wins, then localhost or 127.0.0.1 gives `http://localhost:3000`, then vercel.app, onrender.com and herokuapp.com hosts give `https://<host>`, and everything else gives the origin |
| PublicScript.ValidateFormDataSpec | public/script.js:503-518 | the form is accepted exactly when name and message are non-empty and the email matches `^[^\s@]+@[^\s@]+\.[^\s@]+$` |
| PublicScript.FormRequestSpec | public/script.js:420-457 | a request is sent exactly when the fields pass `validateFormData`, and it carries the name, email and message as entered (untrimmed) and the subject or `''` |
| PublicScript.OrElse | public/script.js:471-489 | `m \|\| fallback`: a non-empty message wins, and a non-empty fallback gives non-empty text |
| PublicScript.SubmitOutcomeSpec | public/script.js:459-493 | the form is reset exactly on a success toast; a failed status or a body that is not JSON is never a success, and a body that is not JSON always shows `Error processing server response`; a JSON answer succeeds exactly when the status is OK and `success` holds; no toast is empty |
| PublicScript.ThemeIndexSpec | public/script.js:640 | `indexOf` is -1 exactly for an unknown theme and otherwise finds it |
| PublicScript.ThemeCycle | public/script.js:616-645 | the loaded theme is `blue` or `black` (the saved one when it is one of those); the button alternates between the two; an unknown theme becomes `blue` |
| PublicScript.App.constructor | public/script.js:16-24 | the page starts uninitialised, blue, with the menu closed |
| PublicScript.App.InitializeApp | public/script.js:97-127 | the start-up body (loading the saved theme) runs at most once, whatever the number of calls |
| PublicScript.App.ToggleTheme | public/script.js:629-662 | the theme becomes the next one and is saved, and the mobile menu ends closed |
| PublicScript.App.OpenMobileMenu | public/script.js:142-149 | the menu is open; the theme and its saved copy stay |
| PublicScript.App.CloseMobileMenu | public/script.js:151-158 | the menu is closed; the theme and its saved copy stay |
| PublicScript.App.ToggleMobileMenu | public/script.js:160-166 | the menu flips between open and closed; the theme and its saved copy stay |
| PublicScript.MouseTrail.constructor | public/script.js:561 | the trail starts empty |
| PublicScript.MouseTrail.OnMouseMove | public/script.js:563-574 | the trail never exceeds 50 particles; a particle is added only below the limit, so the removal branch is unreachable |
| RootScript.ApiUrlSpec | script.js:104-111 | an injected `API_URL` wins, then an origin that exists and is not `"null"`, then `http://localhost:3000`; `"null"` is chosen only when injected |
| RootScript.SubmitContactSpec | script.js:225-258 | a request goes out exactly when the trimmed name and message are non-empty and the trimmed email has the form's shape; it carries exactly the trimmed name, email and message; an empty trimmed field gives `Please fill in all fields` |
| RootScript.InterpretSpec | script.js:262-293 | with the body read once: a failed status is always an error; a text body counts as success exactly when the status is OK and is shown as the message; a JSON body succeeds exactly when the status is OK and `success` is true, and then shows its `message`, or `undefined` when it has none; the form is reset exactly on success |
| RootScript.NetworkFailureSpec | script.js:294-307 | the catch always shows an error: the local-server hint exactly when the page uses `http://localhost:3000`, otherwise `Network error: ` and the error's message |
| RootScript.HandleAsWrittenSpec | script.js:260-307 | as written, a body that is not JSON ends in the catch's network-error toast without a reset, except for the statuses without a body (101, 103, 204, 205, 304), where the text fallback sees `""`, so a 204 shows an empty success and resets the form; JSON answers and unanswered requests are handled as with the body read once |
| RootScript.TextReplyLost | script.js:260-307 | a 200 answer with the text body `Thanks` succeeds and resets the form when the body is read once, but shows an error without a reset as written |
| RootScript.HandleSpec | script.js:260-307 | with the body read once, an unanswered request is the catch's error, an answer is interpreted as above, and the form is reset exactly on a success toast |
| RootScript.ParticleTrail.constructor | script.js:566 | the trail starts empty |
| RootScript.ParticleTrail.OnMouseMove | script.js:569-613 | after each mousemove the trail holds at most 50 particles: a new particle is pushed and, above the limit, the oldest dropped |
| RootScript.ParticleTrail.Expire | script.js:602-605 | a removal timer drops the oldest particle, and does nothing on an empty trail |
| ChatConversation.ParseRoleIff | models/ChatConversation.js:14-19 | a role is accepted exactly when it is `user` or `bot`, and then it names that role |
| ChatConversation.ParseStatusIff | models/ChatConversation.js:52-56 | a status is accepted exactly when it names one of `active`, `ended`, `abandoned` |
| ChatConversation.MessageViolationsSpec | models/ChatConversation.js:14-28 | the message checks fail only on role or content fields, and pass exactly when every message has a valid role and non-empty content |
| ChatConversation.CreateSpec | models/ChatConversation.js:3-59 | a conversation is stored exactly when it validates; a missing session or user id is refused; a stored one has both ids, one message per draft message with its role and non-empty content and its timestamp or the creation time, the counters at 0 unless given and as given otherwise, the duration, topics and satisfaction as given, the status `active` unless given, and `createdAt` and `updatedAt` at the creation time |
| ChatConversation.ConversationDurationSpec | models/ChatConversation.js:67-72 | the duration is 0 below two messages and otherwise the last timestamp minus the first; appending moves the end of the span; with ordered timestamps it is never negative |

## Left out

- server.js is not part of this model: the whole file is commented out. The contact route that creates messages lives there, so rate limiting, notification mail and `deliveryError` bookkeeping are out too.
- startup.js, setup.js and created.js are not part of this model: file-system checks, `.env` copying, database connection and password hashing.
- public/chatbot-notification.js and public/sw.js are not part of this model: UI timing and an empty service worker.
- Network, timers and randomness: `fetch`, `setTimeout`, `setInterval` and `Math.random` become parameters or separate steps. The chat reply's random delay is why `DeliverReply` may answer pending messages in any order.
- DOM rendering, `escapeHtml`, `formatMessage`, notifications and date formatting are presentation and are not modelled. Of the contact forms' toasts only the kind (success or error) and the text are modelled, not their icons, timers or confetti.
- RootScript.Interpret: a JSON body of `null` makes `data.message` throw into the catch, which shows the network-error toast; the model's `Reply` takes every JSON body to be an object.
- The chat assistant's reply texts are left out: a reply is identified by its topic.
- The backend saves of chat messages (`saveMessageToBackend`, `endConversation`) are left out; they are network calls.
- The analytics fields `duration`, `topics` and `satisfaction` of a conversation are kept as given. Its `metadata` is not modelled.
- The JSON parse error when the saved chat history is malformed is not modelled: history is loaded or absent.
- Letter case uses only ASCII `A`-`Z`; Unicode case mapping is left out. Lengths count code points, not UTF-16 units.
- Numbers are unbounded integers. JavaScript's doubles beyond 2^53, and `parseInt` of fractional or exponent text, are not modelled.
- Ids are already-cast naturals. A malformed ObjectId, which Mongoose answers with a 500, is not modelled.
- Every JSON request field is taken to be a string or absent. A field of another type (a numeric `message` on `/send-email`, whose `message.replace` then throws into the route's 500, or a non-string login field) is not modelled, and neither is a `/verify` answer's decoded token payload.
- AdminRoutes.MessageStore.Create: stores the record the corrected save (`MessageModel.SaveSanitizedFirst`) produces, not the as-written order of validation and hook; the as-written save is `MessageModel.SaveAsWritten` (see Findings).
- AdminRoutes.SortNewestFirst: records with equal `createdAt` are put in one fixed order, while the database leaves that order open.
- The admin table's `exportMessages` placeholder and the per-message modal are not modelled; they only show text.
- PublicScript.SubmitOutcome: a JSON body of `null` makes `result.message` throw, which the catch shows; the model takes every JSON body to be an object.
- AdminPanel.GenericBadge: for `Object.prototype` names such as `constructor` or `toString`, `statusMap[status]` finds an inherited member; `AdminPanel.StatusBadge` does not model that lookup, and the lemma excludes those names (the schema's enum keeps them out of stored records).
- The shared 60-second auto-refresh and the other UI timers run as separate steps (`AdminPanel.Panel.AutoRefresh`), not on a clock.
- public/script.js's mouse trail (`PublicScript.MouseTrail`) is never installed: `APP_STATE.mouseTrailEnabled` starts `false` and nothing sets it. Were it installed, `particle.remove()` takes the particle off the page but not out of the array, so after 50 spawns the trail stops growing for good; the model states that array, not the page.
- script.js's particle removal timers shift the oldest particle, not the one they were made for; the model states that shift (`RootScript.ParticleTrail.Expire`) without tracking which particle each timer belongs to.

## Findings

| source | as written | input that shows it | evidently intended | confidence | as-written member | corrected member |
|---|---|---|---|---|---|---|
| models/Message.js:79-87 | the pre-save hook strips markup after the schema has validated the fields, so what is stored is never checked again | name `<b>`, email `a@b.<c`, message `hi`: validation passes, then the name is stored empty and the email as `a@b.`, which does not match `^\S+@\S+\.\S+$` | every stored record satisfies the schema: sanitize first, then validate | not executed | MessageModel.SaveAsWrittenStoresInvalid (on MessageModel.SaveAsWritten) | MessageModel.SaveSanitizedFirstValid (on MessageModel.SaveSanitizedFirst) |
| script.js:260-307 | `response.json()` reads the body even when it fails to parse it, so for every answer that has a body the plain-text fallback's `response.text()` reads a used body and rejects into the outer catch | a 200 answer whose body is the text `Thanks`: a network-error toast instead of the success toast with `Thanks`, and the form is not reset | a body that is not JSON is shown as text, as the fallback's comment says: read the body once and parse it | not executed | RootScript.TextReplyLost (on RootScript.HandleAsWritten, with RootScript.HandleAsWrittenSpec) | RootScript.HandleSpec (on RootScript.Handle and RootScript.Interpret, with RootScript.InterpretSpec) |
