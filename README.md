# buoy-site endpoints: a Dafny model

This project models the logic of the serverless endpoints of the buoy-site marketing site.
None of them has an algorithmic core; each validates a request, calls one or two external
services and maps the answer to a JSON reply. The model covers four pieces:

- **Email shape** (`src/utils/validation.ts`). The regular expression `^[^\s@]+@[^\s@]+\.[^\s@]+$`
  is written out as the predicate `Validation.IsValidEmail`. It is proved equal to the pattern read
  as a grammar, `L@A.B`, in both directions, and the named accept and reject facts are proved about it.
- **Support form** (`src/pages/api/support.ts`). This covers `escapeHtml` (module `HtmlEscape`),
  the subject-label table, the plain-text and HTML bodies, and the handler's decision chain (module `Support`).
- **Subscribe** (`src/pages/api/subscribe.ts`). This covers the validation chain, the lead-magnet
  table with its fallback, the create-contact call with its "already exists" tolerance, and the
  event call (module `Subscribe`).
- **Install counter** (`src/pages/api/installs.ts`). The class `Installs.InstallCounter` holds the
  key-value store binding (`kv`, absent when not bound) and the webhook secret. GET and POST are
  methods whose `ensures` give the reply and the new store in terms of the functions `StoredCount`,
  `Mutated` and `Remaining`.

Shared pieces:

- `Wrappers.Option` and `Http.Reply` are the shared types.
- `Text` models the JavaScript built-ins the handlers use:
  - the `\s` whitespace class, which `String.prototype.trim` also strips;
  - `trim`;
  - `includes`;
  - character counting.

Outbound calls are parameters that say what the call came back with:

- `Support.SendOutcome`: `Accepted`, `NotAccepted` or `Threw`.
- `Subscribe.CallOutcome`: `Ok`, `NotOk(text)` or `Threw`.
- KV store failures: the `storeFails` flag.

Each handler returns the reply together with the bodies of the calls it made, so "no outbound call"
and "same download URL everywhere" are properties of the result.

Request bodies are `Option`s. `None` means `request.json()` threw, and the handler answers through
its catch-all `500`. An absent field and an empty string are both falsy in the handlers' checks, so
both are `""`. Environment variables follow the same rule: an unset one is `""`.

Three points where the handlers' behaviour is easy to misread:

- **Subscribe makes exactly two outbound calls: create-contact, then the event.** There is no
  separate update call after "already exists" and no transactional send.
- **A thrown event call fails the subscribe request with 500.** Once the contact exists, only a
  non-ok event *response* is tolerated, although the code comment at line 104 of
  `src/pages/api/subscribe.ts` says that no event failure should fail the request. An event
  `fetch` that throws reaches the catch-all. See Findings.
- **The subject label is escaped too.** The HTML body escapes the subject label as well as the
  name, email and message.

## Model

| member | source | states |
|---|---|---|
| `Text.TrimStart` | src/pages/api/support.ts:76 | result is the suffix of the input left once the leading whitespace is gone: it does not start with whitespace, and every dropped character is whitespace |
| `Text.TrimEnd` | src/pages/api/support.ts:85 | result is the prefix of the input left once the trailing whitespace is gone: it does not end with whitespace, and every dropped character is whitespace |
| `Text.TrimFramed` | src/pages/api/support.ts:69-85 | text with a non-space first and last character, padded with whitespace on both sides, trims back to itself |
| `Text.IsWhitespace` | src/utils/validation.ts:5 | the ECMAScript `\s` class (WhiteSpace and LineTerminator), which is also what `trim` strips; every member lies in the Basic Multilingual Plane |
| `Text.Trim` | src/pages/api/support.ts:76 | result is a piece of the input with only whitespace before and after it, and it neither starts nor ends with whitespace; it is empty exactly when the input is all whitespace |
| `Text.TrimEndAppendWs` | src/pages/api/support.ts:69-76 | appending whitespace to any text leaves the result of trimming its end unchanged |
| `Text.Includes` | src/pages/api/subscribe.ts:76 | `includes`: the substring occurs at some position; the empty substring is always included, and an included substring is no longer than the text |
| `Validation.ValidMatchesPattern` | src/utils/validation.ts:5 | every accepted string is `L@A.B` with L, A, B non-empty and free of whitespace and `@` |
| `Validation.PatternIsValid` | src/utils/validation.ts:5 | every `L@A.B` with non-empty L, A, B free of whitespace and `@` is accepted |
| `Validation.IsValidEmail` | src/utils/validation.ts:5-12 | the regular expression written out; the same regular expression appears inline at src/pages/api/subscribe.ts:24-25, so both handlers share this predicate. An `@` past the first character, only `[^\s@]` before it, and `[^\s@]` characters with an inner dot after it; any accepted string has at least five characters |
| `Validation.EmailPatternEquivalence` | src/utils/validation.ts:5-12 | isValidEmail(s) holds if and only if s has the `L@A.B` shape |
| `Validation.ValidHasNoWhitespace` | src/utils/validation.ts:5 | an accepted string has no whitespace character at any position |
| `Validation.WhitespaceRejected` | src/utils/validation.ts:5 | a string with whitespace anywhere is rejected |
| `Validation.ValidHasOneAt` | src/utils/validation.ts:5 | an accepted string contains exactly one `@` |
| `Validation.DomainNeedsInnerDot` | src/utils/validation.ts:5 | if the part after the `@` has no dot strictly inside it (so `a@b`, `a@.b` and `a@b.` all fail), the string is rejected |
| `Validation.NoAtRejected` | src/utils/validation.ts:5 | a string without `@` is rejected |
| `Validation.Examples` | src/utils/validation.ts:5-12 | `""`, `a@b`, `noat.com`, `a@.b`, `a@b.` and `a b@c.d` are rejected; `a@b.c` is accepted |
| `HtmlEscape.Entity` | src/pages/api/support.ts:119-125 | each of the five entities starts with `&`, ends with `;` and is at least four characters long |
| `HtmlEscape.EscapeHtml` | src/pages/api/support.ts:118-127 | output has no `<`, `>`, `"` or `'` and is at least as long as the input |
| `HtmlEscape.EscapeChar` | src/pages/api/support.ts:119-125 | an ordinary character is copied; a special one becomes its entity, which starts with `&` and ends with `;`; no markup character is produced either way |
| `HtmlEscape.UnescapeHtml` | src/pages/api/support.ts:119-125 | the inverse of the entity table, the reference that `UnescapeEscape` checks escaping against: it never lengthens the text, and text without `&` is copied unchanged |
| `HtmlEscape.EscapeConcat` | src/pages/api/support.ts:126 | escape(a + b) == escape(a) + escape(b) |
| `HtmlEscape.EscapeIdentity` | src/pages/api/support.ts:126 | text without the five specials is returned unchanged |
| `HtmlEscape.AmpersandBeginsEntity` | src/pages/api/support.ts:119-126 | every `&` in the output begins one of `&amp; &lt; &gt; &quot; &#39;` |
| `HtmlEscape.UnescapeStep` | src/pages/api/support.ts:119-125 | unescaping one escaped character in front of any text yields that character, then the unescaped rest |
| `HtmlEscape.UnescapeEscape` | src/pages/api/support.ts:118-127 | replacing the entities back recovers the input exactly (the entity table is injective) |
| `Support.SubjectLabel` | src/pages/api/support.ts:50-59 | a known subject code gives its label; an unknown code is used verbatim |
| `Support.BreakLines` | src/pages/api/support.ts:84 | output contains no newline |
| `Support.AllFieldsPresent` | src/pages/api/support.ts:18 | the required-fields test: name, email, subject and message are all non-empty |
| `Support.MailConfigured` | src/pages/api/support.ts:41 | the provider test: both the API key and the domain are set |
| `Support.SubjectLine` | src/pages/api/support.ts:59 | the mail subject starts with `[Buoy Support] ` and ends with the sender's name |
| `Support.TextCore` | src/pages/api/support.ts:69-76 | the text template, without its leading newline and trailing indentation, opens with `Name: ` and ends with the raw message |
| `Support.TextBody` | src/pages/api/support.ts:69-76 | the plain-text template literal with `trim` applied; `TextBodyTrimsEnd` states what that leaves |
| `Support.TextBodyTrimsEnd` | src/pages/api/support.ts:69-76 | for every form, the text body is the template without its leading newline and trailing indentation, with the message's own trailing whitespace also removed |
| `Support.HtmlCore` | src/pages/api/support.ts:77-85 | the HTML template, without its leading newline and trailing indentation, opens with the `<h2>New Support Request</h2>` heading and closes with `</p>` |
| `Support.HtmlBody` | src/pages/api/support.ts:77-85 | the HTML template literal with `trim` applied; `HtmlBodyIsCore` states what that leaves |
| `Support.ComposeMail` | src/pages/api/support.ts:64-85 | replies go to the sender's address; there is always a recipient: the configured support address when set, else `support@buoy.design`; the subject, text and HTML are the subject line and the two bodies |
| `Support.HandleSupport` | src/pages/api/support.ts:13-116 | status is 200, 400 or 500; mail is handed to the provider iff the body was read, all fields are present, the email is valid and key and domain are set, and it is then the composed mail; 200 iff that mail was accepted; 400 iff a field is missing or the email is malformed |
| `Support.MissingFieldFirst` | src/pages/api/support.ts:18-23 | an empty field gives 400 "All fields are required" and no send, whatever the email, credentials or provider |
| `Support.InvalidEmailSecond` | src/pages/api/support.ts:26-31 | with all fields present, a malformed email gives 400 "Invalid email address" and no send |
| `Support.UnconfiguredThird` | src/pages/api/support.ts:37-47 | a valid form with a missing API key or domain gives 500 "Email service not configured" and no send |
| `Support.SendOutcomeDecides` | src/pages/api/support.ts:87-115 | for a valid, configured form: accepted gives 200 "Message sent successfully", not accepted gives 500 "Failed to send email", a throw gives 500 "An unexpected error occurred" |
| `Support.UnreadableBodySupport` | src/pages/api/support.ts:14-15 | a body that cannot be read gives 500 "An unexpected error occurred" and no mail is sent |
| `Support.BreakLinesTags` | src/pages/api/support.ts:84 | replacing newlines by `<br>` adds exactly one `<` per newline |
| `Support.EscapedHasNoTags` | src/pages/api/support.ts:79-84 | escaped text contains no `<` |
| `Support.EscapeNewlines` | src/pages/api/support.ts:84 | escaping keeps the number of newlines, so each still turns into `<br>` |
| `Support.HtmlBodyIsCore` | src/pages/api/support.ts:77-85 | the trimmed HTML body is exactly the template with the escaped fields in place |
| `Support.HtmlCoreTags` | src/pages/api/support.ts:77-85 | the `<` count of the HTML body is the sum over the fixed template pieces plus the message's newline count; the fields add none |
| `Support.HtmlBodyTags` | src/pages/api/support.ts:77-85 | no markup can be injected: any form's HTML body has as many `<` as an empty form's, plus one per newline of the message |
| `Support.TextBodyIsRaw` | src/pages/api/support.ts:69-76 | the plain-text body carries the raw name, email, label and message (when the message does not end in whitespace) |
| `Subscribe.DownloadUrl` | src/pages/api/subscribe.ts:46-52 | a known lead magnet gives its PDF path; any other id gives `/downloads/drift-checklist.pdf`; the result is always one of the table's paths |
| `Subscribe.FieldsPresent` | src/pages/api/subscribe.ts:16 | the required-fields test: email and lead magnet are both non-empty |
| `Subscribe.ContactAvailable` | src/pages/api/subscribe.ts:71-76 | the contact exists after the create call: an ok call counts, a thrown call never does, and a failure whose text lacks "already exists" (the empty text, say) does not |
| `Subscribe.ContactBody` | src/pages/api/subscribe.ts:61-68 | the create-contact body carries the request's email, first name and lead magnet, and the download URL resolved from the table, always one of its paths |
| `Subscribe.EventBody` | src/pages/api/subscribe.ts:91-98 | the event body carries the request's email and lead magnet, and the same resolved download URL |
| `Subscribe.HandleSubscribe` | src/pages/api/subscribe.ts:11-122 | create is called iff the body was read, email and lead magnet are present, the email is valid and the key is set; the event is called iff create was called and succeeded or said "already exists"; 200 iff the event was called and did not throw, and then the reply carries the resolved download URL; 400 iff validation failed; the call bodies carry that same URL |
| `Subscribe.AfterContact` | src/pages/api/subscribe.ts:84-113 | once the contact exists the event is sent, and the reply is 200 unless the event call throws |
| `Subscribe.MissingFieldsFirst` | src/pages/api/subscribe.ts:16-21 | an empty email or lead magnet gives 400 "Email and lead magnet are required" and no call |
| `Subscribe.InvalidEmailSecond` | src/pages/api/subscribe.ts:24-30 | a malformed email gives 400 "Invalid email address" and no call |
| `Subscribe.MissingKeyThird` | src/pages/api/subscribe.ts:35-43 | a missing API key gives 500 "Email service not configured" and no call |
| `Subscribe.CreateFailureAborts` | src/pages/api/subscribe.ts:71-81 | a create failure whose text lacks "already exists" gives 500 "Failed to subscribe" with no event call |
| `Subscribe.CreateThrowUnexpected` | src/pages/api/subscribe.ts:55-69 | a create call that throws gives 500 "An unexpected error occurred" after sending the contact body, and there is no event call |
| `Subscribe.UnreadableBodySubscribe` | src/pages/api/subscribe.ts:12-13 | a body that cannot be read gives 500 "An unexpected error occurred" and no call is made |
| `Subscribe.AlreadyExistsTolerated` | src/pages/api/subscribe.ts:75-82 | a create failure saying "already exists" gives the same result as a successful create |
| `Subscribe.EventFailureTolerated` | src/pages/api/subscribe.ts:101-113 | a non-ok event response gives the same result as an ok one |
| `Subscribe.SameDownloadUrl` | src/pages/api/subscribe.ts:66-110 | on success the create body, the event properties and the reply carry the same download URL |
| `Subscribe.UnknownMagnetFallsBack` | src/pages/api/subscribe.ts:52 | an unknown lead magnet still succeeds, with the drift-checklist download |
| `Subscribe.EventThrowFailsRequest` | src/pages/api/subscribe.ts:85-121 | as written, a thrown event call after a created contact gives 500 "An unexpected error occurred" |
| `Subscribe.HandleSubscribeIsolated` | src/pages/api/subscribe.ts:101-105 | corrected failure boundary: same calls as the handler; 200 iff the event call was reached; equal to the handler whenever the event did not throw |
| `Subscribe.IsolatedIgnoresEvent` | src/pages/api/subscribe.ts:101-105 | with the corrected boundary, the event outcome never changes the result |
| `Installs.Remaining` | src/pages/api/installs.ts:19 | remaining is max(0, 100 - installs): never negative, and at most 100 when installs is non-negative |
| `Installs.StoredCount` | src/pages/api/installs.ts:15-16 | a missing key reads as 0, so a store of non-negative counts never reads negative |
| `Installs.Mutated` | src/pages/api/installs.ts:78-88 | the store after a POST body: any request writes the counter key, and without an explicit count a non-negative count stays non-negative |
| `Installs.CountTakesPrecedence` | src/pages/api/installs.ts:78-79 | a numeric count is stored exactly, whatever increment and decrement say |
| `Installs.IncrementAddsOne` | src/pages/api/installs.ts:80-83 | increment stores the old count plus one, with a missing count read as 0 |
| `Installs.DecrementFloored` | src/pages/api/installs.ts:84-87 | decrement stores max(0, old - 1), so 0 stays 0 |
| `Installs.NoRequestNoChange` | src/pages/api/installs.ts:78-88 | with no count, increment or decrement, the store is unchanged |
| `Installs.OnlyCounterKeyWritten` | src/pages/api/installs.ts:79-87 | every key other than `marketplace_installs` keeps its presence and value |
| `Installs.InstallCounter.constructor` | src/pages/api/installs.ts:10-57 | the counter starts with the given store binding and secret |
| `Installs.InstallCounter.Installs` | src/pages/api/installs.ts:90-91 | the installs a successful reply reports: 0 without a store binding, never negative over a store of non-negative counts |
| `Installs.InstallCounter.Authorized` | src/pages/api/installs.ts:60 | without a secret every request passes; a missing header passes only then; the bare secret without the `Bearer ` prefix is refused |
| `Installs.InstallCounter.Read` | src/pages/api/installs.ts:15 | returns the stored count, or none when the key is missing |
| `Installs.InstallCounter.Put` | src/pages/api/installs.ts:79 | the store afterwards is the old store with the counter key set to the value |
| `Installs.InstallCounter.Get` | src/pages/api/installs.ts:7-50 | always a 200 count reply with remaining == max(0, 100 - installs); installs is the stored count (missing as 0) when the store is bound and reads, otherwise 0 |
| `Installs.InstallCounter.Post` | src/pages/api/installs.ts:53-108 | bad bearer with a secret set gives 401 and no change; an unreadable body gives 500 "Failed to update count"; no store gives 500 "KV not available"; a failing store gives 500 and no change; otherwise the store becomes Mutated(old store, body) and the reply re-reads it |
| `Installs.SetThenGet` | src/pages/api/installs.ts:78-96 | setting count n and then reading gives installs n, remaining max(0, 100 - n) |
| `Installs.DecrementAtZero` | src/pages/api/installs.ts:84-96 | decrementing at 0 replies installs 0, remaining 100 |
| `Installs.UnauthorizedPost` | src/pages/api/installs.ts:60-65 | a wrong or missing bearer with a secret set gives 401 and leaves the store unchanged |

## Left out

- Astro route plumbing, response headers and `Cache-Control` values: framework I/O. Replies are `Http.Reply` or `Installs.CountReply` values.
- The request bodies passed to `fetch` for the outbound calls are modelled; the rest of each call is not. That includes URLs, the `Authorization` headers, the `btoa` Basic-auth encoding, `FormData` encoding and reading the response text. These are foreign network calls; their outcomes are parameters.
- `console.error` logging has no observable effect on replies.
- The read-then-write race between concurrent increments: requests are modelled one at a time.
- JSON parsing beyond success or failure. A field of a non-string type (say a number for `name`) is not modelled: fields are strings, with absent as `""`.
- JavaScript number corner cases are not modelled: `count` is an integer when present, and non-integer numbers, NaN and infinities are out.
- Installs.InstallCounter.Get: stored values are integers. An empty or non-numeric string written to the key by another client, and `parseInt` on it, are not representable; a missing key is the only value read as 0.
- Installs.InstallCounter.Post: `storeFails` models a store that throws at the handler's first use of it. A write that succeeds followed by a failing re-read is not modelled.
- Support.SubjectLabel: object-prototype keys are not modelled. The source looks codes up in a plain object literal, so a code such as `constructor` or `toString` would hit a prototype member; the model treats the table as holding only its six own keys.
- Subscribe.DownloadUrl: object-prototype keys are not modelled, for the same reason. The table is treated as holding only its three own keys.
- Strings are sequences of Unicode scalar values, whereas JavaScript strings are UTF-16 code units. This does not change any result here: every special character involved is in the Basic Multilingual Plane.
- `src/pages/downloads/[slug].ts` (the download proxy) is not part of this model.

## Findings

| source | as written | input that shows it | evidently intended | confidence | as-written member | corrected member |
|---|---|---|---|---|---|---|
| src/pages/api/subscribe.ts:85-121 | the event `fetch` is awaited inside the top-level `try`, so a thrown call (network failure) goes to the catch-all | valid email and lead magnet, key set, create returns ok, event `fetch` throws: reply 500 "An unexpected error occurred" although the contact was created | the comment at line 104 and the handler's structure say an event failure must not fail the request once the contact exists: reply 200 with the download URL | medium, not executed | `Subscribe.EventThrowFailsRequest` | `Subscribe.HandleSubscribeIsolated` |
