# Portfolio back ends and page logic in Dafny

This project models the logic behind a personal portfolio site and proves properties of it. There are five parts:

- **The chat proxy.** A Python FastAPI service (`ollama-proxy/main.py`) and a Next.js route (`frontend/app/api/chat/route.ts`) sit between the site's chatbot and an Ollama server. The model covers:
  - how each checks the visitor's message;
  - the two-turn payload each sends (system prompt, then the user's message);
  - how each checks and trims the server's reply;
  - how each reports health;
  - which headers the Python pass-through forwards;
  - the streaming endpoint's `generate_stream` loop. It turns the server's newline-delimited JSON into server-sent-event frames.
- **The Convex back end.**
  - `submissions.ts` stores contact-form messages under a one-hour limit per IP address.
  - `projects.ts` and `experiences.ts` hold the listings and their create/update/delete mutations.
  - `seed.ts` fills empty tables once.
  - A shared `Table` class stands for a Convex table. It holds records in creation order under ids handed out in increasing order.
- **The projects page filter** (`portfolio/app/projects/page.tsx`). It covers:
  - the category tabs;
  - the technology chips, de-duplicated in first-occurrence order;
  - the filter predicate;
  - toggling a technology and clearing the filters.
- **The theme toggle's view-transition styles** (`frontend/components/ui/theme-animations.ts`). These are the corner coordinates, the SVG mask, the transform origin and the animation chosen for each of the ten variants and nine start positions.

Modules, one per source file plus shared ones:

| Module | Models |
|---|---|
| `OllamaProxy`, `StreamRelay` | `main.py` |
| `ChatRoute` | `route.ts` |
| `Submissions`, `Projects`, `Experiences`, `Seed` | the Convex files, on top of `ConvexTable` |
| `ProjectFilter` | the projects page |
| `ThemeAnimations` | the theme animations |
| `Wrappers`, `Text`, `Sequences`, `OllamaApi`, `EventStream` | shared pieces, described below |

The shared modules:

- `Wrappers` holds `Option` and `Result`.
- `Text` holds Python's `strip` and JavaScript's `trim`, with their different whitespace sets, and decimal rendering.
- `Sequences` holds ordering and subsequences.
- `OllamaApi` holds the reply shapes both proxies read.
- `EventStream` holds:
  - Python's `json.dumps` escaping of the three relay payloads, with a decoder that inverts it;
  - an event-stream reader in the manner of section 9.2 of the WHATWG HTML Living Standard, which shows what a browser receives.

Methods work where the source changes state:

- `StreamRelay.GenerateStream` is the `generate_stream` loop.
- `Seed.InsertAll` is the `for` loop of `seed`.
- The Convex mutations call `Table.Insert`, `Table.Update` and `Table.Delete`.

Each method is proved against a function, and the properties are proved as lemmas about that function.

## Model

| member | source | states |
|---|---|---|
| Text.Trim | ollama-proxy/main.py:371 | The result is no longer than the input and neither begins nor ends with whitespace. |
| Text.TrimIsMiddle | ollama-proxy/main.py:371 | The trimmed text is a contiguous middle slice of the input, and everything before and after it is whitespace. |
| Text.TrimEmptyIff | ollama-proxy/main.py:313 | Trimming gives the empty string exactly when every character is whitespace (the test `not message.strip()`). |
| Text.TrimIdempotent | frontend/app/api/chat/route.ts:243 | Trimming twice equals trimming once. |
| Text.NatToString | ollama-proxy/main.py:353 | The decimal rendering of a number is non-empty, all digits, and has a leading zero only for 0. |
| Text.DecimalRoundTrip | v2/convex/submissions.ts:33-35 | Reading the rendered digits back gives the number rendered. |
| OllamaApi.Conversation | ollama-proxy/main.py:319-328 | Every call sends exactly two turns: the system prompt, then the user's message unchanged. |
| OllamaProxy.GetEnv | ollama-proxy/main.py:24-25 | `os.getenv` gives the variable when it is set, even when empty, and the default only when it is unset. |
| OllamaProxy.RequestWithDefaults | ollama-proxy/main.py:31-36 | A body with only `message` gets stream false, temperature 0.7, top_p 0.9 and max_tokens 1000. |
| OllamaProxy.CheckRequest | ollama-proxy/main.py:310-314 | A missing client gives 500 "HTTP client not initialized". Otherwise the result is 400 "Message is required and cannot be empty" exactly when the message is all whitespace, and nothing otherwise. |
| OllamaProxy.ChatPayload | ollama-proxy/main.py:317-335 | The payload carries the configured model and the request's own `stream` flag. The turns are system prompt, then the unstripped message. `options` passes temperature and top_p through and carries max_tokens as `num_predict`. |
| OllamaProxy.ChatReply | ollama-proxy/main.py:345-386 | Success exactly when the server answered with a 2xx status and a non-empty `message.content`. The reply is then that content stripped, with the configured model. A non-2xx status gives the "Status: <code>" fallback. Every failure is a 500 with a fallback object. |
| OllamaProxy.Chat | ollama-proxy/main.py:303-386 | The guards decide first. Only when they pass is the server asked, with the chat payload, and its answer handled by `ChatReply`. |
| OllamaProxy.BlankMessageNeverSent | ollama-proxy/main.py:313-314 | For a blank message the result is the 400 error, whatever the server would answer. |
| OllamaProxy.HealthCheck | ollama-proxy/main.py:275-301 | The check always returns a report carrying the endpoint, model and timestamp. The status is "healthy" exactly when the client exists and the probe answered 200. `error` is set exactly when the client is missing or the probe raised, and it holds that exception's text. |
| OllamaProxy.HealthIsExactly200 | ollama-proxy/main.py:284 | A 204, although a success status, is reported unhealthy. |
| OllamaProxy.Lower | ollama-proxy/main.py:489 | Header names are lower-cased letter by letter: the length is kept and exactly A-Z are folded. Python's `lower()` also folds non-ASCII letters; that decides the `host` test no differently, because no such letter lower-cases into one of h, o, s, t. |
| OllamaProxy.ForwardedHeaderNames | ollama-proxy/main.py:489 | A name is forwarded exactly when some incoming header has it and it is not `host` in any letter case. |
| OllamaProxy.ForwardedHeaderLastWins | ollama-proxy/main.py:489 | A repeated header name is forwarded with the value of its last occurrence. |
| OllamaProxy.ProxyRequest | ollama-proxy/main.py:470-501 | A missing client fails with "Proxy request failed: ..." and nothing else does. The request keeps the method, goes to endpoint + "/api/" + path, and keeps the query. It carries the body exactly for POST and PUT, and the filtered headers. |
| StreamRelay.ChatStream | ollama-proxy/main.py:389-467 | The same guards as `chat`, with the same errors. On success the payload is the chat payload with `stream` forced to true, served as `text/event-stream`. |
| StreamRelay.LineStep | ollama-proxy/main.py:437-445 | A non-empty line with non-empty content yields a content event holding that text. Otherwise a truthy `done` yields a done event, so content wins over done. A line never yields an error event by itself. |
| StreamRelay.Relay | ollama-proxy/main.py:424-449 | A stream that cannot be opened yields only the "Streaming failed" error. A non-2xx status yields only "Failed to connect to AI model". |
| StreamRelay.RelayLinesAfterAbort | ollama-proxy/main.py:447-449 | Once a line raises, later lines change nothing. |
| StreamRelay.RelayLinesAppend | ollama-proxy/main.py:436-445 | When the earlier lines raise nothing, relaying them followed by more lines is their relay followed by the relay of the rest. A done line therefore does not stop the loop. |
| StreamRelay.RelayErrorOnlyLast | ollama-proxy/main.py:432-449 | A relay has at most one error event and it is the last. There is one exactly when the stream failed, was refused, raised on a line or broke. |
| StreamRelay.RelayLinesErrorLast | ollama-proxy/main.py:436-449 | Over the lines, no event but the last is an error, and the last is one exactly when some line raises. |
| StreamRelay.SkippedLineInvisible | ollama-proxy/main.py:437-446 | An empty line, an undecodable line, or one with neither content nor done can be removed without changing the relay. |
| StreamRelay.RelayedContents | ollama-proxy/main.py:440-441 | Without a raising line, the content events carry exactly the non-empty contents of the lines, in order. |
| StreamRelay.AbortEndsRelay | ollama-proxy/main.py:447-449 | The first line that raises ends the relay, and nothing after it is relayed. |
| StreamRelay.SingleFrame | ollama-proxy/main.py:433 | The body for one event is exactly that event's frame. |
| StreamRelay.ClientReceivesRelay | ollama-proxy/main.py:451-453 | A browser's event-stream reader dispatches one message per relayed event, and each decodes back to that event. |
| StreamRelay.HandleLine | ollama-proxy/main.py:437-446 | One pass of the loop yields exactly the frames of that line's step and raises exactly when the step aborts. |
| StreamRelay.GenerateStream | ollama-proxy/main.py:422-449 | The loop's whole body is the frames of `Relay` of the upstream, in order. |
| EventStream.Hex4RoundTrip | ollama-proxy/main.py:441 | A four-digit `\u` escape reads back as the code unit written. |
| EventStream.EscapeCharPrintable | ollama-proxy/main.py:441 | Every character's JSON escape is printable ASCII (`ensure_ascii`). |
| EventStream.EscapePrintable | ollama-proxy/main.py:441 | An escaped string is printable ASCII, so no content can break a data line. |
| EventStream.UnescapeEscapeChar | ollama-proxy/main.py:441 | Decoding one escape, including a surrogate pair, gives back its character and continues with the rest. |
| EventStream.UnescapeEscape | ollama-proxy/main.py:441 | Decoding the escaped text of any string gives back that string. |
| EventStream.EventJsonPrintable | ollama-proxy/main.py:433-449 | Each of the three payloads is printable ASCII. |
| EventStream.EventJsonRoundTrip | ollama-proxy/main.py:433-449 | Every payload decodes to the event it was written from. |
| EventStream.ColonAt | ollama-proxy/main.py:441 | The field-name split lies before the first colon of the line, and no earlier colon exists. |
| EventStream.InterpretFrame | ollama-proxy/main.py:441 | Reading one `data: ...` frame dispatches exactly its payload and leaves the reader as it was. |
| EventStream.Payloads | ollama-proxy/main.py:433-449 | One payload per event, in order. |
| EventStream.InterpretStream | ollama-proxy/main.py:451-453 | Reading the whole body dispatches exactly the payloads, in order. |
| EventStream.DispatchedStream | ollama-proxy/main.py:451-453 | What a browser dispatches for the body is the list of payloads. |
| EventStream.ReceivedEvents | ollama-proxy/main.py:451-453 | The i-th dispatched message decodes to the i-th event. |
| ChatRoute.EnvOr | frontend/app/api/chat/route.ts:3-4 | `process.env.X \|\| default` gives the default for an unset or empty variable, and the variable otherwise. |
| ChatRoute.Payload | frontend/app/api/chat/route.ts:189-213 | The model and the two turns, with `stream` always false and fixed options: temperature 0.7, top_p 0.9, max_tokens 1000. |
| ChatRoute.HandleAnswer | frontend/app/api/chat/route.ts:215-246 | An answer exactly when the status is 2xx and `message.content` is non-empty; it is then that content trimmed, with the configured model. A non-2xx status gives the "Status: <code>" fallback, and a missing content gives "Invalid response format". The result is never a 400. |
| ChatRoute.Post | frontend/app/api/chat/route.ts:178-260 | 400 exactly when the body's `message` is not a string or is empty. A body that is not JSON, or whose decoding throws, gives the 500 "Internal server error" fallback. Every other message is sent on and the answer handled. |
| ChatRoute.WhitespaceMessageForwarded | frontend/app/api/chat/route.ts:182-187 | A message of spaces only is sent to the server and never refused with 400. |
| ChatRoute.Get | frontend/app/api/chat/route.ts:263-289 | The check always returns a report. "healthy" exactly when the probe answered with any 2xx status. `error` is "Connection failed" exactly when the fetch threw. |
| ConvexTable.IndexOf | v2/convex/projects.ts:34 | The position found holds the id and no earlier row does; none means no row holds it. |
| ConvexTable.Lookup | v2/convex/projects.ts:29-36 | `getProjectById`: a document exactly when a row holds the id, and the document is that row's. |
| ConvexTable.LookupUnique | v2/convex/experiences.ts:19-26 | `getExperienceById`: with increasing ids, the document found for a row's id is that row's own. |
| ConvexTable.Replaced | v2/convex/projects.ts:88 | A patch keeps the length and every id and changes only the document of the named row. |
| ConvexTable.Matching | v2/convex/projects.ts:11-22 | A filtered query returns only rows of the table that the filter accepts. |
| ConvexTable.MatchingComplete | v2/convex/projects.ts:11-22 | Every row the filter accepts is in the query's result. |
| ConvexTable.Take | v2/convex/projects.ts:24 | `.take(n)` is the first `min(n, length)` elements. |
| ConvexTable.Select | v2/convex/projects.ts:24 | A bounded query returns the first `min(limit, matches)` accepted rows of the table, in order: at most `limit`, all accepted, all from the table. |
| ConvexTable.SelectOrderAndCompleteness | v2/convex/projects.ts:11-24 | The query keeps creation order, and when no more than `limit` rows match it returns all of them. |
| ConvexTable.Newest | v2/convex/submissions.ts:60 | `.order("desc")` lists the rows last-created first. |
| ConvexTable.NewestDecreasing | v2/convex/submissions.ts:60 | Listed descending, the ids strictly decrease. |
| ConvexTable.SelectNewestDecreasing | v2/convex/submissions.ts:60-66 | A bounded query listed descending still has strictly decreasing ids. |
| ConvexTable.Removed | v2/convex/projects.ts:98 | After a delete only rows of the table remain, and none with that id. |
| ConvexTable.RemovedOthers | v2/convex/projects.ts:98 | Deleting keeps every other row, in creation order, and the id can no longer be found. |
| ConvexTable.LookupReplaced | v2/convex/projects.ts:88 | After a patch, fetching that id gives the patched document and every other id gives what it gave before. |
| ConvexTable.ReplacedIdempotent | v2/convex/submissions.ts:76 | Applying an idempotent change twice is applying it once. |
| ConvexTable.LookupRemoved | v2/convex/projects.ts:34 | After a delete, fetching that id gives null, and every other id gives what it gave before. |
| ConvexTable.ReplacedMissing | v2/convex/projects.ts:88 | Patching an id that is not there changes no row. |
| ConvexTable.Patch | v2/convex/projects.ts:87-88 | Supplied fields take the supplied values. Every other field keeps its presence and its value. |
| ConvexTable.StringsRoundTrip | v2/convex/projects.ts:61 | A string-array field reads back as the strings stored. |
| ConvexTable.Strings | v2/convex/projects.ts:61 | A string array is stored element for element, in order. |
| ConvexTable.InsertedIsSelected | v2/convex/projects.ts:66-69 | A newly inserted row that the query accepts is listed, as long as fewer than `limit` rows matched before. |
| ConvexTable.Table.constructor | v2/convex/projects.ts:12 | A new table is empty. |
| ConvexTable.Table.Insert | v2/convex/projects.ts:66-69 | The document is stored last under a fresh id, and no other row changes. |
| ConvexTable.Table.Update | v2/convex/projects.ts:88 | Exactly the named row's document changes. A missing id is reported and changes nothing. |
| ConvexTable.Table.Delete | v2/convex/projects.ts:98 | The named row is removed and nothing else. A missing id is reported. |
| Submissions.LatestRecent | v2/convex/submissions.ts:19-27 | None exactly when no same-address submission lies in the window. Otherwise it is the latest such timestamp, and it belongs to one of them. |
| Submissions.CeilDiv | v2/convex/submissions.ts:30 | `Math.ceil(a / b)`: the least integer q with a <= q*b. |
| Submissions.MinutesInRange | v2/convex/submissions.ts:27-30 | A submission inside the window leaves at least one minute. Unless it lies in the future, at most 60. |
| Submissions.RateLimitMessageNames | v2/convex/submissions.ts:32-36 | Different minute counts give different messages. The message ends in "minute." exactly for 1. |
| Submissions.RateLimitError | v2/convex/submissions.ts:16-37 | An error exactly when a stored submission has the same address and a timestamp strictly after now minus one hour. |
| Submissions.OtherSubmissionsNeverBlock | v2/convex/submissions.ts:21-22 | A submission from another address, or from outside the window, changes nothing. |
| Submissions.WindowIsOneHour | v2/convex/submissions.ts:16-22 | A stored submission, whatever its id, blocks its address until exactly one hour has passed, and not at the hour itself. |
| Submissions.AcceptedThenLimited | v2/convex/submissions.ts:27-48 | Right after an accepted submission, that submission is the one the next attempt is measured from. |
| Submissions.SubmitContactForm | v2/convex/submissions.ts:6-52 | Rejected exactly when a recent same-address submission exists, with that error and the table untouched. Otherwise exactly one record is appended: the fields, `timestamp = now`, unread. |
| Submissions.GetSubmissions | v2/convex/submissions.ts:54-69 | The first `limit ?? 50` qualifying submissions, newest first. They are unread when `onlyUnread` is true, and all stored. |
| Submissions.GetSubmissionsNewestFirst | v2/convex/submissions.ts:60-66 | Newest first. When no more submissions qualify than the limit, every qualifying submission is listed. |
| Submissions.MarkAsRead | v2/convex/submissions.ts:71-79 | Only that submission changes, to read. A missing id is reported. |
| Submissions.MarkAsReadEffect | v2/convex/submissions.ts:76 | The submission becomes read with every other field unchanged. Every other submission is unchanged. Marking twice is marking once. |
| Projects.ProjectDoc | v2/convex/projects.ts:66-69 | The stored project is active. |
| Projects.ProjectDocRoundTrip | v2/convex/projects.ts:66-69 | The stored document reads back as exactly the arguments, with `isActive` true. |
| Projects.ProjectDocText | v2/convex/projects.ts:56-67 | The stored project holds the given name, description, image and category. |
| Projects.ProjectDocOther | v2/convex/projects.ts:56-68 | The stored project holds the given displayId, order and technologies, the link exactly when one was given, and `isActive` true. |
| Projects.ProjectPatch | v2/convex/projects.ts:87 | The `updates` object holds exactly the supplied fields and never `projectId`. |
| Projects.ProjectPatchUpdates | v2/convex/projects.ts:74-91 | The patched project reads back as the arguments with exactly the supplied fields replaced. `isActive` is the supplied flag or stays true. |
| Projects.PatchedName | v2/convex/projects.ts:77-88 | The name and description are the supplied ones, else the ones before. |
| Projects.PatchedImage | v2/convex/projects.ts:79-88 | The image and category are the supplied ones, else the ones before. |
| Projects.PatchedTechnologies | v2/convex/projects.ts:76-88 | `displayId` is not patchable and stays. The technologies are the supplied ones, else the ones before. |
| Projects.PatchedLink | v2/convex/projects.ts:82 | The link is the supplied one, or the one before, or absent. |
| Projects.PatchedOrder | v2/convex/projects.ts:83-88 | The order is the supplied one, else the one before. `isActive` is the supplied flag, else true. |
| Projects.GetProjects | v2/convex/projects.ts:5-27 | The first `limit ?? 50` active projects in creation order, of the given category when a non-empty one is given. |
| Projects.GetProjectsComplete | v2/convex/projects.ts:11-14 | Without a category: creation order. When no more projects are active than the limit, every active project is listed. |
| Projects.GetProjectsByCategoryComplete | v2/convex/projects.ts:16-22 | With a category: creation order. When no more of its projects are active than the limit, every one of them is listed. |
| Projects.CreatedProjectListed | v2/convex/projects.ts:54-72 | A created project is listed, with or without its category, while fewer than the limit matched before. |
| Projects.CreateProject | v2/convex/projects.ts:54-72 | Exactly one row is appended under a fresh id: the arguments plus `isActive: true`. |
| Projects.UpdateProject | v2/convex/projects.ts:74-91 | Only that project is patched, with the supplied fields. |
| Projects.DeleteProject | v2/convex/projects.ts:93-101 | Only that project is removed. |
| Projects.TestimonialDoc | v2/convex/projects.ts:113-116 | The stored testimonial is active. |
| Projects.TestimonialDocRoundTrip | v2/convex/projects.ts:113-116 | The stored document reads back as exactly the arguments, with `isActive` true. |
| Projects.TestimonialPatch | v2/convex/projects.ts:132 | The `updates` object holds exactly the supplied fields. |
| Projects.TestimonialPatchUpdates | v2/convex/projects.ts:121-136 | The patched testimonial reads back as the arguments with exactly the supplied fields replaced. |
| Projects.PatchedQuote | v2/convex/projects.ts:124-133 | The quote, name and designation are the supplied ones, else the ones before. |
| Projects.PatchedSrc | v2/convex/projects.ts:127-133 | The src and order are the supplied ones, else the ones before. `isActive` is the supplied flag, else true. |
| Projects.GetTestimonials | v2/convex/projects.ts:39-51 | The first `limit ?? 50` active testimonials, in creation order. |
| Projects.CreateTestimonial | v2/convex/projects.ts:104-119 | Exactly one row is appended: the arguments plus `isActive: true`. |
| Projects.UpdateTestimonial | v2/convex/projects.ts:121-136 | Only that testimonial is patched, with the supplied fields. |
| Projects.DeleteTestimonial | v2/convex/projects.ts:138-146 | Only that testimonial is removed. |
| Experiences.HighlightsRoundTrip | v2/convex/experiences.ts:40-46 | A stored `highlights` array reads back as the highlights given. |
| Experiences.HighlightsValue | v2/convex/experiences.ts:40-46 | Highlights are stored as an array of objects, one per highlight, in order. |
| Experiences.ExperienceDoc | v2/convex/experiences.ts:50-53 | The stored experience is active. |
| Experiences.ExperienceDocRoundTrip | v2/convex/experiences.ts:50-53 | The stored document reads back as exactly the arguments, `type` included, with `isActive` true. |
| Experiences.ExperienceDocPlace | v2/convex/experiences.ts:31-51 | The stored experience holds the given id, title, company and location. |
| Experiences.ExperienceDocText | v2/convex/experiences.ts:35-52 | The stored experience holds the given duration, type, description and order, and `isActive` true. |
| Experiences.ExperienceDocLists | v2/convex/experiences.ts:38-51 | The stored experience holds the given achievements, technologies and highlights. |
| Experiences.ExperiencePatch | v2/convex/experiences.ts:82 | The `updates` object holds exactly the supplied fields. |
| Experiences.UpdateKeepsId | v2/convex/experiences.ts:58-83 | No update can add, remove or change the business `id` of any document. |
| Experiences.ExperiencePatchUpdates | v2/convex/experiences.ts:58-86 | The patched experience reads back as the arguments with exactly the supplied fields replaced. |
| Experiences.PatchedTitle | v2/convex/experiences.ts:58-83 | The id stays. The title and company are the supplied ones, else the ones before. |
| Experiences.PatchedLocation | v2/convex/experiences.ts:63-83 | The location and duration are the supplied ones, else the ones before. |
| Experiences.PatchedKind | v2/convex/experiences.ts:65-83 | The type and description are the supplied ones, else the ones before. |
| Experiences.PatchedAchievements | v2/convex/experiences.ts:67-83 | The achievements and technologies are the supplied ones, else the ones before. |
| Experiences.PatchedHighlights | v2/convex/experiences.ts:69-83 | The highlights are the supplied ones, else the ones before. |
| Experiences.PatchedOrder | v2/convex/experiences.ts:78-83 | The order is the supplied one, else the one before. `isActive` is the supplied flag, else true. |
| Experiences.GetExperiences | v2/convex/experiences.ts:5-17 | The first `limit ?? 50` active experiences, in creation order. |
| Experiences.CreatedExperienceListed | v2/convex/experiences.ts:29-56 | A created experience is listed while fewer than the limit were active before. |
| Experiences.CreateExperience | v2/convex/experiences.ts:29-56 | Exactly one row is appended: the arguments plus `isActive: true`. |
| Experiences.UpdateExperience | v2/convex/experiences.ts:58-86 | Only that experience is patched, with the supplied fields. |
| Experiences.DeleteExperience | v2/convex/experiences.ts:88-96 | Only that experience is removed. |
| Seed.RowsFrom | v2/convex/seed.ts:213-215 | The list inserted one by one: one row per document, in list order, under consecutive ids. |
| Seed.InsertAll | v2/convex/seed.ts:213-215 | The loop appends exactly the list's rows, in list order, and advances the ids by its length. |
| Seed.SeedTable | v2/convex/seed.ts:211-219 | An empty table receives its list and counts its length. A non-empty table is untouched and counts 0. |
| Seed.Seed | v2/convex/seed.ts:207-249 | The three tables are decided independently, and the reply holds the three counts. |
| Seed.SeededContents | v2/convex/seed.ts:211-247 | A seeded table holds exactly its list, in order, with increasing ids, and its count is its length. A table that held rows keeps exactly them and counts 0. |
| Seed.SeedIdempotent | v2/convex/seed.ts:243-247 | With non-empty lists, a second run inserts nothing and counts 0. |
| ProjectFilter.Dedup | portfolio/app/projects/page.tsx:190-191 | `[...new Set(s)]` has no repeats and the same elements as `s`. |
| ProjectFilter.DedupFirstOccurrence | portfolio/app/projects/page.tsx:190-191 | The elements keep the order in which they first occur. |
| ProjectFilter.CategoriesOf | portfolio/app/projects/page.tsx:190 | One category per project, in page order. |
| ProjectFilter.CategoriesOffered | portfolio/app/projects/page.tsx:190 | "All" comes first, and then exactly the project categories. There are no repeats as long as no project's category is itself "All". |
| ProjectFilter.TechListHolds | portfolio/app/projects/page.tsx:191 | A technology is in the flattened list exactly when some project with defined technologies lists it. |
| ProjectFilter.AllTechnologiesOffered | portfolio/app/projects/page.tsx:191 | The technology chips are exactly the technologies of the projects, with no repeats. |
| ProjectFilter.UndefinedTechnologiesHidden | portfolio/app/projects/page.tsx:197-198 | A project without technologies is hidden once any technology is selected. |
| ProjectFilter.Filtered | portfolio/app/projects/page.tsx:194-201 | Only projects of the page that pass the filter are shown. |
| ProjectFilter.FilteredInOrder | portfolio/app/projects/page.tsx:194-201 | The shown projects keep page order, and every project that passes is shown. |
| ProjectFilter.ClearedShowsAll | portfolio/app/projects/page.tsx:196-198 | With "All" and no technology selected, every project is shown, in order. |
| ProjectFilter.StricterShowsFewer | portfolio/app/projects/page.tsx:194-201 | A selection that passes fewer projects shows a subsequence of what a looser one shows. |
| ProjectFilter.MoreTechnologiesShowFewer | portfolio/app/projects/page.tsx:197-198 | Selecting one more technology never shows more projects. |
| ProjectFilter.Without | portfolio/app/projects/page.tsx:206 | `prev.filter(t => t !== tech)` keeps every other element in order and drops every occurrence of `tech`. |
| ProjectFilter.Toggle | portfolio/app/projects/page.tsx:203-209 | The toggled technology is selected afterwards exactly when it was not before. No other technology changes. |
| ProjectFilter.ToggleTwice | portfolio/app/projects/page.tsx:203-209 | Toggling an absent technology twice gives back the list. |
| ProjectFilter.ToggleKeepsDistinct | portfolio/app/projects/page.tsx:203-209 | Toggling keeps the selection free of repeats. |
| ProjectFilter.ClearFilters | portfolio/app/projects/page.tsx:211-214 | Whatever was selected before, the selection becomes category "All" with no technologies, so every list of projects is shown in full. |
| ThemeAnimations.PositionCoords | frontend/components/ui/theme-animations.ts:29-40 | Coordinates exactly for the four corners: cx is 0 on the left side and 40 on the right, cy is 0 on the top side and 40 at the bottom. |
| ThemeAnimations.GenerateSvg | frontend/components/ui/theme-animations.ts:42-60 | Undefined exactly for the center. It throws "Invalid start position: <start>" exactly for left, right, top and bottom. At a corner it gives the circle of radius 20 for "circle", the blurred circle of radius 18 for "circle-blur", and "" otherwise, placed at that corner's coordinates. |
| ThemeAnimations.TransformOrigin | frontend/components/ui/theme-animations.ts:62-73 | Defined exactly for the corners. |
| ThemeAnimations.MaskPositionWords | frontend/components/ui/theme-animations.ts:520 | The mask position is the start name with its hyphen turned into a space. For a corner it equals the transform origin. |
| ThemeAnimations.Styles | frontend/components/ui/theme-animations.ts:83-537 | Every branch names its animation `variant-start`. |
| ThemeAnimations.CreateAnimation | frontend/components/ui/theme-animations.ts:75-538 | Throws exactly for an edge start, whatever the variant, with the `generateSVG` message. Otherwise it is named `variant-start`. |
| ThemeAnimations.SlidesNeverStartNegative | frontend/components/ui/theme-animations.ts:204 | As written, slide-horizontal from left and slide-vertical from top throw. Every slide that returns enters from "100%". |
| ThemeAnimations.MaskAtCorner | frontend/components/ui/theme-animations.ts:513-537 | At a corner, "circle" and "circle-blur" use the mask branch: that corner's circle, placed at the corner, growing from the same corner. |
| ThemeAnimations.CircleCenterIsClipPath | frontend/components/ui/theme-animations.ts:125-166 | "circle" from the center takes its own clip-path branch, never the mask branch. |
| ThemeAnimations.BlurredMaskAtCenter | frontend/components/ui/theme-animations.ts:513-537 | "circle-blur" from the center reaches the mask branch with neither an image nor a transform origin. Both read `undefined`, and the position is "center". |
| ThemeAnimations.CreateAnimationIntended | frontend/components/ui/theme-animations.ts:80-81 | The corrected function: with `generateSVG` called only where the image is used, every returned animation is named `variant-start`. |
| ThemeAnimations.IntendedSlideDirection | frontend/components/ui/theme-animations.ts:203-279 | Corrected, every slide returns. It enters from "-100%" exactly from left (or top), and leaves to the opposite sign. |
| ThemeAnimations.IntendedExtendsAsWritten | frontend/components/ui/theme-animations.ts:75-538 | The correction changes no result the original returns. It still throws only for "circle" and "circle-blur" from an edge. |

## Left out

- The network, processes and frameworks are not modelled: httpx, uvicorn, FastAPI routing, CORS middleware, `lifespan`, Next.js, `fetch`, the Convex runtime. The client's existence is a `clientReady` flag. The server is a parameter: a function from the payload sent to the answer received, or an abstract stream of lines.
- JSON decoding is not modelled. A decoded reply is an abstract value that keeps only what the code reads (`message`, `message.content`, `done`). A non-string `content` is not distinguished from its truthiness.
- Clocks are not modelled. Timestamps (`asyncio` loop time, `toISOString`) are opaque strings passed in, and `Date.now()` is an integer parameter.
- `SYSTEM_PROMPT` is an opaque parameter; the two files hold different long texts.
- The logging calls are left out.
- The pass-through's call to the server and the response it builds (body decoding, status, header copy) are left out, because they are network I/O. The model stops at the request it sends.
- The streaming endpoint's outer `except Exception` (500 "Failed to initialize streaming") is left out. Nothing before the `StreamingResponse` can raise in the model.
- Floating point is not modelled. The Python request's `temperature` and `top_p` are reals, passed through untouched.
- JavaScript numbers are modelled as integers. `limit` is a natural number; negative or fractional limits are left out.
- Convex schema validation, transactions and index internals are not modelled.
  - A table is its rows in creation order.
  - An index query with `order("asc")` lists in creation order.
  - `order("desc")` lists newest first.
  - `by_ip_and_timestamp` is modelled by its effect: the latest matching timestamp.
  - The seed's fields that the schema does not declare, and the missing `experiences` table in the schema, are not modelled; documents are untyped maps.
- Submissions.LatestRecent: the index returns ties in timestamp in an order the code does not fix. Every tie holds the same timestamp, so the message does not depend on it.
- A patch or delete of an id missing from the table throws in Convex. It is modelled as no change, with `found` false.
- Seed.Seed: the contents of the seed lists (7 projects, 3 testimonials, 2 experiences) are a parameter and are not reproduced. `SeedIdempotent` asks only that the lists are non-empty, as they are.
- The page's React rendering, state hooks and cards are left out. The state is a `Selection` value, and the setters are functions on it.
- `new Set` is taken to enumerate in insertion order, as ECMAScript specifies.
- ProjectFilter.CategoriesOffered: the tabs are free of repeats only when no project has the category "All". That condition is stated rather than assumed, because the page's data could break it.
- ThemeAnimations.Styles: the fixed CSS text of each branch is not reproduced. An animation records the branch taken and every value interpolated into the text: the `gif` URL, the slide keyframe, the directions, and the mask image, position and transform origin.
- ThemeAnimations.GenerateSvg: the SVG markup of the data URL is not reproduced. The mask image records its corner coordinates, radius and blur.
- The random choice of animation and the DOM view-transition calls in the theme toggle are left out.

## Findings

| source | as written | input that shows it | evidently intended | confidence | as-written member | corrected member |
|---|---|---|---|---|---|---|
| frontend/components/ui/theme-animations.ts:80 | `createAnimation` calls `generateSVG` before choosing a branch, and `generateSVG` throws for every start that is not a corner or the center. | `createAnimation("slide-horizontal", "left")`: the theme toggle offers this pair (`theme-toggle-button.tsx`). It throws "Invalid start position: left", so the "-100%" direction at line 204 can never be used. The same holds for `slide-vertical` with "top" at line 243. | Only the default branch, the one that uses the image, generates the SVG. The slides then work from every edge, entering from "-100%" exactly from left or top. | high (not executed) | ThemeAnimations.SlidesNeverStartNegative | ThemeAnimations.IntendedSlideDirection |
