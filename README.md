# Portfolio site core, modelled in Dafny

This project models the deterministic logic of a personal portfolio site and proves properties about it. It covers three pieces.

- **The contact-form endpoint** (`POST /api/contact`, `functions/api/contact.ts`).
  - The handler trims the three form fields. It then checks, in order:
    - that no field is empty;
    - that the message is at most 5000 characters;
    - the e-mail pattern `^[^\s@]+@[^\s@]+\.[^\s@]+$`;
    - that `TO_EMAIL` is set.
  - It then hands the message to the first provider, in the order Resend, Discord, Slack, SMTP, that is configured and whose send resolves to `true`.
  - A send that resolves to `false`, or that throws, passes the message on to the next provider.
  - The SMTP send is a placeholder that always resolves to `false`.
  - Each provider's HTTP exchange is reduced to its outcome (`Outcome`: `Ok`, `NotOk`, `Throws`). These outcomes are an input of the model (`Network`).
  - `OnRequestPost` is a method with the handler's early returns. It also returns the sequence of sends it made.
  - `TryProviders` runs the four guarded attempts, each through `Attempt`, on the handler's `success`/`method` locals.
  - Both methods are proved against the functions `Respond`, `Contacted`, `Attempts` and `Delivered`. The lemmas about those functions state the chain's ordering, short-circuiting and error precedence.
- **The portfolio data helpers** (`src/utils/portfolioHelpers.ts`).
  - The two validators are methods that push one message per failed check. They are proved equal to `Failures` of a check table.
  - `createSlug` is the function `CreateSlug`: lower-casing, then runs of characters outside `[a-z0-9]` collapsed to one `-`, then hyphens at either end removed.
  - The templates and quick-add constructors are functions over records.
  - `Partial<...>` overrides are patches. A present-but-`undefined` property is distinguished from an absent one, so spreading it still replaces the default.
  - `generateId()` and the current month are parameters.
- **The project search** (`src/App.tsx`, the `filtered` computation).
  - It is a pure filter over the project list.
  - The filter is by tab, and by a trimmed, lower-cased substring of the lower-cased title, description and joined technologies.

The module `Text` holds the string primitives these rely on: JavaScript white space, `trim`, ASCII lower-casing, `includes` and `join`. The module `Wrappers` holds `Option`.

The missing-fields check comes first, so an over-long message with an empty name gets "Missing required fields" rather than "Message too long". `ErrorPrecedence` states the full order.

## Model

| member | source | states |
|---|---|---|
| Text.TrimIsInfix | functions/api/contact.ts:105-107 | a trimmed field is the slice of the raw field between a blank prefix and a blank suffix |
| Text.TrimNoOuterSpace | functions/api/contact.ts:105-107 | a trimmed field neither starts nor ends with white space |
| Text.TrimEmptyIffBlank | functions/api/contact.ts:105-107 | a field trims to the empty string exactly when it is all white space |
| Text.TrimIdempotent | src/App.tsx:15 | trimming twice is trimming once |
| Text.Lower | src/App.tsx:15 | lower-casing keeps the length and maps every character through the ASCII case mapping |
| Text.TrimLower | src/App.tsx:15 | trimming and lower-casing commute, so the query's normal form does not depend on their order |
| Contact.IndexOf | functions/api/contact.ts:126 | the position found holds the first occurrence of the character, and no position means the character is absent |
| Contact.EmailPatternCorrect | functions/api/contact.ts:126-132 | the e-mail check accepts exactly the strings of the pattern `^[^\s@]+@[^\s@]+\.[^\s@]+$`: a non-empty plain local part, `@`, and a plain domain with a `.` that is neither its first nor its last character |
| Contact.ValidEmailHasOneAt | functions/api/contact.ts:126-132 | an accepted address has exactly one `@`, and it is not the first character |
| Contact.AttemptsConfigured | functions/api/contact.ts:147-184 | only configured providers are contacted; SMTP counts as configured only with host, user and password all set |
| Contact.AttemptsIncreasing | functions/api/contact.ts:147-184 | providers are contacted in the order resend, discord, slack, smtp, each at most once |
| Contact.AttemptsFailBeforeLast | functions/api/contact.ts:157-177 | every provider contacted before the last one failed or threw |
| Contact.AttemptsSkipOnlyAfterSuccess | functions/api/contact.ts:157-177 | a configured provider goes uncontacted only when an earlier configured one succeeded |
| Contact.DeliveredIsFirstSuccess | functions/api/contact.ts:147-186 | the message is delivered through `p` exactly when `p` is configured, its send resolves to `true`, and no configured provider before it succeeded |
| Contact.NothingDeliveredIffAllFail | functions/api/contact.ts:147-208 | nothing is delivered exactly when no configured provider's send resolves to `true` |
| Contact.ChainStep | functions/api/contact.ts:147-184 | one guarded attempt preserves the handler's progress invariant over the remaining providers |
| Contact.Attempt | functions/api/contact.ts:147-154 | a guarded attempt sends once when nothing succeeded yet and the provider is configured; a resolved send sets `success` and `method`, and a thrown one leaves them unchanged |
| Contact.TryProviders | functions/api/contact.ts:141-184 | the four blocks contact exactly `Attempts` in order, end with `success` iff something was delivered, and then `method` names the provider that delivered |
| Contact.OnRequestPost | functions/api/contact.ts:102-220 | the handler's response is `Respond` (validation answers, 200 with the provider, 500 with the available methods, or the unexpected-error 500) and its sends are `Contacted` |
| Contact.BlankFieldIsEmpty | functions/api/contact.ts:105-107 | a missing or all-white-space field becomes the empty string |
| Contact.MissingFieldRejected | functions/api/contact.ts:105-115 | a missing or blank name, email or message gets 400 "Missing required fields", and nothing is sent |
| Contact.EmptyFieldRejected | functions/api/contact.ts:110-115 | an empty trimmed field gets 400 "Missing required fields", and nothing is sent |
| Contact.ErrorPrecedence | functions/api/contact.ts:110-139 | the first failing check decides the answer, in the order missing fields, length, e-mail format, `TO_EMAIL`; after a failed check nothing is sent |
| Contact.MessageLengthBoundary | functions/api/contact.ts:117-123 | a 5000-character message passes the length check, and a 5001-character one gets 400 "Message too long" |
| Contact.SentNamesFirstSuccess | functions/api/contact.ts:186-194 | a 200 says "Message sent successfully" and names a configured provider whose send resolved to `true`, which is the last one contacted, with no configured earlier provider succeeding |
| Contact.NoServiceIffAllFail | functions/api/contact.ts:186-207 | once validation passes, the answer is the 500 with the available methods exactly when no configured provider succeeds, and 200 otherwise |
| Contact.SmtpOnlyFails | functions/api/contact.ts:95-100 | with only SMTP configured, its placeholder send is made once and the answer is the 500 with the available methods |
| Contact.FallThroughToNext | functions/api/contact.ts:146-164 | if Resend fails or throws and Discord succeeds, the answer is 200 via "discord" after exactly those two sends |
| Contact.AvailableMethodsListAll | functions/api/contact.ts:196-207 | the 500 without a provider lists every provider once, in priority order |
| Contact.DiscordMessageField | functions/api/contact.ts:56 | the Discord "Message" field is the message when it has at most 1000 characters, otherwise its first 1000 followed by "...", so never longer than 1003 |
| Portfolio.SkipRun | src/utils/portfolioHelpers.ts:155 | skipping a run of characters outside `[a-z0-9]` leaves a suffix of the input that is empty or starts with a letter or digit |
| Portfolio.SkipRunKeepsSlugChars | src/utils/portfolioHelpers.ts:155 | skipping such a run loses no letter or digit |
| Portfolio.CollapseRunsShape | src/utils/portfolioHelpers.ts:155 | replacing runs outside `[a-z0-9]` by `-` leaves only `[a-z0-9-]` with no `--`, keeps every letter and digit in order, and keeps a leading letter or digit in front |
| Portfolio.CollapseRunsWord | src/utils/portfolioHelpers.ts:155 | a word of letters and digits is copied unchanged in front of the rest |
| Portfolio.CollapseRunsRun | src/utils/portfolioHelpers.ts:155 | a whole run of characters outside `[a-z0-9]`, up to the next letter or digit, becomes exactly one `-` |
| Portfolio.CollapseRunsWordRun | src/utils/portfolioHelpers.ts:155 | a word followed by a whole run becomes the word and exactly one `-` in the run's place, in front of the rest replaced on its own |
| Portfolio.CreateSlugIsSlug | src/utils/portfolioHelpers.ts:152-157 | a slug holds only `[a-z0-9-]`, has no two hyphens in a row and no hyphen at either end, and keeps every letter and digit of the lower-cased title |
| Portfolio.CreateSlugSplice | src/utils/portfolioHelpers.ts:152-157 | the slug is built word by word: a title made of a word, a run without letters or digits, and more text starting with one has as slug the lower-cased word, one hyphen, and the slug of the rest |
| Portfolio.StripSplice | src/utils/portfolioHelpers.ts:156 | removing the outer hyphens of `x-y` removes those of `x` and of `y` and keeps the hyphen between them |
| Portfolio.CreateSlugFixesSlug | src/utils/portfolioHelpers.ts:152-157 | a string that is already a slug is left unchanged |
| Portfolio.CreateSlugIdempotent | src/utils/portfolioHelpers.ts:152-157 | making a slug of a slug changes nothing |
| Portfolio.CreateSlugEmpty | src/utils/portfolioHelpers.ts:152-157 | the slug is empty exactly when the lower-cased title has no letter or digit |
| Portfolio.CreateProjectTemplate | src/utils/portfolioHelpers.ts:17-30 | each property given in the overrides wins, each one left out keeps its default (generated id, empty title and description, category homelab, no tech, links `{}`, status in-progress, not featured, the current month, no end date); a start date given as `undefined` replaces the default |
| Portfolio.TemplateOfWholeProject | src/utils/portfolioHelpers.ts:17-30 | overrides beat defaults: a template built from a whole project is that project |
| Portfolio.ProjectTemplateIsSpread | src/utils/portfolioHelpers.ts:17-30 | the template is the overrides spread over the default project, `{...defaults, ...overrides}` |
| Portfolio.HomelabExampleTemplate | src/utils/portfolioHelpers.ts:167-171 | the homelab example template is the default project with its category, tech and status as given |
| Portfolio.CreateExperienceTemplate | src/utils/portfolioHelpers.ts:90-102 | each property given in the overrides wins, each one left out keeps its default: generated id, empty company, title and start, end "Present", no bullets or tech, type full-time |
| Portfolio.ExperienceTemplateOfWhole | src/utils/portfolioHelpers.ts:90-102 | overrides beat defaults: a template built from a whole experience is that experience |
| Portfolio.CreateProjectWithGitHub | src/utils/portfolioHelpers.ts:35-53 | each property given in the overrides wins over the given title, description, tech, category and GitHub-only links, which win over the template defaults |
| Portfolio.AddGitHubLink | src/utils/portfolioHelpers.ts:58-66 | `links.github` becomes the URL, the other links stay as they were (a missing `links` counts as `{}`), and every other field is unchanged |
| Portfolio.AddGitHubLinkLastWins | src/utils/portfolioHelpers.ts:58-66 | setting the GitHub link twice keeps only the second URL |
| Portfolio.AddHomelabProject | src/utils/portfolioHelpers.ts:211-221 | the project's id is the slug of its title, it is active and in homelab, and its links are exactly `{github: url}` |
| Portfolio.AddWorkProject | src/utils/portfolioHelpers.ts:226-243 | the project's id is the slug of its title, it is a featured, completed work project, and its dates are the given ones, even when omitted |
| Portfolio.Failures | src/utils/portfolioHelpers.ts:72-80 | a validator reports at most one message per check |
| Portfolio.FailuresEmptyIffAllPassed | src/utils/portfolioHelpers.ts:72-80 | no message is reported exactly when every check passes |
| Portfolio.FailuresFromFailedChecks | src/utils/portfolioHelpers.ts:72-80 | every reported message is the message of a failed check |
| Portfolio.ValidateProject | src/utils/portfolioHelpers.ts:71-81 | the pushes produce the messages of the failed project checks (id, title, category, description, tech), in check order |
| Portfolio.ValidateExperience | src/utils/portfolioHelpers.ts:107-119 | the pushes produce the messages of the failed experience checks (id, company, title, start, end, bullets, tech), in check order |
| Portfolio.ProjectErrorsEmptyIffComplete | src/utils/portfolioHelpers.ts:71-81 | a project has no errors exactly when id, title, category and description are non-empty and tech is non-empty; there are at most 5 errors |
| Portfolio.ExperienceErrorsEmptyIffComplete | src/utils/portfolioHelpers.ts:107-119 | an experience has no errors exactly when id, company, title, start and end are non-empty and bullets and tech are non-empty; there are at most 7 errors |
| Portfolio.FreshTemplateErrors | src/utils/portfolioHelpers.ts:17-30 | a fresh project template with a non-empty id fails validation with exactly the title, description and technology messages |
| Portfolio.HomelabProjectValid | src/utils/portfolioHelpers.ts:211-221 | a quick-added homelab project is valid exactly when its title has a letter or digit and its description and tech are non-empty |
| Search.FilterMembership | src/App.tsx:16 | an element is kept exactly when it is in the list and the callback accepts it |
| Search.FilterIsSubsequence | src/App.tsx:16 | filtering yields a subsequence of its input |
| Search.FilteredMembership | src/App.tsx:14-22 | a project is shown exactly when it is in the list and the callback keeps it |
| Search.FilteredIsSubsequence | src/App.tsx:16 | the shown list is a subsequence of the projects, in their original order |
| Search.FilteredAppend | src/App.tsx:16 | filtering distributes over concatenation of project lists |
| Search.AllTabBlankQueryShowsAll | src/App.tsx:15-18 | the "all" tab with an empty or all-white-space query shows every project, in order |
| Search.TabShowsOnlyItsCategory | src/App.tsx:17-20 | on any tab but "all", every shown project has that category |
| Search.QueryMatchIff | src/App.tsx:15-20 | with a non-blank query, a project is shown exactly when it is in the tab and its lower-cased title, description and joined tech contain the trimmed, lower-cased query |
| Search.FilteredSameQuery | src/App.tsx:15 | two queries with the same trimmed, lower-cased form show the same list |
| Search.CaseInsensitive | src/App.tsx:15 | lower-casing the query does not change what is shown |
| Search.TrimInsensitive | src/App.tsx:15 | white space around the query does not change what is shown |
| Search.FilteredIdempotent | src/App.tsx:14-22 | filtering the shown list again with the same tab and query changes nothing |
| Search.TitleHitIsShown | src/App.tsx:19-20 | a project in the tab whose title contains the query, ignoring case, is shown |
| Search.TechHitIsShown | src/App.tsx:19-20 | a project in the tab with a technology that contains the query, ignoring case, is shown |

## Left out

- The providers' HTTP requests (`sendWithResend`, `sendToDiscord`, `sendToSlack`) are not modelled. Their URLs, headers and JSON bodies are foreign I/O. Only the outcome of each send is kept, as an input (`Network`).
- The Discord embed is modelled only through its "Message" field. Its other fields, its colour and its timestamp are not.
- Reading the request body is not modelled. `formData()` is reduced to `Request`: either three optional fields or an unreadable body. The outer `catch` is reached only through an unreadable body.
- The JSON serialisation of responses, their headers and `console.error` logging are not modelled. A `Response` value carries the status and the fields of the body. Error texts are constructors of `ErrorMessage`, and `ErrorText` gives their exact wording.
- The `availableMethods` object is modelled as the list of providers it names. `SetupHint` gives each provider's hint text.
- `FROM_EMAIL`, `SMTP_PORT` and the EmailJS variables are not modelled. They do not affect which provider is tried or what the handler answers.
- `formData.get` can return a `File`. The model treats every present field as a string.
- `generateId()` (clock and randomness) and the current month (`new Date()`) are parameters (`newId`, `month`).
- `formatDate` is not modelled, because it depends on `Date` parsing and locale formatting.
- The `projectTemplates` and `experienceTemplate` constants are not modelled as constants. They are only instances of the template functions; `HomelabExampleTemplate` states the homelab one.
- The UI components, the static portfolio data and the type declarations are not modelled. The types shape the datatypes `Project`, `Experience` and `Links`.
- Text.Lower maps only ASCII letters. `toLowerCase` on other scripts is not modelled.
- Text.IsSpace lists JavaScript's white space and line terminators as fixed code points. Characters added to the Unicode "Space_Separator" category in later Unicode versions are not covered.
- String lengths count code points, where JavaScript counts UTF-16 code units. The 5000- and 1000-character limits therefore differ from the source for text outside the Basic Multilingual Plane.
- Portfolio.CreateProjectTemplate, Portfolio.CreateExperienceTemplate: `Partial<...>` cannot pass an explicit `undefined` for a required property here. Required properties of a patch are either given or absent; optional ones may be given as `undefined`.
- Text.Trim: its contract is stated in the lemmas `TrimIsInfix`, `TrimNoOuterSpace` and `TrimEmptyIffBlank` rather than on the function itself.
- Portfolio.CreateProjectWithGitHub: the defaults of `category` (`'homelab'`) and `overrides` (`{}`) are not modelled; callers pass both.
- Search.Filtered, Search.Filter: their contracts are stated in `FilteredMembership`, `FilteredIsSubsequence`, `FilterMembership` and `FilterIsSubsequence` rather than on the functions themselves.
- Portfolio.CollapseRuns: its contract is stated in `CollapseRunsShape`, `CollapseRunsWord`, `CollapseRunsRun` and `CollapseRunsWordRun` rather than on the function itself.
- Portfolio.CreateSlug: its contract is stated in `CreateSlugIsSlug`, `CreateSlugSplice`, `CreateSlugIdempotent` and `CreateSlugEmpty` rather than on the function itself.
- Contact.ValidEmail: its contract is stated in `EmailPatternCorrect` and `ValidEmailHasOneAt` rather than on the predicate itself.
- Contact.Answer, Contact.Respond: their contracts are stated in `ErrorPrecedence`, `MissingFieldRejected`, `SentNamesFirstSuccess`, `NoServiceIffAllFail` and the other handler lemmas, and `OnRequestPost` is proved equal to `Respond`.
- Contact.Attempts, Contact.Delivered: their contracts are stated in `AttemptsConfigured`, `AttemptsIncreasing`, `AttemptsFailBeforeLast`, `AttemptsSkipOnlyAfterSuccess`, `DeliveredIsFirstSuccess` and `NothingDeliveredIffAllFail`.
