# SafHub client rules in Dafny

SafHub is a React e-learning client over a hosted backend. Every durable
effect is a backend query, a procedure call or a toast. This project models
the deterministic rules the client applies around those calls:

- the language context's dotted-key translation lookup `t` and the initial
  language;
- the security audit log's search and action filter, badge colours, error
  classifier and admin gate;
- the course page: lesson completion, the progress percentage, the lesson
  cursor, the bounded retry of the course load with its manual reset and
  loading watchdog, lesson completion, and the dashboard route;
- the course-data hook: resolving instructor names, the course merge, the
  enrollment list and the enrol decision;
- the forum page, the post page and the post card: author names, the
  category badge, the create and reply guards, and the vote toggle with its
  counter replacement.

Backend answers are parameters of the methods that receive them. Examples
are a `QueryResult` for a query, a `WriteResult` for an insert and an
`RpcResult` for a procedure call. View state that the source updates in
place (`useState` slots) is a class whose fields the methods reassign. Pure
rules are functions with lemmas. A re-fetch the source starts without
awaiting it is a returned flag (`refetch`, `rerun`). A re-fetch it awaits
takes its answer as one more parameter. Toasts are a list of their
descriptions.

JavaScript built-ins get their own definitions, all over `seq<char>`:

- `includes`;
- ASCII `toLowerCase`/`toUpperCase`;
- `trim`, with ECMAScript's whitespace code points;
- `split('.')` and `join`;
- `replace('-', ' ')`, which replaces only the first match;
- `filter`, `map` and `[...new Set(xs)]`.

Modules: `Common`, `Strings`, `Lists` and `JsonValues` are shared.
`Language`, `AuditLog`, `CoursePage` and `CourseData` follow one source
file each. The three forum files share `Profiles` (name derivation) and
`Forum` (post record and votes), and each has its own module:
`ForumDetail`, `ForumPostDetail` and `ForumPostCard`.

The course load runs a fourth time when the retry counter is already 3, and
that fourth run can still succeed, so at most four loads run
(`CoursePage.ThreeFailuresThenSuccess`, `CoursePage.LoadWithEffectReruns`).

## Model

| member | source | states |
|---|---|---|
| Language.InitialLanguage | src/contexts/LanguageContext.tsx:26-29 | a saved non-empty preference is used as is, otherwise "en"; never empty |
| Language.Translate | src/contexts/LanguageContext.tsx:56-69 | `t(key)` is either the key itself or a string stored at the path `key.split('.')` |
| Language.T | src/contexts/LanguageContext.tsx:56-69 | the segment-by-segment loop returns exactly what `Translate` specifies |
| Language.LookupAppend | src/contexts/LanguageContext.tsx:60-66 | walking `p + q` is walking `p`, then `q` from where it ended |
| Language.MissingSegmentGivesKey | src/contexts/LanguageContext.tsx:61-64 | a missing segment, or a non-object on the way, makes `t` return the key |
| Language.NonStringGivesKey | src/contexts/LanguageContext.tsx:68 | a path ending at a non-string value gives the key |
| Language.EmptyTreeGivesKey | src/contexts/LanguageContext.tsx:31 | with the initial empty tree every key translates to itself |
| Language.StoredStringIsFound | src/contexts/LanguageContext.tsx:57-68 | a string stored at dot-free segments is what `t` returns for their dotted join |
| Strings.ContainsAt | src/components/security/SecurityAuditLog.tsx:100-102 | `includes` holds exactly when the needle occurs at some index |
| Strings.LongerNotContained | src/components/security/SecurityAuditLog.tsx:100-102 | a string never includes a longer one |
| Strings.Lower | src/components/security/SecurityAuditLog.tsx:100-102 | lower-casing keeps the length and maps each character |
| Strings.Upper | src/components/security/SecurityAuditLog.tsx:103 | upper-casing keeps the length and maps each character |
| Strings.TrimStart | src/pages/ForumPostDetailPage.tsx:196 | drops exactly a blank prefix and stops at a non-whitespace character |
| Strings.TrimEnd | src/pages/ForumPostDetailPage.tsx:196 | drops exactly a blank suffix and stops at a non-whitespace character |
| Strings.Trim | src/pages/ForumPostDetailPage.tsx:196 | empty exactly for blank input, otherwise both ends are not whitespace |
| Strings.TrimIsInfix | src/pages/ForumPostDetailPage.tsx:206 | the trimmed text is the infix between a blank prefix and a blank suffix |
| Strings.Split | src/contexts/LanguageContext.tsx:57 | at least one part, and no part contains the separator |
| Strings.JoinSplit | src/contexts/LanguageContext.tsx:57 | joining the parts of a split gives the string back |
| Strings.SplitWithoutSeparator | src/contexts/LanguageContext.tsx:57 | a string without the separator splits into itself alone |
| Strings.SplitAtSeparator | src/contexts/LanguageContext.tsx:57 | a separator after a separator-free word cuts exactly there |
| Strings.SplitJoin | src/contexts/LanguageContext.tsx:57 | splitting the join of separator-free parts gives the parts back |
| Strings.ReplaceFirst | src/pages/ForumDetailPage.tsx:259 | `replace` keeps the length |
| Strings.IndexOf | src/pages/ForumDetailPage.tsx:259 | the first position of a character that occurs |
| Strings.ReplaceFirstSpec | src/pages/ForumDetailPage.tsx:259 | only the first occurrence is replaced, and nothing changes when there is none |
| Lists.Filter | src/components/security/SecurityAuditLog.tsx:98-105 | the result holds only elements of the input that satisfy the predicate, and every input element that satisfies it |
| Lists.FilterCounts | src/components/security/SecurityAuditLog.tsx:98-105 | each satisfying element is kept exactly as many times as it occurs, every other element zero times |
| Lists.FilterIsSubsequence | src/components/security/SecurityAuditLog.tsx:98-105 | filtering keeps the original relative order |
| Lists.FilterIdempotent | src/components/security/SecurityAuditLog.tsx:98-105 | filtering twice equals filtering once |
| Lists.FilterKeepsAll | src/components/security/SecurityAuditLog.tsx:98-105 | a filter every element passes is the identity |
| Lists.Distinct | src/pages/ForumDetailPage.tsx:125 | no duplicates, and the same elements as the input in both directions |
| Lists.SubsequenceExtend | src/pages/ForumDetailPage.tsx:125 | appending an element to the longer sequence, or to both, keeps a subsequence |
| Lists.DistinctIsSubsequence | src/pages/ForumDetailPage.tsx:125 | the distinct elements are a subsequence of the input |
| Lists.DistinctFirstOccurrenceOrder | src/pages/ForumDetailPage.tsx:125 | of any two distinct elements, the earlier one first occurs earlier in the input: the order of first occurrence |
| Lists.MapSeq | src/hooks/useCourseData.ts:121-124 | `map` keeps the length and applies the function at each index |
| Lists.MapKeepsSubsequence | src/hooks/useCourseData.ts:118-124 | mapping both sides of a subsequence keeps it a subsequence |
| AuditLog.NullUserIdBreaksSearch | src/components/security/SecurityAuditLog.tsx:102 | a row with a null user id whose action and resource type miss the term makes the search throw |
| AuditLog.MatchesSearchAsWritten | src/components/security/SecurityAuditLog.tsx:99-102 | throws exactly when the user id is null and neither the action nor the resource type contains the term; otherwise true iff one of the three fields contains it, case-insensitively |
| AuditLog.SearchAgreesWhereDefined | src/components/security/SecurityAuditLog.tsx:99-102 | where the search as written does not throw it agrees with `MatchesSearch`; it throws exactly on a null user id that had to be searched |
| AuditLog.FilteredLogs | src/components/security/SecurityAuditLog.tsx:98-105 | an entry is shown iff it matches the search (action, resource type or user id, case-insensitive) and the action filter |
| AuditLog.FilteredLogsKeepOrder | src/components/security/SecurityAuditLog.tsx:98-105 | the shown entries are a subsequence of the fetched ones |
| AuditLog.FilteredLogsIdempotent | src/components/security/SecurityAuditLog.tsx:98-105 | filtering the shown entries again changes nothing |
| AuditLog.NoFilterShowsEverything | src/components/security/SecurityAuditLog.tsx:99-103 | an empty search with filter "all" shows every entry |
| AuditLog.ActionBadgeColor | src/components/security/SecurityAuditLog.tsx:90-96 | SUCCESS is green; otherwise ERROR, FAILED, UNAUTHORIZED or DENIED is red; otherwise ATTEMPT is yellow; otherwise blue |
| AuditLog.BadgeClass | src/components/security/SecurityAuditLog.tsx:91-95 | each colour has its own class string, and no two colours share one |
| AuditLog.ErrorMessageFor | src/components/security/SecurityAuditLog.tsx:72-77 | "Access denied" gives the permissions message ahead of the missing-table check; anything else gives the generic message |
| AuditLog.AdminGateReportsPermissions | src/components/security/SecurityAuditLog.tsx:47-49 | the gate's own error is reported with the permissions message |
| AuditLog.StoredRows | src/components/security/SecurityAuditLog.tsx:62-67 | falsy details are stored as `{}`, and every other field is kept |
| AuditLog.AuditLogView.constructor | src/components/security/SecurityAuditLog.tsx:28-32 | initial state: no rows, loading, empty search, filter "all", no error |
| AuditLog.AuditLogView.Visible | src/components/security/SecurityAuditLog.tsx:98-105 | the table shows exactly the loaded entries that match the search and the action filter, in their loaded order |
| AuditLog.AuditLogView.FetchAuditLogs | src/components/security/SecurityAuditLog.tsx:42-88 | non-admins fail at the gate with no query; a failed query keeps the old rows and sets and toasts the classified message; loading always ends |
| CoursePage.IsLessonCompleted | src/pages/CoursePage.tsx:311-313 | true iff some progress row for the lesson is completed |
| CoursePage.CompletedCount | src/pages/CoursePage.tsx:315-317 | exactly the number of completed progress rows; hence at most the number of rows, 0 iff none completed, all iff every row completed |
| CoursePage.CourseProgress | src/pages/CoursePage.tsx:319-322 | 0 without lessons, else 100·completed/lessons rounded half up; at most 100 |
| CoursePage.DashboardUrl | src/pages/CoursePage.tsx:324-328 | admin, teacher and every other role each go to their own dashboard |
| CoursePage.LoadCourse | src/pages/CoursePage.tsx:124-171 | the load succeeds iff the course id is present, both queries succeed and the course row exists; the missing id and missing row have their own errors |
| CoursePage.ProgressAfterFetch | src/pages/CoursePage.tsx:173-196 | skipped without user or course id; a failed query keeps the current rows |
| CoursePage.CoursePageView.constructor | src/pages/CoursePage.tsx:65-71 | initial state, with the retry counter at 0 |
| CoursePage.CoursePageView.Attempt | src/pages/CoursePage.tsx:103-122 | one run with the captured counter: success stores the course; a failure below 3 bumps the counter and re-runs; at 3 it sets the terminal error |
| CoursePage.CoursePageView.FetchCourseDataWithRetry | src/pages/CoursePage.tsx:103-122 | the effect's run: the same outcomes, with the counter never above 3 |
| CoursePage.CoursePageView.HandleRetry | src/pages/CoursePage.tsx:330-334 | the counter resets to 0 and the error clears, the load runs with the stale counter (a failure keeps the course and lessons), and the effect re-runs iff the counter value changed |
| CoursePage.CoursePageView.Progress | src/pages/CoursePage.tsx:319-322 | the progress bar is the number of completed progress rows as a percentage of the lessons, rounded half up; 0 without lessons |
| CoursePage.CoursePageView.CurrentLesson | src/pages/CoursePage.tsx:388 | the lesson under the cursor, and undefined exactly when the cursor is past the end; an in-range cursor over a non-empty list always has one |
| CoursePage.CoursePageView.TimeoutFired | src/pages/CoursePage.tsx:74-84 | only a load still in progress becomes the timeout error; nothing else changes |
| CoursePage.CoursePageView.MarkLessonComplete | src/pages/CoursePage.tsx:221-272 | no write without user or course id or for a completed lesson; success re-fetches, toasts and advances the cursor unless on the last lesson |
| CoursePage.CoursePageView.PreviousLesson | src/pages/CoursePage.tsx:506-513 | steps back only above 0, and keeps the cursor in range |
| CoursePage.CoursePageView.NextLesson | src/pages/CoursePage.tsx:514-521 | steps forward only below the last lesson, and keeps the cursor in range |
| CoursePage.CoursePageView.SelectLesson | src/pages/CoursePage.tsx:551-559 | selecting a listed lesson puts the cursor on it |
| CoursePage.LoadWithEffectReruns | src/pages/CoursePage.tsx:96-122 | without a course id or a signed-in user no load runs and nothing changes; otherwise, from a fresh counter, the load runs between 1 and 4 times and ends loaded or with the terminal error |
| CoursePage.ThreeFailuresThenSuccess | src/pages/CoursePage.tsx:114-116 | three failures and then a success end loaded, with the counter at 3 |
| CoursePage.FourFailuresGiveUp | src/pages/CoursePage.tsx:117-119 | four failures end with the terminal error and loading cleared |
| Profiles.DisplayName | src/hooks/useCourseData.ts:96-104 | a failed lookup, or an empty or missing first display name, gives the fallback; a present first display name is the result |
| Profiles.AuthorName | src/pages/ForumPostDetailPage.tsx:89-94 | "first last" trimmed, or "Anonymous" when that is blank or there is no profile; never empty, no whitespace at the ends |
| Profiles.AuthorNameOfBlankProfile | src/pages/ForumPostDetailPage.tsx:91-92 | a profile with blank first and last names shows "Anonymous" |
| CourseData.PresentInstructorIds | src/hooks/useCourseData.ts:84 | exactly the non-null, non-empty instructor ids of the rows |
| CourseData.InstructorIds | src/hooks/useCourseData.ts:84 | each present instructor id exactly once |
| CourseData.ProfilesMap | src/hooks/useCourseData.ts:92-115 | one non-empty name per looked-up id and no other keys; each is the id's own lookup resolved with "Unknown Instructor" as fallback |
| CourseData.Named | src/hooks/useCourseData.ts:121-124 | only the instructor name changes; an existing name is kept; otherwise the resolved name of the instructor id when non-empty, else "Unknown Instructor" |
| CourseData.MergeCourses | src/hooks/useCourseData.ts:118-124 | exactly the courses that are named or resolved, renamed, never with an empty name |
| CourseData.MergeKeepsQueryOrder | src/hooks/useCourseData.ts:118-124 | the merged list is an order-preserving subsequence of the renamed query result |
| CourseData.NamedCoursesSurvive | src/hooks/useCourseData.ts:118-120 | a course with an instructor name is kept unchanged |
| CourseData.ResolvedIdsKeepEveryCourse | src/hooks/useCourseData.ts:110-124 | when every course has an instructor id, no course is dropped |
| CourseData.InsertError | src/hooks/useCourseData.ts:177-183 | the code 23505 gives the already-enrolled error; every other error propagates unchanged |
| CourseData.CourseDataHook.constructor | src/hooks/useCourseData.ts:46-48 | initial state: no courses, no enrollments, loading |
| CourseData.CourseDataHook.FetchCourses | src/hooks/useCourseData.ts:67-131 | an error, an empty result or no instructor ids give `[]`; otherwise the distinct ids are looked up and the courses merged |
| CourseData.CourseDataHook.FetchEnrollments | src/hooks/useCourseData.ts:133-149 | skipped without a user; an error gives `[]` |
| CourseData.CourseDataHook.FetchData | src/hooks/useCourseData.ts:56-65 | both lists are fetched as `FetchCourses` and `FetchEnrollments` state, and loading ends |
| CourseData.CourseDataHook.EnrollInCourse | src/hooks/useCourseData.ts:151-198 | no-op without a user; an existing enrollment fails with no insert; 23505 maps to the same error; success re-fetches the enrollments |
| Forum.ToggleVote | src/pages/ForumPostDetailPage.tsx:183 | the same vote again clears it; anything else becomes the new vote |
| Forum.ToggleTwice | src/pages/ForumPostDetailPage.tsx:183 | voting twice returns to the start; switching lands on the new type |
| Forum.NumberField | src/pages/ForumPostDetailPage.tsx:181 | present exactly when the returned object holds a number at the key |
| Forum.WithCounts | src/pages/ForumPostDetailPage.tsx:182 | both counters come from the returned data and every other field is unchanged |
| Forum.CountsAreReplacedNotIncremented | src/pages/ForumPostDetailPage.tsx:182 | the counters after a vote do not depend on those before it |
| ForumDetail.ProfileLookupIds | src/pages/ForumDetailPage.tsx:125 | every poster is looked up, each exactly once |
| ForumDetail.AuthorNames | src/pages/ForumDetailPage.tsx:128-149 | one non-empty name per looked-up id and no other keys; each is the id's own lookup resolved with "Anonymous User" as fallback |
| ForumDetail.PostsWithAuthors | src/pages/ForumDetailPage.tsx:152-161 | same length and order; only the author name and the reply count (0) change; the author is never empty |
| ForumDetail.AuthorIsLookupResult | src/pages/ForumDetailPage.tsx:153-156 | each post's author is its own lookup's result, so the "Anonymous" fallback is never reached |
| ForumDetail.CategoryLabel | src/pages/ForumDetailPage.tsx:259 | the badge keeps the category's length |
| ForumDetail.CategoryLabelChanges | src/pages/ForumDetailPage.tsx:259 | the first character is upper-cased and only the first later dash becomes a space |
| ForumDetail.SecondDashIsKept | src/pages/ForumDetailPage.tsx:259 | "q-and-a" shows as "Q and-a" |
| ForumDetail.ForumDetailView.constructor | src/pages/ForumDetailPage.tsx:46-53 | initial state: no posts, loading, dialog closed, empty form |
| ForumDetail.ForumDetailView.FetchForumPosts | src/pages/ForumDetailPage.tsx:102-168 | an error or no rows clears the list; otherwise one lookup per distinct poster and the merged list; loading always ends |
| ForumDetail.ForumDetailView.HandleCreatePost | src/pages/ForumDetailPage.tsx:170-203 | no-op without a user or with a blank title or content; success closes the dialog, empties the form and re-fetches; failure toasts |
| ForumPostDetail.MountFetches | src/pages/ForumPostDetailPage.tsx:53-62 | nothing is fetched unless both ids are present; the vote only with a user |
| ForumPostDetail.ProfileFor | src/pages/ForumPostDetailPage.tsx:139-144 | none iff no row has that id; otherwise a row with that id after which no row has it (the last match) |
| ForumPostDetail.RepliesWithAuthors | src/pages/ForumPostDetailPage.tsx:143-151 | same replies in order, each with its author name; all "Anonymous" when no profiles came back |
| ForumPostDetail.ReplyWithoutProfileIsAnonymous | src/pages/ForumPostDetailPage.tsx:147-149 | a reply whose author has no profile row shows "Anonymous" |
| ForumPostDetail.PostDetailView.constructor | src/pages/ForumPostDetailPage.tsx:45-51 | initial state: no post, no replies, loading, no vote, empty reply |
| ForumPostDetail.PostDetailView.FetchPostData | src/pages/ForumPostDetailPage.tsx:64-105 | an error or a missing row toasts "Post not found" and navigates back; otherwise the post with its author name; loading ends |
| ForumPostDetail.PostDetailView.FetchReplies | src/pages/ForumPostDetailPage.tsx:123-158 | no rows leave the replies unchanged; otherwise one profile query for the distinct authors and the merged replies |
| ForumPostDetail.PostDetailView.FetchUserVote | src/pages/ForumPostDetailPage.tsx:160-169 | the reported vote, or none when the call failed |
| ForumPostDetail.PostDetailView.HandleVote | src/pages/ForumPostDetailPage.tsx:171-193 | no-op without a user or post; accepted data replaces the counters and toggles the vote; otherwise nothing changes; a throw toasts |
| ForumPostDetail.PostDetailView.HandleReplySubmit | src/pages/ForumPostDetailPage.tsx:195-227 | no-op without a user or with a blank reply; inserts the trimmed text; success empties the input and re-fetches; a returned error is silent; submitting ends |
| ForumPostCard.CountShown | src/components/forum/ForumPostCard.tsx:103 | a missing count shows 0, any other its value |
| ForumPostCard.AuthorShown | src/components/forum/ForumPostCard.tsx:83 | a non-empty author name is shown as is, otherwise "Anonymous" |
| ForumPostCard.ShownCountsAfterVote | src/components/forum/ForumPostCard.tsx:61-63 | after an accepted vote the card shows exactly the returned numbers |
| ForumPostCard.PostCard.constructor | src/components/forum/ForumPostCard.tsx:30-31 | the local copy starts as the prop, with no vote |
| ForumPostCard.PostCard.PropChanged | src/components/forum/ForumPostCard.tsx:33-38 | a new prop replaces the local copy as a whole; the vote is fetched iff signed in |
| ForumPostCard.PostCard.FetchUserVote | src/components/forum/ForumPostCard.tsx:40-49 | the reported vote, or none when the call failed |
| ForumPostCard.PostCard.HandleVote | src/components/forum/ForumPostCard.tsx:51-74 | no-op without a user; accepted data replaces the counters and toggles the vote; a failure changes nothing; a throw toasts |

## Left out

- Loading a translation file and the fallback to English are left out: the module import is dynamic, and the tree is a parameter of `Translate` and `T`. So is persisting the language to local storage.
- The walk in `t` treats inherited JavaScript members (`length`, `constructor`) as absent. None of them is a string or leads to one, so `t` gives the same answer.
- Strings are sequences of Dafny characters, which are Unicode scalar values, not the UTF-16 code units of JavaScript. Lengths of text outside the Basic Multilingual Plane and lone surrogates are not modelled. `toLowerCase` and `toUpperCase` change ASCII letters only; Unicode case mapping is left out.
- The audit log query's 100-row limit, its server-side ordering and the `ip_address`/`user_agent` casts are not modelled.
- `CoursePage`'s `removeLessonComplete` and `updateWatchTime` (CoursePage.tsx:198-219, 274-309) are left out, along with the study-minutes procedure. They are not among the rules modelled here.
- The authentication state is one flag per view, `signedIn`: a user is present and the session has finished loading (the effect guard at CoursePage.tsx:97 needs both).
- The authentication redirect and navigation: the model only reports whether the post page navigates back (`navigatedBack`).
- Concurrency is left out, and the backend calls, the timer and `Promise.all` are sequential in the model. So is the effect re-run after `HandleRetry`, whose interleaving React decides. The 10-second watchdog is the event `TimeoutFired`.
- CourseData.CourseDataHook.EnrollInCourse: the welcome notification after an enrolment is not modelled (a call into code that is not part of this model), and neither is the message text of a thrown error (outcomes are `EnrollError` values).
- The forum page's `fetchForumData` and the post page's forum fetch only load the forum record. They are not part of this model. A null forum `category` would make the badge expression throw; `CategoryLabel` takes a string.
- Forum.NumberField: a returned counter that is not a number (a string, say) reads as missing rather than being kept as that value.
- Timestamps are opaque strings; date formatting and ordering by `created_at` happen on the server or in rendering.
- Numbers are unbounded integers: vote counters, progress and minutes have no floating-point or NaN behaviour.

## Findings

| source | as written | input that shows it | evidently intended | confidence | as-written member | corrected member |
|---|---|---|---|---|---|---|
| src/components/security/SecurityAuditLog.tsx:102 | the search calls `log.user_id.toLowerCase()`, but `user_id` is nullable in the table's schema | a row with `user_id = null`, action "LOGIN", resource type "auth", and the search term "session": the filter throws and the table cannot render | a row without a user id should simply not match on that field | not executed | AuditLog.NullUserIdBreaksSearch | AuditLog.SearchAgreesWhereDefined |
