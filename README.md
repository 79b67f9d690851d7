# Enlighten blog: handler and page-state model

This project models the decision logic of the Enlighten personal blog in Dafny and proves properties
of it. The blog has a Node back end over a MongoDB document store and a React front end.

The back end is modelled as handlers over an abstract document store. Each collection is a sequence of
documents held by a class. Most handlers are a specification function that returns the answer and the
new rows, applied by a method that updates the collection. Three handlers are methods whose bodies hold
the logic themselves: the file-routed content endpoint (`ContentApi.HandleContent`), the Express create
route (`ContentRoutes.PostContent`) and the comment route (`CommentRoutes.PostComment`, with its corrected twin). The modelled
handlers are:
- content listing and creation (file-routed endpoint) and the Express content routes;
- comments, newsletter subscription, likes and bookmarks, contact messages, search;
- the interaction like counter, and the two sign-in endpoints.

The document store's own operations are functions in `Query`: `find` with a filter, `findOne`,
`sort({date: -1})`, `skip`/`limit` and the page count.

The front end is modelled as classes whose fields are the React state variables; handlers and timer ticks
are methods. This covers the article and video pages (related-content carousel, comment box, like and
bookmark marks), the home page (tab filter, featured post, scroll flag), the admin dashboard (login gate,
dark mode, storage, editor path) and the admin login form.

JavaScript string behaviour the handlers rely on is in `Text`: the `\s` white-space class, `trim` and
lower-casing.

Modules: `Wrappers`, `Http`, `Text`, `Query`, `ContentModel`, `ContentApi`, `ContentRoutes`,
`CommentRoutes`, `Newsletter`, `PairToggle`, `LikeRoutes`, `BookmarkRoutes`, `Contact`, `Search`,
`Interactions`, `Users`, `AuthRoutes`, `LoginApi`, `Carousel`, `DetailPage`, `HomePage`,
`AdminLoginForm`, `AdminDashboard`.

## Model

| member | source | states |
|---|---|---|
| Text.StartFrom | frontend/app/article/page.tsx:93 | the first non-white-space position from `i`; everything skipped is white space |
| Text.EndFrom | frontend/app/article/page.tsx:93 | the end after dropping trailing white space; everything dropped is white space and the last kept character is not |
| Text.Trim | frontend/app/article/page.tsx:93 | the result is a slice of the input, with no white space at either end, and only white space removed around it |
| Text.TrimEmptyIff | frontend/app/article/page.tsx:93 | the trimmed text is empty exactly when every character is white space |
| Text.LowerChar | frontend/app/admin/page.tsx:58 | upper-case ASCII letters move to lower case; every other character is kept |
| Text.Lower | frontend/app/admin/page.tsx:58 | same length, and each character is lower-cased |
| Query.Select | backend/pages/api/content/index.js:13-15 | the filter keeps exactly the documents satisfying the predicate, each as often as stored (their order is stated by `SelectAppend` and `SelectOne`) |
| Query.SelectCons | backend/pages/api/content/index.js:13-15 | selecting from a sequence that starts with `x` gives `x` first, when it satisfies the filter, then the selection from the rest |
| Query.SelectAppend | backend/pages/api/content/index.js:13-15 | the filter keeps the stored order: selecting from `a + b` is selecting from `a` followed by selecting from `b` |
| Query.SelectOne | backend/pages/api/content/index.js:13-15 | a single document is kept exactly when it satisfies the filter; with `SelectAppend` this fixes the result as the satisfying documents in stored order |
| Query.FindFirst | backend/routes/auth.js:30 | `findOne`: no position when no document matches; otherwise the first matching position |
| Query.InsertByDate | backend/pages/api/content/index.js:17 | inserting into a newest-first list keeps it newest first and adds exactly that document |
| Query.SortNewestFirst | backend/pages/api/content/index.js:17 | `sort({date: -1})` yields a permutation of the input that is newest first |
| Query.Skip | backend/pages/api/content/index.js:18 | `skip(n)` drops the first `n` documents |
| Query.Take | backend/pages/api/content/index.js:19 | `limit(m)` keeps at most the first `m` documents |
| Query.Window | backend/pages/api/content/index.js:18-19 | `skip(n).limit(m)` has length `min(m, max(0, len - n))` and its i-th document is document `n + i` |
| Query.Page | backend/pages/api/content/index.js:18-19 | page `p` has length `min(limit, max(0, total - (p-1)*limit))` and starts at `(p-1)*limit` |
| Query.WindowOfOrdered | backend/pages/api/content/index.js:17-19 | a window of a newest-first list is newest first and holds only documents of the list |
| Query.PageOfOrdered | backend/pages/api/content/index.js:17-19 | a page of a newest-first list is newest first and holds only documents of the list |
| Query.PageCount | backend/pages/api/content/index.js:29 | `ceil(total/limit)`: the least page count whose pages hold every document |
| Query.PageNonEmptyIff | backend/pages/api/content/index.js:18-29 | a page is non-empty exactly when its number is between 1 and the page count |
| Query.OnSomePage | backend/pages/api/content/index.js:18-29 | every document of the ordered list lies on some page between 1 and the page count |
| Query.PageWithinCount | backend/pages/api/content/index.js:29 | the page of position `k` is at most the page count of a longer list |
| Query.PageHolds | backend/pages/api/content/index.js:18-19 | position `k` appears on page `k / limit + 1` at offset `k % limit`: pages cover the list without gap or overlap |
| ContentModel.ParseType | backend/models/Content.js:13 | the type enumeration accepts exactly the four stored spellings, case-sensitively |
| ContentModel.ParseTypeName | backend/models/Content.js:13 | parsing a stored type name gives back that type |
| ContentModel.FromFields | backend/models/Content.js:4-18 | creation fails exactly for a type outside the enumeration; otherwise the document has the given id and every given field (title, subheading, body, video URL, date, read time, duration, image, category, author, and the type as spelled), and each counter is the given number or 0 |
| ContentModel.CreatedCountersStartAtZero | backend/models/Content.js:14-17 | counters the fields do not set start at 0 |
| ContentModel.ContentCollection.Insert | backend/pages/api/content/index.js:39 | appends exactly one document with the next id and keeps ids fresh |
| ContentApi.ListContents | backend/pages/api/content/index.js:12-31 | GET: a page below 1 is refused; otherwise the response holds the filter's total, the echoed page and `ceil(total/limit)` pages, plus a page of the expected length, newest first, of matching documents only; that page is exactly the `(page-1)*limit` window, of at most `limit` documents, of a newest-first ordering of all the matches |
| ContentApi.ListedFromMatching | backend/pages/api/content/index.js:15-19 | a page of the sorted matches is newest first and holds only stored documents of the requested type |
| ContentApi.TypeMatches | backend/pages/api/content/index.js:13 | no contract of its own: "all" matches every document, any other value the documents whose stored type is spelled exactly so; see `LowerCaseTypeListsNothing` |
| ContentApi.Matching | backend/pages/api/content/index.js:13-15 | no contract of its own: `find` with the type filter; see `Query.Select`, `MatchingNone` and `ListContents` |
| ContentApi.LowerCaseTypeListsNothing | backend/pages/api/content/index.js:12-13 | `type=article` matches no stored spelling: empty page, total 0, 0 pages |
| ContentApi.MatchingNone | backend/pages/api/content/index.js:13 | a type no document matches selects nothing |
| ContentApi.SecondPageOfFifteen | backend/pages/api/content/index.js:18-29 | 15 matches in pages of 10: page 2 holds 5, and there are 2 pages |
| ContentApi.EveryMatchIsListed | backend/pages/api/content/index.js:12-29 | every matching document is listed on some page between 1 and the page count |
| ContentApi.HandleContent | backend/pages/api/content/index.js:9-48 | only a GET needs a limit of at least 1; GET lists and writes nothing; POST stores exactly one validated document (201) or nothing (400); other verbs get 405 and no write |
| ContentRoutes.ValidationErrors | backend/routes/content.js:29-30 | no errors exactly when title and type are non-empty; each message appears exactly when its check fails |
| ContentRoutes.ListAll | backend/routes/content.js:12-15 | every document, newest first |
| ContentRoutes.Authored | backend/routes/content.js:40-52 | the saved document has the caller as author, and the body's title, subheading, body, video URL, image, category and type; no date and zero counters; the schema rejects it exactly for a type outside the enumeration |
| ContentRoutes.PostContent | backend/routes/content.js:25-61 | 400 with the failed checks and no write; 500 and no write when the schema rejects the type; otherwise exactly one document is appended |
| ContentRoutes.LowerCaseTypeIsServerError | backend/routes/content.js:29-58 | a lower-case type passes the route's checks but is refused by the schema |
| ContentRoutes.ViewById | backend/routes/content.js:66-86 | a missing or malformed id gives 404 "Content not found" and no change; otherwise that document, with its views raised by one, is both stored and returned |
| ContentRoutes.ViewChangesOnlyThatCount | backend/routes/content.js:76-79 | a successful read changes one document and only its view count, which rises by exactly 1; the answer is that document as now stored |
| ContentRoutes.GetById | backend/routes/content.js:66-86 | the route applied to the collection agrees with `ViewById` |
| CommentRoutes.StoredAsWritten | backend/routes/comments.js:22-26 | as written, the stored document does not depend on the text or the user |
| CommentRoutes.AsWrittenLosesText | backend/routes/comments.js:22-26 | two different comments by different users are stored identically, and neither holds its text |
| CommentRoutes.StoredComment | backend/models/Comment.js:3-9 | the intended document holds the text in `comment`, with the item id from the address and the current time |
| CommentRoutes.StoredCommentKeepsText | backend/models/Comment.js:7 | different texts give different stored comments |
| CommentRoutes.PostComment | backend/routes/comments.js:10-35 | as written: an empty or absent text gives 400 "Text is required" and no write; otherwise exactly one document is appended and returned, the one the store keeps for `{text, contentId, user}`: the item and the date, with no text |
| CommentRoutes.PostCommentCorrected | backend/routes/comments.js:10-35 | corrected: the same 400 case; otherwise the appended and returned comment holds the text in `comment` and the item's id |
| CommentRoutes.CommentsFor | backend/routes/comments.js:40-45 | exactly the comments of that item, each as often as stored, newest first |
| Newsletter.DotAheadIff | backend/pages/api/newsletter/subscribe.js:14 | the scan for `\.\S` through non-space characters succeeds exactly when such a dot exists |
| Newsletter.MatchFromSound | backend/pages/api/newsletter/subscribe.js:14 | what the scan finds is a match of `\S+@\S+\.\S+` |
| Newsletter.MatchFromComplete | backend/pages/api/newsletter/subscribe.js:14 | every match at or after the start position is found |
| Newsletter.EmailTestMatchesPattern | backend/pages/api/newsletter/subscribe.js:14 | the test accepts exactly the strings containing a run matching the pattern |
| Newsletter.EmailTest | backend/pages/api/newsletter/subscribe.js:14 | no contract of its own: the executable test; see `EmailTestMatchesPattern` |
| Newsletter.SpacesAroundStillPass | backend/pages/api/newsletter/subscribe.js:14 | the test is unanchored: "x y@z.w v" passes |
| Newsletter.Subscribe | backend/pages/api/newsletter/subscribe.js:9-31 | 405 for non-POST; 400 "Invalid email address" for absent or non-matching input; 400 "Email already subscribed" for a stored address; otherwise 201 with exactly one new subscriber; no write except on success |
| Newsletter.SecondSubscriptionRefused | backend/pages/api/newsletter/subscribe.js:19-25 | subscribing the same address twice in a row is refused the second time, with no change |
| Newsletter.CaseVariantsBothAccepted | backend/pages/api/newsletter/subscribe.js:19 | the duplicate check is exact: "A@b.co" and "a@b.co" are both accepted |
| Newsletter.HandleSubscribe | backend/pages/api/newsletter/subscribe.js:4-32 | the handler applied to the collection agrees with `Subscribe` |
| PairToggle.RemoveAt | backend/routes/likes.js:15 | deleting one row removes exactly one occurrence of it |
| PairToggle.Toggle | backend/routes/likes.js:11-25 | a row is deleted exactly when the pair is present; otherwise the pair is appended; every other pair keeps its count |
| PairToggle.ToggleFlipsMembership | backend/routes/bookmarks.js:11-25 | with at most one row per pair, membership flips and that invariant is kept |
| PairToggle.ToggleTwiceRestores | backend/routes/likes.js:11-25 | toggling twice restores the rows: exactly when the pair was absent, and as a multiset when at most one row per pair |
| PairToggle.PairCollection.ToggleRow | backend/routes/likes.js:11-25 | the lookup then delete or insert agrees with `Toggle` |
| LikeRoutes.LikeMessage | backend/routes/likes.js:13-24 | "Content unliked" exactly for a deletion, "Content liked" exactly for an insertion |
| LikeRoutes.PostLike | backend/routes/likes.js:9-30 | the like row is toggled and the message says which way |
| BookmarkRoutes.BookmarkMessage | backend/routes/bookmarks.js:13-24 | "Bookmark removed" exactly for a deletion, "Content bookmarked" exactly for an insertion |
| BookmarkRoutes.PostBookmark | backend/routes/bookmarks.js:9-30 | the bookmark row is toggled and the message says which way |
| Contact.Submit | backend/pages/api/contact.js:9-27 | 405 for non-POST; 400 "All fields are required" when a field is missing or empty; otherwise 200 (not 201) with exactly one message holding the three values; no write except on success |
| Contact.Given | backend/pages/api/contact.js:14 | no contract of its own: a field passes when given and not empty; see `Submit` |
| Contact.NoEmailFormatCheck | backend/pages/api/contact.js:14-19 | "x" fails the newsletter's email test yet is accepted here |
| Contact.HandleContact | backend/pages/api/contact.js:4-28 | the handler applied to the collection agrees with `Submit` |
| Search.SearchContents | backend/pages/api/content/search.js:10-28 | 405 exactly for non-GET; otherwise every document hitting title, subheading or category, each as often as stored, newest first, unpaged |
| Search.EveryHitIsFound | backend/pages/api/content/search.js:12-18 | every stored document that hits in any of the three fields is returned |
| Search.MissesAreNotFound | backend/pages/api/content/search.js:12-18 | a document hitting in none of the three fields is never returned |
| Interactions.AddLike | frontend/pages/api/interactions/like.js:9-14 | with no record for the key, one with one like and no views is appended; otherwise the first record with the key, and no other, has its likes raised by one; the answer is the record as now stored |
| Interactions.LikesNeverDecrease | frontend/pages/api/interactions/like.js:9-13 | keys and views are kept, likes never decrease, other keys are unchanged, and the total rises by exactly one |
| Interactions.TotalLikesAppend | frontend/pages/api/interactions/like.js:9-13 | appending a record adds its likes to the total |
| Interactions.TotalLikesUpdate | frontend/pages/api/interactions/like.js:11 | replacing a record changes the total by the difference in likes |
| Interactions.HandleLike | frontend/pages/api/interactions/like.js:7-18 | POST applies the upsert and answers the updated record; other verbs answer 405 allowing POST, with no change |
| AuthRoutes.ValidationErrors | backend/routes/auth.js:15-16 | no errors exactly when the email is an address and the password is present; each message appears exactly when its check fails |
| AuthRoutes.SignIn | backend/routes/auth.js:14-46 | 400 with the validation errors; 400 "Invalid credentials" for an unknown address and for a wrong password; a token exactly when the first account with that address matches the password, signed over that first account's id with a "7d" lifetime |
| AuthRoutes.ByEmail | backend/routes/auth.js:30 | no contract of its own: `findOne({email})`, the first account with that address; see `Query.FindFirst` and `SignIn` |
| AuthRoutes.FailuresIndistinguishable | backend/routes/auth.js:30-39 | an unknown address and a wrong password get the identical answer |
| LoginApi.Login | frontend/pages/api/auth/login.js:8-20 | 405 allowing POST exactly for non-POST; 200 "Login successful" exactly when the first account with that user name matches the password; 401 "Invalid credentials" otherwise |
| LoginApi.ByUsername | frontend/pages/api/auth/login.js:10 | no contract of its own: `findOne({username})`, the first account with that user name; see `Query.FindFirst` and `Login` |
| LoginApi.EmailIsNotAUsername | frontend/pages/api/auth/login.js:10 | the lookup is by user name: a name no account has never logs in |
| Carousel.Next | frontend/app/article/page.tsx:74-87 | one step forward stays below `n`, and wraps from the last slide to the first |
| Carousel.PrevWrap | frontend/app/article/page.tsx:85 | one step back: the first slide goes to the last, any other to the one before |
| Carousel.PrevMod | frontend/app/page.tsx:180 | one step back modulo `n` stays below `n` |
| Carousel.PrevForms | frontend/app/page.tsx:180 | on positions in range, the modular step back equals the wrapping one |
| Carousel.NextPrevInverse | frontend/app/videos/page.tsx:61-67 | forward then back, and back then forward, return to the start, for both forms of back |
| Carousel.Advance | frontend/app/page.tsx:152-158 | any number of forward steps stays in range |
| Carousel.AdvanceIsModular | frontend/app/page.tsx:152-158 | `k` forward steps from `i` land on `(i + k) % n`, so the carousel cycles through every slide |
| Carousel.ModSucc | frontend/app/page.tsx:184 | stepping after reducing modulo `n` is stepping then reducing |
| Carousel.ModOfLaps | frontend/app/page.tsx:184 | whole laps plus a remainder below `n` leave that remainder |
| DetailPage.AfterSubmit | frontend/app/article/page.tsx:91-97 | a comment whose trim is non-empty is appended untrimmed and the input cleared; otherwise nothing changes |
| DetailPage.SubmitAppendsIff | frontend/app/videos/page.tsx:69-75 | a submit appends exactly when the input holds a non-white-space character, and appends the input as typed |
| DetailPage.UntrimmedCommentKept | frontend/app/article/page.tsx:93-94 | " hi " is appended as it stands |
| DetailPage.ContentPage.Article | frontend/app/article/page.tsx:43-65 | the article page's start state: four related items, counts 120 and 45, dark mode on, first slide, no comments |
| DetailPage.ContentPage.Video | frontend/app/videos/page.tsx:24-45 | the video page's start state: four related items, counts 150 and 60, dark mode on, first slide, no comments |
| DetailPage.ContentPage.ArrowClick | frontend/app/article/page.tsx:83-89 | left wraps back, right steps forward; the slide stays in range and nothing else changes |
| DetailPage.ContentPage.Tick | frontend/app/videos/page.tsx:52-57 | the five-second step equals the right arrow |
| DetailPage.ContentPage.DotClick | frontend/app/article/page.tsx:293-299 | a dot click sets the slide to that dot's index |
| DetailPage.ContentPage.TypeComment | frontend/app/article/page.tsx:212 | typing replaces the input only |
| DetailPage.ContentPage.SubmitComment | frontend/app/article/page.tsx:91-97 | the submit agrees with `AfterSubmit` and touches nothing else |
| DetailPage.ContentPage.ToggleLike | frontend/app/article/page.tsx:160-163 | the like mark flips; the shown count is a constant of the page |
| DetailPage.ContentPage.ToggleBookmark | frontend/app/videos/page.tsx:142-145 | the bookmark mark flips; the shown count is a constant of the page |
| DetailPage.ContentPage.ToggleDarkMode | frontend/app/article/page.tsx:79 | dark mode flips and nothing else changes |
| DetailPage.Visit | frontend/app/article/page.tsx:83-97 | right then left returns to the first slide; a blank comment then "nice" stores only "nice" |
| HomePage.TabBarComplete | frontend/app/page.tsx:222 | every tab is in the bar, spelled as the handler receives it |
| HomePage.OfKindMembers | frontend/app/page.tsx:177 | the type filter keeps exactly the items of that type (their order is stated by `OfKindAppend`) |
| HomePage.OfKind | frontend/app/page.tsx:177 | no contract of its own: `contents.filter(content => content.type === activeTab)`; see `OfKindMembers` and `OfKindAppend` |
| HomePage.OfKindAppend | frontend/app/page.tsx:177 | the filter keeps the items' order: filtering `a + b` is filtering `a` followed by filtering `b` |
| HomePage.OfKindOneOfEach | frontend/app/page.tsx:177 | of four items holding one of each type in order, a type filter keeps exactly that type's item |
| HomePage.FilteredMembers | frontend/app/page.tsx:177 | a tab shows exactly the items whose type is the tab's value, or every item on "all" (the order is stated by `FilteredInOrder`) |
| HomePage.Filtered | frontend/app/page.tsx:177 | no contract of its own: every item on "all", else the items of the tab's type; see `FilteredMembers` and `FilteredInOrder` |
| HomePage.FilteredInOrder | frontend/app/page.tsx:177 | each type tab shows its two built-in items in their listed order, so the index the featured card reads picks the earlier one first |
| HomePage.KindNameInjective | frontend/app/page.tsx:27 | different types have different names |
| HomePage.EveryTabNonEmpty | frontend/app/page.tsx:39-136 | with the shipped items, "all" shows 8 and every type shows 2 |
| HomePage.TabNonEmpty | frontend/app/page.tsx:39-177 | every tab's list is non-empty, so the modulo never divides by zero |
| HomePage.TabChangeOutOfRange | frontend/app/page.tsx:177-252 | index 5 exists on "all" but not on "article", which has two items |
| HomePage.Home.constructor | frontend/app/page.tsx:139-142 | dark, on "all", first item featured, header expanded |
| HomePage.Home.Count | frontend/app/page.tsx:177 | the number of items the tab shows, never 0 |
| HomePage.Home.NextFeatured | frontend/app/page.tsx:183-185 | one step forward modulo the count; the index is in range afterwards |
| HomePage.Home.PrevFeatured | frontend/app/page.tsx:179-181 | one step back modulo the count; the index is in range afterwards |
| HomePage.Home.Tick | frontend/app/page.tsx:152-158 | the ten-second step equals the right arrow |
| HomePage.Home.OnScroll | frontend/app/page.tsx:161-167 | the header collapses exactly when scrolled more than 50 pixels |
| HomePage.Home.ToggleDarkMode | frontend/app/page.tsx:173-175 | dark mode flips and nothing else changes |
| HomePage.Home.ChangeTab | frontend/app/page.tsx:220 | as written: the tab changes and the featured index is kept |
| HomePage.Home.ChangeTabAndReset | frontend/app/page.tsx:220 | corrected: the index goes back to 0 and stays in range |
| HomePage.Home.Featured | frontend/app/page.tsx:252 | with the index in range, the featured item is a shipped item of the active tab's type |
| HomePage.TabChangeBreaksRange | frontend/app/page.tsx:141-252 | five steps on "all" then "article", as written, leave the index out of range |
| HomePage.TabChangeAndResetKeepsRange | frontend/app/page.tsx:220 | the same steps with the corrected tab change keep it in range |
| AdminLoginForm.LoginForm.constructor | frontend/app/admin/admin-login.tsx:16-18 | both fields and the error start empty |
| AdminLoginForm.LoginForm.SetUsername | frontend/app/admin/admin-login.tsx:16 | sets the user name only |
| AdminLoginForm.LoginForm.SetPassword | frontend/app/admin/admin-login.tsx:17 | sets the password only |
| AdminLoginForm.LoginForm.Submit | frontend/app/admin/admin-login.tsx:20-27 | the callback gets the credentials exactly for ("admin", "mihir9373"), with the error kept; any other pair sets "Invalid username or password" and calls nothing |
| AdminLoginForm.LoginForm.SubmitChecking | frontend/app/admin/admin-login.tsx:20-27 | the same handler for a form whose fixed pair is a parameter: the callback gets exactly that pair |
| AdminLoginForm.RetryKeepsError | frontend/app/admin/admin-login.tsx:22-26 | a wrong then a right password: the callback is called and the earlier error stays |
| AdminDashboard.NoCredentialPassesBoth | frontend/app/admin/admin-login.tsx:22 | no pair passes both the form's check and the handler's check |
| AdminDashboard.GateWith | frontend/app/admin/page.tsx:44-49 | a form check with a fixed pair followed by the handler: an open gate stays open; a closed one opens exactly when the typed pair passes both checks |
| AdminDashboard.GateAfterSubmit | frontend/app/admin/page.tsx:44-49 | as written, with the form's pair: a form submission never opens a closed gate |
| AdminDashboard.GateAfterSubmitCorrected | frontend/app/admin/page.tsx:44-49 | corrected, with the handler's pair in the form: a submission opens the gate exactly for ("admin", "password") |
| AdminDashboard.EditorPathParts | frontend/app/admin/page.tsx:56-62 | the path is "/", the lower-cased type and "s/", then the id and "/edit" for a truthy id, or "new" |
| AdminDashboard.EditorPath | frontend/app/admin/page.tsx:56-62 | no contract of its own: the path `navigateToEditor` builds; see `EditorPathParts`, `EditorPathInjective`, `NewIsNotEdit` and `EditorPathExamples` |
| AdminDashboard.EditorPathInjective | frontend/app/admin/page.tsx:56-59 | different existing items of one type get different paths |
| AdminDashboard.NewIsNotEdit | frontend/app/admin/page.tsx:56-61 | the new-item path is never an existing item's path |
| AdminDashboard.EditorPathExamples | frontend/app/admin/page.tsx:56-62 | ("Article", "3") goes to "/articles/3/edit"; ("Video", "") goes to "/videos/new" |
| AdminDashboard.Dashboard.constructor | frontend/app/admin/page.tsx:28-36 | both flags are read from storage, each only "true" counting |
| AdminDashboard.Dashboard.ShowsDashboard | frontend/app/admin/page.tsx:70-72 | no contract of its own: the dashboard rather than the login form is shown exactly when authenticated; see `SubmitLogin` and `SubmitLoginCorrected` |
| AdminDashboard.Dashboard.HandleLogin | frontend/app/admin/page.tsx:44-49 | only ("admin", "password") authenticates and is stored; any other pair changes nothing |
| AdminDashboard.Dashboard.HandleLogout | frontend/app/admin/page.tsx:51-54 | logs out and removes the stored flag |
| AdminDashboard.Dashboard.ToggleDarkMode | frontend/app/admin/page.tsx:38-42 | dark mode flips and the new value is stored as "true" or "false" |
| AdminDashboard.SubmitLogin | frontend/app/admin/page.tsx:70-72 | the form wired to the handler, as written, never changes the authentication |
| AdminDashboard.SubmitLoginCorrected | frontend/app/admin/page.tsx:44-49 | the form checking the handler's pair, wired to the handler: authenticates exactly as `GateAfterSubmitCorrected` says |

## Left out

- Database connections, server bootstrap and the seed script are I/O and are not modelled. Every handler starts from the collection it receives.
- `populate` joins of the author and the user are not modelled. Documents carry the author's id only.
- Requests are handled one at a time. Races between a lookup and the write that follows it are not modelled; this affects subscription, likes and bookmarks.
- Server-error paths caused by the database (the `catch` branches answering 500, or 400 on the file-routed endpoints) are not modelled. Of the failures that the request itself causes, only these three are modelled: a type outside the enumeration on the Express create route (500), the same on the file-routed POST (400, `Rejected`), and a page number below 1 on the file-routed GET (a negative skip, 400).
- Cast failures of typed fields are not modelled. Request values are typed in the model (numbers, dates, ids as `nat`), so these failures cannot arise: a body value the schema cannot cast on the file-routed POST (`views: "x"`, `date: "x"`, a bad `author` id, 400 at backend/pages/api/content/index.js:38-42); a `:contentId` that is not an ObjectId on the comment route (500 on save); a search term that is not a valid pattern (400); a malformed `itemId` on the interaction like endpoint (an unhandled rejection).
- ContentModel.FromFields: fails exactly for a type outside the enumeration only because its fields are typed; a value the schema cannot cast is not modelled (see the line above).
- ContentRoutes.ValidationErrors, AuthRoutes.ValidationErrors, CommentRoutes.PostComment: the request checks are modelled over the body's fields only. The validator of the Express routes also looks in the query string, the route parameters, the headers and the cookies, and a check passes when any of them holds a valid value; so `POST /api/content?title=T&type=Article` with an empty body passes the route's checks, which the model answers 400.
- Query.SortNewestFirst: the order among documents with equal dates is not specified by the store; the model keeps the input order.
- Text.Lower: lower-cases ASCII letters only; `toLowerCase` also maps other scripts.
- ContentApi.ListContents: requires a limit of at least 1. A page number below 1 is modelled as a rejected query (400), because the store refuses a negative skip. Query strings are given as numbers, so non-numeric text is not modelled.
- ContentRoutes.ViewById: an id that is not a valid ObjectId is passed as `None` and answered 404, like an absent one.
- Search.SearchContents: the case-insensitive regular-expression test is a parameter, because the `$regex` engine is not modelled.
- AuthRoutes.SignIn: `isEmail`, bcrypt's comparison and JWT signing are parameters.
- AdminLoginForm.LoginForm.Submit: both inputs are marked `required`, so the browser does not submit an empty field; the model lets an empty field reach the handler, which rejects it like any other wrong pair.
- AdminDashboard: the delete button only writes the id to the console, so it changes no state; console output is not modelled and the handler has no member.
- LoginApi.Login: a body without a user name or password is not modelled separately; a missing name is looked up like any other.
- Interactions.AddLike: the `itemType` enumeration (Article, Video) is not checked, because the upsert does not run the schema's validators.
- Timers, scroll listeners, localStorage calls, DOM class toggling and rendering are left out. Each timer tick, event or storage write is modelled as the state change it causes.
- HomePage: the tab value is a datatype of the five tabs, not free text, because the tab bar offers only those five values.
- The Like and Bookmark model files are not part of this model. A like or bookmark row is modelled as the (user, content) pair the routes read and write.

## Findings

| source | as written | input that shows it | evidently intended | confidence | as-written member | corrected member |
|---|---|---|---|---|---|---|
| frontend/app/page.tsx:220-252 | changing the tab keeps `featuredPostIndex`, and the featured card reads `filteredContents[featuredPostIndex]` | five steps forward on "all" (index 5), then the "article" tab, which has two items | reset the index to 0 when the tab changes | high, not executed | HomePage.TabChangeBreaksRange | HomePage.Home.ChangeTabAndReset |
| frontend/app/admin/admin-login.tsx:22 | the form passes credentials on only for password "mihir9373", while the dashboard accepts only "password" | ("admin", "mihir9373") passes the form and fails the dashboard; ("admin", "password") fails the form | one password checked by both | high, not executed | AdminDashboard.GateAfterSubmit | AdminDashboard.GateAfterSubmitCorrected |
| backend/routes/comments.js:22-26 | the comment is built from `text` and `user`, fields the Comment schema does not declare, so the store drops them | any comment: two different texts give identical stored documents, with no text | store the text in the schema's `comment` field | medium, not executed | CommentRoutes.AsWrittenLosesText | CommentRoutes.StoredCommentKeepsText |
