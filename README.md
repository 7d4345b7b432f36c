# Resume builder backend: resumes, versions and sharing

This project models the three services at the centre of a NestJS resume-builder
backend.

- **Resumes.** Each user owns resumes. They are created, read, listed with
  paging and filters, searched, updated, soft-deleted, duplicated, exported and
  imported.
- **Subscription cap.** A tier limits how many resumes a user may hold. The
  limit is checked against a counter stored on the user row, and that counter
  is recomputed after every insert and delete.
- **Versions.** A version is a numbered snapshot of a resume's content and
  template. A version can be restored onto its resume.
- **Sharing.** A resume can be published under a random 12-character slug.
  Anyone can then read it, and each read counts a view. The owner can read the
  view and export counters.

The database reached through Prisma is an in-memory `Database.Store`. Its
fields are a user table keyed by user id and two tables that only grow: resumes
and versions. A row's id is its position in its table. The store's own methods are the four
Prisma writes the services use: insert a resume, overwrite a resume row, set a
user's `resumeCount` and insert a version. Each service operation that writes is
a module-level method that takes the store `db` and calls those primitives.
Each service operation that only reads is a function over the tables. The store
invariant (`Store.Valid`) holds:

- every row's id equals its position;
- every foreign key points to an existing row: a resume's owner, and a version's
  resume, owner and author;
- public slugs are unique;
- each resume's versions are numbered 1, 2, 3, … in the order they were
  created.

A second predicate, `Store.CountsAccurate`, says that every user's
`resumeCount` equals the number of that user's resumes that are not
soft-deleted. It is kept separate from `Valid` because code outside this model
also writes that column. Every write modelled here keeps `CountsAccurate`
whenever it held before the call.

The model works in the following terms:

- The clock is a parameter `now`. Every row write stamps `updatedAt := now`,
  as Prisma's `@updatedAt` column does. One `now` serves for the whole call.
- The slug `nanoid(12)` would draw is a parameter `freshSlug`.
- The front-end base URL is a parameter `frontendUrl`.
- Errors are values: `NotFound`, `Forbidden(LimitReached)`,
  `Forbidden(AccessDenied)` and `BadRequest(...)`.
- JavaScript truthiness is written out. `Present` covers optional strings and
  `Truthy` covers JSON values. The `||` defaults use them.
- Titles sort in code-point order. Rows that tie on the sort column keep their
  storage order. Both are choices of the model (see `Query.Sort` under
  "## Left out").

## Model

| member | source | states |
|---|---|---|
| Subscription.MaxResumes | src/modules/resumes/resumes.service.ts:321-329 | the `max_resumes` limit of a tier; an unlisted tier gets the free tier's limit; no tier allows fewer than the free tier |
| Subscription.TierTable | src/modules/resumes/resumes.service.ts:321-326 | free = 3, basic = 10, pro = 50, enterprise = 999999, strictly increasing |
| Subscription.CanCreateResume | src/modules/resumes/resumes.service.ts:313-336 | creation is allowed iff the user exists and its stored `resumeCount` is below its tier's limit; a missing user is refused |
| Subscription.CanCreateIffBelowLiveLimit | src/modules/resumes/resumes.service.ts:313-336 | with accurate counters, creation is allowed iff the user's live resumes are fewer than the tier's limit |
| Schema.NewResume | src/modules/resumes/resumes.service.ts:17-26 | an inserted row is a draft, private, without slug or score, with zero counters, not deleted, created and updated at `now` |
| Schema.LiveCount | src/modules/resumes/resumes.service.ts:300-305 | the number of the user's rows with no deletion mark, never more than the table size |
| Schema.LiveCountAppend | src/modules/resumes/resumes.service.ts:300-305 | appending a row adds one to its owner's live count if it is live, and nothing otherwise |
| Schema.LiveCountReplace | src/modules/resumes/resumes.service.ts:300-305 | overwriting one row changes a live count by what the old and new row contribute |
| Schema.LiveCountKeep | src/modules/resumes/resumes.service.ts:300-305 | a row write that keeps the owner and the deletion mark changes no live count |
| Schema.RecountKeepsAccurate | src/modules/resumes/resumes.service.ts:299-311 | recounting the one user whose rows changed leaves every counter accurate |
| Text.TrimStart | src/modules/resumes/resumes.service.ts:114 | the result is the suffix that follows a run of white space and does not start with white space |
| Text.TrimEnd | src/modules/resumes/resumes.service.ts:114 | the result is the prefix that precedes a run of white space and does not end with white space |
| Text.Trim | src/modules/resumes/resumes.service.ts:114-116 | the trimmed text is the input with a run of white space removed at each end (`TrimmedAt`); it is empty exactly when every character is white space, and otherwise has no white space at either end |
| Text.Lower | src/modules/resumes/resumes.service.ts:114 | lower-casing keeps the length and maps each character through the ASCII lower-case map |
| Text.LowerIdempotent | src/modules/resumes/resumes.service.ts:114-139 | lower-casing twice is lower-casing once, so pre-lowering the terms does not change an insensitive match |
| Text.HasInfix | src/modules/resumes/resumes.service.ts:127-139 | the result is true iff the needle occurs at some position of the haystack |
| Text.LexLeTotal | src/modules/resumes/resumes.service.ts:67-68 | any two titles are comparable |
| Text.LexLeTransitive | src/modules/resumes/resumes.service.ts:67-68 | the title order is transitive |
| Query.MatchesText | src/modules/resumes/resumes.service.ts:128-141 | the search clause: the text occurs at some position of the lower-cased title, or of the lower-cased description when there is one; the empty text matches every row |
| Query.Filter | src/modules/resumes/resumes.service.ts:59-64 | a row is kept iff it belongs to the user, is live and passes every given filter |
| Query.FilterMultiplicity | src/modules/resumes/resumes.service.ts:59-64 | a row that passes the where-clause is returned as many times as it is stored (once, in a table of distinct rows) and any other row never, so totals count every match exactly once |
| Query.FilterInStorageOrder | src/modules/resumes/resumes.service.ts:59-64 | in a table whose ids are positions, the matches come in storage order with strictly increasing ids, hence each once |
| Query.FilterCountsLive | src/modules/resumes/resumes.service.ts:300-305 | counting with no filter beyond owner and liveness gives the user's live count |
| Query.InOrderTotal | src/modules/resumes/resumes.service.ts:66-73 | under every column and direction, any two rows are comparable |
| Query.InOrderTransitive | src/modules/resumes/resumes.service.ts:66-73 | under every column and direction, the order is transitive |
| Query.Insert | src/modules/resumes/resumes.service.ts:75-80 | inserting into the sorted rows adds exactly one row |
| Query.Sort | src/modules/resumes/resumes.service.ts:75-80 | sorting keeps the number of rows |
| Query.InsertPermutes | src/modules/resumes/resumes.service.ts:75-80 | inserting adds exactly that row to the multiset of rows |
| Query.InsertSorted | src/modules/resumes/resumes.service.ts:75-80 | inserting into sorted rows gives sorted rows |
| Query.SortCorrect | src/modules/resumes/resumes.service.ts:75-80 | the sort result is sorted and is a permutation of its input |
| Query.Window | src/modules/resumes/resumes.service.ts:79-80 | skip/take returns the rows at positions skip, skip + 1, … that exist, at most `take` of them |
| Query.FindMany | src/modules/resumes/resumes.service.ts:75-80 | the page is sorted; every row on it matches; it holds exactly the matches left after skipping `skip` (at most `take` of them), and its k-th row is the sorted match at position `skip + k` |
| Query.PagesCover | src/modules/resumes/resumes.service.ts:57-80 | the match at sorted position n is on the page that starts at (n / take) * take |
| Resumes.OrDefault | src/modules/resumes/resumes.service.ts:21 | `s \|\| fallback`: the string when it is present and non-empty, the fallback otherwise |
| Resumes.ContentOrEmpty | src/modules/resumes/resumes.service.ts:22 | `content \|\| {}`: truthy content is kept, any other becomes the empty object |
| Resumes.GetById | src/modules/resumes/resumes.service.ts:32-46 | succeeds iff the row exists, is the caller's and is not soft-deleted, with that row; NotFound otherwise |
| Resumes.Offset | src/modules/resumes/resumes.service.ts:57 | `(page - 1) * limit`: page 1 starts at row 0 and page p ends at row p * limit |
| Resumes.NextPageFollows | src/modules/resumes/resumes.service.ts:57 | page p + 1 starts exactly `limit` rows after page p, so consecutive pages are adjacent |
| Resumes.ListOrder | src/modules/resumes/resumes.service.ts:66-73 | sort by title iff asked for "title", by creation iff asked for "createdAt", by update otherwise; the requested direction, descending by default |
| Resumes.ListRows | src/modules/resumes/resumes.service.ts:48-101 | all rows the caller's, live and matching status/template when given; sorted; exactly the matches left after skipping `(page - 1) * limit`, at most `limit` of them, the k-th being the sorted match at position offset + k; `total` counts every match |
| Resumes.List | src/modules/resumes/resumes.service.ts:81-101 | the selected columns of exactly the rows and total of `ListRows` |
| Resumes.ListTotalIsLiveCount | src/modules/resumes/resumes.service.ts:48-101 | with no filters the total is the live count, which is the stored `resumeCount` when counters are accurate |
| Resumes.DeletedNotListed | src/modules/resumes/resumes.service.ts:59-61 | a soft-deleted row is on no page |
| Resumes.SearchTerms | src/modules/resumes/resumes.service.ts:114 | the query trimmed and then lower-cased (`Text.Lower` of `Text.Trim`): empty exactly for a blank query, no longer than it, already lower case |
| Resumes.SearchOrder | src/modules/resumes/resumes.service.ts:144-153 | "relevance" or no key sorts newest update first whatever the direction; any other key sorts as `list` does |
| Resumes.BlankSearchOptions | src/modules/resumes/resumes.service.ts:116-121 | the options passed on to `list`: only the sort key changes; "relevance" or no key becomes `updatedAt`, any other key is kept |
| Resumes.Search | src/modules/resumes/resumes.service.ts:103-166 | a blank query answers exactly as `list` with the mapped options; otherwise every row is the caller's live row whose title or description contains the trimmed lower-cased query and that matches status/template when given; the page is sorted by the search order and holds exactly the matches left after skipping `(page - 1) * limit`, at most `limit` of them, the k-th being the sorted match at position offset + k; `total` counts every match |
| Resumes.BulkRows | src/modules/resumes/resumes.service.ts:272-282 | a row is exported iff it is the caller's, live and, when the id list is non-empty, listed; each matching row exactly once (same multiset as the matches); newest update first |
| Resumes.BulkExport | src/modules/resumes/resumes.service.ts:272-297 | version "1.0" and one entry per row of `BulkRows`, in order; it is a function, so nothing changes |
| Resumes.ImportProblem | src/modules/resumes/resumes.service.ts:245-251 | missing or falsy content is reported first; only then a truthy version other than "1.0" |
| Resumes.UpdateResumeCount | src/modules/resumes/resumes.service.ts:299-311 | the user's `resumeCount` becomes the live count; no other user and no row changes |
| Resumes.InsertAndRecount | src/modules/resumes/resumes.service.ts:17-28 | one row is appended, its owner's live count grows by one and the owner's counter is recomputed |
| Resumes.Create | src/modules/resumes/resumes.service.ts:11-30 | at the cap: Forbidden, and no table changes; otherwise exactly one new draft row with template "modern" when empty and content `{}` when falsy, and the counter equals the live count |
| Resumes.ApplyUpdate | src/modules/resumes/resumes.service.ts:171-177 | each present field is replaced; no other field changes except the update stamp |
| Resumes.UpdateKeepsSlug | src/modules/resumes/resumes.service.ts:171-177 | an update never changes the slug, so a resume can become public without one |
| Resumes.Update | src/modules/resumes/resumes.service.ts:168-185 | NotFound unless owned and live; otherwise only that row changes, to `ApplyUpdate` of it |
| Resumes.Delete | src/modules/resumes/resumes.service.ts:187-196 | NotFound unless owned and live; otherwise the row is marked deleted, the live count drops by one, the counter is recomputed and the row can no longer be read |
| Resumes.Duplicate | src/modules/resumes/resumes.service.ts:198-219 | NotFound before the cap check; then Forbidden at the cap; otherwise exactly one new row: a fresh draft titled with " (Copy)" that has the original's description, template and content, and the counter equals the live count |
| Resumes.Export | src/modules/resumes/resumes.service.ts:221-242 | NotFound unless owned and live; otherwise `exportCount` grows by exactly one, the export is stamped, and the envelope has version "1.0" and the row's title, template, content and status |
| Resumes.Import | src/modules/resumes/resumes.service.ts:244-270 | BadRequest for a payload problem, then Forbidden at the cap, and no table changes in either case; otherwise a new draft with title "Imported Resume" and template "modern" as defaults |
| Database.Store.CreateResume | src/modules/resumes/resumes.service.ts:17-26 | the row is appended under the next id; nothing else changes |
| Database.Store.UpdateResume | src/modules/resumes/resumes.service.ts:179-182 | exactly that row is overwritten; a new slug must be unused, as the unique column requires |
| Database.Store.SetResumeCount | src/modules/resumes/resumes.service.ts:307-310 | only that user's `resumeCount` changes |
| Database.Store.CreateVersion | src/modules/versions/versions.service.ts:38-49 | the version is appended under the next id, and its number is one past that resume's version count |
| Versions.VerifyResumeOwnership | src/modules/versions/versions.service.ts:85-97 | succeeds iff the resume exists, is the caller's and is live; Forbidden otherwise |
| Versions.VersionsOf | src/modules/versions/versions.service.ts:12-15 | exactly the versions of that resume |
| Versions.VersionsOfNumbered | src/modules/versions/versions.service.ts:31-36 | a resume's versions, in creation order, are numbered 1, 2, 3, … and there are as many as its version count |
| Versions.List | src/modules/versions/versions.service.ts:9-18 | Forbidden unless owned and live; otherwise exactly the resume's versions, numbered n, n - 1, …, 1, strictly descending |
| Versions.NextNumber | src/modules/versions/versions.service.ts:36 | `(latest?.versionNumber \|\| 0) + 1`: 1 when there is no version yet, otherwise the latest number plus one |
| Versions.NextNumberCounts | src/modules/versions/versions.service.ts:31-36 | `(latest number \|\| 0) + 1` equals the resume's version count plus one |
| Versions.GetById | src/modules/versions/versions.service.ts:54-69 | Forbidden unless owned and live; then NotFound unless the version exists and belongs to that resume |
| Versions.Create | src/modules/versions/versions.service.ts:20-52 | Forbidden unless owned and live, and NotFound never happens; otherwise one version is appended: number = count + 1, content and template copied from the resume, name and summary from the input, `createdBy` the caller |
| Versions.Restore | src/modules/versions/versions.service.ts:71-83 | errors as `GetById`; otherwise the resume's content and template become the version's and nothing else changes except the update stamp; no version is added |
| Sharing.VerifyOwnership | src/modules/sharing/sharing.service.ts:90-104 | the caller's live resume, or Forbidden |
| Sharing.IsShared | src/modules/sharing/sharing.service.ts:12 | `resume.isPublic && resume.publicSlug`: public and the slug is set and non-empty (an empty slug is falsy) |
| Sharing.Published | src/modules/sharing/sharing.service.ts:50-56 | the public lookup's where-clause: a row found under a non-empty slug carries exactly that slug and is shared and not soft-deleted |
| Sharing.SharedLiveIffPublished | src/modules/sharing/sharing.service.ts:12-18 | a row is shared and live exactly when a public reader finds it under its own slug |
| Sharing.LinkTo | src/modules/sharing/sharing.service.ts:30-34 | the link carries the slug, is public, and its URL is the base URL, then "/public/", then the slug |
| Sharing.Shared | src/modules/sharing/sharing.service.ts:12-28 | an already shared row is unchanged; any other row becomes public under the fresh slug |
| Sharing.ShareIdempotent | src/modules/sharing/sharing.service.ts:12-18 | sharing a second time changes nothing and keeps the first slug |
| Sharing.Unshared | src/modules/sharing/sharing.service.ts:40-46 | the row is private with no slug; no other field changes except the update stamp |
| Sharing.ShareAfterUnshare | src/modules/sharing/sharing.service.ts:37-47 | after an unshare the next share uses a fresh slug |
| Sharing.Share | src/modules/sharing/sharing.service.ts:9-35 | Forbidden unless owned and live; an already shared resume gets its own link back unchanged; otherwise the resume becomes public under the fresh slug; after success the resume is shared under the returned slug |
| Sharing.Unshare | src/modules/sharing/sharing.service.ts:37-47 | Forbidden unless owned and live; otherwise only that row changes, to `Unshared` |
| Sharing.FindPublic | src/modules/sharing/sharing.service.ts:50-56 | the first row with that slug that is public and live, or none iff no such row exists |
| Sharing.GetPublicResume | src/modules/sharing/sharing.service.ts:49-76 | NotFound iff no public live row has the slug; otherwise that row alone has its `viewCount` grow by one, the answer carries the new count, and it is the only public row with that slug |
| Sharing.GetAnalytics | src/modules/sharing/sharing.service.ts:78-88 | Forbidden unless owned and live; otherwise the current view and export counters and last export, with no last view |

## Left out

- Authentication, the HTTP controllers, the exception filter and application
  start-up are left out. The caller's id is a parameter. src/modules/auth/auth.service.ts
  is not part of this model.
- PDF rendering through a headless browser (src/modules/export/export.service.ts)
  is left out. It is foreign calls and process lifecycle.
- The user service (src/modules/users/users.service.ts) is not part of this
  model. It can overwrite `resumeCount`, which is why accurate counters are a
  separate predicate and not part of `Store.Valid`.
- Concurrency is left out. Each call runs alone, so the counter recount, the
  `max + 1` version numbering and the view increment are not raced. Two
  concurrent creates could both pass the cap check or draw the same version
  number, and the model does not show that.
- Resumes.ListRows, Resumes.List and Resumes.Search: require `page >= 1` and
  `limit >= 0`. The query DTO does not
  validate these values, and a negative `skip` or `take` is handled by the
  database layer, which is not modelled.
- Sharing.Share: requires the fresh slug to be unused. A `nanoid` collision
  would violate the unique column and fail in the database layer.
- Subscription.MaxResumes: covers only the `max_resumes` limit type, the only
  one the service asks for. For other limit types the source returns true.
  A tier named like an inherited object property (`constructor`, say) would
  bypass the `|| limits.free` fallback in the source. The model gives it the
  free limit.
- Query.Sort: titles are compared in code-point order, not in the database's
  collation, and rows that tie on the sort column are fixed to storage order.
  The database promises no order among ties under OFFSET/LIMIT.
  `Query.PagesCover` and the position-by-position page contracts depend on that
  fixed tie-break.
- Resumes.Import: the payload's `title` and `templateId` are typed as strings.
  The body is an unvalidated `any`, so a truthy non-string value (a number, say)
  passes both payload checks and the cap check and is then rejected by the
  database layer when the row is inserted; that rejection is not modelled.
- Versions.Create: `versionName` and `changesSummary` are typed as strings. The
  body is an unvalidated `any`, and a non-string value would be rejected by the
  database layer when the version is inserted; that rejection is not modelled.
- Text.Lower: only the ASCII letters are lower-cased. Full Unicode case mapping
  and database collation are left out.
- Text.HasInfix: every character of the search text is compared literally.
  How the database treats `%` and `_` in a `contains` pattern is not modelled.
- Json: numbers are integers, and JSON `null` sent for an update field is not
  distinguished from an absent field.
- `updatedAt` is stamped on every row write, as the `@updatedAt` column does.
  The Prisma schema is not part of this model.
- Sharing.GetPublicResume: the `updatedAt` it returns is the value before the
  view was counted, as in the source.
- Export and import use one clock reading per call. The source reads the clock
  once for `lastExportedAt` and again for `exportedAt`.
- A row becomes public with a slug only through `share`. An update can set
  `isPublic` without a slug (Resumes.UpdateKeepsSlug), so the table has no
  invariant that every public row has a slug.
- The cap check reads the stored counter. `Subscription.CanCreateIffBelowLiveLimit`
  ties it to the live count only when counters are accurate.
