/** The resume lifecycle service: create, read, list, search, update,
    soft-delete, duplicate, export, import and bulk export of a user's resumes,
    each gated on ownership, with the tier cap checked before every insert and
    the owner's `resumeCount` recomputed after every insert or delete. */
module Resumes {
  import opened Schema
  import opened Database
  import Subscription
  import Query
  import Text

  /** The body of a create request, after validation. */
  datatype CreateResumeDto = CreateResumeDto(
    title: string,
    description: Option<string>,
    templateId: string,
    content: Json)

  /** The body of an update request: `None` is a field that is absent. */
  datatype UpdateResumeDto = UpdateResumeDto(
    title: Option<string>,
    description: Option<string>,
    templateId: Option<string>,
    status: Option<string>,
    content: Option<Json>,
    isPublic: Option<bool>)

  datatype SortBy = SortByUpdatedAt | SortByCreatedAt | SortByTitle | SortByRelevance

  /** The query options of `list` and `search`; `None` is an option that is absent. */
  datatype ListOptions = ListOptions(
    page: Option<int>,
    limit: Option<int>,
    status: Option<string>,
    template: Option<string>,
    sortBy: Option<SortBy>,
    sortOrder: Option<Query.Direction>)

  /** The columns `list` selects: everything but the content and the export and deletion stamps. */
  datatype ResumeSummary = ResumeSummary(
    id: ResumeId,
    userId: UserId,
    title: string,
    description: Option<string>,
    templateId: string,
    status: string,
    isPublic: bool,
    publicSlug: Option<string>,
    atsScore: Option<int>,
    viewCount: int,
    exportCount: int,
    createdAt: Time,
    updatedAt: Time)

  datatype Paged<T> = Paged(items: seq<T>, total: nat)

  /** A blank search answers with `list`'s result; any other search with whole rows. */
  datatype SearchResult = Listed(listed: Paged<ResumeSummary>) | Matched(matched: Paged<Resume>)

  datatype ExportedResume = ExportedResume(title: string, templateId: string, content: Json, status: string)
  datatype ExportEnvelope = ExportEnvelope(version: string, exportedAt: Time, resume: ExportedResume)

  datatype BulkEntry = BulkEntry(
    id: ResumeId,
    title: string,
    templateId: string,
    content: Json,
    status: string,
    createdAt: Time,
    updatedAt: Time)
  datatype BulkEnvelope = BulkEnvelope(version: string, exportedAt: Time, resumes: seq<BulkEntry>)

  /** An import payload. `resume` is `None` when it is absent or falsy. */
  datatype ImportedResume = ImportedResume(title: Option<string>, templateId: Option<string>, content: Option<Json>)
  datatype ImportPayload = ImportPayload(version: Option<Json>, resume: Option<ImportedResume>)

  const ExportFormatVersion: string := "1.0"
  const DefaultTemplate: string := "modern"
  const ImportedTitle: string := "Imported Resume"
  const CopySuffix: string := " (Copy)"

  /** `s || fallback` for an optional string. */
  function OrDefault(s: Option<string>, fallback: string): (r: string)
    ensures Present(s) ==> r == s.value
    ensures !Present(s) ==> r == fallback
  {
    if Present(s) then s.value else fallback
  }

  /** `content || {}`. */
  function ContentOrEmpty(c: Json): (r: Json)
    ensures Truthy(r)
    ensures Truthy(c) ==> r == c
    ensures !Truthy(c) ==> r == EmptyObject
  {
    if Truthy(c) then c else EmptyObject
  }

  // ---------------------------------------------------------------- reads

  /** `getById`: the row, when it exists, belongs to `userId` and is not soft-deleted. */
  function GetById(resumes: seq<Resume>, resumeId: ResumeId, userId: UserId): (r: Result<Resume>)
    ensures r.Ok? <==> OwnedLive(resumes, resumeId, userId)
    ensures r.Ok? ==> r.value == resumes[resumeId]
    ensures r.Err? ==> r.error == NotFound
  {
    if OwnedLive(resumes, resumeId, userId) then Ok(resumes[resumeId]) else Err(NotFound)
  }

  predicate PagingOk(o: ListOptions) {
    (o.page.None? || o.page.value >= 1) && (o.limit.None? || o.limit.value >= 0)
  }

  function PageOf(o: ListOptions): int {
    if o.page.Some? then o.page.value else 1
  }

  function LimitOf(o: ListOptions): int {
    if o.limit.Some? then o.limit.value else 10
  }

  /** `(page - 1) * limit`: the first page starts at row 0, and each page ends where the next starts. */
  function Offset(o: ListOptions): (skip: nat)
    requires PagingOk(o)
    ensures PageOf(o) == 1 ==> skip == 0
    ensures skip + LimitOf(o) == PageOf(o) * LimitOf(o)
  {
    (PageOf(o) - 1) * LimitOf(o)
  }

  /** Consecutive pages are adjacent windows: page p + 1 starts `limit` rows after page p. */
  lemma NextPageFollows(o: ListOptions)
    requires PagingOk(o)
    ensures PagingOk(o.(page := Some(PageOf(o) + 1)))
    ensures Offset(o.(page := Some(PageOf(o) + 1))) == Offset(o) + LimitOf(o)
  {
  }

  function DirectionOf(o: ListOptions): Query.Direction {
    if o.sortOrder.Some? then o.sortOrder.value else Query.Desc
  }

  /** The filter of `list` and `search`: owner, liveness, and `status` / `template` when truthy. */
  function BaseWhere(userId: UserId, o: ListOptions, text: Option<string>): Query.Where {
    Query.Where(userId,
                if Present(o.status) then o.status else None,
                if Present(o.template) then o.template else None,
                text, None)
  }

  /** `list`'s order: `title` or `createdAt` when asked for, `updatedAt` otherwise, in the requested
      direction (descending by default). */
  function ListOrder(o: ListOptions): (order: Query.OrderBy)
    ensures order.direction == (if o.sortOrder.Some? then o.sortOrder.value else Query.Desc)
    ensures order.column == Query.Title <==> o.sortBy == Some(SortByTitle)
    ensures order.column == Query.CreatedAt <==> o.sortBy == Some(SortByCreatedAt)
    ensures order.column == Query.UpdatedAt <==> !(o.sortBy == Some(SortByTitle) || o.sortBy == Some(SortByCreatedAt))
  {
    var sortBy := if o.sortBy.Some? then o.sortBy.value else SortByUpdatedAt;
    if sortBy == SortByTitle then Query.OrderBy(Query.Title, DirectionOf(o))
    else if sortBy == SortByCreatedAt then Query.OrderBy(Query.CreatedAt, DirectionOf(o))
    else Query.OrderBy(Query.UpdatedAt, DirectionOf(o))
  }

  /** The page of whole rows behind `list`, and the count of all matches. */
  function ListRows(resumes: seq<Resume>, userId: UserId, o: ListOptions): (r: Paged<Resume>)
    requires PagingOk(o)
    ensures |r.items| <= LimitOf(o)
    ensures |r.items| == Query.PageLength(|Query.Filter(resumes, BaseWhere(userId, o, None))|, Offset(o), LimitOf(o))
    ensures forall x :: x in r.items ==>
      && x in resumes && x.userId == userId && Live(x)
      && (Present(o.status) ==> x.status == o.status.value)
      && (Present(o.template) ==> x.templateId == o.template.value)
    ensures Query.Sorted(r.items, ListOrder(o))
    ensures forall k :: 0 <= k < |r.items| ==>
      Offset(o) + k < |Query.Filter(resumes, BaseWhere(userId, o, None))| &&
      r.items[k] == Query.Sort(Query.Filter(resumes, BaseWhere(userId, o, None)), ListOrder(o))[Offset(o) + k]
    ensures r.total == |Query.Filter(resumes, BaseWhere(userId, o, None))|
  {
    var w := BaseWhere(userId, o, None);
    Paged(Query.FindMany(resumes, w, ListOrder(o), Offset(o), LimitOf(o)), |Query.Filter(resumes, w)|)
  }

  function Summarize(r: Resume): ResumeSummary {
    ResumeSummary(r.id, r.userId, r.title, r.description, r.templateId, r.status, r.isPublic,
                  r.publicSlug, r.atsScore, r.viewCount, r.exportCount, r.createdAt, r.updatedAt)
  }

  /** `list`: the selected columns of `ListRows`. */
  function List(resumes: seq<Resume>, userId: UserId, o: ListOptions): (r: Paged<ResumeSummary>)
    requires PagingOk(o)
    ensures r.total == ListRows(resumes, userId, o).total
    ensures |r.items| == |ListRows(resumes, userId, o).items|
    ensures forall k :: 0 <= k < |r.items| ==> r.items[k] == Summarize(ListRows(resumes, userId, o).items[k])
  {
    var rows := ListRows(resumes, userId, o);
    Paged(seq(|rows.items|, k requires 0 <= k < |rows.items| => Summarize(rows.items[k])), rows.total)
  }

  /** Without status or template filters, `list`'s total is the user's live-resume count, which is
      the stored `resumeCount` whenever the counters are accurate. */
  lemma ListTotalIsLiveCount(users: map<UserId, User>, resumes: seq<Resume>, userId: UserId, o: ListOptions)
    requires PagingOk(o) && !Present(o.status) && !Present(o.template)
    requires CountsAccurate(users, resumes) && userId in users
    ensures List(resumes, userId, o).total == LiveCount(resumes, userId) == users[userId].resumeCount
  {
    Query.FilterCountsLive(resumes, userId);
  }

  /** A soft-deleted resume is on no page of its owner's list. */
  lemma DeletedNotListed(resumes: seq<Resume>, userId: UserId, o: ListOptions, id: ResumeId)
    requires PagingOk(o)
    requires id < |resumes| && !Live(resumes[id])
    ensures forall x :: x in ListRows(resumes, userId, o).items ==> x != resumes[id]
  {
  }

  /** The search text: the query trimmed and lower-cased. It is empty exactly for a blank query, and
      lower-casing it again changes nothing. */
  function SearchTerms(query: string): (terms: string)
    ensures terms == Text.Lower(Text.Trim(query))
    ensures terms == "" <==> Text.AllSpace(query)
    ensures |terms| <= |query|
    ensures Text.Lower(terms) == terms
  {
    var trimmed := Text.Trim(query);
    Text.LowerIdempotent(trimmed);
    Text.Lower(trimmed)
  }

  /** `search`'s order: newest update first for `relevance` (its default), whatever the direction;
      any other key orders as `list` does. */
  function SearchOrder(o: ListOptions): (order: Query.OrderBy)
    ensures o.sortBy.None? || o.sortBy == Some(SortByRelevance) ==> order == Query.OrderBy(Query.UpdatedAt, Query.Desc)
    ensures o.sortBy.Some? && o.sortBy != Some(SortByRelevance) ==> order == ListOrder(o)
  {
    var sortBy := if o.sortBy.Some? then o.sortBy.value else SortByRelevance;
    if sortBy == SortByRelevance then Query.OrderBy(Query.UpdatedAt, Query.Desc)
    else if sortBy == SortByTitle then Query.OrderBy(Query.Title, DirectionOf(o))
    else if sortBy == SortByCreatedAt then Query.OrderBy(Query.CreatedAt, DirectionOf(o))
    else Query.OrderBy(Query.UpdatedAt, DirectionOf(o))
  }

  /** The options a blank search hands to `list`: `relevance` (or no sort) becomes `updatedAt`. */
  function BlankSearchOptions(o: ListOptions): (lo: ListOptions)
    ensures lo == o.(sortBy := lo.sortBy)
    ensures lo.sortBy.Some? && lo.sortBy.value != SortByRelevance
    ensures o.sortBy.None? || o.sortBy == Some(SortByRelevance) ==> lo.sortBy == Some(SortByUpdatedAt)
    ensures o.sortBy.Some? && o.sortBy.value != SortByRelevance ==> lo.sortBy == o.sortBy
  {
    var sortBy := if o.sortBy.Some? then o.sortBy.value else SortByRelevance;
    o.(sortBy := Some(if sortBy == SortByRelevance then SortByUpdatedAt else sortBy))
  }

  /** The filter of a non-blank search: `list`'s filter plus the search text. */
  function SearchWhere(userId: UserId, o: ListOptions, query: string): Query.Where {
    BaseWhere(userId, o, Some(SearchTerms(query)))
  }

  /** `search`. A query that is empty after trimming behaves as `list`; otherwise every row on the
      page is a live row of the user whose title or description contains the search text. */
  function Search(resumes: seq<Resume>, userId: UserId, query: string, o: ListOptions): (r: SearchResult)
    requires PagingOk(o)
    ensures Text.AllSpace(query) ==> r == Listed(List(resumes, userId, BlankSearchOptions(o)))
    ensures !Text.AllSpace(query) ==> r.Matched?
    ensures r.Matched? ==>
      && SearchTerms(query) != ""
      && |r.matched.items| <= LimitOf(o)
      && |r.matched.items| == Query.PageLength(|Query.Filter(resumes, SearchWhere(userId, o, query))|, Offset(o), LimitOf(o))
      && Query.Sorted(r.matched.items, SearchOrder(o))
      && (forall k :: 0 <= k < |r.matched.items| ==>
            Offset(o) + k < |Query.Filter(resumes, SearchWhere(userId, o, query))| &&
            r.matched.items[k] == Query.Sort(Query.Filter(resumes, SearchWhere(userId, o, query)), SearchOrder(o))[Offset(o) + k])
      && r.matched.total == |Query.Filter(resumes, SearchWhere(userId, o, query))|
      && forall x :: x in r.matched.items ==>
           && x in resumes && x.userId == userId && Live(x)
           && Query.MatchesText(x, SearchTerms(query))
           && (Present(o.status) ==> x.status == o.status.value)
           && (Present(o.template) ==> x.templateId == o.template.value)
  {
    var terms := SearchTerms(query);
    if terms == "" then
      Listed(List(resumes, userId, BlankSearchOptions(o)))
    else
      var w := SearchWhere(userId, o, query);
      Matched(Paged(Query.FindMany(resumes, w, SearchOrder(o), Offset(o), LimitOf(o)),
                    |Query.Filter(resumes, w)|))
  }

  /** `resumeIds && resumeIds.length > 0`. */
  predicate Restricts(resumeIds: Option<seq<ResumeId>>) {
    resumeIds.Some? && |resumeIds.value| > 0
  }

  /** `bulkExport`'s filter: owner and liveness, and the id list only when it is non-empty. */
  function BulkWhere(userId: UserId, resumeIds: Option<seq<ResumeId>>): Query.Where {
    Query.Where(userId, None, None, None, if Restricts(resumeIds) then resumeIds else None)
  }

  /** The rows `bulkExport` reads: the user's live resumes, limited to `resumeIds` only when that list
      is non-empty, each once, newest update first. */
  function BulkRows(resumes: seq<Resume>, userId: UserId, resumeIds: Option<seq<ResumeId>>): (rows: seq<Resume>)
    ensures forall x :: x in rows <==>
      x in resumes && x.userId == userId && Live(x) && (Restricts(resumeIds) ==> x.id in resumeIds.value)
    ensures multiset(rows) == multiset(Query.Filter(resumes, BulkWhere(userId, resumeIds)))
    ensures forall i, j :: 0 <= i < j < |rows| ==> rows[i].updatedAt >= rows[j].updatedAt
  {
    var w := BulkWhere(userId, resumeIds);
    var o := Query.OrderBy(Query.UpdatedAt, Query.Desc);
    var matches := Query.Filter(resumes, w);
    Query.SortCorrect(matches, o);
    var rows := Query.Sort(matches, o);
    forall x ensures x in rows <==> x in matches {
      assert x in rows <==> x in multiset(rows);
      assert x in matches <==> x in multiset(matches);
    }
    rows
  }

  function BulkEntryOf(r: Resume): BulkEntry {
    BulkEntry(r.id, r.title, r.templateId, r.content, r.status, r.createdAt, r.updatedAt)
  }

  /** `bulkExport`: an envelope over `BulkRows`. It only reads the table. */
  function BulkExport(resumes: seq<Resume>, userId: UserId, resumeIds: Option<seq<ResumeId>>, now: Time): (b: BulkEnvelope)
    ensures b.version == ExportFormatVersion && b.exportedAt == now
    ensures |b.resumes| == |BulkRows(resumes, userId, resumeIds)|
    ensures forall k :: 0 <= k < |b.resumes| ==> b.resumes[k] == BulkEntryOf(BulkRows(resumes, userId, resumeIds)[k])
  {
    var rows := BulkRows(resumes, userId, resumeIds);
    BulkEnvelope(ExportFormatVersion, now, seq(|rows|, k requires 0 <= k < |rows| => BulkEntryOf(rows[k])))
  }

  /** The order in which an import payload is checked: content first, then the format version. */
  function ImportProblem(p: ImportPayload): (e: Option<Invalid>)
    ensures e == Some(MissingContent) <==>
      !(p.resume.Some? && p.resume.value.content.Some? && Truthy(p.resume.value.content.value))
    ensures e.Some? && e.value.UnsupportedVersion? <==>
      && p.resume.Some? && p.resume.value.content.Some? && Truthy(p.resume.value.content.value)
      && p.version.Some? && Truthy(p.version.value) && p.version.value != JString(ExportFormatVersion)
    ensures e.Some? && e.value.UnsupportedVersion? ==> e.value.version == p.version.value
  {
    if p.resume.None? || p.resume.value.content.None? || !Truthy(p.resume.value.content.value) then
      Some(MissingContent)
    else if p.version.Some? && Truthy(p.version.value) && p.version.value != JString(ExportFormatVersion) then
      Some(UnsupportedVersion(p.version.value))
    else
      None
  }

  // ---------------------------------------------------------------- writes

  /** `updateResumeCount`: counts the user's live rows and stores the count on the user. */
  method UpdateResumeCount(db: Store, userId: UserId)
    requires db.Valid() && userId in db.users
    modifies db
    ensures db.Valid()
    ensures db.users == old(db.users)[userId := old(db.users)[userId].(resumeCount := LiveCount(db.resumes, userId))]
    ensures db.resumes == old(db.resumes) && db.versions == old(db.versions)
  {
    var count := |Query.Filter(db.resumes, Query.Where(userId, None, None, None, None))|;
    Query.FilterCountsLive(db.resumes, userId);
    db.SetResumeCount(userId, count);
  }

  /** Inserts `row` for `userId` and recomputes that user's counter. */
  method InsertAndRecount(db: Store, userId: UserId, row: Resume) returns (stored: Resume)
    requires db.Valid() && userId in db.users && row.userId == userId && row.publicSlug == None && Live(row)
    modifies db
    ensures db.Valid() && db.versions == old(db.versions)
    ensures stored == row.(id := |old(db.resumes)|)
    ensures db.resumes == old(db.resumes) + [stored]
    ensures db.users == old(db.users)[userId := old(db.users)[userId].(resumeCount := LiveCount(db.resumes, userId))]
    ensures LiveCount(db.resumes, userId) == LiveCount(old(db.resumes), userId) + 1
    ensures old(db.CountsAccurate()) ==> db.CountsAccurate()
  {
    stored := db.CreateResume(row);
    forall u ensures LiveCount(db.resumes, u) == LiveCount(old(db.resumes), u) + (if u == userId then 1 else 0) {
      LiveCountAppend(old(db.resumes), stored, u);
    }
    UpdateResumeCount(db, userId);
    if old(db.CountsAccurate()) {
      RecountKeepsAccurate(old(db.users), old(db.resumes), db.resumes, userId);
    }
  }

  /** `create`: refused at the tier cap; otherwise a new draft row with the defaults filled in. */
  method Create(db: Store, userId: UserId, data: CreateResumeDto, now: Time) returns (r: Result<Resume>)
    requires db.Valid()
    modifies db
    ensures db.Valid() && db.versions == old(db.versions)
    ensures old(db.CountsAccurate()) ==> db.CountsAccurate()
    ensures !Subscription.CanCreateResume(old(db.users), userId) ==>
      r == Err(Forbidden(LimitReached)) && db.resumes == old(db.resumes) && db.users == old(db.users)
    ensures Subscription.CanCreateResume(old(db.users), userId) ==>
      && r.Ok?
      && db.resumes == old(db.resumes) + [r.value]
      && r.value == NewResume(|old(db.resumes)|, userId, data.title, data.description,
                              OrDefault(Some(data.templateId), DefaultTemplate), ContentOrEmpty(data.content), now)
      && db.users == old(db.users)[userId := old(db.users)[userId].(resumeCount := LiveCount(db.resumes, userId))]
      && LiveCount(db.resumes, userId) == LiveCount(old(db.resumes), userId) + 1
  {
    if !Subscription.CanCreateResume(db.users, userId) {
      return Err(Forbidden(LimitReached));
    }
    var row := NewResume(0, userId, data.title, data.description,
                         OrDefault(Some(data.templateId), DefaultTemplate), ContentOrEmpty(data.content), now);
    var stored := InsertAndRecount(db, userId, row);
    r := Ok(stored);
  }

  /** The row after an update: each field present in `u` is replaced and nothing else but the
      update stamp changes. */
  function ApplyUpdate(row: Resume, u: UpdateResumeDto, now: Time): (r: Resume)
    ensures r.title == (if u.title.Some? then u.title.value else row.title)
    ensures r.description == (if u.description.Some? then u.description else row.description)
    ensures r.templateId == (if u.templateId.Some? then u.templateId.value else row.templateId)
    ensures r.status == (if u.status.Some? then u.status.value else row.status)
    ensures r.content == (if u.content.Some? then u.content.value else row.content)
    ensures r.isPublic == (if u.isPublic.Some? then u.isPublic.value else row.isPublic)
    ensures r.updatedAt == now
    ensures r.(title := row.title, description := row.description, templateId := row.templateId,
               status := row.status, content := row.content, isPublic := row.isPublic,
               updatedAt := row.updatedAt) == row
  {
    row.(title := if u.title.Some? then u.title.value else row.title,
         description := if u.description.Some? then u.description else row.description,
         templateId := if u.templateId.Some? then u.templateId.value else row.templateId,
         status := if u.status.Some? then u.status.value else row.status,
         content := if u.content.Some? then u.content.value else row.content,
         isPublic := if u.isPublic.Some? then u.isPublic.value else row.isPublic,
         updatedAt := now)
  }

  /** An update never touches the public slug, so it can make a resume public without a slug. */
  lemma UpdateKeepsSlug(row: Resume, u: UpdateResumeDto, now: Time)
    ensures ApplyUpdate(row, u, now).publicSlug == row.publicSlug
    ensures u.isPublic == Some(true) && row.publicSlug == None ==>
      ApplyUpdate(row, u, now).isPublic && ApplyUpdate(row, u, now).publicSlug == None
  {
  }

  /** `update`. */
  method Update(db: Store, resumeId: ResumeId, userId: UserId, updates: UpdateResumeDto, now: Time)
    returns (r: Result<Resume>)
    requires db.Valid()
    requires updates.status.Some? ==> updates.status.value == "draft" || updates.status.value == "published"
    modifies db
    ensures db.Valid() && db.users == old(db.users) && db.versions == old(db.versions)
    ensures old(db.CountsAccurate()) ==> db.CountsAccurate()
    ensures !OwnedLive(old(db.resumes), resumeId, userId) ==> r == Err(NotFound) && db.resumes == old(db.resumes)
    ensures OwnedLive(old(db.resumes), resumeId, userId) ==>
      && r == Ok(ApplyUpdate(old(db.resumes)[resumeId], updates, now))
      && db.resumes == old(db.resumes)[resumeId := r.value]
  {
    var found := GetById(db.resumes, resumeId, userId);
    if found.Err? {
      return Err(found.error);
    }
    var row := ApplyUpdate(db.resumes[resumeId], updates, now);
    LiveCountKeep(db.resumes, resumeId, row);
    db.UpdateResume(row);
    r := Ok(row);
  }

  /** `delete`: marks the row deleted and recomputes the owner's counter. */
  method Delete(db: Store, resumeId: ResumeId, userId: UserId, now: Time) returns (r: Result<()>)
    requires db.Valid()
    modifies db
    ensures db.Valid() && db.versions == old(db.versions)
    ensures old(db.CountsAccurate()) ==> db.CountsAccurate()
    ensures !OwnedLive(old(db.resumes), resumeId, userId) ==>
      r == Err(NotFound) && db.resumes == old(db.resumes) && db.users == old(db.users)
    ensures OwnedLive(old(db.resumes), resumeId, userId) ==>
      && r == Ok(())
      && db.resumes == old(db.resumes)[resumeId := old(db.resumes)[resumeId].(deletedAt := Some(now), updatedAt := now)]
      && db.users == old(db.users)[userId := old(db.users)[userId].(resumeCount := LiveCount(db.resumes, userId))]
      && LiveCount(db.resumes, userId) == LiveCount(old(db.resumes), userId) - 1
      && GetById(db.resumes, resumeId, userId) == Err(NotFound)
  {
    var found := GetById(db.resumes, resumeId, userId);
    if found.Err? {
      return Err(found.error);
    }
    var row := db.resumes[resumeId].(deletedAt := Some(now), updatedAt := now);
    forall u ensures LiveCount(db.resumes[resumeId := row], u)
                     == LiveCount(db.resumes, u) - (if u == userId then 1 else 0) {
      LiveCountReplace(db.resumes, resumeId, row, u);
    }
    ghost var before := db.resumes;
    db.UpdateResume(row);
    UpdateResumeCount(db, userId);
    if old(db.CountsAccurate()) {
      RecountKeepsAccurate(old(db.users), before, db.resumes, userId);
    }
    r := Ok(());
  }

  /** `duplicate`: the ownership check runs first, then the tier cap; the copy is a fresh draft
      with the original's description, template and content and " (Copy)" after its title. */
  method Duplicate(db: Store, resumeId: ResumeId, userId: UserId, now: Time) returns (r: Result<Resume>)
    requires db.Valid()
    modifies db
    ensures db.Valid() && db.versions == old(db.versions)
    ensures old(db.CountsAccurate()) ==> db.CountsAccurate()
    ensures !OwnedLive(old(db.resumes), resumeId, userId) ==>
      r == Err(NotFound) && db.resumes == old(db.resumes) && db.users == old(db.users)
    ensures OwnedLive(old(db.resumes), resumeId, userId) && !Subscription.CanCreateResume(old(db.users), userId) ==>
      r == Err(Forbidden(LimitReached)) && db.resumes == old(db.resumes) && db.users == old(db.users)
    ensures OwnedLive(old(db.resumes), resumeId, userId) && Subscription.CanCreateResume(old(db.users), userId) ==>
      var original := old(db.resumes)[resumeId];
      && r.Ok?
      && db.resumes == old(db.resumes) + [r.value]
      && r.value.id != resumeId
      && r.value == NewResume(|old(db.resumes)|, userId, original.title + CopySuffix, original.description,
                              original.templateId, original.content, now)
      && db.users == old(db.users)[userId := old(db.users)[userId].(resumeCount := LiveCount(db.resumes, userId))]
      && LiveCount(db.resumes, userId) == LiveCount(old(db.resumes), userId) + 1
  {
    var found := GetById(db.resumes, resumeId, userId);
    if found.Err? {
      return Err(found.error);
    }
    var original := found.value;
    if !Subscription.CanCreateResume(db.users, userId) {
      return Err(Forbidden(LimitReached));
    }
    var row := NewResume(0, userId, original.title + CopySuffix, original.description,
                         original.templateId, original.content, now);
    var stored := InsertAndRecount(db, userId, row);
    r := Ok(stored);
  }

  /** `export`: counts one more export on the row and returns the export envelope. */
  method Export(db: Store, resumeId: ResumeId, userId: UserId, now: Time) returns (r: Result<ExportEnvelope>)
    requires db.Valid()
    modifies db
    ensures db.Valid() && db.users == old(db.users) && db.versions == old(db.versions)
    ensures old(db.CountsAccurate()) ==> db.CountsAccurate()
    ensures !OwnedLive(old(db.resumes), resumeId, userId) ==> r == Err(NotFound) && db.resumes == old(db.resumes)
    ensures OwnedLive(old(db.resumes), resumeId, userId) ==>
      var row := old(db.resumes)[resumeId];
      && r == Ok(ExportEnvelope(ExportFormatVersion, now,
                                ExportedResume(row.title, row.templateId, row.content, row.status)))
      && db.resumes == old(db.resumes)[resumeId := row.(exportCount := row.exportCount + 1,
                                                        lastExportedAt := Some(now), updatedAt := now)]
  {
    var found := GetById(db.resumes, resumeId, userId);
    if found.Err? {
      return Err(found.error);
    }
    var resume := found.value;
    var row := resume.(exportCount := resume.exportCount + 1, lastExportedAt := Some(now), updatedAt := now);
    LiveCountKeep(db.resumes, resumeId, row);
    db.UpdateResume(row);
    r := Ok(ExportEnvelope(ExportFormatVersion, now,
                           ExportedResume(resume.title, resume.templateId, resume.content, resume.status)));
  }

  /** `import`: payload checks first, the tier cap second, then a new draft row. */
  method Import(db: Store, userId: UserId, data: ImportPayload, now: Time) returns (r: Result<Resume>)
    requires db.Valid()
    modifies db
    ensures db.Valid() && db.versions == old(db.versions)
    ensures old(db.CountsAccurate()) ==> db.CountsAccurate()
    ensures ImportProblem(data).Some? ==>
      r == Err(BadRequest(ImportProblem(data).value)) && db.resumes == old(db.resumes) && db.users == old(db.users)
    ensures ImportProblem(data).None? && !Subscription.CanCreateResume(old(db.users), userId) ==>
      r == Err(Forbidden(LimitReached)) && db.resumes == old(db.resumes) && db.users == old(db.users)
    ensures ImportProblem(data).None? && Subscription.CanCreateResume(old(db.users), userId) ==>
      && r.Ok?
      && db.resumes == old(db.resumes) + [r.value]
      && r.value == NewResume(|old(db.resumes)|, userId,
                              OrDefault(data.resume.value.title, ImportedTitle), None,
                              OrDefault(data.resume.value.templateId, DefaultTemplate),
                              data.resume.value.content.value, now)
      && db.users == old(db.users)[userId := old(db.users)[userId].(resumeCount := LiveCount(db.resumes, userId))]
      && LiveCount(db.resumes, userId) == LiveCount(old(db.resumes), userId) + 1
  {
    var problem := ImportProblem(data);
    if problem.Some? {
      return Err(BadRequest(problem.value));
    }
    if !Subscription.CanCreateResume(db.users, userId) {
      return Err(Forbidden(LimitReached));
    }
    var payload := data.resume.value;
    var row := NewResume(0, userId, OrDefault(payload.title, ImportedTitle), None,
                         OrDefault(payload.templateId, DefaultTemplate), payload.content.value, now);
    var stored := InsertAndRecount(db, userId, row);
    r := Ok(stored);
  }
}
