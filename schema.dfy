/** The three tables the services read and write (User, Resume, ResumeVersion),
    the error kinds they raise, and the facts about the tables that every
    operation keeps. */
module Schema {

  datatype Option<T> = None | Some(value: T)

  /** JSON values as a client can send them. Numbers are integers here. */
  datatype Json =
    | JNull
    | JBool(b: bool)
    | JNumber(n: int)
    | JString(s: string)
    | JArray(items: seq<Json>)
    | JObject(members: seq<(string, Json)>)

  const EmptyObject: Json := JObject([])

  /** JavaScript truthiness: `null`, `false`, `0` and `""` are falsy; arrays and objects are not. */
  predicate Truthy(j: Json) {
    match j
    case JNull => false
    case JBool(b) => b
    case JNumber(n) => n != 0
    case JString(s) => s != ""
    case _ => true
  }

  /** JavaScript truthiness of an optional string (`undefined`, `null` and `""` are falsy). */
  predicate Present(s: Option<string>) {
    s.Some? && s.value != ""
  }

  /** Milliseconds since the epoch; every clock read is a parameter of the operation. */
  type Time = int
  type UserId = string
  /** Row ids are assigned by the store in insertion order. */
  type ResumeId = nat
  type VersionId = nat

  /** Why access was refused: the tier cap, or an ownership check ("Access denied"). */
  datatype Denial = LimitReached | AccessDenied
  /** Why an import payload was rejected. */
  datatype Invalid = MissingContent | UnsupportedVersion(version: Json)

  /** NotFoundException, ForbiddenException and BadRequestException. */
  datatype Error = NotFound | Forbidden(denial: Denial) | BadRequest(problem: Invalid)

  datatype Result<T> = Ok(value: T) | Err(error: Error)

  datatype User = User(id: UserId, subscriptionTier: string, resumeCount: int)

  datatype Resume = Resume(
    id: ResumeId,
    userId: UserId,
    title: string,
    description: Option<string>,
    templateId: string,
    content: Json,
    status: string,
    isPublic: bool,
    publicSlug: Option<string>,
    atsScore: Option<int>,
    viewCount: int,
    exportCount: int,
    lastExportedAt: Option<Time>,
    createdAt: Time,
    updatedAt: Time,
    deletedAt: Option<Time>)

  datatype ResumeVersion = ResumeVersion(
    id: VersionId,
    resumeId: ResumeId,
    userId: UserId,
    versionNumber: int,
    versionName: Option<string>,
    content: Json,
    templateId: string,
    changesSummary: Option<string>,
    createdBy: UserId,
    createdAt: Time)

  /** A row the database inserts: the given columns plus the column defaults. */
  function NewResume(id: ResumeId, userId: UserId, title: string, description: Option<string>,
                     templateId: string, content: Json, now: Time): (r: Resume)
    ensures r.id == id && r.userId == userId && r.title == title && r.description == description
    ensures r.templateId == templateId && r.content == content
    ensures r.status == "draft" && !r.isPublic && r.publicSlug == None && r.atsScore == None
    ensures r.viewCount == 0 && r.exportCount == 0 && r.lastExportedAt == None
    ensures r.createdAt == now && r.updatedAt == now && r.deletedAt == None
  {
    Resume(id, userId, title, description, templateId, content, "draft",
           false, None, None, 0, 0, None, now, now, None)
  }

  predicate Live(r: Resume) {
    r.deletedAt.None?
  }

  /** The gate every read path applies: the row exists, belongs to `userId` and is not soft-deleted. */
  predicate OwnedLive(resumes: seq<Resume>, id: ResumeId, userId: UserId) {
    id < |resumes| && resumes[id].userId == userId && Live(resumes[id])
  }

  predicate CountsFor(r: Resume, userId: UserId) {
    r.userId == userId && Live(r)
  }

  /** The number of `userId`'s resumes that are not soft-deleted. */
  function LiveCount(resumes: seq<Resume>, userId: UserId): (n: nat)
    ensures n <= |resumes|
  {
    if resumes == [] then 0
    else LiveCount(resumes[..|resumes| - 1], userId)
         + (if CountsFor(resumes[|resumes| - 1], userId) then 1 else 0)
  }

  lemma LiveCountAppend(resumes: seq<Resume>, r: Resume, userId: UserId)
    ensures LiveCount(resumes + [r], userId)
            == LiveCount(resumes, userId) + (if CountsFor(r, userId) then 1 else 0)
  {
    assert (resumes + [r])[..|resumes|] == resumes;
  }

  /** Overwriting one row changes the count by what that row contributes before and after. */
  lemma {:induction false} LiveCountReplace(resumes: seq<Resume>, i: nat, r: Resume, userId: UserId)
    requires i < |resumes|
    ensures LiveCount(resumes[i := r], userId)
            == LiveCount(resumes, userId)
               - (if CountsFor(resumes[i], userId) then 1 else 0)
               + (if CountsFor(r, userId) then 1 else 0)
  {
    var n := |resumes|;
    var updated := resumes[i := r];
    if i == n - 1 {
      assert updated[..n - 1] == resumes[..n - 1];
    } else {
      assert updated[..n - 1] == resumes[..n - 1][i := r];
      LiveCountReplace(resumes[..n - 1], i, r, userId);
    }
  }

  /** A row write that keeps the owner and the deletion mark leaves every count unchanged. */
  lemma LiveCountKeep(resumes: seq<Resume>, i: nat, r: Resume)
    requires i < |resumes|
    requires r.userId == resumes[i].userId && r.deletedAt == resumes[i].deletedAt
    ensures forall u :: LiveCount(resumes[i := r], u) == LiveCount(resumes, u)
  {
    forall u ensures LiveCount(resumes[i := r], u) == LiveCount(resumes, u) {
      LiveCountReplace(resumes, i, r, u);
    }
  }

  /** The number of versions already recorded for `resumeId`. */
  function VersionCount(versions: seq<ResumeVersion>, resumeId: ResumeId): (n: nat)
    ensures n <= |versions|
  {
    if versions == [] then 0
    else VersionCount(versions[..|versions| - 1], resumeId)
         + (if versions[|versions| - 1].resumeId == resumeId then 1 else 0)
  }

  /** Every resume's versions are numbered 1, 2, 3, ... in the order they were created. */
  ghost predicate NumberedInOrder(versions: seq<ResumeVersion>) {
    forall i :: 0 <= i < |versions| ==>
      versions[i].versionNumber == VersionCount(versions[..i], versions[i].resumeId) + 1
  }

  ghost predicate SlugsUnique(resumes: seq<Resume>) {
    forall i, j :: 0 <= i < |resumes| && 0 <= j < |resumes| && i != j && resumes[i].publicSlug.Some? ==>
      resumes[i].publicSlug != resumes[j].publicSlug
  }

  /** `slug` is not the public slug of any row. */
  predicate SlugUnused(resumes: seq<Resume>, slug: string) {
    forall i :: 0 <= i < |resumes| ==> resumes[i].publicSlug != Some(slug)
  }

  /** What the database guarantees: keys, foreign keys, the unique slug, and the version numbering
      that the version service maintains. */
  ghost predicate TablesValid(users: map<UserId, User>, resumes: seq<Resume>, versions: seq<ResumeVersion>) {
    && (forall u :: u in users ==> users[u].id == u)
    && (forall i :: 0 <= i < |resumes| ==> resumes[i].id == i && resumes[i].userId in users)
    && SlugsUnique(resumes)
    && (forall i :: 0 <= i < |versions| ==>
          && versions[i].id == i
          && versions[i].resumeId < |resumes|
          && versions[i].userId in users
          && versions[i].createdBy in users)
    && NumberedInOrder(versions)
  }

  /** The denormalised counter agrees with the table for every user. */
  ghost predicate CountsAccurate(users: map<UserId, User>, resumes: seq<Resume>) {
    forall u :: u in users ==> users[u].resumeCount == LiveCount(resumes, u)
  }

  /** Recomputing one user's counter after a change that only affected that user's rows keeps
      every counter accurate. */
  lemma RecountKeepsAccurate(users: map<UserId, User>, before: seq<Resume>, after: seq<Resume>, userId: UserId)
    requires CountsAccurate(users, before)
    requires userId in users
    requires forall u :: u != userId ==> LiveCount(after, u) == LiveCount(before, u)
    ensures CountsAccurate(users[userId := users[userId].(resumeCount := LiveCount(after, userId))], after)
  {
  }
}
