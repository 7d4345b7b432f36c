/** The sharing service: publishing a resume under a random public slug,
    withdrawing it, serving the public copy (which counts a view), and the
    owner's view and export counters. */
module Sharing {
  import opened Schema
  import opened Database

  /** What `share` answers with. */
  datatype ShareLink = ShareLink(slug: string, url: string, isPublic: bool)

  /** What `getPublicResume` answers with. */
  datatype PublicResume = PublicResume(
    id: ResumeId,
    title: string,
    templateId: string,
    content: Json,
    viewCount: int,
    createdAt: Time,
    updatedAt: Time)

  /** What `getAnalytics` answers with. */
  datatype Analytics = Analytics(
    resumeId: ResumeId,
    viewCount: int,
    exportCount: int,
    lastViewedAt: Option<Time>,
    lastExportedAt: Option<Time>)

  /** The length of the slugs `nanoid(12)` draws. */
  const SlugLength: nat := 12

  /** `verifyOwnership`: the caller's live resume, or "Access denied". */
  function VerifyOwnership(resumes: seq<Resume>, resumeId: ResumeId, userId: UserId): (r: Result<Resume>)
    ensures r.Ok? <==> OwnedLive(resumes, resumeId, userId)
    ensures r.Ok? ==> r.value == resumes[resumeId]
    ensures r.Err? ==> r.error == Forbidden(AccessDenied)
  {
    if OwnedLive(resumes, resumeId, userId) then Ok(resumes[resumeId]) else Err(Forbidden(AccessDenied))
  }

  /** `resume.isPublic && resume.publicSlug`: the resume is already shared. */
  predicate IsShared(r: Resume): (b: bool)
    ensures b <==> r.isPublic && r.publicSlug.Some? && |r.publicSlug.value| > 0
  {
    r.isPublic && Present(r.publicSlug)
  }

  /** The link `share` builds from the front-end base URL. */
  function LinkTo(frontendUrl: string, slug: string): (link: ShareLink)
    ensures link.slug == slug && link.isPublic
    ensures |link.url| == |frontendUrl| + |"/public/"| + |slug|
    ensures link.url[..|frontendUrl|] == frontendUrl && link.url[|link.url| - |slug|..] == slug
    ensures link.url[|frontendUrl|..|frontendUrl| + |"/public/"|] == "/public/"
  {
    ShareLink(slug, frontendUrl + "/public/" + slug, true)
  }

  /** The row after `share`: unchanged when already shared, otherwise public under `freshSlug`. */
  function Shared(row: Resume, freshSlug: string, now: Time): (r: Resume)
    ensures IsShared(row) ==> r == row
    ensures !IsShared(row) ==> r == row.(isPublic := true, publicSlug := Some(freshSlug), updatedAt := now)
    ensures |freshSlug| > 0 ==> IsShared(r)
  {
    if IsShared(row) then row else row.(isPublic := true, publicSlug := Some(freshSlug), updatedAt := now)
  }

  /** A shared live row is exactly what a public reader finds under its slug. */
  lemma SharedLiveIffPublished(r: Resume)
    ensures IsShared(r) && Live(r) <==> r.publicSlug.Some? && r.publicSlug.value != "" && Published(r, r.publicSlug.value)
  {
  }

  /** Sharing twice returns the slug of the first share and the second share changes nothing. */
  lemma ShareIdempotent(row: Resume, slug1: string, slug2: string, now1: Time, now2: Time)
    requires |slug1| > 0
    ensures Shared(Shared(row, slug1, now1), slug2, now2) == Shared(row, slug1, now1)
  {
  }

  /** The row after `unshare`. */
  function Unshared(row: Resume, now: Time): (r: Resume)
    ensures !IsShared(r) && !r.isPublic && r.publicSlug == None
    ensures r.(isPublic := row.isPublic, publicSlug := row.publicSlug, updatedAt := row.updatedAt) == row
  {
    row.(isPublic := false, publicSlug := None, updatedAt := now)
  }

  /** After `unshare`, the next `share` draws a new slug. */
  lemma ShareAfterUnshare(row: Resume, now1: Time, slug: string, now2: Time)
    ensures Shared(Unshared(row, now1), slug, now2).publicSlug == Some(slug)
  {
  }

  /** `share`. `freshSlug` stands for the value `nanoid(12)` draws; it is only used when the resume
      is not shared yet. */
  method Share(db: Store, resumeId: ResumeId, userId: UserId, freshSlug: string, frontendUrl: string, now: Time)
    returns (r: Result<ShareLink>)
    requires db.Valid()
    requires |freshSlug| == SlugLength && SlugUnused(db.resumes, freshSlug)
    modifies db
    ensures db.Valid() && db.users == old(db.users) && db.versions == old(db.versions)
    ensures old(db.CountsAccurate()) ==> db.CountsAccurate()
    ensures !OwnedLive(old(db.resumes), resumeId, userId) ==>
      r == Err(Forbidden(AccessDenied)) && db.resumes == old(db.resumes)
    ensures OwnedLive(old(db.resumes), resumeId, userId) && IsShared(old(db.resumes)[resumeId]) ==>
      r == Ok(LinkTo(frontendUrl, old(db.resumes)[resumeId].publicSlug.value)) && db.resumes == old(db.resumes)
    ensures OwnedLive(old(db.resumes), resumeId, userId) && !IsShared(old(db.resumes)[resumeId]) ==>
      r == Ok(LinkTo(frontendUrl, freshSlug))
      && db.resumes == old(db.resumes)[resumeId := Shared(old(db.resumes)[resumeId], freshSlug, now)]
    ensures r.Ok? ==> IsShared(db.resumes[resumeId]) && db.resumes[resumeId].publicSlug == Some(r.value.slug)
  {
    var found := VerifyOwnership(db.resumes, resumeId, userId);
    if found.Err? {
      return Err(found.error);
    }
    var resume := found.value;
    if IsShared(resume) {
      return Ok(LinkTo(frontendUrl, resume.publicSlug.value));
    }
    var row := Shared(resume, freshSlug, now);
    LiveCountKeep(db.resumes, resumeId, row);
    db.UpdateResume(row);
    r := Ok(LinkTo(frontendUrl, freshSlug));
  }

  /** `unshare`. */
  method Unshare(db: Store, resumeId: ResumeId, userId: UserId, now: Time) returns (r: Result<()>)
    requires db.Valid()
    modifies db
    ensures db.Valid() && db.users == old(db.users) && db.versions == old(db.versions)
    ensures old(db.CountsAccurate()) ==> db.CountsAccurate()
    ensures !OwnedLive(old(db.resumes), resumeId, userId) ==>
      r == Err(Forbidden(AccessDenied)) && db.resumes == old(db.resumes)
    ensures OwnedLive(old(db.resumes), resumeId, userId) ==>
      r == Ok(()) && db.resumes == old(db.resumes)[resumeId := Unshared(old(db.resumes)[resumeId], now)]
  {
    var found := VerifyOwnership(db.resumes, resumeId, userId);
    if found.Err? {
      return Err(found.error);
    }
    var row := Unshared(found.value, now);
    LiveCountKeep(db.resumes, resumeId, row);
    db.UpdateResume(row);
    r := Ok(());
  }

  /** The row a public reader may see under `slug`. */
  predicate Published(r: Resume, slug: string): (b: bool)
    ensures b && slug != "" ==> IsShared(r) && Live(r)
    ensures b ==> r.publicSlug == Some(slug)
  {
    r.publicSlug == Some(slug) && r.isPublic && Live(r)
  }

  /** `findFirst` on slug, `isPublic` and liveness: the first matching row in storage order. */
  function FindPublic(resumes: seq<Resume>, slug: string): (found: Option<ResumeId>)
    ensures found.None? <==> forall i :: 0 <= i < |resumes| ==> !Published(resumes[i], slug)
    ensures found.Some? ==> found.value < |resumes| && Published(resumes[found.value], slug)
    ensures found.Some? ==> forall i :: 0 <= i < found.value ==> !Published(resumes[i], slug)
  {
    if resumes == [] then None
    else if Published(resumes[0], slug) then Some(0)
    else
      var rest := FindPublic(resumes[1..], slug);
      assert forall i :: 1 <= i < |resumes| ==> resumes[i] == resumes[1..][i - 1];
      if rest.None? then None else Some(rest.value + 1)
  }

  /** `getPublicResume`: needs no owner; counts one view and answers with the count after it. */
  method GetPublicResume(db: Store, slug: string, now: Time) returns (r: Result<PublicResume>)
    requires db.Valid()
    modifies db
    ensures db.Valid() && db.users == old(db.users) && db.versions == old(db.versions)
    ensures old(db.CountsAccurate()) ==> db.CountsAccurate()
    ensures r.Err? <==> forall i :: 0 <= i < |old(db.resumes)| ==> !Published(old(db.resumes)[i], slug)
    ensures r.Err? ==> r.error == NotFound && db.resumes == old(db.resumes)
    ensures r.Ok? ==>
      var i := r.value.id;
      && i < |old(db.resumes)|
      && var row := old(db.resumes)[i];
      && Published(row, slug)
      && r.value == PublicResume(i, row.title, row.templateId, row.content, row.viewCount + 1,
                                 row.createdAt, row.updatedAt)
      && db.resumes == old(db.resumes)[i := row.(viewCount := row.viewCount + 1, updatedAt := now)]
    ensures r.Ok? ==> forall j :: 0 <= j < |old(db.resumes)| && Published(old(db.resumes)[j], slug) ==> j == r.value.id
  {
    var found := FindPublic(db.resumes, slug);
    if found.None? {
      return Err(NotFound);
    }
    var i := found.value;
    var resume := db.resumes[i];
    var row := resume.(viewCount := resume.viewCount + 1, updatedAt := now);
    LiveCountKeep(db.resumes, i, row);
    db.UpdateResume(row);
    r := Ok(PublicResume(i, resume.title, resume.templateId, resume.content, resume.viewCount + 1,
                         resume.createdAt, resume.updatedAt));
  }

  /** `getAnalytics`: reads the counters; views carry no timestamp, so `lastViewedAt` is always empty. */
  function GetAnalytics(resumes: seq<Resume>, resumeId: ResumeId, userId: UserId): (r: Result<Analytics>)
    ensures r.Ok? <==> OwnedLive(resumes, resumeId, userId)
    ensures r.Err? ==> r.error == Forbidden(AccessDenied)
    ensures r.Ok? ==>
      && r.value.resumeId == resumes[resumeId].id
      && r.value.viewCount == resumes[resumeId].viewCount
      && r.value.exportCount == resumes[resumeId].exportCount
      && r.value.lastViewedAt == None
      && r.value.lastExportedAt == resumes[resumeId].lastExportedAt
  {
    var found := VerifyOwnership(resumes, resumeId, userId);
    if found.Err? then Err(found.error)
    else
      var resume := found.value;
      Ok(Analytics(resume.id, resume.viewCount, resume.exportCount, None, resume.lastExportedAt))
  }
}
