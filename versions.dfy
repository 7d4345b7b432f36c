/** The version service: numbered snapshots of a resume's content and template,
    listed newest first, and restored onto the resume on request. Every
    operation first checks that the caller owns the resume and that it is not
    soft-deleted. */
module Versions {
  import opened Schema
  import opened Database

  /** The body of a snapshot request. */
  datatype CreateVersionDto = CreateVersionDto(versionName: Option<string>, changesSummary: Option<string>)

  /** `verifyResumeOwnership`: "Access denied" unless the caller owns the live resume. */
  function VerifyResumeOwnership(resumes: seq<Resume>, resumeId: ResumeId, userId: UserId): (r: Result<()>)
    ensures r.Ok? <==> OwnedLive(resumes, resumeId, userId)
    ensures r.Err? ==> r.error == Forbidden(AccessDenied)
  {
    if OwnedLive(resumes, resumeId, userId) then Ok(()) else Err(Forbidden(AccessDenied))
  }

  /** The versions of `resumeId`, in the order they were recorded. */
  function VersionsOf(versions: seq<ResumeVersion>, resumeId: ResumeId): (s: seq<ResumeVersion>)
    ensures forall v :: v in s <==> v in versions && v.resumeId == resumeId
  {
    if versions == [] then []
    else
      var last := versions[|versions| - 1];
      assert versions == versions[..|versions| - 1] + [last];
      VersionsOf(versions[..|versions| - 1], resumeId) + (if last.resumeId == resumeId then [last] else [])
  }

  /** Under the numbering invariant a resume's versions, in recording order, are numbered 1, 2, 3, ...
      and there are as many of them as the count says. */
  lemma {:induction false} VersionsOfNumbered(versions: seq<ResumeVersion>, resumeId: ResumeId)
    requires NumberedInOrder(versions)
    ensures |VersionsOf(versions, resumeId)| == VersionCount(versions, resumeId)
    ensures forall k :: 0 <= k < |VersionsOf(versions, resumeId)| ==>
      VersionsOf(versions, resumeId)[k].versionNumber == k + 1
  {
    if versions != [] {
      var n := |versions|;
      var init := versions[..n - 1];
      forall i | 0 <= i < |init|
        ensures init[i].versionNumber == VersionCount(init[..i], init[i].resumeId) + 1
      {
        assert init[..i] == versions[..i];
      }
      VersionsOfNumbered(init, resumeId);
      assert versions[..n - 1] == init;
    }
  }

  /** `list`: the resume's versions, highest version number first. */
  function List(resumes: seq<Resume>, versions: seq<ResumeVersion>, resumeId: ResumeId, userId: UserId)
    : (r: Result<seq<ResumeVersion>>)
    requires NumberedInOrder(versions)
    ensures r.Err? <==> !OwnedLive(resumes, resumeId, userId)
    ensures r.Err? ==> r.error == Forbidden(AccessDenied)
    ensures r.Ok? ==> forall v :: v in r.value <==> v in versions && v.resumeId == resumeId
    ensures r.Ok? ==> |r.value| == VersionCount(versions, resumeId)
    ensures r.Ok? ==> forall k :: 0 <= k < |r.value| ==> r.value[k].versionNumber == |r.value| - k
    ensures r.Ok? ==> forall i, j :: 0 <= i < j < |r.value| ==> r.value[i].versionNumber > r.value[j].versionNumber
  {
    if !OwnedLive(resumes, resumeId, userId) then Err(Forbidden(AccessDenied))
    else
      var mine := VersionsOf(versions, resumeId);
      VersionsOfNumbered(versions, resumeId);
      var newestFirst := seq(|mine|, k requires 0 <= k < |mine| => mine[|mine| - 1 - k]);
      forall v ensures v in newestFirst <==> v in mine {
        if v in mine {
          var j :| 0 <= j < |mine| && mine[j] == v;
          assert newestFirst[|mine| - 1 - j] == v;
        }
      }
      Ok(newestFirst)
  }

  /** `(latestVersion?.versionNumber || 0) + 1`, where the latest version is the first one `list` returns. */
  function NextNumber(newestFirst: seq<ResumeVersion>): (n: int)
    ensures newestFirst == [] ==> n == 1
    ensures newestFirst != [] ==> n == newestFirst[0].versionNumber + 1
  {
    if newestFirst != [] && newestFirst[0].versionNumber != 0 then newestFirst[0].versionNumber + 1 else 1
  }

  /** The next number is one past the number of versions already recorded: 1 for the first snapshot. */
  lemma NextNumberCounts(resumes: seq<Resume>, versions: seq<ResumeVersion>, resumeId: ResumeId, userId: UserId)
    requires NumberedInOrder(versions) && OwnedLive(resumes, resumeId, userId)
    ensures NextNumber(List(resumes, versions, resumeId, userId).value) == VersionCount(versions, resumeId) + 1
  {
  }

  /** `getById`: the ownership check first, then the version must belong to this resume. */
  function GetById(resumes: seq<Resume>, versions: seq<ResumeVersion>,
                   versionId: VersionId, resumeId: ResumeId, userId: UserId): (r: Result<ResumeVersion>)
    ensures !OwnedLive(resumes, resumeId, userId) ==> r == Err(Forbidden(AccessDenied))
    ensures OwnedLive(resumes, resumeId, userId) ==>
      (r.Ok? <==> versionId < |versions| && versions[versionId].resumeId == resumeId)
    ensures r.Ok? ==> r.value == versions[versionId]
    ensures OwnedLive(resumes, resumeId, userId) && r.Err? ==> r.error == NotFound
  {
    if !OwnedLive(resumes, resumeId, userId) then Err(Forbidden(AccessDenied))
    else if versionId < |versions| && versions[versionId].resumeId == resumeId then Ok(versions[versionId])
    else Err(NotFound)
  }

  /** `create`: snapshots the resume's current content and template under the next version number.
      The "Resume not found" branch is unreachable: the ownership check has already found the row. */
  method Create(db: Store, resumeId: ResumeId, userId: UserId, data: CreateVersionDto, now: Time)
    returns (r: Result<ResumeVersion>)
    requires db.Valid()
    modifies db
    ensures db.Valid() && db.users == old(db.users) && db.resumes == old(db.resumes)
    ensures db.CountsAccurate() == old(db.CountsAccurate())
    ensures r.Err? <==> !OwnedLive(old(db.resumes), resumeId, userId)
    ensures r.Err? ==> r.error == Forbidden(AccessDenied) && db.versions == old(db.versions)
    ensures r.Ok? ==>
      var resume := old(db.resumes)[resumeId];
      && db.versions == old(db.versions) + [r.value]
      && r.value == ResumeVersion(|old(db.versions)|, resumeId, userId,
                                  VersionCount(old(db.versions), resumeId) + 1,
                                  data.versionName, resume.content, resume.templateId,
                                  data.changesSummary, userId, now)
  {
    var owned := VerifyResumeOwnership(db.resumes, resumeId, userId);
    if owned.Err? {
      return Err(owned.error);
    }
    var resume := db.resumes[resumeId];
    var newestFirst := List(db.resumes, db.versions, resumeId, userId).value;
    NextNumberCounts(db.resumes, db.versions, resumeId, userId);
    var versionNumber := NextNumber(newestFirst);
    var row := db.CreateVersion(ResumeVersion(0, resumeId, userId, versionNumber, data.versionName,
                                              resume.content, resume.templateId, data.changesSummary,
                                              userId, now));
    r := Ok(row);
  }

  /** `restore`: copies the version's content and template back onto the resume. No snapshot of the
      content it replaces is taken. */
  method Restore(db: Store, versionId: VersionId, resumeId: ResumeId, userId: UserId, now: Time)
    returns (r: Result<Resume>)
    requires db.Valid()
    modifies db
    ensures db.Valid() && db.users == old(db.users) && db.versions == old(db.versions)
    ensures old(db.CountsAccurate()) ==> db.CountsAccurate()
    ensures r.Err? ==> db.resumes == old(db.resumes)
    ensures r.Err? <==> GetById(old(db.resumes), old(db.versions), versionId, resumeId, userId).Err?
    ensures r.Err? ==> r.error == GetById(old(db.resumes), old(db.versions), versionId, resumeId, userId).error
    ensures r.Ok? ==>
      var version := old(db.versions)[versionId];
      && r.value == old(db.resumes)[resumeId].(content := version.content, templateId := version.templateId,
                                               updatedAt := now)
      && db.resumes == old(db.resumes)[resumeId := r.value]
  {
    var found := GetById(db.resumes, db.versions, versionId, resumeId, userId);
    if found.Err? {
      return Err(found.error);
    }
    var version := found.value;
    var row := db.resumes[resumeId].(content := version.content, templateId := version.templateId, updatedAt := now);
    LiveCountKeep(db.resumes, resumeId, row);
    db.UpdateResume(row);
    r := Ok(row);
  }
}
