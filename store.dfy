/** The database the services reach through Prisma, held in memory: the user
    table keyed by the identity provider's user id, and the resume and version
    tables, which only ever grow (deletion is a soft-delete mark) and whose row
    id is the row's position. */
module Database {
  import opened Schema

  class Store {
    var users: map<UserId, User>
    var resumes: seq<Resume>
    var versions: seq<ResumeVersion>

    ghost predicate Valid()
      reads this
    {
      TablesValid(users, resumes, versions)
    }

    ghost predicate CountsAccurate()
      reads this
    {
      Schema.CountsAccurate(users, resumes)
    }

    /** A database holding the given user rows and no resumes yet. */
    constructor (users: map<UserId, User>)
      requires forall u :: u in users ==> users[u].id == u
      ensures Valid()
      ensures this.users == users && resumes == [] && versions == []
    {
      this.users := users;
      resumes := [];
      versions := [];
    }

    /** `prisma.resume.create`: inserts `data` under the next row id and returns the stored row. */
    method CreateResume(data: Resume) returns (row: Resume)
      requires Valid()
      requires data.userId in users && data.publicSlug == None
      modifies this
      ensures Valid()
      ensures row == data.(id := |old(resumes)|)
      ensures resumes == old(resumes) + [row]
      ensures users == old(users) && versions == old(versions)
    {
      row := data.(id := |resumes|);
      resumes := resumes + [row];
    }

    /** `prisma.resume.update` on row `row.id`: overwrites the row. A new public slug must be unused. */
    method UpdateResume(row: Resume)
      requires Valid()
      requires row.id < |resumes| && row.userId == resumes[row.id].userId
      requires row.publicSlug == None || row.publicSlug == resumes[row.id].publicSlug
               || SlugUnused(resumes, row.publicSlug.value)
      modifies this
      ensures Valid()
      ensures resumes == old(resumes)[row.id := row]
      ensures users == old(users) && versions == old(versions)
    {
      resumes := resumes[row.id := row];
    }

    /** `prisma.user.update` of the `resumeCount` column. */
    method SetResumeCount(userId: UserId, count: int)
      requires Valid() && userId in users
      modifies this
      ensures Valid()
      ensures users == old(users)[userId := old(users)[userId].(resumeCount := count)]
      ensures resumes == old(resumes) && versions == old(versions)
    {
      users := users[userId := users[userId].(resumeCount := count)];
    }

    /** `prisma.resumeVersion.create`: inserts `data` under the next version id. */
    method CreateVersion(data: ResumeVersion) returns (row: ResumeVersion)
      requires Valid()
      requires data.resumeId < |resumes| && data.userId in users && data.createdBy in users
      requires data.versionNumber == VersionCount(versions, data.resumeId) + 1
      modifies this
      ensures Valid()
      ensures row == data.(id := |old(versions)|)
      ensures versions == old(versions) + [row]
      ensures users == old(users) && resumes == old(resumes)
    {
      row := data.(id := |versions|);
      ghost var before := versions;
      versions := versions + [row];
      forall i | 0 <= i < |versions|
        ensures versions[i].versionNumber == VersionCount(versions[..i], versions[i].resumeId) + 1
      {
        if i < |before| {
          assert versions[..i] == before[..i];
        } else {
          assert versions[..i] == before;
        }
      }
    }
  }
}
