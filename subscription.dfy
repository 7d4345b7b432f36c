/** The subscription policy consulted before a resume is created
    (`checkSubscriptionLimits` with limit type `max_resumes`). */
module Subscription {
  import opened Schema

  predicate KnownTier(tier: string) {
    tier == "free" || tier == "basic" || tier == "pro" || tier == "enterprise"
  }

  const FreeMaxResumes: nat := 3

  /** The `max_resumes` limit of a tier; a tier the table does not list gets the free tier's limit. */
  function MaxResumes(tier: string): (limit: nat)
    ensures !KnownTier(tier) ==> limit == FreeMaxResumes
    ensures FreeMaxResumes <= limit
  {
    if tier == "basic" then 10
    else if tier == "pro" then 50
    else if tier == "enterprise" then 999999
    else FreeMaxResumes
  }

  /** The table itself, and that a higher tier never allows fewer resumes. */
  lemma TierTable()
    ensures MaxResumes("free") == 3 && MaxResumes("basic") == 10
    ensures MaxResumes("pro") == 50 && MaxResumes("enterprise") == 999999
    ensures MaxResumes("free") < MaxResumes("basic") < MaxResumes("pro") < MaxResumes("enterprise")
  {
  }

  /** Whether the user may create one more resume. The check reads the stored `resumeCount`
      column, not a live count of the resume table; an unknown user may not. */
  function CanCreateResume(users: map<UserId, User>, userId: UserId): (ok: bool)
    ensures ok <==> userId in users && users[userId].resumeCount < MaxResumes(users[userId].subscriptionTier)
  {
    if userId !in users then false
    else
      var user := users[userId];
      user.resumeCount < MaxResumes(user.subscriptionTier)
  }

  /** With an accurate counter, a user at the cap has exactly as many live resumes as the cap allows
      (or more), so creation is refused exactly when the live count has reached the tier's limit. */
  lemma CanCreateIffBelowLiveLimit(users: map<UserId, User>, resumes: seq<Resume>, userId: UserId)
    requires CountsAccurate(users, resumes)
    requires userId in users
    ensures CanCreateResume(users, userId)
            <==> LiveCount(resumes, userId) < MaxResumes(users[userId].subscriptionTier)
  {
  }
}
