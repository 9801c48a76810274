/**
 * The account rules of services/authService.ts over an in-memory stand-in
 * for the hosted database: a table of profile rows keyed by user id, a table
 * of subscription requests keyed by request id, and the signed-in user.
 * Each operation reads a row and then, depending on what it read, writes one
 * field back.
 */
module Auth {
  import opened Common

  datatype Feature = PresentationFeature | SheetFeature

  /** `UserProfile`: one row of the profile table. */
  datatype Profile = Profile(
    id: string,
    email: Option<string>,
    fullName: Option<string>,
    credits: int,
    isSubscribed: bool,
    isAdmin: bool,
    subscriptionPlan: Option<string>,
    subscriptionEndDate: Option<string>,
    trialUsedPresentation: bool,
    trialUsedSheet: bool)

  datatype RequestStatus = Pending | Approved | Rejected

  /** One row of the subscription-request table. */
  datatype SubscriptionRequest = SubscriptionRequest(
    id: string, userId: string, phoneNumber: string, planType: string, status: RequestStatus)

  /** `profile[trialKey]` with the key chosen by the feature. */
  function TrialUsed(p: Profile, f: Feature): bool {
    match f
    case PresentationFeature => p.trialUsedPresentation
    case SheetFeature => p.trialUsedSheet
  }

  /** `update({ [trialKey]: true })`: only the feature's own flag is set. */
  function MarkTrial(p: Profile, f: Feature): (q: Profile)
    ensures TrialUsed(q, f)
    ensures forall g :: g != f ==> TrialUsed(q, g) == TrialUsed(p, g)
    ensures q.credits == p.credits && q.isSubscribed == p.isSubscribed && q.id == p.id
  {
    match f
    case PresentationFeature => p.(trialUsedPresentation := true)
    case SheetFeature => p.(trialUsedSheet := true)
  }

  /** What the trial check decides for the profile it reads: whether to allow, and whether to mark the trial used. */
  datatype TrialDecision = TrialDecision(allowed: bool, mark: bool)

  function DecideTrial(profile: Option<Profile>, f: Feature): (d: TrialDecision)
    ensures d.mark ==> d.allowed
    ensures d.allowed <==> profile.Some? && (profile.value.isSubscribed || !TrialUsed(profile.value, f))
    ensures d.mark <==> profile.Some? && !profile.value.isSubscribed && !TrialUsed(profile.value, f)
  {
    if profile.None? then TrialDecision(false, false)
    else if profile.value.isSubscribed then TrialDecision(true, false)
    else if TrialUsed(profile.value, f) then TrialDecision(false, false)
    else TrialDecision(true, true)
  }

  /**
   * A trial is given once: once the check has marked a profile, the next
   * check on the marked profile refuses that feature, and the other feature
   * is decided as before.
   */
  lemma TrialGivenOnce(p: Profile, f: Feature, g: Feature)
    requires DecideTrial(Some(p), f).mark
    ensures !DecideTrial(Some(MarkTrial(p, f)), f).allowed
    ensures g != f ==> DecideTrial(Some(MarkTrial(p, f)), g) == DecideTrial(Some(p), g)
  {
  }

  /**
   * The trial gate of the sheet and presentation pages: with no signed-in
   * profile the check is skipped; otherwise the page goes on only when the
   * check allows it.
   */
  predicate PageMayProceed(user: Option<Profile>, f: Feature) {
    user.None? || DecideTrial(user, f).allowed
  }

  /** A subscriber is always let through and never marked. */
  lemma SubscriberAlwaysAllowed(p: Profile, f: Feature)
    requires p.isSubscribed
    ensures DecideTrial(Some(p), f) == TrialDecision(true, false)
  {
  }

  /** The message `deductCredits` throws when the credits row cannot be read. */
  const CREDITS_FETCH_ERROR: string := "Could not fetch user credits"

  class Backend {
    var profiles: map<string, Profile>
    var requests: map<string, SubscriptionRequest>
    var signedIn: Option<string>

    constructor(profiles: map<string, Profile>, requests: map<string, SubscriptionRequest>, signedIn: Option<string>)
      ensures this.profiles == profiles && this.requests == requests && this.signedIn == signedIn
    {
      this.profiles := profiles;
      this.requests := requests;
      this.signedIn := signedIn;
    }

    /** No stored profile holds a negative number of credits. */
    predicate CreditsNonNegative()
      reads this
    {
      forall id :: id in profiles ==> profiles[id].credits >= 0
    }

    /**
     * `getCurrentProfile`: the signed-in user's row; nothing when no user is
     * signed in or the row cannot be read.
     */
    function CurrentProfile(): (p: Option<Profile>)
      reads this
      ensures p.Some? <==> signedIn.Some? && signedIn.value in profiles
      ensures p.Some? ==> p.value == profiles[signedIn.value]
    {
      if signedIn.Some? && signedIn.value in profiles then Some(profiles[signedIn.value]) else None
    }

    /**
     * `deductCredits`: a missing row throws; too few credits returns false
     * and writes nothing; otherwise the row's credits drop by `amount`.
     */
    method DeductCredits(userId: string, amount: int) returns (r: Result<bool, string>)
      modifies this`profiles
      ensures userId !in old(profiles) ==> r == Failure(CREDITS_FETCH_ERROR) && profiles == old(profiles)
      ensures userId in old(profiles) && old(profiles)[userId].credits < amount ==>
        r == Success(false) && profiles == old(profiles)
      ensures userId in old(profiles) && old(profiles)[userId].credits >= amount ==>
        r == Success(true)
        && profiles == old(profiles)[userId := old(profiles)[userId].(credits := old(profiles)[userId].credits - amount)]
      ensures old(CreditsNonNegative()) ==> CreditsNonNegative()
    {
      if userId !in profiles {
        return Failure(CREDITS_FETCH_ERROR);
      }
      var profile := profiles[userId];
      if profile.credits < amount {
        return Success(false);
      }
      profiles := profiles[userId := profile.(credits := profile.credits - amount)];
      r := Success(true);
    }

    /**
     * `checkAndMarkTrial`: decides on the signed-in user's profile and, when
     * it marks, writes the flag into the row of `userId` (a row that does not
     * exist is not written).
     */
    method CheckAndMarkTrial(userId: string, feature: Feature) returns (allowed: bool)
      modifies this`profiles
      ensures allowed == DecideTrial(old(CurrentProfile()), feature).allowed
      ensures DecideTrial(old(CurrentProfile()), feature).mark && userId in old(profiles) ==>
        profiles == old(profiles)[userId := MarkTrial(old(profiles)[userId], feature)]
      ensures !(DecideTrial(old(CurrentProfile()), feature).mark && userId in old(profiles)) ==>
        profiles == old(profiles)
      ensures old(CreditsNonNegative()) ==> CreditsNonNegative()
    {
      var profile := CurrentProfile();
      if profile.None? {
        return false;
      }
      if profile.value.isSubscribed {
        return true;
      }
      if TrialUsed(profile.value, feature) {
        return false;
      }
      if userId in profiles {
        profiles := profiles[userId := MarkTrial(profiles[userId], feature)];
      }
      allowed := true;
    }
  }

  /**
   * Two checks in a row for the signed-in user: an unsubscribed user is
   * let through at most once per feature.
   */
  method TrialTwice(db: Backend, feature: Feature) returns (first: bool, second: bool)
    requires db.signedIn.Some?
    modifies db`profiles
    ensures old(db.CurrentProfile()).Some? && !old(db.CurrentProfile()).value.isSubscribed ==> !(first && second)
  {
    first := db.CheckAndMarkTrial(db.signedIn.value, feature);
    second := db.CheckAndMarkTrial(db.signedIn.value, feature);
  }
}
