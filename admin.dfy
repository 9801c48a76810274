/**
 * The approval rule of the administrator's dashboard (pages/AdminDashboard.tsx):
 * approving a request writes the plan into the requester's profile and then
 * the request's status; rejecting writes the status only. A failed write
 * aborts what comes after it.
 */
module Admin {
  import opened Common
  import opened Auth

  datatype Action = Approve | Reject

  /** Credits and months a plan grants: 'monthly' gives 100 and 1, any other value 300 and 3. */
  datatype Grant = Grant(credits: int, months: nat)

  function PlanGrant(planType: string): (g: Grant)
    ensures planType == "monthly" <==> g == Grant(100, 1)
    ensures planType != "monthly" <==> g == Grant(300, 3)
  {
    if planType == "monthly" then Grant(100, 1) else Grant(300, 3)
  }

  /** The status a handled request gets. */
  function StatusAfter(action: Action): (s: RequestStatus)
    ensures s != Pending
    ensures s == Approved <==> action == Approve
  {
    match action
    case Approve => Approved
    case Reject => Rejected
  }

  /** The profile an approval writes: subscribed, on the plan, with the plan's credits in place of the old ones. */
  function Subscribed(p: Profile, planType: string, endDate: string): (q: Profile)
    ensures q.isSubscribed && q.subscriptionPlan == Some(planType) && q.subscriptionEndDate == Some(endDate)
    ensures q.credits == PlanGrant(planType).credits
    ensures q.id == p.id && q.isAdmin == p.isAdmin
    ensures q.trialUsedPresentation == p.trialUsedPresentation && q.trialUsedSheet == p.trialUsedSheet
  {
    p.(isSubscribed := true, subscriptionPlan := Some(planType),
       credits := PlanGrant(planType).credits, subscriptionEndDate := Some(endDate))
  }

  /** Approval sets the credits to the grant: what the user had before is lost, not added to. */
  lemma ApprovalOverwritesCredits(p: Profile, planType: string, endDate: string)
    ensures Subscribed(p, planType, endDate).credits == (if planType == "monthly" then 100 else 300)
    ensures Subscribed(Subscribed(p, planType, endDate), planType, endDate) == Subscribed(p, planType, endDate)
  {
  }

  /**
   * `handleAction`: for an approval the profile is written first, and a
   * failed profile write aborts before the status is written; then the
   * request's status is written. A row that does not exist is not written.
   * The end date is passed in: the month arithmetic on the clock is not
   * modelled.
   */
  method HandleAction(db: Backend, requestId: string, userId: string, action: Action, planType: string,
                      endDate: string, profileWriteOk: bool, requestWriteOk: bool) returns (ok: bool)
    modifies db`profiles, db`requests
    ensures action == Approve && !profileWriteOk ==>
      !ok && db.profiles == old(db.profiles) && db.requests == old(db.requests)
    ensures action == Reject ==> db.profiles == old(db.profiles)
    ensures action == Approve && profileWriteOk ==>
      db.profiles == (if userId in old(db.profiles)
                      then old(db.profiles)[userId := Subscribed(old(db.profiles)[userId], planType, endDate)]
                      else old(db.profiles))
    ensures ok <==> (action == Reject || profileWriteOk) && requestWriteOk
    ensures ok && requestId in old(db.requests) ==>
      db.requests == old(db.requests)[requestId := old(db.requests)[requestId].(status := StatusAfter(action))]
    ensures !ok || requestId !in old(db.requests) ==> db.requests == old(db.requests)
  {
    if action == Approve {
      if !profileWriteOk {
        return false;
      }
      if userId in db.profiles {
        db.profiles := db.profiles[userId := Subscribed(db.profiles[userId], planType, endDate)];
      }
    }
    if !requestWriteOk {
      return false;
    }
    if requestId in db.requests {
      db.requests := db.requests[requestId := db.requests[requestId].(status := StatusAfter(action))];
    }
    ok := true;
  }

  /** Action buttons are shown only on a pending request. */
  predicate ShowsActions(r: SubscriptionRequest) {
    r.status == Pending
  }

  /** `requests.filter(r => r.status === 'pending').length` */
  function PendingCount(requests: seq<SubscriptionRequest>): (n: nat)
    ensures n <= |requests|
  {
    if |requests| == 0 then 0
    else PendingCount(requests[..|requests| - 1]) + (if requests[|requests| - 1].status == Pending then 1 else 0)
  }

  /** `requests.some(r => r.status === 'pending')`: the application shell's pending-request flag. */
  predicate HasPending(requests: seq<SubscriptionRequest>) {
    exists k :: 0 <= k < |requests| && requests[k].status == Pending
  }

  /** The dashboard's count is positive exactly when the shell's flag is set. */
  lemma {:induction false} PendingCountPositiveIff(requests: seq<SubscriptionRequest>)
    ensures PendingCount(requests) > 0 <==> HasPending(requests)
  {
    if |requests| > 0 {
      var init := requests[..|requests| - 1];
      PendingCountPositiveIff(init);
      if HasPending(init) {
        var k :| 0 <= k < |init| && init[k].status == Pending;
        assert requests[k] == init[k];
      }
      if HasPending(requests) && requests[|requests| - 1].status != Pending {
        var k :| 0 <= k < |requests| && requests[k].status == Pending;
        assert init[k] == requests[k];
      }
    }
  }

  /** Handling one pending request lowers the count by one; the count never counts a handled request. */
  lemma {:induction false} HandlingLowersCount(requests: seq<SubscriptionRequest>, i: nat, action: Action)
    requires i < |requests| && requests[i].status == Pending
    ensures PendingCount(requests[i := requests[i].(status := StatusAfter(action))]) == PendingCount(requests) - 1
    decreases |requests|
  {
    var after := requests[i := requests[i].(status := StatusAfter(action))];
    var last := |requests| - 1;
    if i < last {
      assert after[..last] == requests[..last][i := requests[i].(status := StatusAfter(action))];
      HandlingLowersCount(requests[..last], i, action);
    } else {
      assert after[..last] == requests[..last];
    }
  }
}
