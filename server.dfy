/** server.js: the CORS origin predicate and the daily job that first expires overdue policies and
    then mails renewal reminders. The clock reading is a parameter (`today`), and so is whether
    `sendEmail` succeeds for a reminder. */
module Server {
  import opened Wrappers
  import opened Text
  import opened Users
  import opened PolicyRoutes

  /** `allowedOrigins`. */
  const ALLOWED_ORIGINS: seq<string> := ["https://insura-ai-pi.vercel.app", "https://insuraai.onrender.com", "http://localhost:5173"]

  /** The CORS `origin` callback: no origin, or one of the allowed origins exactly. */
  predicate CorsAllows(origin: Option<string>) {
    !Truthy(origin) || origin.value in ALLOWED_ORIGINS
  }

  /** An origin passes exactly when it is absent, empty or character for character one of the three
      deployed origins; no prefix, suffix or case variant passes. */
  lemma CorsExact(origin: string)
    ensures CorsAllows(Some(origin)) <==>
      origin == "" || origin == "https://insura-ai-pi.vercel.app"
      || origin == "https://insuraai.onrender.com" || origin == "http://localhost:5173"
    ensures CorsAllows(None)
    ensures !CorsAllows(Some("https://insuraai.onrender.com/")) && !CorsAllows(Some("HTTP://localhost:5173"))
  {
    assert "https://insuraai.onrender.com/" != "https://insuraai.onrender.com";
    assert "HTTP://localhost:5173"[0] != "http://localhost:5173"[0];
  }

  predicate Overdue(p: Policy, today: Day) {
    p.status == "active" && p.endDate < today
  }

  /** `updateMany({ endDate: { $lt: now }, status: "active" }, { $set: { status: "expired" } })`. */
  function ExpireOverdue(policies: seq<Policy>, today: Day): seq<Policy> {
    seq(|policies|, i requires 0 <= i < |policies| =>
      if Overdue(policies[i], today) then policies[i].(status := "expired") else policies[i])
  }

  /** The expiry step marks exactly the overdue policies as expired and changes nothing else; after
      it no active policy is overdue, and running it again changes nothing. */
  lemma ExpireOverdueSound(policies: seq<Policy>, today: Day)
    ensures var r := ExpireOverdue(policies, today);
      |r| == |policies|
      && (forall i :: 0 <= i < |r| ==> r[i].(status := policies[i].status) == policies[i])
      && (forall i :: 0 <= i < |r| ==> (r[i].status == "expired" <==> Overdue(policies[i], today) || policies[i].status == "expired"))
      && (forall i :: 0 <= i < |r| ==> !Overdue(r[i], today))
      && ExpireOverdue(r, today) == r
  {
  }

  /** `Policy.find({ renewalDueDate: { $lte: now }, status: "active" })`, in collection order. */
  function DueForRenewal(policies: seq<Policy>, today: Day): (r: seq<Policy>)
    ensures forall p :: p in r <==> p in policies && p.status == "active" && p.renewalDueDate <= today
  {
    if policies == [] then []
    else (if policies[0].status == "active" && policies[0].renewalDueDate <= today then [policies[0]] else [])
         + DueForRenewal(policies[1..], today)
  }

  /** Reminders are selected after the expiry step, so a policy that ends before today (expired in
      this very run) gets none. */
  lemma NoReminderForExpired(policies: seq<Policy>, today: Day)
    ensures forall p :: p in DueForRenewal(ExpireOverdue(policies, today), today) ==> today <= p.endDate
  {
    ExpireOverdueSound(policies, today);
  }

  /** The mail for one selected policy: to its owner's address, if the owner has one. */
  function ReminderFor(p: Policy, users: seq<User>): (r: Option<Reminder>)
    ensures r.Some? ==> exists u :: u in users && u.id == p.createdBy && u.email == Val(r.value.to) && r.value.to != ""
    ensures r.Some? ==> r.value.policyNumber == p.policyNumber
  {
    match FindById(users, Some(p.createdBy))
    case None => None
    case Some(u) => if u.email.Truthy() then Some(Reminder(u.email.s, p.policyNumber)) else None
  }

  /** The mails the loop of lines 103-117 sends, in order: one per selected policy whose owner has an
      address, up to and including the first that fails (the failure ends the job). */
  function Sends(due: seq<Policy>, users: seq<User>, delivered: Reminder -> bool): seq<Reminder>
    decreases |due|
  {
    if due == [] then []
    else match ReminderFor(due[0], users)
      case None => Sends(due[1..], users, delivered)
      case Some(r) => if delivered(r) then [r] + Sends(due[1..], users, delivered) else [r]
  }

  /** At most one mail per selected policy, each for a selected policy and to the address of its
      owner; when every delivery succeeds, every selected policy whose owner has an address gets
      its mail. */
  lemma {:induction false} SendsSound(due: seq<Policy>, users: seq<User>, delivered: Reminder -> bool)
    requires SparseUnique(users)
    ensures var s := Sends(due, users, delivered);
      |s| <= |due|
      && (forall r :: r in s ==>
            exists p, u :: p in due && u in users && u.id == p.createdBy && u.email == Val(r.to) && r.policyNumber == p.policyNumber)
      && ((forall r :: delivered(r)) ==>
            forall p :: p in due && ReminderFor(p, users).Some? ==> ReminderFor(p, users).value in s)
    decreases |due|
  {
    if due != [] {
      SendsSound(due[1..], users, delivered);
      forall p | p in due[1..]
        ensures p in due
      {
      }
    }
  }

  /** The expiry step keeps the collection's invariant: it only rewrites statuses. */
  lemma ExpireKeepsWellFormed(policies: seq<Policy>, nextId: PolicyId, today: Day)
    requires WellFormed(policies, nextId)
    ensures WellFormed(ExpireOverdue(policies, today), nextId)
  {
    ExpireOverdueSound(policies, today);
    var r := ExpireOverdue(policies, today);
    assert forall i :: 0 <= i < |r| ==> r[i].id == policies[i].id && r[i].createdBy == policies[i].createdBy
                                        && r[i].policyNumber == policies[i].policyNumber;
  }

  /** The loop of lines 103-117: one mail per selected policy whose owner has an address, stopping
      at the first delivery that fails. */
  method SendReminders(due: seq<Policy>, users: seq<User>, delivered: Reminder -> bool) returns (sent: seq<Reminder>)
    ensures sent == Sends(due, users, delivered)
  {
    sent := [];
    var i := 0;
    while i < |due|
      invariant 0 <= i <= |due|
      invariant sent + Sends(due[i..], users, delivered) == Sends(due, users, delivered)
    {
      var r := ReminderFor(due[i], users);
      if r.None? {
        SendsSkip(due, i, users, delivered);
      } else if delivered(r.value) {
        SendsDelivered(due, i, users, delivered, sent);
        sent := sent + [r.value];
      } else {
        SendsFailed(due, i, users, delivered);
        return sent + [r.value];
      }
      i := i + 1;
    }
    assert due[i..] == [];
  }

  lemma SendsSkip(due: seq<Policy>, i: nat, users: seq<User>, delivered: Reminder -> bool)
    requires i < |due| && ReminderFor(due[i], users).None?
    ensures Sends(due[i..], users, delivered) == Sends(due[i + 1..], users, delivered)
  {
    assert due[i..][1..] == due[i + 1..];
  }

  lemma SendsDelivered(due: seq<Policy>, i: nat, users: seq<User>, delivered: Reminder -> bool, sent: seq<Reminder>)
    requires i < |due| && ReminderFor(due[i], users).Some? && delivered(ReminderFor(due[i], users).value)
    ensures sent + Sends(due[i..], users, delivered)
         == (sent + [ReminderFor(due[i], users).value]) + Sends(due[i + 1..], users, delivered)
  {
    assert due[i..][1..] == due[i + 1..];
  }

  lemma SendsFailed(due: seq<Policy>, i: nat, users: seq<User>, delivered: Reminder -> bool)
    requires i < |due| && ReminderFor(due[i], users).Some? && !delivered(ReminderFor(due[i], users).value)
    ensures Sends(due[i..], users, delivered) == [ReminderFor(due[i], users).value]
  {
  }

  /** The daily job: the expiry step on the collection, then the reminders. Returns the mails sent. */
  method DailyJob(store: PolicyStore, users: seq<User>, today: Day, delivered: Reminder -> bool)
    returns (sent: seq<Reminder>)
    requires store.Valid()
    modifies store
    ensures store.Valid() && store.nextId == old(store.nextId)
    ensures store.policies == ExpireOverdue(old(store.policies), today)
    ensures sent == Sends(DueForRenewal(store.policies, today), users, delivered)
  {
    ExpireKeepsWellFormed(store.policies, store.nextId, today);
    store.policies := ExpireOverdue(store.policies, today);
    var due := DueForRenewal(store.policies, today);
    sent := SendReminders(due, users, delivered);
  }
}
