/** The policy routes of routes/policyRoutes.js over the policies collection: create (with the
    per-owner duplicate check and the renewal-due date), list, get and delete scoped by owner,
    update, renew and remind. Dates are day numbers; adding months is a parameter `addMonths`.
    `caller` is `req.user.id`: absent when the guard let a token through without a user, and then
    reading it throws (500). */
module PolicyRoutes {
  import opened Wrappers
  import opened Text
  import opened Http
  import opened Users

  type Day = int
  type PolicyId = nat

  /** The renewal falls due this many days before the end date. */
  const RENEWAL_NOTICE_DAYS: int := 15
  /** A renewal extends the end date by this many months. */
  const RENEWAL_MONTHS: int := 6

  datatype Policy = Policy(
    id: PolicyId,
    policyNumber: string,
    kind: Option<string>,
    premiumAmount: Option<int>,
    sumInsured: Option<int>,
    deductible: Option<int>,
    startDate: Option<Day>,
    endDate: Day,
    renewalDueDate: Day,
    status: string,
    createdBy: UserId,
    fileUrl: Option<string>)

  /** The create request's body; an end date that is absent or unreadable is `None`. */
  datatype PolicyBody = PolicyBody(policyNumber: string, kind: Option<string>, premiumAmount: Option<int>,
                                   sumInsured: Option<int>, deductible: Option<int>,
                                   startDate: Option<Day>, endDate: Option<Day>)

  /** The update request's body. */
  datatype UpdateBody = UpdateBody(kind: Option<string>, premiumAmount: Option<int>, sumInsured: Option<int>,
                                   deductible: Option<int>, startDate: Option<Day>, endDate: Option<Day>,
                                   status: Option<string>)

  predicate TruthyInt(v: Option<int>) { v.Some? && v.value != 0 }

  /** The index of the first policy satisfying `p`. */
  function FindPolicy(policies: seq<Policy>, p: Policy -> bool): (r: Option<nat>)
    ensures r.Some? ==> r.value < |policies| && p(policies[r.value])
    ensures r.None? ==> forall j :: 0 <= j < |policies| ==> !p(policies[j])
  {
    if policies == [] then None
    else if p(policies[0]) then Some(0)
    else match FindPolicy(policies[1..], p)
      case None => None
      case Some(k) => Some(k + 1)
  }

  /** `{ _id: id }`. */
  function WithId(id: PolicyId): Policy -> bool { (p: Policy) => p.id == id }

  /** `{ _id: id, createdBy: caller }`. */
  function OwnedWithId(id: PolicyId, caller: UserId): Policy -> bool {
    (p: Policy) => p.id == id && p.createdBy == caller
  }

  /** `{ policyNumber, createdBy: caller }`. */
  function SameNumber(policyNumber: string, caller: UserId): Policy -> bool {
    (p: Policy) => p.policyNumber == policyNumber && p.createdBy == caller
  }

  /** The collection's invariant: ids are unique and below the next id, and no owner holds two
      policies with the same number. */
  ghost predicate WellFormed(policies: seq<Policy>, nextId: PolicyId) {
    (forall i :: 0 <= i < |policies| ==> policies[i].id < nextId)
    && (forall i, j :: 0 <= i < j < |policies| ==> policies[i].id != policies[j].id)
    && (forall i, j :: 0 <= i < j < |policies| && policies[i].createdBy == policies[j].createdBy
          ==> policies[i].policyNumber != policies[j].policyNumber)
  }

  /** The document `new Policy(policyData)` saves: due for renewal 15 days before its end, owned
      by the caller, active, and with a file URL only when an uploaded file has a path. */
  function NewPolicy(id: PolicyId, caller: UserId, body: PolicyBody, end: Day, filePath: Option<string>): (p: Policy)
    ensures p.id == id && p.createdBy == caller && p.policyNumber == body.policyNumber
    ensures p.endDate == end && p.renewalDueDate == end - RENEWAL_NOTICE_DAYS
    ensures p.fileUrl.Some? <==> Truthy(filePath)
  {
    Policy(id, body.policyNumber, body.kind, body.premiumAmount, body.sumInsured, body.deductible,
           body.startDate, end, end - RENEWAL_NOTICE_DAYS, "active", caller,
           if Truthy(filePath) then filePath else None)
  }

  /** `GET /`: the caller's policies, in collection order. */
  function ListPolicies(policies: seq<Policy>, caller: Option<UserId>): Reply<seq<Policy>> {
    if caller.None? then Err(500, "Server error")
    else Ok(200, Filter(policies, caller.value))
  }

  function Filter(policies: seq<Policy>, owner: UserId): (r: seq<Policy>)
    ensures forall p :: p in r <==> p in policies && p.createdBy == owner
  {
    if policies == [] then []
    else (if policies[0].createdBy == owner then [policies[0]] else []) + Filter(policies[1..], owner)
  }

  /** `GET /:id`: only a policy the caller owns; anyone else's is "not found". */
  function GetPolicy(policies: seq<Policy>, caller: Option<UserId>, id: PolicyId): (r: Reply<Policy>)
    ensures caller.Some? ==>
      (r.Ok? <==> exists j :: 0 <= j < |policies| && OwnedWithId(id, caller.value)(policies[j]))
    ensures r.Ok? ==> caller.Some? && r.body in policies && r.body.id == id && r.body.createdBy == caller.value
  {
    if caller.None? then Err(500, "Server error")
    else match FindPolicy(policies, OwnedWithId(id, caller.value))
      case None => Err(404, "Policy not found")
      case Some(k) => Ok(200, policies[k])
  }

  /** The truthy fields of the body overwrite the policy's; nothing else changes (the renewal-due
      date is not recomputed when the end date changes). */
  function ApplyUpdate(p: Policy, b: UpdateBody): Policy {
    p.(kind := if Truthy(b.kind) then b.kind else p.kind,
       premiumAmount := if TruthyInt(b.premiumAmount) then b.premiumAmount else p.premiumAmount,
       sumInsured := if TruthyInt(b.sumInsured) then b.sumInsured else p.sumInsured,
       deductible := if TruthyInt(b.deductible) then b.deductible else p.deductible,
       startDate := if b.startDate.Some? then b.startDate else p.startDate,
       endDate := if b.endDate.Some? then b.endDate.value else p.endDate,
       status := if Truthy(b.status) then b.status.value else p.status)
  }

  /** `PUT /:id` as written: `sumInsured` and `deductible` are not among the names destructured from
      the body, so reading them throws a ReferenceError after the lookup and before the save. */
  function UpdateAsWritten(policies: seq<Policy>, caller: Option<UserId>, id: PolicyId, b: UpdateBody): Reply<Policy> {
    if caller.None? then Err(500, "Server error")
    else match FindPolicy(policies, OwnedWithId(id, caller.value))
      case None => Err(404, "Policy not found")
      case Some(_) => Err(500, "Server error")
  }

  /** As written, no update ever succeeds: an owned policy always answers 500 and is never saved. */
  lemma UpdateAsWrittenAlwaysFails(policies: seq<Policy>, caller: UserId, i: nat, b: UpdateBody)
    requires i < |policies| && policies[i].createdBy == caller
    ensures UpdateAsWritten(policies, Some(caller), policies[i].id, b) == Err(500, "Server error")
  {
    assert OwnedWithId(policies[i].id, caller)(policies[i]);
  }

  /** The corrected update changes exactly the fields given a truthy value. */
  lemma UpdateChangesGivenFields(p: Policy, b: UpdateBody)
    ensures var q := ApplyUpdate(p, b);
      q.id == p.id && q.createdBy == p.createdBy && q.policyNumber == p.policyNumber
      && q.renewalDueDate == p.renewalDueDate && q.fileUrl == p.fileUrl
      && (q.kind == if Truthy(b.kind) then b.kind else p.kind)
      && (q.sumInsured == if TruthyInt(b.sumInsured) then b.sumInsured else p.sumInsured)
      && (q.deductible == if TruthyInt(b.deductible) then b.deductible else p.deductible)
      && (b == UpdateBody(None, None, None, None, None, None, None) ==> q == p)
  {
  }

  /** The reminder `POST /:id/remind` would send: the owner's address. */
  datatype Reminder = Reminder(to: string, policyNumber: string)

  datatype RemindOutcome = RemindOutcome(reply: Reply<string>, sent: Option<Reminder>)

  /** `POST /:id/remind`. The owner is read through `populate`: a missing owner makes
      `createdBy._id` throw (500). `delivered` says whether `sendEmail` succeeds. */
  function Remind(policies: seq<Policy>, users: seq<User>, caller: Option<UserId>, id: PolicyId, delivered: bool): RemindOutcome {
    match FindPolicy(policies, WithId(id))
    case None => RemindOutcome(Err(404, "Policy not found"), None)
    case Some(k) =>
      var p := policies[k];
      match FindById(users, Some(p.createdBy))
      case None => RemindOutcome(Err(500, "Server error"), None)
      case Some(owner) =>
        if caller.None? then RemindOutcome(Err(500, "Server error"), None)
        else if owner.id != caller.value then RemindOutcome(Err(403, "Not authorized to send reminder"), None)
        else if !owner.email.Truthy() then RemindOutcome(Err(400, "User has no email on file"), None)
        else
          var r := Reminder(owner.email.s, p.policyNumber);
          if delivered then RemindOutcome(Ok(200, "Reminder email sent successfully"), Some(r))
          else RemindOutcome(Err(500, "Server error"), Some(r))
  }

  /** A reminder goes only to the owner's own address, and only at the owner's request; a
      non-owner gets 403 and an owner without an email 400, before anything is sent. */
  lemma {:induction false} RemindGuards(policies: seq<Policy>, users: seq<User>, caller: Option<UserId>,
                                        id: PolicyId, delivered: bool)
    requires SparseUnique(users)
    ensures var o := Remind(policies, users, caller, id, delivered);
      o.sent.Some? ==>
        exists k, u :: 0 <= k < |policies| && policies[k].id == id && u in users && u.id == policies[k].createdBy
          && caller == Some(u.id) && u.email == Val(o.sent.value.to) && o.sent.value.to != ""
    ensures var o := Remind(policies, users, caller, id, delivered);
      (o.reply == Err(403, "Not authorized to send reminder") || o.reply == Err(400, "User has no email on file"))
      ==> o.sent.None?
  {
  }

  /** The policies collection. */
  class PolicyStore {
    var policies: seq<Policy>
    var nextId: PolicyId

    ghost predicate Valid()
      reads this
    {
      WellFormed(policies, nextId)
    }

    constructor ()
      ensures Valid() && policies == [] && nextId == 0
    {
      policies := [];
      nextId := 0;
    }

    /** `POST /`: refuses a number the caller already has (400), fails on an unreadable end date
        (500), and otherwise inserts the new policy and answers 201 with it. */
    method Create(caller: Option<UserId>, body: PolicyBody, filePath: Option<string>) returns (reply: Reply<Policy>)
      requires Valid()
      modifies this
      ensures Valid()
      ensures caller.None? ==> reply == Err(500, "Server error") && unchanged(this)
      ensures caller.Some? && FindPolicy(old(policies), SameNumber(body.policyNumber, caller.value)).Some? ==>
        reply == Err(400, "Policy number already exists") && unchanged(this)
      ensures caller.Some? && FindPolicy(old(policies), SameNumber(body.policyNumber, caller.value)).None? ==>
        if body.endDate.None? then reply == Err(500, "Server error") && unchanged(this)
        else
          var p := NewPolicy(old(nextId), caller.value, body, body.endDate.value, filePath);
          reply == Ok(201, p) && policies == old(policies) + [p] && nextId == old(nextId) + 1
    {
      if caller.None? {
        return Err(500, "Server error");
      }
      var existing := FindPolicy(policies, SameNumber(body.policyNumber, caller.value));
      if existing.Some? {
        return Err(400, "Policy number already exists");
      }
      if body.endDate.None? {
        return Err(500, "Server error");
      }
      var p := NewPolicy(nextId, caller.value, body, body.endDate.value, filePath);
      forall i | 0 <= i < |policies| && policies[i].createdBy == p.createdBy
        ensures policies[i].policyNumber != p.policyNumber
      {
        assert !SameNumber(body.policyNumber, caller.value)(policies[i]);
      }
      policies := policies + [p];
      nextId := nextId + 1;
      reply := Ok(201, p);
    }

    /** `DELETE /:id`: removes the caller's policy with that id, keeping the others in order;
        anyone else's policy is "not found" and nothing is removed. */
    method Delete(caller: Option<UserId>, id: PolicyId) returns (reply: Reply<string>)
      requires Valid()
      modifies this
      ensures Valid() && nextId == old(nextId)
      ensures caller.None? ==> reply == Err(500, "Server error") && policies == old(policies)
      ensures caller.Some? ==>
        match FindPolicy(old(policies), OwnedWithId(id, caller.value))
        case None => reply == Err(404, "Policy not found") && policies == old(policies)
        case Some(k) => reply == Ok(200, "Policy deleted") && policies == old(policies)[..k] + old(policies)[k + 1..]
    {
      if caller.None? {
        return Err(500, "Server error");
      }
      var found := FindPolicy(policies, OwnedWithId(id, caller.value));
      if found.None? {
        return Err(404, "Policy not found");
      }
      var k := found.value;
      RemoveKeepsWellFormed(policies, nextId, k);
      policies := policies[..k] + policies[k + 1..];
      reply := Ok(200, "Policy deleted");
    }

    /** `PUT /:id` as written: anyone else's policy is "not found", and the caller's own policy
        answers 500 and is never saved (the corrected update is `ApplyUpdate`). The collection
        does not change on any path. */
    method Update(caller: Option<UserId>, id: PolicyId, b: UpdateBody) returns (reply: Reply<Policy>)
      ensures reply == UpdateAsWritten(policies, caller, id, b)
    {
      if caller.None? {
        return Err(500, "Server error");
      }
      var found := FindPolicy(policies, OwnedWithId(id, caller.value));
      if found.None? {
        return Err(404, "Policy not found");
      }
      // Line 137 reads `sumInsured`, a name this handler never declares: the ReferenceError reaches
      // the catch before `save`, so the collection is left as it was.
      reply := Err(500, "Server error");
    }

    /** `POST /:id/renew`: any policy is looked up by id (404), a non-owner gets 403 and nothing
        changes; the owner's policy ends `RENEWAL_MONTHS` months later, falls due 15 days before
        the new end and is active again. */
    method Renew(caller: Option<UserId>, id: PolicyId, addMonths: (Day, int) -> Day) returns (reply: Reply<Policy>)
      requires Valid()
      modifies this
      ensures Valid() && nextId == old(nextId)
      ensures match FindPolicy(old(policies), WithId(id))
        case None => reply == Err(404, "Policy not found") && policies == old(policies)
        case Some(k) =>
          if caller.None? then reply == Err(500, "Server error") && policies == old(policies)
          else if old(policies)[k].createdBy != caller.value then
            reply == Err(403, "Not authorized to renew this policy") && policies == old(policies)
          else
            var end := addMonths(old(policies)[k].endDate, RENEWAL_MONTHS);
            var q := old(policies)[k].(endDate := end, renewalDueDate := end - RENEWAL_NOTICE_DAYS, status := "active");
            reply == Ok(200, q) && policies == old(policies)[k := q]
    {
      var found := FindPolicy(policies, WithId(id));
      if found.None? {
        return Err(404, "Policy not found");
      }
      var k := found.value;
      if caller.None? {
        return Err(500, "Server error");
      }
      if policies[k].createdBy != caller.value {
        return Err(403, "Not authorized to renew this policy");
      }
      var end := addMonths(policies[k].endDate, RENEWAL_MONTHS);
      var q := policies[k].(endDate := end, renewalDueDate := end - RENEWAL_NOTICE_DAYS, status := "active");
      policies := policies[k := q];
      reply := Ok(200, q);
    }
  }

  /** Removing one policy keeps the collection's invariant. */
  lemma RemoveKeepsWellFormed(policies: seq<Policy>, nextId: PolicyId, k: nat)
    requires WellFormed(policies, nextId) && k < |policies|
    ensures WellFormed(policies[..k] + policies[k + 1..], nextId)
  {
    var rest := policies[..k] + policies[k + 1..];
    assert forall i :: 0 <= i < |rest| ==> rest[i] == if i < k then policies[i] else policies[i + 1];
  }

  /** What `Delete` leaves: no policy with that id, every other policy in its order. */
  lemma {:induction false} DeleteRemovesOnlyTarget(policies: seq<Policy>, nextId: PolicyId, k: nat)
    requires WellFormed(policies, nextId) && k < |policies|
    ensures var rest := policies[..k] + policies[k + 1..];
      (forall p :: p in rest ==> p.id != policies[k].id)
      && |rest| == |policies| - 1
      && (forall p :: p in policies && p.id != policies[k].id ==> p in rest)
  {
    var rest := policies[..k] + policies[k + 1..];
    forall p | p in rest
      ensures p.id != policies[k].id
    {
      var j :| 0 <= j < |rest| && rest[j] == p;
      if j < k {
        assert rest[j] == policies[j];
      } else {
        assert rest[j] == policies[j + 1];
      }
    }
    forall p | p in policies && p.id != policies[k].id
      ensures p in rest
    {
      var j :| 0 <= j < |policies| && policies[j] == p;
      if j < k {
        assert rest[j] == p;
      } else {
        assert j != k;
        assert rest[j - 1] == p;
      }
    }
  }
}
