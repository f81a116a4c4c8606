/** The admin page (src/pages/Admin.tsx): the lead table with its status
    filter and counters, and approving or blocking a lead. */
module Admin {
  import opened Wrappers
  import opened Leads
  import opened Sequences
  import Dashboard
  import AccessCountdown

  /** `6 * 30 * 24 * 60 * 60 * 1000`: 180 days of 24 hours, not six calendar months. */
  const AccessGrantMs: int := 6 * 30 * 24 * 60 * 60 * 1000

  /** The `newStatus` argument of `updateLeadStatus`. */
  datatype Decision = Approve | Block {
    function NewStatus(): Status {
      match this
      case Approve => Approved
      case Block => Blocked
    }
  }

  /** The filter buttons: `"all"` or one status. */
  datatype LeadFilter = All | Only(status: Status)

  /** The counters above the table. */
  datatype Stats = Stats(total: nat, pending: nat, approved: nat, blocked: nat)

  /** The `access_until` written by an update at instant `now`. */
  function AccessUntilFor(d: Decision, now: int): (r: Option<int>)
    ensures d == Approve ==> r == Some(now + 180 * 86400000)
    ensures d == Block ==> r == None
  {
    if d == Approve then Some(now + AccessGrantMs) else None
  }

  /** `leads.map(lead => lead.id === leadId ? { ...lead, status, access_until } : lead)`. */
  function WithDecision(leads: seq<Lead>, id: string, status: Status, accessUntil: Option<int>): (r: seq<Lead>)
    ensures |r| == |leads|
    ensures forall i :: 0 <= i < |leads| && leads[i].id == id ==>
      r[i] == leads[i].(status := status, accessUntil := accessUntil)
    ensures forall i :: 0 <= i < |leads| && leads[i].id != id ==> r[i] == leads[i]
  {
    if leads == [] then []
    else
      var head := if leads[0].id == id then leads[0].(status := status, accessUntil := accessUntil)
                  else leads[0];
      [head] + WithDecision(leads[1..], id, status, accessUntil)
  }

  /** `leads.filter(lead => lead.status === status)`. */
  function WithStatus(leads: seq<Lead>, status: Status): (r: seq<Lead>)
    ensures |r| <= |leads|
    ensures forall l :: l in r ==> l in leads && l.status == status
  {
    if leads == [] then []
    else if leads[0].status == status then [leads[0]] + WithStatus(leads[1..], status)
    else WithStatus(leads[1..], status)
  }

  /** The filtered list keeps the order of the full list, and holds every
      lead of the full list that has the status, each as often as there:
      nothing is lost. */
  lemma {:induction false} WithStatusExact(leads: seq<Lead>, status: Status)
    ensures IsSubsequence(WithStatus(leads, status), leads)
    ensures forall l :: l in leads && l.status == status ==> l in WithStatus(leads, status)
    ensures forall l ::
      multiset(WithStatus(leads, status))[l] == if l.status == status then multiset(leads)[l] else 0
  {
    if leads != [] {
      WithStatusExact(leads[1..], status);
      assert leads == [leads[0]] + leads[1..];
      if leads[0].status == status {
        assert WithStatus(leads, status) == [leads[0]] + WithStatus(leads[1..], status);
      }
      forall l | l in leads && l.status == status
        ensures l in WithStatus(leads, status)
      {
        if l != leads[0] {
          assert l in leads[1..];
        }
      }
    }
  }

  /** `filter === "all" ? leads : leads.filter(lead => lead.status === filter)`. */
  function FilteredLeads(leads: seq<Lead>, filter: LeadFilter): seq<Lead> {
    match filter
    case All => leads
    case Only(s) => WithStatus(leads, s)
  }

  /** "all" is the list itself; any other filter keeps, in order, exactly
      the leads with that status, every copy of each. */
  lemma FilteredLeadsSpec(leads: seq<Lead>, filter: LeadFilter)
    ensures filter == All ==> FilteredLeads(leads, filter) == leads
    ensures filter.Only? ==>
      && IsSubsequence(FilteredLeads(leads, filter), leads)
      && (forall l :: l in FilteredLeads(leads, filter) <==> l in leads && l.status == filter.status)
      && forall l ::
           multiset(FilteredLeads(leads, filter))[l] == if l.status == filter.status then multiset(leads)[l] else 0
  {
    if filter.Only? {
      WithStatusExact(leads, filter.status);
    }
  }

  function StatsOf(leads: seq<Lead>): Stats {
    Stats(|leads|, |WithStatus(leads, Pending)|, |WithStatus(leads, Approved)|,
          |WithStatus(leads, Blocked)|)
  }

  /** Every lead is counted under exactly one status. */
  lemma {:induction false} StatsAddUp(leads: seq<Lead>)
    ensures StatsOf(leads).pending + StatsOf(leads).approved + StatsOf(leads).blocked
      == StatsOf(leads).total
  {
    if leads != [] {
      StatsAddUp(leads[1..]);
    }
  }

  /** Approve is offered for a lead that is not approved. */
  predicate ApproveOffered(l: Lead) { l.status != Approved }

  /** Block is offered for a lead that is not blocked. */
  predicate BlockOffered(l: Lead) { l.status != Blocked }

  /** Both buttons of a row are disabled while that row's update runs. */
  predicate ActionsDisabled(l: Lead, updating: Option<string>) { updating == Some(l.id) }

  /** A pending lead is offered both actions; every lead at least one; and
      an action is offered exactly when applying it to the lead's row at
      `now` would change the row's status. */
  lemma OfferedActions(l: Lead, now: int)
    ensures l.status == Pending ==> ApproveOffered(l) && BlockOffered(l)
    ensures ApproveOffered(l) || BlockOffered(l)
    ensures ApproveOffered(l) <==>
      WithDecision([l], l.id, Approve.NewStatus(), AccessUntilFor(Approve, now))[0].status != l.status
    ensures BlockOffered(l) <==>
      WithDecision([l], l.id, Block.NewStatus(), AccessUntilFor(Block, now))[0].status != l.status
  {
  }

  /** Approving at `t` opens the dashboard until `t + 180 days` inclusive
      and closes it after; blocking closes it at every instant, whatever the
      previous `access_until` was. */
  lemma DecisionThenGate(l: Lead, t: int, now: int, isAdmin: bool)
    ensures var a := l.(status := Approved, accessUntil := AccessUntilFor(Approve, t));
      Dashboard.Gate(Some(a), now, isAdmin).ContentView? <==> now <= t + AccessGrantMs
    ensures var b := l.(status := Blocked, accessUntil := AccessUntilFor(Block, t));
      Dashboard.Gate(Some(b), now, isAdmin) == Dashboard.BlockingCard(Dashboard.AccessExpired)
  {
    Dashboard.ContentIffActive(Some(l.(status := Approved, accessUntil := AccessUntilFor(Approve, t))), now, isAdmin);
  }

  /** The grant is the countdown's window: right after an approval the
      dashboard's bar is full and shows 180 days left, and it is empty at
      the moment access ends. */
  lemma ApprovalStartsFullWindow(t: int)
    ensures AccessGrantMs == AccessCountdown.WindowMs
    ensures AccessCountdown.CalculatePercentage(t + AccessGrantMs, t) == 100.0
    ensures AccessCountdown.CalculatePercentage(t + AccessGrantMs, t + AccessGrantMs) == 0.0
    ensures AccessCountdown.CalculateTimeLeft(t + AccessGrantMs, t).days == 180
    ensures !AccessCountdown.IsExpiringSoon(AccessCountdown.CalculateTimeLeft(t + AccessGrantMs, t))
  {
    AccessCountdown.PercentageShape(t + AccessGrantMs, t);
    AccessCountdown.PercentageShape(t + AccessGrantMs, t + AccessGrantMs);
    AccessCountdown.ExpiringSoonIff(t + AccessGrantMs, t);
  }

  /** The arguments of a status update between its two halves: the values
      the click handler's closure captured, the `leads` list among them. */
  datatype PendingUpdate = PendingUpdate(
    leadId: string, decision: Decision, accessUntil: Option<int>, captured: seq<Lead>)

  /** The component's state. */
  class AdminPage {
    var leads: seq<Lead>
    var filter: LeadFilter
    var updating: Option<string>

    constructor ()
      ensures leads == [] && filter == All && updating == None
    {
      leads := [];
      filter := All;
      updating := None;
    }

    /** `fetchLeads`: a successful select replaces the list, an error keeps it. */
    method FetchLeads(reply: LeadsReply)
      modifies this`leads
      ensures leads == if reply.LeadsRows? then reply.rows else old(leads)
    {
      if reply.LeadsRows? {
        leads := reply.rows;
      }
    }

    method SetFilter(f: LeadFilter)
      modifies this`filter
      ensures filter == f
    {
      filter := f;
    }

    /** `updateLeadStatus` up to its `await`: marks the row as updating, so
        that the buttons of exactly the rows with that id are disabled, and
        computes the new `access_until` from the clock. */
    method BeginStatusUpdate(leadId: string, d: Decision, now: int) returns (p: PendingUpdate)
      modifies this`updating
      ensures updating == Some(leadId)
      ensures forall l: Lead :: ActionsDisabled(l, updating) <==> l.id == leadId
      ensures p == PendingUpdate(leadId, d, AccessUntilFor(d, now), leads)
    {
      updating := Some(leadId);
      p := PendingUpdate(leadId, d, AccessUntilFor(d, now), leads);
    }

    /** `updateLeadStatus` after its `await`: on success the captured list,
        updated at the matching id, replaces `leads`; on error `leads` stays;
        `updating` is cleared either way, enabling every row's buttons. */
    method FinishStatusUpdate(p: PendingUpdate, reply: Reply)
      modifies this`leads, this`updating
      ensures updating == None && forall l: Lead :: !ActionsDisabled(l, updating)
      ensures leads == if reply.Ok? then WithDecision(p.captured, p.leadId, p.decision.NewStatus(), p.accessUntil)
                       else old(leads)
    {
      if reply.Ok? {
        leads := WithDecision(p.captured, p.leadId, p.decision.NewStatus(), p.accessUntil);
      }
      updating := None;
    }

    /** The whole handler when nothing else changes `leads` during the call. */
    method UpdateLeadStatus(leadId: string, d: Decision, now: int, reply: Reply)
      modifies this`leads, this`updating
      ensures updating == None
      ensures leads == if reply.Ok? then WithDecision(old(leads), leadId, d.NewStatus(), AccessUntilFor(d, now))
                       else old(leads)
    {
      var p := BeginStatusUpdate(leadId, d, now);
      FinishStatusUpdate(p, reply);
    }

    /** The rows the table shows. */
    function Visible(): seq<Lead>
      reads this
    {
      FilteredLeads(leads, filter)
    }

    function Counters(): (s: Stats)
      reads this
      ensures s.pending + s.approved + s.blocked == s.total
    {
      StatsAddUp(leads);
      StatsOf(leads)
    }
  }
}
