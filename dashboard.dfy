/** The member dashboard (src/pages/Dashboard.tsx): on mount it looks up the
    session, the admin role, the profile and the member's approved lead, and
    then either sends the visitor to the sign-in page, shows a blocking card,
    or shows the full content. */
module Dashboard {
  import opened Wrappers
  import opened Leads

  const AuthPath: string := "/auth"
  const ProfileMissingText: string := "Profil topilmadi"
  const ExpiredText: string :=
    "Sizning 6 oylik kirish muddatingiz tugagan. Iltimos, qayta sotib oling."
  const NotApprovedText: string :=
    "Sizning hisobingiz hali tasdiqlanmagan yoki ruxsat berilmagan."

  /** Which text the blocking card shows. */
  datatype BlockReason = AccessExpired | NotApproved

  /** What the page renders. */
  datatype Screen =
    | Spinner
    | GoTo(path: string)
    | BlockingCard(reason: BlockReason)
    | ContentView(lead: Lead, adminButton: bool, countdownUntil: Option<int>)

  /** The backend lookups `checkAccess` awaits, in the order it issues them. */
  datatype Lookup = SessionLookup | RoleLookup | ProfileLookup | LeadLookup

  /** `lead?.access_until ? new Date(lead.access_until) < new Date() : true`. */
  predicate IsAccessExpired(lead: Option<Lead>, now: int) {
    match lead
    case None => true
    case Some(l) =>
      match l.accessUntil
      case None => true
      case Some(t) => t < now
  }

  function BlockText(reason: BlockReason): string {
    match reason
    case AccessExpired => ExpiredText
    case NotApproved => NotApprovedText
  }

  /** The gate of line 121 and the render after it, for a page that has
      finished loading. */
  function Gate(lead: Option<Lead>, now: int, isAdmin: bool): (s: Screen)
    ensures s.ContentView? || s.BlockingCard?
  {
    if lead.None? || lead.value.status != Approved || IsAccessExpired(lead, now) then
      BlockingCard(if IsAccessExpired(lead, now) then AccessExpired else NotApproved)
    else
      ContentView(lead.value, isAdmin, lead.value.accessUntil)
  }

  /** The content is shown exactly for an approved lead whose `access_until`
      is set and not strictly before `now`. */
  lemma ContentIffActive(lead: Option<Lead>, now: int, isAdmin: bool)
    ensures Gate(lead, now, isAdmin).ContentView? <==>
      lead.Some? && lead.value.status == Approved
      && lead.value.accessUntil.Some? && now <= lead.value.accessUntil.value
  {
  }

  /** A lead without `access_until` is always treated as expired. */
  lemma MissingAccessUntilIsExpired(l: Lead, now: int, isAdmin: bool)
    requires l.accessUntil.None?
    ensures IsAccessExpired(Some(l), now)
    ensures Gate(Some(l), now, isAdmin) == BlockingCard(AccessExpired)
  {
  }

  /** The comparison is strict: at `access_until == now` access is still valid. */
  lemma BoundaryStillValid(l: Lead, isAdmin: bool)
    requires l.status == Approved && l.accessUntil.Some?
    ensures !IsAccessExpired(Some(l), l.accessUntil.value)
    ensures Gate(Some(l), l.accessUntil.value, isAdmin).ContentView?
    ensures Gate(Some(l), l.accessUntil.value + 1, isAdmin) == BlockingCard(AccessExpired)
  {
  }

  /** With no lead the card always shows the "expired" text. */
  lemma NoLeadShowsExpired(now: int, isAdmin: bool)
    ensures Gate(None, now, isAdmin) == BlockingCard(AccessExpired)
    ensures BlockText(Gate(None, now, isAdmin).reason) == ExpiredText
  {
  }

  /** The content view always carries the expiry instant, so the countdown
      of lines 190-197 is always rendered there, and the admin button is
      shown exactly for an admin. */
  lemma ContentShowsCountdown(lead: Option<Lead>, now: int, isAdmin: bool)
    requires Gate(lead, now, isAdmin).ContentView?
    ensures Gate(lead, now, isAdmin).countdownUntil.Some?
    ensures now <= Gate(lead, now, isAdmin).countdownUntil.value
    ensures Gate(lead, now, isAdmin).adminButton == isAdmin
  {
  }

  /** The lead lookup only returns approved leads, so the "not approved"
      text can never appear: every visitor who is refused is told that the
      access period has expired. */
  lemma NotApprovedTextUnreachable(lead: Option<Lead>, now: int, isAdmin: bool)
    requires lead.Some? ==> lead.value.status == Approved
    ensures Gate(lead, now, isAdmin) != BlockingCard(NotApproved)
  {
  }

  /** Marking the CV as submitted never changes what the gate decides. */
  lemma CvFlagDoesNotAffectGate(l: Lead, now: int, isAdmin: bool)
    ensures Gate(Some(l.(hasCvSubmitted := true)), now, isAdmin).BlockingCard?
        == Gate(Some(l), now, isAdmin).BlockingCard?
  {
  }

  /** The component's state. */
  class DashboardPage {
    var lead: Option<Lead>
    var loading: bool
    var isAdmin: bool
    var navigatedTo: Option<string>
    var toasts: seq<string>
    var lookups: seq<Lookup>

    constructor ()
      ensures lead == None && loading && !isAdmin && navigatedTo == None
      ensures toasts == [] && lookups == []
    {
      lead := None;
      loading := true;
      isAdmin := false;
      navigatedTo := None;
      toasts := [];
      lookups := [];
    }

    /** `checkAccess`, every awaited lookup an input: whether there is a
        session, whether a `user_roles` row with role `admin` came back,
        whether a profile came back, and the reply of the lead query.
        A missing session or profile sends the visitor to `/auth` before the
        lead is looked up; the `finally` clears `loading` on every path. */
    method CheckAccess(hasSession: bool, roleFound: bool, profileFound: bool, leadsReply: LeadsReply)
      modifies this
      ensures !loading
      ensures !hasSession ==>
        && lookups == old(lookups) + [SessionLookup]
        && navigatedTo == Some(AuthPath)
        && lead == old(lead) && isAdmin == old(isAdmin) && toasts == old(toasts)
      ensures hasSession ==> isAdmin == roleFound
      ensures hasSession && !profileFound ==>
        && lookups == old(lookups) + [SessionLookup, RoleLookup, ProfileLookup]
        && navigatedTo == Some(AuthPath)
        && lead == old(lead) && toasts == old(toasts) + [ProfileMissingText]
      ensures hasSession && profileFound ==>
        && lookups == old(lookups) + [SessionLookup, RoleLookup, ProfileLookup, LeadLookup]
        && navigatedTo == old(navigatedTo)
        && match leadsReply
           case LeadsFailed(m) => lead == old(lead) && toasts == old(toasts) + [m]
           case LeadsRows(rows) =>
             toasts == old(toasts) && lead == (if rows == [] then None else Some(rows[0]))
    {
      lookups := lookups + [SessionLookup];
      if !hasSession {
        navigatedTo := Some(AuthPath);
        loading := false;
        return;
      }
      lookups := lookups + [RoleLookup];
      isAdmin := roleFound;
      lookups := lookups + [ProfileLookup];
      if !profileFound {
        toasts := toasts + [ProfileMissingText];
        navigatedTo := Some(AuthPath);
        loading := false;
        return;
      }
      lookups := lookups + [LeadLookup];
      match leadsReply {
        case LeadsFailed(m) =>
          toasts := toasts + [m];
        case LeadsRows(rows) =>
          if rows == [] {
            lead := None;
          } else {
            lead := Some(rows[0]);
          }
      }
      loading := false;
    }

    /** `handleCVSubmitted`: only `has_cv_submitted` changes, and nothing
        happens without a lead. */
    method HandleCvSubmitted()
      modifies this`lead
      ensures old(lead).None? ==> lead == None
      ensures old(lead).Some? ==> lead == Some(old(lead).value.(hasCvSubmitted := true))
    {
      if lead.Some? {
        lead := Some(lead.value.(hasCvSubmitted := true));
      }
    }

    /** What the page shows at instant `now`. */
    function View(now: int): Screen
      reads this
    {
      if navigatedTo.Some? then GoTo(navigatedTo.value)
      else if loading then Spinner
      else Gate(lead, now, isAdmin)
    }
  }

  /** Mounting the page when the lead query fails leaves the initial null
      lead in place, so the card says the access period has expired. */
  method MountWithFailedLeadQuery(roleFound: bool, message: string, now: int) returns (s: Screen)
    ensures s == BlockingCard(AccessExpired)
  {
    var page := new DashboardPage();
    page.CheckAccess(true, roleFound, true, LeadsFailed(message));
    s := page.View(now);
  }

  /** Mounting without a session or without a profile goes to `/auth`
      whatever the lead query would have answered. */
  method MountWithoutAccount(hasSession: bool, roleFound: bool, leadsReply: LeadsReply, now: int)
    returns (s: Screen)
    ensures s == GoTo(AuthPath)
  {
    var page := new DashboardPage();
    page.CheckAccess(hasSession, roleFound, false, leadsReply);
    s := page.View(now);
  }
}
