/** Guest-access policies: which tickets they refuse, and how they are restored from the audit log. */
module GuestAccess {
  import opened Prelude

  const LEGACY_TICKET_LIFETIME_MS := 5 * 60 * 1000
  const GUEST_PREFIX := "guest-"

  datatype Role = Owner | Collaborator | Viewer | Server

  datatype Ticket = Ticket(actor: string, role: Role, guest: Option<bool>, issuedAt: Option<int>, expiresAt: int)

  datatype Policy = Policy(enabled: bool, revokedBefore: int, revision: int)

  /** An audit event: a well-formed guest_access_changed event, or any other one. */
  datatype AuditEvent = GuestAccessChanged(policy: Policy) | Other

  predicate IsGuest(t: Ticket) {
    t.role.Viewer? && (t.guest == Some(true) || (t.guest.None? && t.issuedAt.None? && GUEST_PREFIX <= t.actor))
  }

  function IssuedAt(t: Ticket): int {
    t.issuedAt.GetOr(t.expiresAt - LEGACY_TICKET_LIFETIME_MS)
  }

  predicate CanAccess(policy: Option<Policy>, t: Ticket) {
    IsGuest(t) && policy.Some? ==> policy.value.enabled && IssuedAt(t) > policy.value.revokedBefore
  }

  function Next(previous: Option<Policy>, enabled: bool, now: int): Policy {
    var base := previous.GetOr(Policy(true, 0, 0));
    Policy(enabled, if enabled then base.revokedBefore else now, base.revision + 1)
  }

  function Revision(policy: Option<Policy>): int {
    if policy.Some? then policy.value.revision else 0
  }

  function RestoreOne(current: Option<Policy>, e: AuditEvent): Option<Policy> {
    if e.GuestAccessChanged? && e.policy.revision > Revision(current) then Some(e.policy) else current
  }

  function Restore(current: Option<Policy>, audit: seq<AuditEvent>): Option<Policy>
    decreases |audit|
  {
    if audit == [] then current else Restore(RestoreOne(current, audit[0]), audit[1..])
  }

  /** `p` is what replaying should yield: the highest revision above 0 among `current` and the log. */
  ghost predicate IsLatest(p: Option<Policy>, current: Option<Policy>, audit: seq<AuditEvent>) {
    && (p == current || (p.Some? && GuestAccessChanged(p.value) in audit && p.value.revision > 0))
    && Revision(current) <= Revision(p)
    && (p != current ==> Revision(current) < Revision(p))
    && (forall e :: e in audit && e.GuestAccessChanged? ==> e.policy.revision <= Revision(p) || e.policy.revision <= 0)
  }

  lemma {:induction false} RestoreIsLatest(current: Option<Policy>, audit: seq<AuditEvent>)
    requires current.Some? ==> current.value.revision >= 0
    ensures IsLatest(Restore(current, audit), current, audit)
    decreases |audit|
  {
    if audit == [] {
    } else {
      RestoreIsLatest(RestoreOne(current, audit[0]), audit[1..]);
    }
  }

  predicate SameRevision(e: AuditEvent, f: AuditEvent) {
    e.GuestAccessChanged? && f.GuestAccessChanged? && e.policy.revision == f.policy.revision
  }

  /** A revision number identifies a policy, in the log and in memory. */
  ghost predicate RevisionsIdentify(current: Option<Policy>, audit: seq<AuditEvent>) {
    && (forall e, f :: e in audit && f in audit && SameRevision(e, f) ==> e == f)
    && (forall e :: e in audit && current.Some? && SameRevision(e, GuestAccessChanged(current.value)) ==>
          e.policy == current.value)
  }

  /** Replaying in any order, with any repetitions, gives the same policy. */
  lemma ReplayOrderIrrelevant(current: Option<Policy>, audit: seq<AuditEvent>, shuffled: seq<AuditEvent>)
    requires current.Some? ==> current.value.revision >= 0
    requires forall e :: e in audit <==> e in shuffled
    requires RevisionsIdentify(current, audit)
    ensures Restore(current, audit) == Restore(current, shuffled)
  {
    RestoreIsLatest(current, audit);
    RestoreIsLatest(current, shuffled);
  }

  /** Why revisions must identify policies: with two events of one revision the order decides. */
  lemma ReplayOrderMatters(p: Policy, q: Policy)
    requires p.revision == q.revision > 0 && p != q
    ensures Restore(None, [GuestAccessChanged(p), GuestAccessChanged(q)])
         != Restore(None, [GuestAccessChanged(q), GuestAccessChanged(p)])
  {
    var e, f := GuestAccessChanged(p), GuestAccessChanged(q);
    assert [e, f][1..] == [f] && [f, e][1..] == [e] && [f][1..] == [] && [e][1..] == [];
    assert Restore(None, [e, f]) == Restore(Some(p), [f]) == Some(p);
    assert Restore(None, [f, e]) == Restore(Some(q), [e]) == Some(q);
  }

  /** A new policy refuses every ticket the old cut-off refused, exactly when the clock has not run backwards. */
  lemma CutOffKeptIff(previous: Policy, enabled: bool, now: int)
    ensures (forall t :: IsGuest(t) && IssuedAt(t) <= previous.revokedBefore ==>
               IssuedAt(t) <= Next(Some(previous), enabled, now).revokedBefore)
       <==> enabled || now >= previous.revokedBefore
  {
    var t := Ticket("", Viewer, Some(true), Some(previous.revokedBefore), 0);
    assert IsGuest(t) && IssuedAt(t) == previous.revokedBefore;
  }

  /** Whom a policy refuses, in terms of the ticket's own claims: guests only, by when their ticket was issued. */
  lemma AccessByClaims(t: Ticket, p: Policy)
    ensures CanAccess(None, t)
    ensures t.role.Viewer? && t.guest == Some(true) && t.issuedAt.Some? ==>
      (CanAccess(Some(p), t) <==> p.enabled && t.issuedAt.value > p.revokedBefore)
    // A ticket without the claim lives for five minutes.
    ensures t.role.Viewer? && t.issuedAt.None? && (t.guest == Some(true) || (t.guest.None? && "guest-" <= t.actor)) ==>
      (CanAccess(Some(p), t) <==> p.enabled && t.expiresAt - 300000 > p.revokedBefore)
    // Everybody else: not a viewer, said not to be a guest, or neither said so nor named like an old guest ticket.
    ensures
      (!t.role.Viewer? || t.guest == Some(false) || (t.guest.None? && (t.issuedAt.Some? || !("guest-" <= t.actor))))
      ==> CanAccess(Some(p), t)
  {
  }

  /** The next policy says what was asked for, one revision on. */
  lemma NextByRequest(previous: Option<Policy>, now: int)
    ensures Next(previous, false, now) == Policy(false, now, (if previous.Some? then previous.value.revision else 0) + 1)
    ensures previous.Some? ==> Next(previous, true, now) == Policy(true, previous.value.revokedBefore, previous.value.revision + 1)
    ensures previous.None? ==> Next(previous, true, now) == Policy(true, 0, 1)
  {
  }
}
