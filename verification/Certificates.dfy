/**
 * A tunnel's certificate as its record tells it (service.rs, record.rs): bound by the client, issued by a job, renewed
 * while the current one keeps serving. Every operation is one conditional save of the record (see Records).
 */
module Certificates {
  import opened Common

  type Id = string

  datatype State = Issuing | Challenge | Ready(expiry: nat) | Failed

  datatype Info = Info(id: Id, state: State)

  datatype Renewal = Renewal(id: Id, startedAt: nat)

  datatype Record = Record(certificateId: Option<Id>, certificate: Option<Info>, csr: Option<string>,
                           renewal: Option<Renewal>, deleted: bool, connectedAt: nat)

  const RENEW_BEFORE_MS: nat := 30 * 86_400_000
  const RENEWAL_STALE_MS: nat := 86_400_000

  predicate CertificateReady(r: Record) { r.certificate.Some? && r.certificate.value.state.Ready? }

  // --- Operations on a record ----------------------------------------------------------------------------------

  const NEW := Record(None, None, None, None, false, 0)

  datatype BindOutcome = Resumed | InProgress | Bound

  /** What binding a CSR comes to: the same one resumes, another has to wait until the current certificate is done. */
  function BindOf(r: Record, csr: string): BindOutcome {
    if r.certificate.Some? && r.csr == Some(csr) then Resumed
    else if r.certificate.Some? && !r.certificate.value.state.Ready? && !r.certificate.value.state.Failed?
    then InProgress
    else Bound
  }

  function Bind(r: Record, csr: string, id: Id): Record {
    if BindOf(r, csr) != Bound then r
    else r.(certificateId := Some(id), certificate := Some(Info(id, Issuing)), csr := Some(csr), renewal := None)
  }

  /** Progress of an issuance, for the renewal or for the current certificate; otherwise it is not wanted any more. */
  function UpdateCertificate(r: Record, id: Id, input: State): (Record, bool) {
    if r.renewal.Some? && r.renewal.value.id == id then
      match input
      case Ready(_) => (r.(certificateId := Some(id), certificate := Some(Info(id, input)), renewal := None), true)
      case Failed => (r.(renewal := None), true)
      case _ => (r, true)
    else if r.certificateId != Some(id) then (r, false)
    else (r.(certificate := Some(Info(id, input))), true)
  }

  /** Whether a renewal should start: the certificate is due, and no renewal that is not stale is under way. */
  predicate RenewalDue(r: Record, now: nat) {
    && CertificateReady(r) && r.certificate.value.state.expiry <= now + RENEW_BEFORE_MS && r.csr.Some?
    && (r.renewal.Some? ==> now >= r.renewal.value.startedAt + RENEWAL_STALE_MS)
  }

  function StartRenewal(r: Record, id: Id, now: nat): Record {
    if RenewalDue(r, now) then r.(renewal := Some(Renewal(id, now))) else r
  }

  /** Issuance that gave up is queued again and shown as issuing. */
  function Requeue(r: Record, id: Id): Record {
    if r.certificateId == Some(id) && r.certificate == Some(Info(id, Failed))
    then r.(certificate := Some(Info(id, Issuing))) else r
  }

  // --- Runs ----------------------------------------------------------------------------------------------------

  datatype Op =
    | Create
    | Remove
    | BindCsr(csr: string, id: Id)
    | Update(id: Id, input: State)
    | Renew(id: Id, now: nat)
    | UndoRenewal
    | RequeueFailed(id: Id)
    | Connected(now: nat)

  /** The record, what it was before a renewal whose job could not be queued, and every certificate ID given out. */
  datatype Sys = Sys(record: Option<Record>, undo: Option<Record>, used: set<Id>)

  const INIT := Sys(None, None, {})

  predicate Exists(s: Sys) { s.record.Some? && !s.record.value.deleted }

  function Wrote(s: Sys, r: Record): Sys {
    if s.record == Some(r) then s else s.(record := Some(r), undo := None)
  }

  function Take(s: Sys, op: Op): Sys {
    if op.Create? then if Exists(s) then s else Wrote(s, NEW)
    else if !Exists(s) then s
    else
      var r := s.record.value;
      match op
      case Remove => Wrote(s, r.(deleted := true))
      case BindCsr(csr, id) => if id in s.used then s else Wrote(s, Bind(r, csr, id)).(used := s.used + {id})
      case Update(id, input) => Wrote(s, UpdateCertificate(r, id, input).0)
      case Renew(id, now) =>
        if id in s.used then s
        else if RenewalDue(r, now) then Sys(Some(StartRenewal(r, id, now)), Some(r), s.used + {id})
        else s
      case UndoRenewal => if s.undo.Some? then Sys(s.undo, None, s.used) else s
      case RequeueFailed(id) => Wrote(s, Requeue(r, id))
      case Connected(now) => Wrote(s, r.(connectedAt := now))
  }

  function Run(s: Sys, ops: seq<Op>): Sys
    decreases |ops|
  {
    if ops == [] then s else Run(Take(s, ops[0]), ops[1..])
  }

  /** The certificate's ID names it, and a renewal is for another ID with the CSR to renew from. */
  ghost predicate Good(r: Record, used: set<Id>) {
    && (r.certificateId.Some? <==> r.certificate.Some?)
    && (r.certificate.Some? ==>
          r.certificateId.value == r.certificate.value.id && r.certificate.value.id in used && r.csr.Some?)
    && (r.renewal.Some? ==>
          r.certificate.Some? && r.renewal.value.id in used && r.renewal.value.id != r.certificate.value.id)
  }

  /** What undoing a renewal restores differs from the record in the renewal only. */
  ghost predicate Inv(s: Sys) {
    && (s.record.Some? ==> Good(s.record.value, s.used))
    && (s.undo.Some? ==>
          s.record.Some? && Good(s.undo.value, s.used)
          && s.undo.value == s.record.value.(renewal := s.undo.value.renewal))
  }

  lemma StepKeepsInv(s: Sys, op: Op)
    requires Inv(s)
    ensures Inv(Take(s, op))
  {
  }

  lemma {:induction false} RunKeepsInv(s: Sys, ops: seq<Op>)
    requires Inv(s)
    ensures Inv(Run(s, ops))
    decreases |ops|
  {
    if ops != [] {
      StepKeepsInv(s, ops[0]);
      RunKeepsInv(Take(s, ops[0]), ops[1..]);
    }
  }

  /** In every record reached, the certificate ID names the stored certificate, and the renewal is for another. */
  lemma IdNamesCertificate(ops: seq<Op>)
    ensures var s := Run(INIT, ops);
            s.record.Some? ==> var r := s.record.value;
              && r.certificateId == (if r.certificate.Some? then Some(r.certificate.value.id) else None)
              && (r.renewal.Some? ==> r.certificateId.Some? && r.renewal.value.id != r.certificateId.value)
  {
    RunKeepsInv(INIT, ops);
  }

  /** The certificate ID is current, or the renewal, or what undoing a renewal would bring back. */
  predicate Known(s: Sys, id: Id) {
    || (s.record.Some? && Names(s.record.value, id))
    || (s.undo.Some? && Names(s.undo.value, id))
  }

  predicate Names(r: Record, id: Id) { r.certificateId == Some(id) || (r.renewal.Some? && r.renewal.value.id == id) }

  /** An ID that was given out and is not known any more. */
  predicate Stale(s: Sys, id: Id) { id in s.used && !Known(s, id) }

  lemma StaysStale(s: Sys, op: Op, id: Id)
    requires Stale(s, id)
    ensures Stale(Take(s, op), id)
  {
  }

  lemma StaleUpdateDoesNothing(s: Sys, id: Id, input: State)
    requires Stale(s, id)
    ensures Take(s, Update(id, input)) == s
  {
  }

  /** A run without the updates for one ID. */
  function Without(ops: seq<Op>, id: Id): seq<Op> {
    if ops == [] then []
    else (if ops[0].Update? && ops[0].id == id then [] else [ops[0]]) + Without(ops[1..], id)
  }

  /** Once an ID is superseded, whatever comes for it, however late, is as if it had never come. */
  lemma {:induction false} SupersededUpdatesVanish(s: Sys, ops: seq<Op>, id: Id)
    requires Stale(s, id)
    ensures Run(s, ops) == Run(s, Without(ops, id)) && Stale(Run(s, ops), id)
    decreases |ops|
  {
    if ops != [] {
      StaysStale(s, ops[0], id);
      if ops[0].Update? && ops[0].id == id { StaleUpdateDoesNothing(s, id, ops[0].input); }
      hide Take, Stale;
      SupersededUpdatesVanish(Take(s, ops[0]), ops[1..], id);
      var kept, rest := Without(ops, id), Without(ops[1..], id);
      if ops[0].Update? && ops[0].id == id {
        assert kept == rest;
      } else {
        assert kept[0] == ops[0] && kept[1..] == rest;
      }
    }
  }

  lemma {:induction false} RunsInTurn(s: Sys, a: seq<Op>, b: seq<Op>)
    ensures Run(s, a + b) == Run(Run(s, a), b)
    decreases |a|
  {
    if a == [] {
      assert a + b == b;
    } else {
      assert (a + b)[1..] == a[1..] + b;
      RunsInTurn(Take(s, a[0]), a[1..], b);
    }
  }

  /** Wherever in a run an update comes for an ID that is neither current nor the renewal, the run is as without it. */
  lemma UnwantedUpdateVanishes(s: Sys, before: seq<Op>, id: Id, input: State, after: seq<Op>)
    requires Run(s, before).record.Some? ==> !Names(Run(s, before).record.value, id)
    ensures Run(s, before + ([Update(id, input)] + after)) == Run(s, before + after)
  {
    RunsInTurn(s, before, [Update(id, input)] + after);
    RunsInTurn(s, before, after);
    assert ([Update(id, input)] + after)[1..] == after;
  }

  /** An update of the renewal leaves the serving certificate alone until it is ready; then both swap at once. */
  lemma RenewalSwapsWhenReady(ops: seq<Op>, input: State)
    requires Exists(Run(INIT, ops)) && Run(INIT, ops).record.value.renewal.Some?
    ensures var r := Run(INIT, ops).record.value; var id := r.renewal.value.id;
            var after := UpdateCertificate(r, id, input).0;
            && (input.Ready? <==> after.certificateId != r.certificateId)
            && (!input.Ready? ==> after.certificate == r.certificate)
            && (input.Ready? ==> after.certificateId == Some(id) && after.certificate == Some(Info(id, input)))
            && (input.Ready? || input.Failed? <==> after.renewal.None?)
  {
    RunKeepsInv(INIT, ops);
  }

  // --- Starting, resuming and undoing --------------------------------------------------------------------------

  predicate Finished(state: State) { state.Ready? || state.Failed? }

  /** A key is bound iff the tunnel has no certificate or finished one for another key; otherwise nothing changes. */
  lemma BindsIff(s: Sys, csr: string, id: Id)
    requires Inv(s) && Exists(s) && id !in s.used
    ensures var r := s.record.value; var t := Take(s, BindCsr(csr, id));
            && t.record.Some?
            && if r.certificate.None? || (Finished(r.certificate.value.state) && r.csr != Some(csr))
               then t.record.value == r.(certificateId := Some(id), certificate := Some(Info(id, Issuing)),
                                         csr := Some(csr), renewal := None)
               else t.record == s.record
  {
  }

  /**
   * A renewal of a serving tunnel starts iff its certificate ends within 30 days and none was started in the last day;
   * whatever led there.
   */
  lemma RenewalStartsIff(ops: seq<Op>, id: Id, now: nat)
    requires Serving(Run(INIT, ops)) && id !in Run(INIT, ops).used
    ensures var r := Run(INIT, ops).record.value; var t := Take(Run(INIT, ops), Renew(id, now));
            && t.record.Some? && t.record.value == r.(renewal := t.record.value.renewal)
            && (t.record.value.renewal == Some(Renewal(id, now))
                <==> && r.certificate.value.state.expiry <= now + 2_592_000_000
                     && (r.renewal.Some? ==> now >= r.renewal.value.startedAt + 86_400_000))
  {
    RunKeepsInv(INIT, ops);
  }

  /** An operation that leaves a renewal started at `now` under way. */
  predicate LeavesRenewal(op: Op, id: Id, now: nat) {
    match op
    case Remove => false
    case UndoRenewal => false
    case BindCsr(_, _) => false
    case Update(other, input) => other != id || !Finished(input)
    case Renew(_, at) => at < now + 86_400_000
    case _ => true
  }

  lemma {:induction false} RenewalStays(s: Sys, ops: seq<Op>, id: Id, now: nat)
    requires Inv(s) && Exists(s) && s.record.value.renewal == Some(Renewal(id, now))
    requires forall i :: 0 <= i < |ops| ==> LeavesRenewal(ops[i], id, now)
    ensures Inv(Run(s, ops)) && Exists(Run(s, ops)) && Run(s, ops).record.value.renewal == Some(Renewal(id, now))
    decreases |ops|
  {
    if ops != [] {
      assert LeavesRenewal(ops[0], id, now);
      StepKeepsInv(s, ops[0]);
      var t := Take(s, ops[0]);
      assert Exists(t) && t.record.value.renewal == Some(Renewal(id, now));
      hide Take, LeavesRenewal, Inv;
      RenewalStays(t, ops[1..], id, now);
    }
  }

  /**
   * A renewal that is due and that nothing ends replaces the certificate when it is ready, whatever news come of the
   * certificate until then, and for a day no other renewal takes its place.
   */
  lemma RenewalReplaces(s: Sys, id: Id, now: nat, ops: seq<Op>, expiry: nat)
    requires Inv(s) && Serving(s) && id !in s.used && RenewalDue(s.record.value, now)
    requires forall i :: 0 <= i < |ops| ==> LeavesRenewal(ops[i], id, now)
    ensures var t := Take(Run(Take(s, Renew(id, now)), ops), Update(id, Ready(expiry)));
            && Serving(t) && t.record.value.certificateId == Some(id)
            && t.record.value.certificate == Some(Info(id, Ready(expiry))) && t.record.value.renewal.None?
  {
    StepKeepsInv(s, Renew(id, now));
    RenewalStays(Take(s, Renew(id, now)), ops, id, now);
  }

  /** Undoing a renewal whose job could not be queued is exact, but that its ID stays used. */
  lemma UndoIsExact(s: Sys, id: Id, now: nat)
    requires Inv(s) && Exists(s) && id !in s.used && RenewalDue(s.record.value, now)
    ensures Take(Take(s, Renew(id, now)), UndoRenewal) == s.(undo := None, used := s.used + {id})
  {
  }

  /** A certificate that failed for good is shown as issuing again iff it is the current one; nothing else changes. */
  lemma RequeuedIff(s: Sys, id: Id)
    requires Inv(s) && Exists(s)
    ensures var t := Take(s, RequeueFailed(id));
            if s.record.value.certificate == Some(Info(id, Failed))
            then t.record == Some(s.record.value.(certificate := Some(Info(id, Issuing)))) else t == s
  {
  }

  lemma {:induction false} NothingHappens(s: Sys, ops: seq<Op>)
    requires !Exists(s) && forall i :: 0 <= i < |ops| ==> !ops[i].Create?
    ensures Run(s, ops) == s
    decreases |ops|
  {
    if ops != [] { NothingHappens(Take(s, ops[0]), ops[1..]); }
  }

  /** A tunnel that was removed is gone, whatever comes for it; created anew, it has nothing of what it was. */
  lemma RemovedIsGone(s: Sys, ops: seq<Op>)
    requires forall i :: 0 <= i < |ops| ==> !ops[i].Create?
    ensures !Exists(Run(Take(s, Remove), ops))
    ensures Take(Run(Take(s, Remove), ops), Create).record == Some(Record(None, None, None, None, false, 0))
  {
    NothingHappens(Take(s, Remove), ops);
  }

  /** News of the current certificate is what the tunnel shows; only news of it or of the renewal is wanted. */
  lemma NewsIsShown(s: Sys, id: Id, input: State)
    requires Inv(s) && Exists(s)
    ensures UpdateCertificate(s.record.value, id, input).1
            <==> s.record.value.certificateId == Some(id)
                 || (s.record.value.renewal.Some? && s.record.value.renewal.value.id == id)
    ensures s.record.value.certificateId == Some(id) ==>
              Take(s, Update(id, input)).record == Some(s.record.value.(certificate := Some(Info(id, input))))
  {
  }

  /** An operation that does not end an issuance under way: any but removing the tunnel and the issuance's own end. */
  predicate LeavesIssuance(op: Op, id: Id) {
    !op.Remove? && !(op.Update? && op.id == id && Finished(op.input))
  }

  ghost predicate UnderWay(s: Sys, id: Id, csr: string) {
    && Exists(s) && s.record.value.certificateId == Some(id) && s.record.value.certificate.Some?
    && !Finished(s.record.value.certificate.value.state) && s.record.value.csr == Some(csr) && s.undo.None?
    && s.record.value.renewal.None?
  }

  lemma {:induction false} IssuanceStays(s: Sys, ops: seq<Op>, id: Id, csr: string)
    requires Inv(s) && UnderWay(s, id, csr) && forall i :: 0 <= i < |ops| ==> LeavesIssuance(ops[i], id)
    ensures Inv(Run(s, ops)) && UnderWay(Run(s, ops), id, csr)
    decreases |ops|
  {
    if ops != [] {
      assert LeavesIssuance(ops[0], id);
      StepKeepsInv(s, ops[0]);
      assert UnderWay(Take(s, ops[0]), id, csr);
      hide Take, Inv, LeavesIssuance, UnderWay;
      IssuanceStays(Take(s, ops[0]), ops[1..], id, csr);
    }
  }

  /**
   * A key that is bound to a tunnel without a certificate is the one it serves with once its issuance is ready,
   * whatever else clients bind, renew or hear meanwhile.
   */
  lemma IssuanceServes(s: Sys, csr: string, id: Id, ops: seq<Op>, expiry: nat)
    requires Inv(s) && Exists(s) && s.record.value.certificate.None? && id !in s.used
    requires forall i :: 0 <= i < |ops| ==> LeavesIssuance(ops[i], id)
    ensures var t := Take(Run(Take(s, BindCsr(csr, id)), ops), Update(id, Ready(expiry)));
            && Serving(t) && t.record.value.csr == Some(csr)
            && t.record.value.certificate == Some(Info(id, Ready(expiry)))
  {
    StepKeepsInv(s, BindCsr(csr, id));
    IssuanceStays(Take(s, BindCsr(csr, id)), ops, id, csr);
  }

  // --- Serving without interruption ----------------------------------------------------------------------------

  /** Operations that take a ready certificate away: the client's own, and news of the current certificate. */
  predicate Interrupts(s: Sys, op: Op) {
    || op.Remove?
    || (op.BindCsr? && op.id !in s.used && Exists(s) && s.record.value.csr != Some(op.csr))
    || (op.Update? && !op.input.Ready? && Exists(s) && s.record.value.certificateId == Some(op.id))
  }

  predicate NoneInterrupts(s: Sys, ops: seq<Op>)
    decreases |ops|
  {
    ops == [] || (!Interrupts(s, ops[0]) && NoneInterrupts(Take(s, ops[0]), ops[1..]))
  }

  predicate Serving(s: Sys) { Exists(s) && CertificateReady(s.record.value) }

  ghost predicate ServesThroughout(s: Sys, ops: seq<Op>) { forall n :: 0 <= n <= |ops| ==> Serving(Run(s, ops[..n])) }

  lemma StepInterruptsIff(s: Sys, op: Op)
    requires Inv(s) && Serving(s)
    ensures Serving(Take(s, op)) <==> !Interrupts(s, op)
  {
  }

  lemma PrefixRuns(s: Sys, ops: seq<Op>, n: nat)
    requires 0 < n <= |ops|
    ensures Run(s, ops[..n]) == Run(Take(s, ops[0]), ops[1..][..n - 1])
  {
    assert ops[..n][1..] == ops[1..][..n - 1];
  }

  /**
   * A tunnel serves at every point of a run iff its client does not end it and no other news than that it is ready
   * comes for its current certificate: renewals that start, stall, fail, are undone or succeed never interrupt it.
   */
  lemma {:induction false} ServesThroughoutIff(s: Sys, ops: seq<Op>)
    requires Inv(s) && Serving(s)
    ensures ServesThroughout(s, ops) <==> NoneInterrupts(s, ops)
    decreases |ops|
  {
    if ops == [] {
      assert ops[..0] == [] && Run(s, []) == s;
    } else {
      var t, rest := Take(s, ops[0]), ops[1..];
      StepInterruptsIff(s, ops[0]);
      StepKeepsInv(s, ops[0]);
      hide Serving, Interrupts, Inv, Take;
      PrefixRuns(s, ops, 1);
      assert rest[..0] == [] && ops[..0] == [] && Run(s, []) == s && Run(t, []) == t;
      if Serving(t) {
        ServesThroughoutIff(t, rest);
        if ServesThroughout(s, ops) {
          forall n | 0 <= n <= |rest| ensures Serving(Run(t, rest[..n])) {
            PrefixRuns(s, ops, n + 1);
            assert Serving(Run(s, ops[..n + 1]));
          }
        }
        if NoneInterrupts(s, ops) {
          forall n | 0 <= n <= |ops| ensures Serving(Run(s, ops[..n])) {
            if n > 0 {
              PrefixRuns(s, ops, n);
              assert Serving(Run(t, rest[..n - 1]));
            }
          }
        }
      } else {
        assert !Serving(Run(s, ops[..1]));
      }
    }
  }

  /** The operation makes the renewal of that moment the certificate. */
  predicate Swaps(s: Sys, op: Op, id: Id) {
    && op.Update? && op.id == id && op.input.Ready?
    && Exists(s) && s.record.value.renewal.Some? && s.record.value.renewal.value.id == id
  }

  lemma StepReplaces(s: Sys, op: Op)
    requires Inv(s) && Serving(s) && !Interrupts(s, op)
    ensures var now := Take(s, op).record.value.certificateId;
            now.Some?
            && (now == s.record.value.certificateId || (op.Update? && now == Some(op.id) && Swaps(s, op, op.id)))
  {
  }

  /**
   * A certificate that serves after such a run is the one there
   * was, or was swapped in by a renewal that became ready.
   */
  lemma {:induction false} ReplacedOnlyByRenewal(s: Sys, ops: seq<Op>)
    requires Inv(s) && Serving(s) && NoneInterrupts(s, ops)
    ensures Serving(Run(s, ops))
    ensures var id := Run(s, ops).record.value.certificateId;
            && id.Some?
            && (id == s.record.value.certificateId
                || exists i :: 0 <= i < |ops| && Swaps(Run(s, ops[..i]), ops[i], id.value))
    decreases |ops|
  {
    if ops != [] {
      var t, rest := Take(s, ops[0]), ops[1..];
      StepInterruptsIff(s, ops[0]);
      StepReplaces(s, ops[0]);
      StepKeepsInv(s, ops[0]);
      ReplacedOnlyByRenewal(t, rest);
      var id := Run(s, ops).record.value.certificateId;
      hide Interrupts, Inv, Take, Swaps;
      if id == t.record.value.certificateId {
        assert ops[..0] == [] && Run(s, []) == s;
        assert id == s.record.value.certificateId || Swaps(Run(s, ops[..0]), ops[0], id.value);
      } else {
        var i :| 0 <= i < |rest| && Swaps(Run(t, rest[..i]), rest[i], id.value);
        PrefixRuns(s, ops, i + 1);
        assert Swaps(Run(s, ops[..i + 1]), ops[i + 1], id.value);
      }
    }
  }
}
