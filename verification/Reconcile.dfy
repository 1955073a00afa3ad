/**
 * First issuance that ended early on what its recorded reason calls a transient error is queued again by the reconcile
 * (service.rs), over the whole life of a job.
 */
module Reconcile {
  import opened Common
  import opened Retry
  import opened Classify

  /** A job waiting or running, one that gave up with the text recorded for it, or one that is over. */
  datatype Job = Queued(attempts: nat, createdAt: nat) | GaveUp(createdAt: nat, updatedAt: nat, text: string) | Over

  /**
   * An attempt fails; an attempt succeeds or the job is abandoned; the reconcile passes; or the job is queued again for
   * another reason.
   */
  datatype Event = Fails(error: Error, now: nat, jitter: real) | Ends | Passes(now: nat) | QueuedAgain(at: nat)

  predicate Requeues(j: Job, e: Event) {
    e.Passes? && j.GaveUp? && Requeued(ClassifyReason(j.text), j.createdAt, j.updatedAt)
  }

  function NextOf(j: Job, error: Error, base: nat, now: nat, jitter: real): Option<nat>
    requires j.Queued?
  {
    NextAttempt(ClassifyError(error), j.attempts + 1, base, j.createdAt, now, jitter)
  }

  function After(j: Job, e: Event, base: nat): Job {
    match e
    case Fails(error, now, jitter) =>
      if !j.Queued? then j
      else if NextOf(j, error, base, now, jitter).Some? then Queued(j.attempts + 1, j.createdAt)
      else GaveUp(j.createdAt, now, error.text)
    case Ends => if j.Queued? then Over else j
    case Passes(now) => if Requeues(j, e) then Queued(0, now) else j
    case QueuedAgain(at) => if j.Over? then j else Queued(0, at)
  }

  /** How often the reconcile queued the job again. */
  function Times(j: Job, es: seq<Event>, base: nat): nat
    decreases |es|
  {
    if es == [] then 0 else (if Requeues(j, es[0]) then 1 else 0) + Times(After(j, es[0], base), es[1..], base)
  }

  /** A pass queues a job again iff it gave up within half a day on what its text calls transient, and leaves others. */
  lemma PassRequeuesIff(j: Job, now: nat, base: nat)
    ensures After(j, Passes(now), base)
         == if j.GaveUp? && ClassifyReason(j.text).Transient? && j.updatedAt < j.createdAt + 43_200_000
            then Queued(0, now) else j
  {
    hide ClassifyReason;
  }

  // --- At most once ----------------------------------------------------------------------------------------------

  predicate WellRead(e: Event) { e.Fails? ==> !Misread(e.error) }

  /** Not a job the reconcile would queue again. */
  predicate Settled(j: Job) { j.GaveUp? ==> !Requeued(ClassifyReason(j.text), j.createdAt, j.updatedAt) }

  lemma StaysSettled(j: Job, e: Event, base: nat)
    requires Settled(j) && WellRead(e)
    ensures Settled(After(j, e, base)) && !Requeues(j, e)
  {
    hide ClassifyReason, ClassifyError;
    if e.Fails? && j.Queued? && NextOf(j, e.error, base, e.now, e.jitter).None? && ClassifyError(e.error).Transient? {
      TransientGivesUpLate(ClassifyError(e.error).after, j.attempts + 1, base, j.createdAt, e.now, e.jitter);
    }
    hide NextAttempt;
  }

  lemma {:induction false} SettledIsNeverRequeued(j: Job, es: seq<Event>, base: nat)
    requires Settled(j) && forall i :: 0 <= i < |es| ==> WellRead(es[i])
    ensures Times(j, es, base) == 0
    decreases |es|
  {
    if es != [] {
      assert WellRead(es[0]);
      StaysSettled(j, es[0], base);
      hide After, Requeues, Settled, WellRead;
      SettledIsNeverRequeued(After(j, es[0], base), es[1..], base);
    }
  }

  /** Whatever state it was left in, the reconcile queues a job again at most once, if no error is misread. */
  lemma {:induction false} RequeuedAtMostOnce(j: Job, es: seq<Event>, base: nat)
    requires forall i :: 0 <= i < |es| ==> WellRead(es[i])
    ensures Times(j, es, base) <= 1
    decreases |es|
  {
    if es != [] {
      assert WellRead(es[0]);
      var next := After(j, es[0], base);
      hide WellRead, ClassifyReason, ClassifyError;
      if Requeues(j, es[0]) {
        SettledIsNeverRequeued(next, es[1..], base);
      } else {
        RequeuedAtMostOnce(next, es[1..], base);
      }
    }
  }

  // --- Twice -----------------------------------------------------------------------------------------------------

  /** The same error until the job gives up, at once or after three attempts, and a pass of the reconcile. */
  function Round(error: Error): seq<Event> {
    var fails := Fails(error, 0, 0.0);
    if ClassifyError(error).Permanent? then [fails, Passes(0)] else [fails, fails, fails, Passes(0)]
  }

  lemma OneEvent(j: Job, e: Event, rest: seq<Event>, base: nat)
    ensures Times(j, [e] + rest, base) == (if Requeues(j, e) then 1 else 0) + Times(After(j, e, base), rest, base)
  {
    hide Requeues, After;
    assert ([e] + rest)[1..] == rest;
  }

  /** After a round with a misread error, the job is queued as it was at first. */
  lemma RoundRequeues(error: Error, rest: seq<Event>, base: nat)
    requires Misread(error)
    ensures Times(Queued(0, 0), Round(error) + rest, base) == 1 + Times(Queued(0, 0), rest, base)
  {
    hide Times, ClassifyReason, ClassifyError, Backoff;
    var fails, passes := Fails(error, 0, 0.0), [Passes(0)] + rest;
    OneEvent(GaveUp(0, 0, error.text), Passes(0), rest, base);
    if ClassifyError(error).Permanent? {
      OneEvent(Queued(0, 0), fails, passes, base);
      assert Round(error) + rest == [fails] + passes;
    } else {
      OneEvent(Queued(2, 0), fails, passes, base);
      OneEvent(Queued(1, 0), fails, [fails] + passes, base);
      OneEvent(Queued(0, 0), fails, [fails] + ([fails] + passes), base);
      assert Round(error) + rest == [fails] + ([fails] + ([fails] + passes));
    }
  }

  lemma MisreadIsRequeuedTwice(error: Error, base: nat)
    requires Misread(error)
    ensures Times(Queued(0, 0), Round(error) + (Round(error) + []), base) == 2
  {
    hide Round, Misread;
    RoundRequeues(error, Round(error) + [], base);
    RoundRequeues(error, [], base);
  }

  // --- Exactly when ----------------------------------------------------------------------------------------------

  /** Every failure in a life is an error of the given ones. */
  ghost predicate Among(es: seq<Event>, may: Error -> bool) {
    forall i :: 0 <= i < |es| && es[i].Fails? ==> may(es[i].error)
  }

  ghost predicate Once(j: Job, es: seq<Event>, base: nat, may: Error -> bool) {
    Among(es, may) ==> Times(j, es, base) <= 1
  }

  /**
   * Whichever errors attempts may end in, a job is queued again at most once over every life iff none of them is
   * misread: recorded as a text that reads as transient though the error was not.
   */
  lemma RequeuedAtMostOnceIff(base: nat, may: Error -> bool)
    ensures (forall j, es :: Once(j, es, base, may)) <==> (forall e :: may(e) ==> !Misread(e))
  {
    hide Times, Misread, Round;
    if forall e :: may(e) ==> !Misread(e) {
      forall j, es ensures Once(j, es, base, may) {
        if Among(es, may) {
          forall i | 0 <= i < |es| ensures WellRead(es[i]) {}
          RequeuedAtMostOnce(j, es, base);
        }
      }
    } else {
      var e :| may(e) && Misread(e);
      var es := Round(e) + (Round(e) + []);
      MisreadIsRequeuedTwice(e, base);
      RoundIsOf(e);
      assert Among(es, may);
      assert !Once(Queued(0, 0), es, base, may);
    }
  }

  lemma RoundIsOf(error: Error)
    ensures forall i :: 0 <= i < |Round(error)| && Round(error)[i].Fails? ==> Round(error)[i].error == error
  {
    hide ClassifyError;
  }

  /**
   * Over all errors the code can meet it is not at most once: an
   * unknown problem that speaks of a connection is misread.
   */
  lemma PromiseFails(base: nat)
    ensures Misread(MISREAD) && ClassifyError(MISREAD) == Unknown
    ensures Times(Queued(0, 0), Round(MISREAD) + (Round(MISREAD) + []), base) == 2
  {
    SuchAProblemExists();
    hide *;
    UnknownIsMisread(MISREAD, "x", 403, "403", BODY);
    MisreadIsRequeuedTwice(MISREAD, base);
  }
}
