/**
 * One attempt to get a certificate (acme.rs; sections 7.1.6, 7.5.1 and 7.5.2 of RFC 8555): place an order, publish
 * the challenge records, answer the challenges, poll the authorizations, and clean up. Any request may fail and the
 * attempt may be cancelled at any of them; challenge records are deleted only once the CA cannot be checking them.
 */
module Acme {
  import opened Common

  type Url = string

  datatype Status = Pending | Valid | Invalid | Deactivated | Expired | Revoked

  /** An authorization as the CA answers it: its status and that of its dns-01 challenge, if it offers one. */
  datatype Authorization = Authorization(status: Status, untouched: Option<bool>, identifier: string)

  /** What the CA answered for authorizations, in the order it was heard. */
  type Log = seq<(Url, Authorization)>

  predicate SeenValid(seen: Log, from: nat, url: Url) {
    exists i :: from <= i < |seen| && seen[i].0 == url && seen[i].1.status == Valid
  }

  /** Nothing heard from there on says that an authorization failed. */
  predicate NoneFailed(seen: Log, from: nat) {
    forall i :: from <= i < |seen| ==> seen[i].1.status == Valid || seen[i].1.status == Pending
  }

  /** A challenge that somebody answered and whose validation is not over. */
  predicate Stuck(a: Authorization) { a.status == Pending && a.untouched == Some(false) }

  /** An authorization to answer, and what its challenge record must say. */
  datatype Answer = Answer(url: Url, identifier: string, value: string)

  datatype OrderStatus = Unauthorized | Ready | Processing | Issued | OrderFailed

  /** An order as the CA answers it, and whether it names a URL to finalize it and one of its certificate. */
  datatype Order = Order(status: OrderStatus, finalizable: bool, certificate: bool)

  datatype Txt = Txt(name: string, value: string)

  const AUTHORIZATION_POLLS := 60
  const ORDERS := 2

  /** The CA's side over time: an authorization that is no longer pending never is again. */
  predicate Evolves(before: map<Url, Authorization>, after: map<Url, Authorization>) {
    && (forall url :: url in before ==> url in after)
    && (forall url :: url in before && before[url].status != Pending ==> after[url].status != Pending)
  }

  class Ca {
    var authorizations: map<Url, Authorization>
    /** The authorizations whose challenge this attempt answered, as far as the CA knows. */
    var answered: set<Url>
    /** How many authorizations were read and orders placed. */
    var readsMade: nat
    var ordersMade: nat
    /** How many requests got no usable answer. */
    var failures: nat
    ghost var seen: Log
    ghost var ordersSeen: seq<Order>
    /** How often the CA was asked to finalize. */
    var finalized: nat

    constructor ()
      ensures answered == {} && readsMade == 0 && ordersMade == 0 && failures == 0 && finalized == 0
      ensures seen == [] && ordersSeen == []
    {
      authorizations, answered, readsMade, ordersMade, failures, finalized := map[], {}, 0, 0, 0, 0;
      seen, ordersSeen := [], [];
    }

    /** In a final state: valid, invalid, deactivated, expired or revoked. */
    ghost predicate Settled(url: Url)
      reads this`authorizations
    {
      url in authorizations && authorizations[url].status != Pending
    }

    /** Time passes: validation succeeds or fails, authorizations expire, new ones appear. */
    method Advance()
      modifies this`authorizations
      ensures Evolves(old(authorizations), authorizations)
    {
      var after: map<Url, Authorization> := *;
      if Evolves(authorizations, after) {
        authorizations := after;
      }
    }

    /** POST-as-GET of an authorization: what the CA says of it, or nothing. */
    method Get(url: Url) returns (r: Option<Authorization>)
      modifies this`authorizations, this`readsMade, this`failures, this`seen
      ensures Evolves(old(authorizations), authorizations) && readsMade == old(readsMade) + 1
      ensures seen == old(seen) + if r.Some? then [(url, r.value)] else []
      ensures r.Some? ==> url in authorizations && authorizations[url] == r.value
      ensures failures == old(failures) + if r.None? then 1 else 0
    {
      Advance();
      readsMade := readsMade + 1;
      var answers: bool := *;
      if url !in authorizations || !answers {
        failures := failures + 1;
        return None;
      }
      r := Some(authorizations[url]);
      seen := seen + [(url, r.value)];
    }

    /** Answers a challenge. When the request fails the CA may have it all the same. */
    method AnswerChallenge(url: Url) returns (ok: bool)
      modifies this`authorizations, this`answered, this`failures
      ensures Evolves(old(authorizations), authorizations)
      ensures old(answered) <= answered <= old(answered) + {url}
      ensures failures == old(failures) + if ok then 0 else 1
      ensures ok ==> url in answered
    {
      Advance();
      var arrived: bool, answers: bool := *, *;
      if arrived {
        answered := answered + {url};
      }
      ok := arrived && answers;
      if !ok {
        failures := failures + 1;
      }
    }

    /** Asks for deactivation: an answer means it is done, no answer means nothing. */
    method PostDeactivated(url: Url) returns (ok: bool)
      modifies this`authorizations, this`failures
      ensures Evolves(old(authorizations), authorizations)
      ensures ok ==> Settled(url)
      ensures failures == old(failures) + if ok then 0 else 1
    {
      Advance();
      var arrived: bool, answers: bool := *, *;
      if arrived && url in authorizations && authorizations[url].status == Pending {
        authorizations := authorizations[url := authorizations[url].(status := Deactivated)];
      }
      ok := arrived && answers && url in authorizations;
      if !ok {
        failures := failures + 1;
      }
    }

    /** A new order: its authorizations, new ones or those the CA still has for these identifiers. */
    method NewOrder() returns (r: Option<seq<Url>>)
      modifies this`authorizations, this`ordersMade, this`failures
      ensures Evolves(old(authorizations), authorizations) && ordersMade == old(ordersMade) + 1
      ensures failures == old(failures) + if r.None? then 1 else 0
      ensures r.Some? ==> forall i :: 0 <= i < |r.value| ==> r.value[i] in authorizations
    {
      Advance();
      ordersMade := ordersMade + 1;
      var urls: seq<Url> := *;
      if forall i :: 0 <= i < |urls| ==> urls[i] in authorizations {
        r := Some(urls);
      } else {
        failures := failures + 1;
        r := None;
      }
    }

    /** POST-as-GET of the order. */
    method GetOrder() returns (r: Option<Order>)
      modifies this`authorizations, this`failures, this`ordersSeen
      ensures Evolves(old(authorizations), authorizations)
      ensures ordersSeen == old(ordersSeen) + if r.Some? then [r.value] else []
      ensures failures == old(failures) + if r.None? then 1 else 0
    {
      Advance();
      var answer: Order, answers: bool := *, *;
      if answers {
        ordersSeen := ordersSeen + [answer];
        return Some(answer);
      }
      failures := failures + 1;
      r := None;
    }

    /** Asks for the certificate of an order, with the CSR. */
    method Finalize() returns (ok: bool)
      modifies this`authorizations, this`failures, this`finalized
      ensures Evolves(old(authorizations), authorizations) && finalized == old(finalized) + 1
      ensures failures == old(failures) + if ok then 0 else 1
    {
      Advance();
      finalized := finalized + 1;
      ok := *;
      if !ok {
        failures := failures + 1;
      }
    }

    /** The certificate itself, and whether it is for the key of the CSR. */
    method Download() returns (r: Option<bool>)
      modifies this`authorizations, this`failures
      ensures Evolves(old(authorizations), authorizations)
      ensures failures == old(failures) + if r.None? then 1 else 0
    {
      Advance();
      r := *;
      if r.None? {
        failures := failures + 1;
      }
    }
  }

  lemma EvolvesTwice(a: map<Url, Authorization>, b: map<Url, Authorization>, c: map<Url, Authorization>)
    requires Evolves(a, b) && Evolves(b, c)
    ensures Evolves(a, c)
  {
  }

  class Dns {
    var published: set<Txt>
    /** Records whose deletion was asked for, done or not. */
    var deletions: set<Txt>
    /** How many records could not be created. */
    var failures: nat

    constructor ()
      ensures published == {} && deletions == {} && failures == 0
    {
      published, deletions, failures := {}, {}, 0;
    }

    method CreateTxt(name: string, value: string) returns (r: Option<Txt>)
      modifies this`published, this`failures
      ensures old(published) <= published <= old(published) + {Txt(name, value)}
      ensures r.Some? ==> r.value == Txt(name, value) && r.value in published
      ensures failures == old(failures) + if r.None? then 1 else 0
    {
      var created: bool, heard: bool := *, *;
      if created {
        published := published + {Txt(name, value)};
        if heard {
          return Some(Txt(name, value));
        }
      }
      failures := failures + 1;
      r := None;
    }

    /**
     * Asks for the deletion of a record, which may fail. Every authorization whose challenge was answered must be in
     * a final state by then.
     */
    method DeleteTxt(record: Txt, ca: Ca) returns (ok: bool)
      requires forall url :: url in ca.answered ==> ca.Settled(url)
      modifies this`published, this`deletions
      ensures deletions == old(deletions) + {record}
      ensures published == if ok then old(published) - {record} else old(published)
    {
      deletions := deletions + {record};
      ok := *;
      if ok {
        published := published - {record};
      }
    }
  }

  // --- Which records -----------------------------------------------------------------------------------------

  function TrimWildcards(identifier: string): string
    decreases |identifier|
  {
    if |identifier| >= 2 && identifier[..2] == "*." then TrimWildcards(identifier[2..]) else identifier
  }

  function RecordFor(a: Answer): (string, string) { ("_acme-challenge." + TrimWildcards(a.identifier), a.value) }

  /** A hostname and its wildcard have one record name. */
  lemma WildcardSharesRecord(a: Answer)
    requires |a.identifier| < 2 || a.identifier[..2] != "*."
    ensures RecordFor(a) == ("_acme-challenge." + a.identifier, a.value)
    ensures RecordFor(a.(identifier := "*." + a.identifier)) == RecordFor(a)
  {
    assert ("*." + a.identifier)[..2] == "*." && ("*." + a.identifier)[2..] == a.identifier;
  }

  ghost predicate AskedFor(pending: seq<Answer>, record: (string, string)) {
    exists i :: 0 <= i < |pending| && RecordFor(pending[i]) == record
  }

  /** The records to publish: one for each name and value, though a hostname and its wildcard may share one. */
  method Wanted(pending: seq<Answer>) returns (wanted: seq<(string, string)>)
    ensures forall i :: 0 <= i < |pending| ==> RecordFor(pending[i]) in wanted
    ensures forall k :: 0 <= k < |wanted| ==> AskedFor(pending, wanted[k])
    ensures forall k, l :: 0 <= k < l < |wanted| ==> wanted[k] != wanted[l]
  {
    wanted := [];
    for i := 0 to |pending|
      invariant forall j :: 0 <= j < i ==> RecordFor(pending[j]) in wanted
      invariant forall k :: 0 <= k < |wanted| ==> AskedFor(pending, wanted[k])
      invariant forall k, l :: 0 <= k < l < |wanted| ==> wanted[k] != wanted[l]
    {
      var record := RecordFor(pending[i]);
      assert AskedFor(pending, record);
      if record !in wanted {
        wanted := wanted + [record];
      }
    }
  }

  // --- Deactivating ------------------------------------------------------------------------------------------

  /** Asks for deactivation, and when that fails looks whether it is final all the same. */
  method Deactivate(ca: Ca, url: Url) returns (ok: bool)
    modifies ca`authorizations, ca`readsMade, ca`failures, ca`seen
    ensures Evolves(old(ca.authorizations), ca.authorizations) && old(ca.seen) <= ca.seen
    ensures ok ==> ca.Settled(url)
    ensures old(ca.readsMade) <= ca.readsMade <= old(ca.readsMade) + 1 && ca.failures >= old(ca.failures)
    ensures !ok ==> ca.failures > old(ca.failures)
    ensures forall i :: |old(ca.seen)| <= i < |ca.seen| ==>
              ca.seen[i].0 == url && (ca.seen[i].1.status == Pending ==> !ok)
    ensures !ok ==> ca.failures == old(ca.failures) + 2
                    || (|ca.seen| > |old(ca.seen)| && ca.seen[|ca.seen| - 1].1.status == Pending)
  {
    ok := ca.PostDeactivated(url);
    if !ok {
      ghost var between := ca.authorizations;
      var authorization := ca.Get(url);
      EvolvesTwice(old(ca.authorizations), between, ca.authorizations);
      ok := authorization.Some? && authorization.value.status != Pending;
    }
  }

  // --- Placing the order -------------------------------------------------------------------------------------

  /** Everything stuck that was heard of is final by now. */
  ghost predicate NothingStuck(ca: Ca, from: nat)
    reads ca
  {
    forall i :: from <= i < |ca.seen| && Stuck(ca.seen[i].1) ==> ca.Settled(ca.seen[i].0)
  }

  /** Each authorization of the order was heard to be valid, or to wait for the answer that is returned for it. */
  ghost predicate Usable(seen: Log, from: nat, order: seq<Url>, answers: seq<Answer>) {
    && (forall i :: 0 <= i < |order| ==> SeenValid(seen, from, order[i]) || Covered(answers, order[i]))
    && (forall i :: 0 <= i < |answers| ==> answers[i].url in order && Awaits(seen, from, answers[i]))
  }

  /** The CA said that it waits for this answer, to a challenge nobody answered, for this identifier. */
  ghost predicate Awaits(seen: Log, from: nat, a: Answer) {
    exists i :: from <= i < |seen| && seen[i] == (a.url, Authorization(Pending, Some(true), a.identifier))
  }

  /**
   * Orders until every authorization is valid or can be answered, twice at most. What it returns covers the order, and
   * whatever it found stuck is deactivated by then, so that no later order gets it.
   */
  method PlaceOrder(ca: Ca) returns (pending: Option<seq<Answer>>, order: seq<Url>)
    modifies ca`authorizations, ca`readsMade, ca`ordersMade, ca`failures, ca`seen
    ensures Evolves(old(ca.authorizations), ca.authorizations) && old(ca.seen) <= ca.seen
    ensures ca.failures >= old(ca.failures) && ca.readsMade >= old(ca.readsMade)
    ensures ca.ordersMade <= old(ca.ordersMade) + 2
    ensures pending.None? ==>
              || ca.failures > old(ca.failures)
              || ((ca.ordersMade == old(ca.ordersMade) + 2 || Unanswerable(ca, order))
                  && HopelessSeen(ca.seen, |old(ca.seen)|))
    ensures pending.Some? ==> ca.ordersMade > old(ca.ordersMade)
    ensures pending.Some? ==> Usable(ca.seen, |old(ca.seen)|, order, pending.value)
    ensures ca.failures == old(ca.failures) && !Unanswerable(ca, order) ==> NothingStuck(ca, |old(ca.seen)|)
  {
    for n := 0 to ORDERS
      invariant Evolves(old(ca.authorizations), ca.authorizations) && old(ca.seen) <= ca.seen
      invariant ca.ordersMade == old(ca.ordersMade) + n
      invariant ca.failures >= old(ca.failures) && ca.readsMade >= old(ca.readsMade)
      invariant n > 0 ==> HopelessSeen(ca.seen, |old(ca.seen)|)
      invariant NothingStuck(ca, |old(ca.seen)|)
    {
      ghost var before := ca.authorizations;
      var placed := ca.NewOrder();
      EvolvesTwice(old(ca.authorizations), before, ca.authorizations);
      if placed.None? {
        return None, [];
      }
      order := placed.value;
      before := ca.authorizations;
      var read, answers, stale, usable := ReadOrder(ca, order);
      EvolvesTwice(old(ca.authorizations), before, ca.authorizations);
      if !read {
        return None, order;
      }
      if usable {
        return Some(answers), order;
      }
      before := ca.authorizations;
      ghost var heard, all := |ca.seen|, ca.seen;
      assert HopelessSeen(ca.seen, |old(ca.seen)|);
      assert forall i :: |old(ca.seen)| <= i < heard && Stuck(ca.seen[i].1) ==>
                           ca.Settled(ca.seen[i].0) || ca.seen[i].0 in stale;
      var ok := DeactivateAll(ca, stale);
      EvolvesTwice(old(ca.authorizations), before, ca.authorizations);
      HopelessStays(all, ca.seen, |old(ca.seen)|);
      if !ok {
        return None, order;
      }
    }
    return None, [];
  }

  /** The CA offers no dns-01 challenge for one of the order's authorizations. */
  ghost predicate Unanswerable(ca: Ca, order: seq<Url>)
    reads ca
  {
    exists i :: 0 <= i < |order| && order[i] in ca.authorizations && ca.authorizations[order[i]].untouched.None?
  }

  ghost predicate Covered(answers: seq<Answer>, url: Url) { exists i :: 0 <= i < |answers| && answers[i].url == url }

  /** Sorts an order's authorizations: valid, to be answered, stuck in validation, or failed. */
  method ReadOrder(ca: Ca, order: seq<Url>) returns (read: bool, answers: seq<Answer>, stale: seq<Url>, usable: bool)
    modifies ca`authorizations, ca`readsMade, ca`failures, ca`seen
    ensures Evolves(old(ca.authorizations), ca.authorizations) && old(ca.seen) <= ca.seen
    ensures ca.readsMade >= old(ca.readsMade)
    ensures ca.failures >= old(ca.failures)
    ensures if read then ca.failures == old(ca.failures)
            else ca.failures > old(ca.failures)
                 || (Unanswerable(ca, order) && HopelessSeen(ca.seen, |old(ca.seen)|))
    ensures read && usable ==> Usable(ca.seen, |old(ca.seen)|, order, answers)
    ensures read ==> (usable <==> forall i :: |old(ca.seen)| <= i < |ca.seen| ==> MaySucceed(ca.seen[i].1))
    ensures read ==> forall url :: url in stale <==>
                       exists i :: |old(ca.seen)| <= i < |ca.seen| && ca.seen[i].0 == url && Stuck(ca.seen[i].1)
  {
    answers, stale, usable, read := [], [], true, true;
    ghost var from := |ca.seen|;
    for i := 0 to |order|
      invariant Evolves(old(ca.authorizations), ca.authorizations) && ca.failures == old(ca.failures)
      invariant old(ca.seen) <= ca.seen && ca.readsMade >= old(ca.readsMade)
      invariant forall k :: 0 <= k < |answers| ==> answers[k].url in order && Awaits(ca.seen, from, answers[k])
      invariant usable ==> forall k :: 0 <= k < i ==> SeenValid(ca.seen, from, order[k]) || Covered(answers, order[k])
      invariant usable <==> forall k :: from <= k < |ca.seen| ==> MaySucceed(ca.seen[k].1)
      invariant forall k :: 0 <= k < |stale| ==> StuckSeen(ca.seen, from, stale[k])
      invariant forall k :: from <= k < |ca.seen| && Stuck(ca.seen[k].1) ==> ca.seen[k].0 in stale
    {
      ghost var before, had, heard := ca.authorizations, answers, ca.seen;
      var a := ca.Get(order[i]);
      EvolvesTwice(old(ca.authorizations), before, ca.authorizations);
      if a.None? {
        return false, answers, stale, usable;
      }
      HeardMore(heard, ca.seen, from);
      assert ca.seen[|heard|] == (order[i], a.value);
      if a.value.status == Valid {
        assert SeenValid(ca.seen, from, order[i]);
      } else if a.value.status != Pending {
        usable := false;
      } else if a.value.untouched.None? {
        return false, answers, stale, usable;
      } else if !a.value.untouched.value {
        stale := stale + [order[i]];
        usable := false;
        assert StuckSeen(ca.seen, from, order[i]);
      } else {
        var value: string := *;
        answers := answers + [Answer(order[i], a.value.identifier, value)];
        assert answers[|answers| - 1].url == order[i] && Awaits(ca.seen, from, answers[|answers| - 1]);
        CoveredStays(had, answers);
      }
    }
    assert forall url :: url in stale ==> StuckSeen(ca.seen, from, url);
  }

  /** Valid, or waiting for an answer to its challenge. */
  predicate MaySucceed(a: Authorization) { a.status == Valid || (a.status == Pending && a.untouched == Some(true)) }

  /** An authorization was heard of with which its order cannot succeed. */
  ghost predicate HopelessSeen(seen: Log, from: nat) {
    exists i :: from <= i < |seen| && !MaySucceed(seen[i].1)
  }

  lemma HopelessStays(heard: Log, seen: Log, from: nat)
    requires heard <= seen
    ensures HopelessSeen(heard, from) ==> HopelessSeen(seen, from)
  {
    if HopelessSeen(heard, from) {
      var i :| from <= i < |heard| && !MaySucceed(heard[i].1);
      assert seen[i] == heard[i];
    }
  }

  ghost predicate StuckSeen(seen: Log, from: nat, url: Url) {
    exists i :: from <= i < |seen| && seen[i].0 == url && Stuck(seen[i].1)
  }

  /** What was heard stays heard. */
  lemma HeardMore(heard: Log, seen: Log, from: nat)
    requires heard <= seen
    ensures forall url :: SeenValid(heard, from, url) ==> SeenValid(seen, from, url)
    ensures forall a :: Awaits(heard, from, a) ==> Awaits(seen, from, a)
    ensures forall url :: StuckSeen(heard, from, url) ==> StuckSeen(seen, from, url)
  {
    forall url | SeenValid(heard, from, url) ensures SeenValid(seen, from, url) {
      var i :| from <= i < |heard| && heard[i].0 == url && heard[i].1.status == Valid;
      assert seen[i] == heard[i];
    }
    forall a | Awaits(heard, from, a) ensures Awaits(seen, from, a) {
      var i :| from <= i < |heard| && heard[i] == (a.url, Authorization(Pending, Some(true), a.identifier));
      assert seen[i] == heard[i];
    }
    forall url | StuckSeen(heard, from, url) ensures StuckSeen(seen, from, url) {
      var i :| from <= i < |heard| && heard[i].0 == url && Stuck(heard[i].1);
      assert seen[i] == heard[i];
    }
  }

  lemma CoveredStays(had: seq<Answer>, answers: seq<Answer>)
    requires had <= answers
    ensures forall url :: Covered(had, url) ==> Covered(answers, url)
  {
    forall url | Covered(had, url) ensures Covered(answers, url) {
      var i :| 0 <= i < |had| && had[i].url == url;
      assert answers[i].url == url;
    }
  }

  method DeactivateAll(ca: Ca, urls: seq<Url>) returns (ok: bool)
    modifies ca`authorizations, ca`readsMade, ca`failures, ca`seen
    ensures Evolves(old(ca.authorizations), ca.authorizations) && ca.failures >= old(ca.failures)
    ensures if ok then forall i :: 0 <= i < |urls| ==> ca.Settled(urls[i]) else ca.failures > old(ca.failures)
    ensures old(ca.seen) <= ca.seen && ca.readsMade >= old(ca.readsMade)
    ensures ok ==> forall i :: |old(ca.seen)| <= i < |ca.seen| ==> ca.seen[i].1.status != Pending
  {
    for i := 0 to |urls|
      invariant ca.failures >= old(ca.failures) && old(ca.seen) <= ca.seen && ca.readsMade >= old(ca.readsMade)
      invariant forall k :: |old(ca.seen)| <= k < |ca.seen| ==> ca.seen[k].1.status != Pending
      invariant Evolves(old(ca.authorizations), ca.authorizations)
      invariant forall k :: 0 <= k < i ==> ca.Settled(urls[k])
    {
      ghost var before := ca.authorizations;
      ok := Deactivate(ca, urls[i]);
      EvolvesTwice(old(ca.authorizations), before, ca.authorizations);
      if !ok {
        return false;
      }
    }
    ok := true;
  }

  // --- The attempt -------------------------------------------------------------------------------------------

  class Attempt {
    /** Challenge records known to be published. */
    var records: seq<Txt>
    /** Authorizations that were or may have been answered and are not known to be final. */
    var unsettled: seq<Url>

    constructor ()
      ensures records == [] && unsettled == []
    {
      records, unsettled := [], [];
    }

    /** Every authorization the CA was given an answer for is unsettled here or final there. */
    ghost predicate Safe(ca: Ca)
      reads this, ca
    {
      forall url :: url in ca.answered ==> url in unsettled || ca.Settled(url)
    }

    /** Publishes the records, up to the first that fails. */
    method CreateRecords(dns: Dns, wanted: seq<(string, string)>) returns (ok: bool)
      modifies this`records, dns`published, dns`failures
      ensures old(records) <= records && |records| <= |old(records)| + |wanted|
      ensures ok ==> forall i :: 0 <= i < |wanted| ==> Txt(wanted[i].0, wanted[i].1) in records
      ensures if ok then dns.failures == old(dns.failures) else dns.failures > old(dns.failures)
      ensures old(dns.published) <= dns.published
      ensures forall k :: |old(records)| <= k < |records| ==> records[k] in dns.published
    {
      for i := 0 to |wanted|
        invariant old(records) <= records && |records| == |old(records)| + i && dns.failures == old(dns.failures)
        invariant forall k :: 0 <= k < i ==> Txt(wanted[k].0, wanted[k].1) in records
        invariant old(dns.published) <= dns.published
        invariant forall k :: |old(records)| <= k < |records| ==> records[k] in dns.published
      {
        var record := dns.CreateTxt(wanted[i].0, wanted[i].1);
        if record.None? {
          return false;
        }
        records := records + [record.value];
      }
      ok := true;
    }

    /** Answers every challenge; each is noted before its answer is sent. */
    method AnswerAll(ca: Ca, pending: seq<Answer>) returns (ok: bool)
      requires Safe(ca) && unsettled == []
      modifies this`unsettled, ca`authorizations, ca`answered, ca`failures
      ensures Safe(ca) && |unsettled| <= |pending|
      ensures if ok then ca.failures == old(ca.failures) else ca.failures > old(ca.failures)
      ensures ok ==> forall i :: 0 <= i < |pending| ==> pending[i].url in ca.answered
      ensures Evolves(old(ca.authorizations), ca.authorizations)
      ensures ok ==> |unsettled| == |pending| && forall i :: 0 <= i < |pending| ==> unsettled[i] == pending[i].url
      ensures old(ca.answered) <= ca.answered
      ensures forall url :: url in ca.answered ==> url in old(ca.answered) || Covered(pending, url)
    {
      for i := 0 to |pending|
        invariant Safe(ca) && |unsettled| == i && forall k :: 0 <= k < i ==> unsettled[k] == pending[k].url
        invariant ca.failures == old(ca.failures) && forall k :: 0 <= k < i ==> pending[k].url in ca.answered
        invariant Evolves(old(ca.authorizations), ca.authorizations) && old(ca.answered) <= ca.answered
        invariant forall url :: url in ca.answered ==> url in old(ca.answered) || Covered(pending, url)
      {
        ghost var before := ca.authorizations;
        assert Covered(pending, pending[i].url);
        unsettled := unsettled + [pending[i].url];
        ok := ca.AnswerChallenge(pending[i].url);
        EvolvesTwice(old(ca.authorizations), before, ca.authorizations);
        if !ok {
          return false;
        }
      }
      ok := true;
    }

    /**
     * One look at each unsettled authorization: those found final are taken off. It succeeds iff every request was
     * answered and no answer says that an authorization failed; then those taken off were heard to be valid.
     */
    method Sweep(ca: Ca) returns (ok: bool)
      requires Safe(ca)
      modifies this`unsettled, ca`authorizations, ca`readsMade, ca`failures, ca`seen
      ensures Safe(ca) && |unsettled| <= |old(unsettled)|
      ensures Evolves(old(ca.authorizations), ca.authorizations)
      ensures old(ca.seen) <= ca.seen && ca.failures >= old(ca.failures)
      ensures ok <==> ca.failures == old(ca.failures) && NoneFailed(ca.seen, |old(ca.seen)|)
      ensures ok ==> forall url :: url in old(unsettled) ==>
                       url in unsettled || SeenValid(ca.seen, |old(ca.seen)|, url)
      ensures old(ca.readsMade) <= ca.readsMade <= old(ca.readsMade) + |old(unsettled)|
      ensures old(unsettled) != [] ==> ca.readsMade > old(ca.readsMade)
    {
      var index := 0;
      ghost var from := |ca.seen|;
      ok := true;
      while index < |unsettled|
        invariant 0 <= index <= |unsettled| <= |old(unsettled)| && ca.failures == old(ca.failures)
        invariant Safe(ca) && Evolves(old(ca.authorizations), ca.authorizations) && old(ca.seen) <= ca.seen
        invariant ca.readsMade + (|unsettled| - index) <= old(ca.readsMade) + |old(unsettled)|
        invariant NoneFailed(ca.seen, from)
        invariant forall url :: url in old(unsettled) ==> url in unsettled || SeenValid(ca.seen, from, url)
        invariant if ca.readsMade == old(ca.readsMade) then unsettled == old(unsettled) && index == 0
                  else ca.readsMade > old(ca.readsMade)
        decreases |unsettled| - index
      {
        ghost var before, heard := ca.authorizations, ca.seen;
        var current := unsettled[index];
        var authorization := ca.Get(current);
        EvolvesTwice(old(ca.authorizations), before, ca.authorizations);
        if authorization.None? {
          return false;
        }
        HeardMore(heard, ca.seen, from);
        assert ca.seen[|heard|] == (current, authorization.value);
        if authorization.value.status == Pending {
          index := index + 1;
        } else {
          TakenOff(unsettled, index);
          unsettled := unsettled[..index] + unsettled[index + 1..];
          if authorization.value.status != Valid {
            return false;
          }
        }
      }
    }

    /**
     * Polls until nothing is unsettled, 61 times at most; it can be cancelled between polls. It succeeds only if every
     * authorization was heard to be valid and none to have failed, and fails for a reason.
     */
    method Poll(ca: Ca) returns (ok: bool, cancelled: bool)
      requires Safe(ca)
      modifies this`unsettled, ca`authorizations, ca`readsMade, ca`failures, ca`seen
      ensures Safe(ca) && |unsettled| <= |old(unsettled)|
      ensures Evolves(old(ca.authorizations), ca.authorizations) && old(ca.seen) <= ca.seen
      ensures ok ==> unsettled == [] && NoneFailed(ca.seen, |old(ca.seen)|) && ca.failures == old(ca.failures)
      ensures ok ==> forall i :: 0 <= i < |old(unsettled)| ==>
                       SeenValid(ca.seen, |old(ca.seen)|, old(unsettled)[i])
      ensures !ok ==> || cancelled || ca.failures > old(ca.failures) || !NoneFailed(ca.seen, |old(ca.seen)|)
                      || (unsettled != [] && ca.readsMade >= old(ca.readsMade) + 61)
      ensures old(ca.readsMade) <= ca.readsMade <= old(ca.readsMade) + Reads(61, |old(unsettled)|)
      ensures ca.failures >= old(ca.failures)
    {
      hide Reads;
      OneMoreRead(0, |unsettled|);
      cancelled := false;
      ghost var from := |ca.seen|;
      var polls := 0;
      while true
        invariant 0 <= polls <= AUTHORIZATION_POLLS && |unsettled| <= |old(unsettled)|
        invariant Safe(ca) && Evolves(old(ca.authorizations), ca.authorizations)
        invariant ca.readsMade <= old(ca.readsMade) + Reads(polls, |old(unsettled)|)
        invariant (polls > 0 ==> unsettled != []) && ca.readsMade >= old(ca.readsMade) + polls
        invariant old(ca.seen) <= ca.seen && ca.failures == old(ca.failures) && NoneFailed(ca.seen, from)
        invariant forall url :: url in old(unsettled) ==> url in unsettled || SeenValid(ca.seen, from, url)
        decreases AUTHORIZATION_POLLS - polls
      {
        ghost var before, heard := ca.authorizations, ca.seen;
        FewerReads(polls + 1, AUTHORIZATION_POLLS + 1, |old(unsettled)|);
        ok := Sweep(ca);
        EvolvesTwice(old(ca.authorizations), before, ca.authorizations);
        HeardMore(heard, ca.seen, from);
        HeardLater(ca.seen, |heard|, from);
        OneMoreRead(polls, |old(unsettled)|);
        if !ok {
          return false, false;
        }
        if unsettled == [] {
          return true, false;
        }
        polls := polls + 1;
        if polls > AUTHORIZATION_POLLS {
          return false, false;
        }
        if * {
          return false, true;
        }
      }
    }

    /**
     * The cancellable part: wherever it ends, what the CA may still be checking is unsettled. No challenge is answered
     * before every record is published, and when it succeeds, every authorization was answered and then heard to be
     * valid, and so was the order. It fails only if it was stopped, a record or a request failed, an authorization did
     * or was still pending at the 61st look, or the order or its certificate was not right.
     */
    method RunAttempt(ca: Ca, dns: Dns, pending: seq<Answer>) returns (ok: bool, stopped: bool, otherKey: bool)
      requires records == [] && unsettled == [] && ca.answered == {}
      modifies this, dns`published, dns`failures
      modifies ca`authorizations, ca`answered, ca`readsMade, ca`failures, ca`seen, ca`ordersSeen, ca`finalized
      ensures Safe(ca) && |unsettled| <= |pending| && old(ca.seen) <= ca.seen && dns.failures >= old(dns.failures)
      ensures ca.failures >= old(ca.failures) && ca.readsMade >= old(ca.readsMade)
      ensures ca.answered != {} ==> forall i :: 0 <= i < |pending| ==>
                Txt(RecordFor(pending[i]).0, pending[i].value) in records
      ensures forall k :: 0 <= k < |records| ==> records[k] in dns.published
      ensures forall url :: url in ca.answered ==> Covered(pending, url)
      ensures ok ==> unsettled == [] && forall i :: 0 <= i < |pending| ==>
                pending[i].url in ca.answered && SeenValid(ca.seen, |old(ca.seen)|, pending[i].url)
      ensures ok ==> ca.failures == old(ca.failures) && NoneFailed(ca.seen, |old(ca.seen)|)
      ensures ok ==> ca.ordersSeen != [] && ca.ordersSeen[|ca.ordersSeen| - 1].status == Issued
                     && ca.ordersSeen[|ca.ordersSeen| - 1].certificate
      ensures ca.finalized <= old(ca.finalized) + 1
      ensures !ok ==> || stopped || otherKey || ca.failures > old(ca.failures) || !NoneFailed(ca.seen, |old(ca.seen)|)
                      || dns.failures > old(dns.failures)
                      || (unsettled != [] && ca.readsMade >= old(ca.readsMade) + 61)
                      || (ca.ordersSeen != [] && !HasCertificate(ca.ordersSeen[|ca.ordersSeen| - 1]))
    {
      stopped, otherKey := false, false;
      var wanted := Wanted(pending);
      ok := CreateRecords(dns, wanted);
      if !ok {
        return;
      }
      if * {
        return false, true, false;
      }
      ok := AnswerAll(ca, pending);
      if !ok {
        return;
      }
      ok, stopped := Poll(ca);
      if !ok {
        return;
      }
      ok, otherKey := FinishOrder(ca);
    }

    /**
     * Deactivates what is unsettled, and asks for the deletion of every record if nothing can be checking them any
     * more. A deletion that fails is not tried again here.
     */
    method CleanUp(ca: Ca, dns: Dns) returns (deleted: bool)
      requires Safe(ca)
      modifies ca`authorizations, ca`readsMade, ca`failures, ca`seen, dns`published, dns`deletions
      ensures old(ca.seen) <= ca.seen && ca.failures >= old(ca.failures) && ca.readsMade >= old(ca.readsMade)
      ensures deleted ==> forall url :: url in ca.answered ==> ca.Settled(url)
      ensures deleted ==> dns.deletions == old(dns.deletions) + set i | 0 <= i < |records| :: records[i]
      ensures deleted ==> old(dns.published) - dns.deletions <= dns.published <= old(dns.published)
      ensures !deleted ==> dns.published == old(dns.published) && dns.deletions == old(dns.deletions)
      ensures !deleted ==> unsettled != [] && ca.failures > old(ca.failures)
    {
      var settled := true;
      for i := 0 to |unsettled|
        invariant Safe(ca) && dns.published == old(dns.published) && dns.deletions == old(dns.deletions)
        invariant old(ca.seen) <= ca.seen && ca.readsMade >= old(ca.readsMade)
        invariant settled ==> forall k :: 0 <= k < i ==> ca.Settled(unsettled[k])
        invariant ca.failures >= old(ca.failures) && (!settled ==> unsettled != [] && ca.failures > old(ca.failures))
      {
        var ok := Deactivate(ca, unsettled[i]);
        if !ok {
          settled := false;
        }
      }
      deleted := settled;
      if settled {
        for i := 0 to |records|
          invariant ca.failures >= old(ca.failures) && ca.readsMade >= old(ca.readsMade)
          invariant old(ca.seen) <= ca.seen && forall url :: url in ca.answered ==> ca.Settled(url)
          invariant dns.deletions == old(dns.deletions) + set k | 0 <= k < i :: records[k]
          invariant old(dns.published) - dns.deletions <= dns.published <= old(dns.published)
        {
          ca.Advance();
          var ok := dns.DeleteTxt(records[i], ca);
        }
      }
    }
  }

  // --- The order -----------------------------------------------------------------------------------------------

  const ORDER_POLLS := 30

  predicate HasCertificate(o: Order) { o.status == Issued && o.certificate }

  predicate HeardReady(orders: seq<Order>, from: nat) {
    exists i :: from <= i < |orders| && orders[i].status == Ready && orders[i].finalizable
  }

  lemma ReadyStaysHeard(orders: seq<Order>, more: seq<Order>, from: nat)
    requires orders <= more
    ensures HeardReady(orders, from) ==> HeardReady(more, from)
  {
    if HeardReady(orders, from) {
      var i :| from <= i < |orders| && orders[i].status == Ready && orders[i].finalizable;
      assert more[i] == orders[i];
    }
  }

  /** Reads the order until it is no longer in the given state, 30 times more at most. */
  method AwaitOrder(ca: Ca, first: Order, status: OrderStatus) returns (r: Option<Order>)
    requires ca.ordersSeen != [] && first == ca.ordersSeen[|ca.ordersSeen| - 1]
    modifies ca`authorizations, ca`failures, ca`ordersSeen
    ensures Evolves(old(ca.authorizations), ca.authorizations) && old(ca.ordersSeen) <= ca.ordersSeen
    ensures ca.failures == old(ca.failures) + if r.None? then 1 else 0
    ensures r.Some? ==> r.value == ca.ordersSeen[|ca.ordersSeen| - 1]
    ensures r.Some? && r.value.status == status ==> |ca.ordersSeen| == |old(ca.ordersSeen)| + 30
    ensures |ca.ordersSeen| <= |old(ca.ordersSeen)| + 30
    ensures forall i :: |old(ca.ordersSeen)| - 1 <= i < |ca.ordersSeen| - 1 ==> ca.ordersSeen[i].status == status
  {
    var order := first;
    for i := 0 to ORDER_POLLS
      invariant Evolves(old(ca.authorizations), ca.authorizations) && ca.failures == old(ca.failures)
      invariant old(ca.ordersSeen) <= ca.ordersSeen && |ca.ordersSeen| == |old(ca.ordersSeen)| + i
      invariant order == ca.ordersSeen[|ca.ordersSeen| - 1]
      invariant forall k :: |old(ca.ordersSeen)| - 1 <= k < |ca.ordersSeen| - 1 ==> ca.ordersSeen[k].status == status
    {
      if order.status != status {
        return Some(order);
      }
      ghost var before := ca.authorizations;
      var next := ca.GetOrder();
      EvolvesTwice(old(ca.authorizations), before, ca.authorizations);
      if next.None? {
        return None;
      }
      order := next.value;
    }
    r := Some(order);
  }

  /** Asks for the certificate of an order that is ready, if it says where, and reads it again. */
  method AskToFinalize(ca: Ca, order: Order) returns (next: Option<Order>)
    requires ca.ordersSeen != [] && order == ca.ordersSeen[|ca.ordersSeen| - 1]
    modifies ca`authorizations, ca`failures, ca`ordersSeen, ca`finalized
    ensures Evolves(old(ca.authorizations), ca.authorizations) && ca.failures >= old(ca.failures)
    ensures ca.finalized == old(ca.finalized) + if order.finalizable then 1 else 0
    ensures next.None? ==> ca.ordersSeen == old(ca.ordersSeen)
    ensures next.None? ==> (ca.failures > old(ca.failures) <==> order.finalizable)
    ensures next.Some? ==> ca.ordersSeen == old(ca.ordersSeen) + [next.value] && ca.failures == old(ca.failures)
    ensures next.Some? ==> order.finalizable
  {
    if !order.finalizable {
      return None;
    }
    var asks := ca.Finalize();
    if !asks {
      return None;
    }
    ghost var before := ca.authorizations;
    next := ca.GetOrder();
    EvolvesTwice(old(ca.authorizations), before, ca.authorizations);
  }

  /**
   * From authorizations that are valid to the certificate. The order is finalized once if it is heard to be ready, and
   * not otherwise; it succeeds iff the order ends up issued and every request is answered, with a certificate for the
   * right key.
   */
  method FinishOrder(ca: Ca) returns (ok: bool, otherKey: bool)
    modifies ca`authorizations, ca`failures, ca`ordersSeen, ca`finalized
    ensures Evolves(old(ca.authorizations), ca.authorizations) && old(ca.ordersSeen) <= ca.ordersSeen
    ensures ok ==> |ca.ordersSeen| > |old(ca.ordersSeen)| && ca.failures == old(ca.failures)
    ensures ca.failures == old(ca.failures) ==> |ca.ordersSeen| > |old(ca.ordersSeen)|
    ensures ca.failures == old(ca.failures) ==>
              (ok <==> HasCertificate(ca.ordersSeen[|ca.ordersSeen| - 1]) && !otherKey)
    ensures ca.failures >= old(ca.failures)
    ensures old(ca.finalized) <= ca.finalized <= old(ca.finalized) + 1
    ensures ca.finalized > old(ca.finalized) ==> HeardReady(ca.ordersSeen, |old(ca.ordersSeen)|)
    ensures ca.finalized > old(ca.finalized) && ca.failures == old(ca.failures) ==>
              |ca.ordersSeen| > 0 && HeardReady(ca.ordersSeen[..|ca.ordersSeen| - 1], |old(ca.ordersSeen)|)
    ensures ca.failures == old(ca.failures) && |ca.ordersSeen| > |old(ca.ordersSeen)|
            && ca.ordersSeen[|old(ca.ordersSeen)|].status == Ready
            && ca.ordersSeen[|old(ca.ordersSeen)|].finalizable ==>
              ca.finalized == old(ca.finalized) + 1
    ensures |ca.ordersSeen| <= |old(ca.ordersSeen)| + 62
  {
    hide Evolves;
    ok, otherKey := false, false;
    ghost var from := |ca.ordersSeen|;
    var first := ca.GetOrder();
    if first.None? {
      return;
    }
    ghost var before := ca.authorizations;
    var order := AwaitOrder(ca, first.value, Unauthorized);
    EvolvesTwice(old(ca.authorizations), before, ca.authorizations);
    if order.None? {
      return;
    }
    ghost var heard := ca.ordersSeen;
    if order.value.status == Ready {
      before := ca.authorizations;
      assert order.value.finalizable ==> HeardReady(heard, from);
      order := AskToFinalize(ca, order.value);
      EvolvesTwice(old(ca.authorizations), before, ca.authorizations);
      if order.None? {
        return;
      }
      assert ca.ordersSeen[..|ca.ordersSeen| - 1] == heard;
      ReadyStaysHeard(heard, ca.ordersSeen, from);
    }
    hide HeardReady;
    heard := ca.ordersSeen;
    before := ca.authorizations;
    ok, otherKey := Collect(ca, order.value);
    EvolvesTwice(old(ca.authorizations), before, ca.authorizations);
    ReadyStaysHeard(heard, ca.ordersSeen, from);
    ReadyStaysHeard(heard[..|heard| - 1], ca.ordersSeen[..|ca.ordersSeen| - 1], from);
  }

  /** Waits for the certificate of an order, and downloads it. */
  method Collect(ca: Ca, order: Order) returns (ok: bool, otherKey: bool)
    requires ca.ordersSeen != [] && order == ca.ordersSeen[|ca.ordersSeen| - 1]
    modifies ca`authorizations, ca`failures, ca`ordersSeen
    ensures Evolves(old(ca.authorizations), ca.authorizations) && old(ca.ordersSeen) <= ca.ordersSeen
    ensures ca.failures >= old(ca.failures) && (ok ==> ca.failures == old(ca.failures))
    ensures ca.failures == old(ca.failures) ==>
              (ok <==> HasCertificate(ca.ordersSeen[|ca.ordersSeen| - 1]) && !otherKey)
    ensures |ca.ordersSeen| <= |old(ca.ordersSeen)| + 30
  {
    ok, otherKey := false, false;
    var last := AwaitOrder(ca, order, Processing);
    if last.None? || !HasCertificate(last.value) {
      return;
    }
    ghost var before := ca.authorizations;
    var certificate := ca.Download();
    EvolvesTwice(old(ca.authorizations), before, ca.authorizations);
    if certificate.Some? {
      ok, otherKey := certificate.value, !certificate.value;
    }
  }

  /** Heard from a later point on is heard. */
  lemma HeardLater(seen: Log, from: nat, earlier: nat)
    requires earlier <= from
    ensures forall url :: SeenValid(seen, from, url) ==> SeenValid(seen, earlier, url)
  {
  }

  /** So many looks at so many authorizations. */
  function Reads(polls: nat, n: nat): nat { polls * n }

  lemma OneMoreRead(polls: nat, n: nat)
    ensures Reads(polls + 1, n) == Reads(polls, n) + n && Reads(0, n) == 0
  {
  }

  lemma FewerReads(a: nat, b: nat, n: nat)
    requires a <= b
    ensures Reads(a, n) <= Reads(b, n)
  {
  }

  lemma TakenOff(urls: seq<Url>, index: nat)
    requires index < |urls|
    ensures forall url :: url in urls ==> url == urls[index] || url in urls[..index] + urls[index + 1..]
  {
    forall url | url in urls && url != urls[index] ensures url in urls[..index] + urls[index + 1..] {
      var i :| 0 <= i < |urls| && urls[i] == url;
      if i < index { assert urls[..index][i] == url; } else { assert urls[index + 1..][i - index - 1] == url; }
    }
  }

  /**
   * Why an attempt failed: it was stopped, a request or a record failed, its order or the one before could not succeed,
   * an authorization it answered failed or was still pending at the 61st look, or the certificate was not right. The
   * log is that of the order up to `placed`, and of the attempt up to `attempted`.
   */
  ghost predicate HasReason(ca: Ca, dns: Dns, requests: nat, records: nat, looks: nat, from: nat, placed: nat,
                            attempted: nat, stopped: bool, otherKey: bool)
    requires from <= placed <= attempted <= |ca.seen|
    reads ca, dns
  {
    || stopped || otherKey || ca.failures > requests || dns.failures > records
    || HopelessSeen(ca.seen[..placed], from) || !NoneFailed(ca.seen[..attempted], placed) || ca.readsMade >= looks + 61
    || (ca.ordersSeen != [] && !HasCertificate(ca.ordersSeen[|ca.ordersSeen| - 1]))
  }

  /**
   * A whole attempt. It succeeds only if every authorization of its order was heard to be valid, those it answered
   * after its answer, and fails only for a reason. Wherever it fails or is cancelled, it asks for the deletion of
   * challenge records only when no authorization it answered can still be checked; if it succeeds it always does.
   */
  method Issue(ca: Ca, dns: Dns)
    returns (ok: bool, deleted: bool, order: seq<Url>, stopped: bool, otherKey: bool, ghost placed: nat,
             ghost attempted: nat)
    requires ca.answered == {}
    modifies ca, dns
    ensures old(ca.seen) <= ca.seen && |old(ca.seen)| <= placed <= attempted <= |ca.seen|
    ensures ok ==> forall url :: url in order || url in ca.answered ==> SeenValid(ca.seen, |old(ca.seen)|, url)
    ensures !ok ==> HasReason(ca, dns, old(ca.failures), old(dns.failures), old(ca.readsMade), |old(ca.seen)|, placed,
                              attempted, stopped, otherKey)
    ensures deleted ==> forall url :: url in ca.answered ==> ca.Settled(url)
    ensures !deleted ==> dns.deletions == old(dns.deletions)
    ensures ok ==> deleted
  {
    ghost var from := |ca.seen|;
    ok, deleted, stopped, otherKey := false, false, false, false;
    var pending;
    pending, order := PlaceOrder(ca);
    placed, attempted := |ca.seen|, |ca.seen|;
    if pending.None? {
      assert ca.seen[..placed] == ca.seen;
      return;
    }
    if * {
      stopped := true;
      return;
    }
    ghost var before := ca.seen;
    var attempt := new Attempt();
    ok, stopped, otherKey := attempt.RunAttempt(ca, dns, pending.value);
    attempted := |ca.seen|;
    ghost var heard := ca.seen;
    if ok {
      HeardMore(before, heard, from);
      HeardLater(heard, placed, from);
      forall url | url in order || url in ca.answered ensures SeenValid(heard, from, url) {}
    }
    deleted := attempt.CleanUp(ca, dns);
    HeardMore(heard, ca.seen, from);
    assert ca.seen[..attempted] == heard;
  }
}
