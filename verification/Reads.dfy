/**
 * Reads of single tunnels, taken together into batches (store.rs): callers queue what they want and wait, up to eight
 * workers take batches of up to 200 and answer each caller with its own row.
 */
module Reads {
  import opened Common

  const READ_BATCH: nat := 200
  const READ_BATCHES: nat := 8

  type Id = string
  type Row = string
  type Table = map<Id, Row>

  /** A caller that waits: its ticket and the tunnel it wants. */
  datatype Waiter = Waiter(ticket: nat, id: Id)

  function Min(a: nat, b: nat): nat { if a < b then a else b }

  // --- The queue, in place -------------------------------------------------------------------------------------

  class Queue {
    var waiting: seq<Waiter>
    var running: nat

    constructor ()
      ensures waiting == [] && running == 0
    {
      waiting, running := [], 0;
    }

    /** Whoever waits has a worker running, and never more run than may. */
    ghost predicate Valid()
      reads this
    {
      running <= READ_BATCHES && (waiting != [] ==> running > 0)
    }

    /** A caller queues; a worker starts unless as many run as may. */
    method Ask(w: Waiter) returns (start: bool)
      requires Valid()
      modifies this
      ensures Valid() && waiting == old(waiting) + [w]
      ensures start <==> old(running) < READ_BATCHES
      ensures running == old(running) + if start then 1 else 0
    {
      waiting := waiting + [w];
      start := running < READ_BATCHES;
      if start {
        running := running + 1;
      }
    }

    /** A worker takes what has waited longest, or ends when nothing waits. */
    method NextBatch() returns (batch: Option<seq<Waiter>>)
      requires Valid() && running > 0
      modifies this
      ensures Valid()
      ensures batch.None? <==> old(waiting) == []
      ensures batch.None? ==> running == old(running) - 1 && waiting == []
      ensures batch.Some? ==> && batch.value + waiting == old(waiting) && 0 < |batch.value| <= READ_BATCH
                              && (waiting != [] ==> |batch.value| == READ_BATCH) && running == old(running)
    {
      if waiting == [] {
        running := running - 1;
        return None;
      }
      var take := Min(|waiting|, READ_BATCH);
      batch := Some(waiting[..take]);
      waiting := waiting[take..];
    }
  }

  // --- Any number of callers and workers -----------------------------------------------------------------------

  /**
   * A worker between batches, with a batch it took at a moment, or with the rows of its batch, each as the table was
   * at a moment of its own: IDs that need a statement of their own are read separately.
   */
  datatype Worker = Idle | Asking(items: seq<Waiter>, since: nat) | Holding(items: seq<Waiter>, moments: seq<nat>)

  datatype Answer = Found(row: Option<Row>) | Unavailable

  /** Where a caller is. */
  datatype Place = Queued | With(worker: nat) | Done

  /** When a caller asked and for what. */
  datatype Asked = Asked(id: Id, moment: nat)

  /** The table at every moment so far, the queue, the workers, and the callers with their answers. */
  datatype Sys = Sys(history: seq<Table>, waiting: seq<Waiter>, running: nat, workers: map<nat, Worker>,
                     asked: map<nat, Asked>, place: map<nat, Place>, answers: map<nat, Answer>)

  datatype Step =
    | Write(table: Table)
    | Ask(ticket: nat, id: Id, worker: nat)
    | Pick(worker: nat)
    | Query(worker: nat, moments: seq<nat>)
    | Fail(worker: nat)
    | Reply(worker: nat)

  const INIT := Sys([map[]], [], 0, map[], map[], map[], map[])

  function Items(w: Worker): seq<Waiter> { if w.Idle? then [] else w.items }

  function Tickets(items: seq<Waiter>): set<nat> { set i | 0 <= i < |items| :: items[i].ticket }

  function Moved(place: map<nat, Place>, tickets: set<nat>, to: Place): map<nat, Place> {
    map t | t in place :: if t in tickets then to else place[t]
  }

  function DoAsk(s: Sys, ticket: nat, id: Id, worker: nat): Sys {
    if ticket in s.asked || worker in s.workers || s.history == [] then s
    else
      var t := s.(waiting := s.waiting + [Waiter(ticket, id)], asked := s.asked[ticket := Asked(id, |s.history| - 1)],
                  place := s.place[ticket := Queued]);
      if s.running < READ_BATCHES then t.(running := s.running + 1, workers := s.workers[worker := Idle]) else t
  }

  function DoPick(s: Sys, worker: nat): Sys {
    if worker !in s.workers || !s.workers[worker].Idle? || s.history == [] then s
    else if s.waiting == [] then
      s.(running := if s.running > 0 then s.running - 1 else 0, workers := s.workers - {worker})
    else
      var take := Min(|s.waiting|, READ_BATCH);
      s.(waiting := s.waiting[take..], workers := s.workers[worker := Asking(s.waiting[..take], |s.history| - 1)],
         place := Moved(s.place, Tickets(s.waiting[..take]), With(worker)))
  }

  /** One moment for each caller of the batch, since the batch was taken. */
  predicate Moments(w: Worker, moments: seq<nat>, now: nat)
    requires w.Asking?
  {
    |moments| == |w.items| && forall i :: 0 <= i < |moments| ==> w.since <= moments[i] < now
  }

  /** The database answered a batch, with rows as they were at moments since it was taken. */
  function DoQuery(s: Sys, worker: nat, moments: seq<nat>): Sys {
    if worker !in s.workers || !s.workers[worker].Asking? || !Moments(s.workers[worker], moments, |s.history|) then s
    else s.(workers := s.workers[worker := Holding(s.workers[worker].items, moments)])
  }

  function Lookup(table: Table, id: Id): Option<Row> { if id in table then Some(table[id]) else None }

  /** Each caller's row as it was at its moment. */
  function Rows(items: seq<Waiter>, moments: seq<nat>, history: seq<Table>): (sent: seq<Answer>)
    requires |moments| == |items| && forall i :: 0 <= i < |moments| ==> moments[i] < |history|
    ensures |sent| == |items|
    ensures forall i :: 0 <= i < |items| ==> sent[i] == Found(Lookup(history[moments[i]], items[i].id))
  {
    seq(|items|, i requires 0 <= i < |items| => Found(Lookup(history[moments[i]], items[i].id)))
  }

  function Failures(n: nat): (sent: seq<Answer>)
    ensures |sent| == n && forall i :: 0 <= i < n ==> sent[i] == Unavailable
  {
    seq(n, _ => Unavailable)
  }

  /** Each caller of the batch is sent its answer. */
  function Answered(answers: map<nat, Answer>, items: seq<Waiter>, sent: seq<Answer>): map<nat, Answer>
    requires |sent| == |items|
    decreases |items|
  {
    if items == [] then answers
    else Answered(answers[items[0].ticket := sent[0]], items[1..], sent[1..])
  }

  function DoSend(s: Sys, worker: nat, sent: seq<Answer>): Sys
    requires worker in s.workers && |sent| == |Items(s.workers[worker])|
  {
    var items := Items(s.workers[worker]);
    s.(workers := s.workers[worker := Idle], answers := Answered(s.answers, items, sent),
       place := Moved(s.place, Tickets(items), Done))
  }

  function Take(s: Sys, step: Step): Sys {
    match step
    case Write(table) => s.(history := s.history + [table])
    case Ask(ticket, id, worker) => DoAsk(s, ticket, id, worker)
    case Pick(worker) => DoPick(s, worker)
    case Query(worker, moments) => DoQuery(s, worker, moments)
    case Fail(worker) =>
      if worker in s.workers && s.workers[worker].Asking? then DoSend(s, worker, Failures(|s.workers[worker].items|))
      else s
    case Reply(worker) => if Replies(s, worker) then DoSend(s, worker, RowsOf(s, worker)) else s
  }

  predicate Replies(s: Sys, worker: nat) {
    && worker in s.workers && s.workers[worker].Holding? && |s.workers[worker].moments| == |s.workers[worker].items|
    && forall i :: 0 <= i < |s.workers[worker].moments| ==> s.workers[worker].moments[i] < |s.history|
  }

  function RowsOf(s: Sys, worker: nat): (sent: seq<Answer>)
    requires Replies(s, worker)
    ensures |sent| == |Items(s.workers[worker])|
  {
    Rows(s.workers[worker].items, s.workers[worker].moments, s.history)
  }

  function Run(s: Sys, steps: seq<Step>): Sys
    decreases |steps|
  {
    if steps == [] then s else Run(Take(s, steps[0]), steps[1..])
  }

  // --- Invariants ----------------------------------------------------------------------------------------------

  ghost predicate WorkersCounted(s: Sys) {
    s.running == |s.workers| <= READ_BATCHES && (s.waiting != [] ==> s.running > 0)
  }

  /** Every caller listed asked for what is listed, and its place says so. */
  ghost predicate Listed(items: seq<Waiter>, asked: map<nat, Asked>, place: map<nat, Place>, at: Place) {
    && (forall i :: 0 <= i < |items| ==>
          && items[i].ticket in asked && items[i].ticket in place
          && asked[items[i].ticket].id == items[i].id && place[items[i].ticket] == at)
    && (forall i, j :: 0 <= i < j < |items| ==> items[i].ticket != items[j].ticket)
  }

  ghost predicate AllListed(s: Sys) {
    && s.asked.Keys == s.place.Keys
    && Listed(s.waiting, s.asked, s.place, Queued)
    && (forall w :: w in s.workers ==> Listed(Items(s.workers[w]), s.asked, s.place, With(w)))
  }

  /** Everyone is where its place says. */
  ghost predicate QueuedWait(place: map<nat, Place>, waiting: seq<Waiter>) {
    forall t :: t in place && place[t] == Queued ==> t in Tickets(waiting)
  }

  ghost predicate WithWorker(place: map<nat, Place>, workers: map<nat, Worker>) {
    forall t :: t in place && place[t].With? ==>
      place[t].worker in workers && t in Tickets(Items(workers[place[t].worker]))
  }

  ghost predicate DoneIsAnswered(place: map<nat, Place>, answers: map<nat, Answer>) {
    && (forall t :: t in answers ==> t in place)
    && (forall t :: t in place ==> (place[t] == Done <==> t in answers))
  }

  ghost predicate AllPlaced(s: Sys) {
    QueuedWait(s.place, s.waiting) && WithWorker(s.place, s.workers) && DoneIsAnswered(s.place, s.answers)
  }

  /** An answer is the caller's own row as it was at some moment after it asked. */
  ghost predicate RightAnswer(a: Answer, q: Asked, history: seq<Table>) {
    a.Found? ==> exists k :: q.moment <= k < |history| && a.row == Lookup(history[k], q.id)
  }

  /** A worker's batch was taken, and its rows read, after its callers asked. */
  ghost predicate Timely(w: Worker, asked: map<nat, Asked>, now: nat) {
    match w
    case Idle => true
    case Asking(items, since) =>
      && since < now
      && forall i :: 0 <= i < |items| && items[i].ticket in asked ==> asked[items[i].ticket].moment <= since
    case Holding(items, moments) =>
      && |moments| == |items|
      && forall i :: 0 <= i < |items| ==>
           moments[i] < now && (items[i].ticket in asked ==> asked[items[i].ticket].moment <= moments[i])
  }

  ghost predicate AllTimely(s: Sys) {
    && s.history != []
    && (forall t :: t in s.asked ==> s.asked[t].moment < |s.history|)
    && (forall w :: w in s.workers ==> Timely(s.workers[w], s.asked, |s.history|))
    && (forall t :: t in s.answers ==> t in s.asked && RightAnswer(s.answers[t], s.asked[t], s.history))
  }

  ghost predicate Inv(s: Sys) { WorkersCounted(s) && AllListed(s) && AllPlaced(s) && AllTimely(s) }

  // --- Steps keep them -----------------------------------------------------------------------------------------

  lemma TicketsJoin(a: seq<Waiter>, b: seq<Waiter>)
    ensures Tickets(a + b) == Tickets(a) + Tickets(b)
  {
    forall t | t in Tickets(a) + Tickets(b) ensures t in Tickets(a + b) {
      if t in Tickets(a) {
        var i :| 0 <= i < |a| && a[i].ticket == t;
        assert (a + b)[i].ticket == t;
      } else {
        var i :| 0 <= i < |b| && b[i].ticket == t;
        assert (a + b)[|a| + i].ticket == t;
      }
    }
  }

  lemma WorkersSet(workers: map<nat, Worker>, w: nat, to: Worker)
    ensures |workers[w := to]| == |workers| + if w in workers then 0 else 1
  {
    assert workers[w := to].Keys == workers.Keys + {w};
    if w in workers { assert workers.Keys + {w} == workers.Keys; }
  }

  lemma WorkersLess(workers: map<nat, Worker>, w: nat)
    requires w in workers
    ensures |workers - {w}| == |workers| - 1
  {
    assert (workers - {w}).Keys == workers.Keys - {w};
  }

  lemma PickKeepsCount(s: Sys, worker: nat)
    requires WorkersCounted(s)
    ensures WorkersCounted(DoPick(s, worker))
  {
    hide Moved, Tickets;
    if worker in s.workers {
      WorkersLess(s.workers, worker);
      if s.history != [] {
        WorkersSet(s.workers, worker, Asking(s.waiting[..Min(|s.waiting|, READ_BATCH)], |s.history| - 1));
      }
    }
  }

  lemma WorkersStayCounted(s: Sys, step: Step)
    requires WorkersCounted(s)
    ensures WorkersCounted(Take(s, step))
  {
    hide Answered, Moved, Tickets, DoPick;
    match step
    case Ask(_, _, worker) => WorkersSet(s.workers, worker, Idle);
    case Pick(worker) => PickKeepsCount(s, worker);
    case Query(worker, moments) =>
      if worker in s.workers { WorkersSet(s.workers, worker, DoQuery(s, worker, moments).workers[worker]); }
    case Fail(worker) => WorkersSet(s.workers, worker, Idle);
    case Reply(worker) => WorkersSet(s.workers, worker, Idle);
    case Write(_) =>
  }

  /** A list is unaffected by callers that are not on it. */
  lemma ListedStays(items: seq<Waiter>, asked: map<nat, Asked>, place: map<nat, Place>, at: Place,
                    asked': map<nat, Asked>, place': map<nat, Place>)
    requires Listed(items, asked, place, at)
    requires forall t :: t in asked ==> t in asked' && asked'[t] == asked[t]
    requires forall t :: t in place && place[t] == at ==> t in place' && place'[t] == at
    ensures Listed(items, asked', place', at)
  {
  }

  lemma AppendListed(items: seq<Waiter>, w: Waiter, asked: map<nat, Asked>, asked': map<nat, Asked>,
                     place': map<nat, Place>)
    requires Listed(items, asked', place', Queued) && w.ticket !in asked
    requires forall i :: 0 <= i < |items| ==> items[i].ticket in asked
    requires w.ticket in asked' && asked'[w.ticket].id == w.id && w.ticket in place' && place'[w.ticket] == Queued
    ensures Listed(items + [w], asked', place', Queued)
  {
  }

  lemma AskKeepsListed(s: Sys, ticket: nat, id: Id, worker: nat)
    requires AllListed(s)
    ensures AllListed(DoAsk(s, ticket, id, worker))
  {
    var t := DoAsk(s, ticket, id, worker);
    if t != s {
      assert ticket !in s.place;
      assert t.asked == s.asked[ticket := Asked(id, |s.history| - 1)] && t.place == s.place[ticket := Queued];
      ListedStays(s.waiting, s.asked, s.place, Queued, t.asked, t.place);
      AppendListed(s.waiting, Waiter(ticket, id), s.asked, t.asked, t.place);
      hide Listed;
      forall w | w in t.workers ensures Listed(Items(t.workers[w]), t.asked, t.place, With(w)) {
        if w in s.workers { ListedStays(Items(s.workers[w]), s.asked, s.place, With(w), t.asked, t.place); }
      }
    }
  }

  lemma BatchIsApart(waiting: seq<Waiter>, take: nat)
    requires take <= |waiting| && forall i, j :: 0 <= i < j < |waiting| ==> waiting[i].ticket != waiting[j].ticket
    ensures forall i :: 0 <= i < take ==> waiting[..take][i].ticket in Tickets(waiting[..take])
    ensures forall i :: take <= i < |waiting| ==> waiting[i].ticket !in Tickets(waiting[..take])
  {
  }

  lemma SplitListed(waiting: seq<Waiter>, take: nat, asked: map<nat, Asked>, place: map<nat, Place>, worker: nat)
    requires Listed(waiting, asked, place, Queued) && take <= |waiting|
    ensures var place' := Moved(place, Tickets(waiting[..take]), With(worker));
            Listed(waiting[take..], asked, place', Queued) && Listed(waiting[..take], asked, place', With(worker))
  {
    BatchIsApart(waiting, take);
    hide Tickets;
    assert forall i :: 0 <= i < |waiting| - take ==> waiting[take..][i] == waiting[take + i];
  }

  lemma PickKeepsListed(s: Sys, worker: nat)
    requires AllListed(s)
    ensures AllListed(DoPick(s, worker))
  {
    var t := DoPick(s, worker);
    if worker in s.workers && s.workers[worker].Idle? && s.history != [] && s.waiting != [] {
      var take := Min(|s.waiting|, READ_BATCH);
      var batch := s.waiting[..take];
      SplitListed(s.waiting, take, s.asked, s.place, worker);
      assert forall i :: 0 <= i < |batch| ==> batch[i] == s.waiting[i];
      hide Tickets, Listed, Moved;
      forall w | w in t.workers && w != worker ensures Listed(Items(t.workers[w]), t.asked, t.place, With(w)) {
        StaysElsewhere(Items(s.workers[w]), s.asked, s.place, With(w), batch, Queued, With(worker));
      }
    }
  }

  /** Moving the callers of one list leaves another list, in another place, alone. */
  lemma StaysElsewhere(items: seq<Waiter>, asked: map<nat, Asked>, place: map<nat, Place>, at: Place,
                       moved: seq<Waiter>, from: Place, to: Place)
    requires Listed(items, asked, place, at) && at != from
    requires forall i :: 0 <= i < |moved| ==> moved[i].ticket in place && place[moved[i].ticket] == from
    ensures Listed(items, asked, Moved(place, Tickets(moved), to), at)
  {
  }

  lemma SendKeepsListed(s: Sys, worker: nat, sent: seq<Answer>)
    requires AllListed(s) && worker in s.workers && |sent| == |Items(s.workers[worker])|
    ensures AllListed(DoSend(s, worker, sent))
  {
    var t, items := DoSend(s, worker, sent), Items(s.workers[worker]);
    hide Answered;
    StaysElsewhere(s.waiting, s.asked, s.place, Queued, items, With(worker), Done);
    forall w | w in t.workers && w != worker ensures Listed(Items(t.workers[w]), t.asked, t.place, With(w)) {
      StaysElsewhere(Items(s.workers[w]), s.asked, s.place, With(w), items, With(worker), Done);
    }
  }

  lemma StepKeepsListed(s: Sys, step: Step)
    requires AllListed(s)
    ensures AllListed(Take(s, step))
  {
    match step
    case Ask(ticket, id, worker) => AskKeepsListed(s, ticket, id, worker);
    case Pick(worker) => PickKeepsListed(s, worker);
    case Query(_, _) =>
    case Fail(worker) =>
      if worker in s.workers && s.workers[worker].Asking? {
        SendKeepsListed(s, worker, Failures(|s.workers[worker].items|));
      }
    case Reply(worker) => if Replies(s, worker) { SendKeepsListed(s, worker, RowsOf(s, worker)); }
    case Write(_) =>
  }

  // --- Everyone is somewhere -----------------------------------------------------------------------------------

  lemma NewcomerWaits(place: map<nat, Place>, waiting: seq<Waiter>, w: Waiter)
    requires QueuedWait(place, waiting)
    ensures QueuedWait(place[w.ticket := Queued], waiting + [w])
  {
    TicketsJoin(waiting, [w]);
    assert [w][0].ticket in Tickets([w]);
    hide Tickets;
  }

  lemma NewcomerIsElsewhere(place: map<nat, Place>, workers: map<nat, Worker>, answers: map<nat, Answer>, ticket: nat,
                            w: nat)
    requires WithWorker(place, workers) && DoneIsAnswered(place, answers) && ticket !in place && w !in workers
    ensures WithWorker(place[ticket := Queued], workers) && WithWorker(place[ticket := Queued], workers[w := Idle])
    ensures DoneIsAnswered(place[ticket := Queued], answers)
  {
    hide Tickets;
  }

  lemma AskKeepsPlaced(s: Sys, ticket: nat, id: Id, worker: nat)
    requires AllPlaced(s) && s.asked.Keys == s.place.Keys
    ensures AllPlaced(DoAsk(s, ticket, id, worker))
  {
    hide QueuedWait, WithWorker, DoneIsAnswered;
    if ticket !in s.asked && worker !in s.workers {
      assert ticket !in s.place;
      NewcomerWaits(s.place, s.waiting, Waiter(ticket, id));
      NewcomerIsElsewhere(s.place, s.workers, s.answers, ticket, worker);
    }
  }

  lemma PickedWait(place: map<nat, Place>, batch: seq<Waiter>, rest: seq<Waiter>, to: nat)
    requires QueuedWait(place, batch + rest)
    ensures QueuedWait(Moved(place, Tickets(batch), With(to)), rest)
  {
    TicketsJoin(batch, rest);
    hide Tickets;
  }

  lemma PickedAreWith(place: map<nat, Place>, workers: map<nat, Worker>, batch: seq<Waiter>, since: nat, to: nat)
    requires WithWorker(place, workers) && to in workers && workers[to].Idle?
    ensures WithWorker(Moved(place, Tickets(batch), With(to)), workers[to := Asking(batch, since)])
  {
    assert Tickets([]) == {};
    hide Tickets;
  }

  /** Callers of a list who are not done stay without an answer when they move. */
  lemma MovedAreNotDone(place: map<nat, Place>, answers: map<nat, Answer>, batch: seq<Waiter>, to: nat)
    requires DoneIsAnswered(place, answers)
    requires forall i :: 0 <= i < |batch| ==> batch[i].ticket in place && place[batch[i].ticket] != Done
    ensures DoneIsAnswered(Moved(place, Tickets(batch), With(to)), answers)
  {
  }

  lemma PickKeepsPlaced(s: Sys, worker: nat)
    requires AllPlaced(s) && AllListed(s)
    ensures AllPlaced(DoPick(s, worker))
  {
    if worker in s.workers && s.workers[worker].Idle? && s.history != [] {
      if s.waiting == [] {
        NobodyWith(s.place, s.workers, worker);
      } else {
        var take := Min(|s.waiting|, READ_BATCH);
        assert s.waiting == s.waiting[..take] + s.waiting[take..];
        PickedWait(s.place, s.waiting[..take], s.waiting[take..], worker);
        PickedAreWith(s.place, s.workers, s.waiting[..take], |s.history| - 1, worker);
        assert Listed(s.waiting, s.asked, s.place, Queued);
        MovedAreNotDone(s.place, s.answers, s.waiting[..take], worker);
      }
      hide Tickets, AllListed, QueuedWait, WithWorker, DoneIsAnswered, Listed, Moved;
    }
  }

  lemma NobodyWith(place: map<nat, Place>, workers: map<nat, Worker>, w: nat)
    requires WithWorker(place, workers) && w in workers && workers[w].Idle?
    ensures WithWorker(place, workers - {w})
  {
    assert Tickets([]) == {};
    hide Tickets;
  }

  /** Sending answers every caller of the batch, and no other caller's answer changes. */
  lemma {:induction false} AnsweredIs(answers: map<nat, Answer>, items: seq<Waiter>, sent: seq<Answer>)
    requires |sent| == |items| && forall i, j :: 0 <= i < j < |items| ==> items[i].ticket != items[j].ticket
    ensures Answered(answers, items, sent).Keys == answers.Keys + Tickets(items)
    ensures forall t :: t in answers && t !in Tickets(items) ==> Answered(answers, items, sent)[t] == answers[t]
    ensures forall i :: 0 <= i < |items| ==> Answered(answers, items, sent)[items[i].ticket] == sent[i]
    decreases |items|
  {
    if items != [] {
      var first, rest, next := items[0], items[1..], answers[items[0].ticket := sent[0]];
      AnsweredIs(next, rest, sent[1..]);
      TicketsOfFirst(items);
      assert forall i :: 0 <= i < |rest| ==> rest[i] == items[i + 1] && sent[1..][i] == sent[i + 1];
      var after := Answered(answers, items, sent);
      assert after == Answered(next, rest, sent[1..]);
      hide Tickets, Answered;
      assert after[first.ticket] == sent[0];
      forall i | 0 < i < |items| ensures after[items[i].ticket] == sent[i] { assert items[i] == rest[i - 1]; }
    }
  }

  lemma TicketsOfFirst(items: seq<Waiter>)
    requires items != [] && forall i, j :: 0 <= i < j < |items| ==> items[i].ticket != items[j].ticket
    ensures Tickets(items) == {items[0].ticket} + Tickets(items[1..]) && items[0].ticket !in Tickets(items[1..])
  {
    assert items == [items[0]] + items[1..];
    TicketsJoin([items[0]], items[1..]);
    assert [items[0]][0].ticket in Tickets([items[0]]);
    assert Tickets([items[0]]) == {items[0].ticket};
  }

  lemma SentAreDone(place: map<nat, Place>, workers: map<nat, Worker>, waiting: seq<Waiter>, w: nat)
    requires QueuedWait(place, waiting) && WithWorker(place, workers) && w in workers
    ensures var place' := Moved(place, Tickets(Items(workers[w])), Done);
            QueuedWait(place', waiting) && WithWorker(place', workers[w := Idle])
  {
    hide Tickets;
  }

  lemma SentAreAnswered(place: map<nat, Place>, answers: map<nat, Answer>, items: seq<Waiter>, sent: seq<Answer>)
    requires |sent| == |items|
    requires DoneIsAnswered(place, answers) && forall i :: 0 <= i < |items| ==> items[i].ticket in place
    requires forall i, j :: 0 <= i < j < |items| ==> items[i].ticket != items[j].ticket
    ensures DoneIsAnswered(Moved(place, Tickets(items), Done), Answered(answers, items, sent))
  {
    AnsweredIs(answers, items, sent);
    assert forall t :: t in Tickets(items) ==> t in place;
    hide Tickets, Answered;
  }

  lemma SendKeepsPlaced(s: Sys, worker: nat, sent: seq<Answer>)
    requires AllPlaced(s) && AllListed(s) && worker in s.workers && |sent| == |Items(s.workers[worker])|
    ensures AllPlaced(DoSend(s, worker, sent))
  {
    var items := Items(s.workers[worker]);
    assert Listed(items, s.asked, s.place, With(worker));
    hide AllListed, QueuedWait, WithWorker, DoneIsAnswered, Tickets, Moved, Answered;
    SentAreAnswered(s.place, s.answers, items, sent);
    SentAreDone(s.place, s.workers, s.waiting, worker);
  }

  lemma QueryKeepsPlaced(s: Sys, worker: nat, moments: seq<nat>)
    requires AllPlaced(s)
    ensures AllPlaced(DoQuery(s, worker, moments))
  {
    hide Tickets, QueuedWait, DoneIsAnswered;
  }

  lemma StepKeepsPlaced(s: Sys, step: Step)
    requires AllPlaced(s) && AllListed(s)
    ensures AllPlaced(Take(s, step))
  {
    assert s.asked.Keys == s.place.Keys;
    hide AllListed, DoAsk, DoPick, DoQuery, DoSend, QueuedWait, WithWorker, DoneIsAnswered;
    match step
    case Ask(ticket, id, worker) => AskKeepsPlaced(s, ticket, id, worker);
    case Pick(worker) => PickKeepsPlaced(s, worker);
    case Query(worker, moments) => QueryKeepsPlaced(s, worker, moments);
    case Fail(worker) =>
      if worker in s.workers && s.workers[worker].Asking? {
        SendKeepsPlaced(s, worker, Failures(|s.workers[worker].items|));
      }
    case Reply(worker) => if Replies(s, worker) { SendKeepsPlaced(s, worker, RowsOf(s, worker)); }
    case Write(table) =>
  }

  // --- Every answer is right -----------------------------------------------------------------------------------

  lemma RightStays(a: Answer, q: Asked, history: seq<Table>, table: Table)
    requires RightAnswer(a, q, history)
    ensures RightAnswer(a, q, history + [table])
  {
    if a.Found? {
      var k :| q.moment <= k < |history| && a.row == Lookup(history[k], q.id);
      assert (history + [table])[k] == history[k];
    }
  }

  lemma WriteKeepsTimely(s: Sys, table: Table)
    requires AllTimely(s)
    ensures AllTimely(Take(s, Write(table)))
  {
    hide RightAnswer;
    forall t | t in s.answers ensures RightAnswer(s.answers[t], s.asked[t], s.history + [table]) {
      RightStays(s.answers[t], s.asked[t], s.history, table);
    }
  }

  lemma SendKeepsTimely(s: Sys, worker: nat, sent: seq<Answer>)
    requires AllTimely(s) && AllListed(s) && worker in s.workers && |sent| == |Items(s.workers[worker])|
    requires (Replies(s, worker) && sent == RowsOf(s, worker)) || sent == Failures(|sent|)
    ensures AllTimely(DoSend(s, worker, sent))
  {
    var w := s.workers[worker];
    var items := Items(w);
    assert Listed(items, s.asked, s.place, With(worker)) && Timely(w, s.asked, |s.history|);
    forall i | 0 <= i < |items| ensures RightAnswer(sent[i], s.asked[items[i].ticket], s.history) {
      if sent[i].Found? { assert sent[i].row == Lookup(s.history[w.moments[i]], s.asked[items[i].ticket].id); }
    }
    assert Timely(Idle, s.asked, |s.history|);
    hide RightAnswer, AllListed, Moved, Rows, Failures, Tickets, Timely, Answered;
    SentAreRight(s.answers, items, sent, s.asked, s.history);
  }

  lemma SentAreRight(answers: map<nat, Answer>, items: seq<Waiter>, sent: seq<Answer>, asked: map<nat, Asked>,
                     history: seq<Table>)
    requires |sent| == |items| && forall i, j :: 0 <= i < j < |items| ==> items[i].ticket != items[j].ticket
    requires forall t :: t in answers ==> t in asked && RightAnswer(answers[t], asked[t], history)
    requires forall i :: 0 <= i < |items| ==>
               items[i].ticket in asked && RightAnswer(sent[i], asked[items[i].ticket], history)
    ensures forall t :: t in Answered(answers, items, sent) ==>
              t in asked && RightAnswer(Answered(answers, items, sent)[t], asked[t], history)
  {
    AnsweredIs(answers, items, sent);
    hide RightAnswer, Answered;
  }

  lemma StepKeepsTimely(s: Sys, step: Step)
    requires AllTimely(s) && AllListed(s)
    ensures AllTimely(Take(s, step))
  {
    match step
    case Write(table) => WriteKeepsTimely(s, table);
    case Ask(ticket, id, worker) => AskKeepsTimely(s, ticket, id, worker);
    case Pick(worker) => hide RightAnswer, AllListed;
    case Query(_, _) => hide RightAnswer, AllListed;
    case Fail(worker) =>
      if worker in s.workers && s.workers[worker].Asking? {
        SendKeepsTimely(s, worker, Failures(|s.workers[worker].items|));
      }
    case Reply(worker) => if Replies(s, worker) { SendKeepsTimely(s, worker, RowsOf(s, worker)); }
  }

  lemma AskKeepsTimely(s: Sys, ticket: nat, id: Id, worker: nat)
    requires AllTimely(s) && AllListed(s)
    ensures AllTimely(DoAsk(s, ticket, id, worker))
  {
    hide RightAnswer, Tickets;
    var t := DoAsk(s, ticket, id, worker);
    forall w | w in t.workers ensures Timely(t.workers[w], t.asked, |t.history|) {
      if w in s.workers {
        assert Timely(s.workers[w], s.asked, |s.history|) && Listed(Items(s.workers[w]), s.asked, s.place, With(w));
      }
    }
  }

  // --- Every run -----------------------------------------------------------------------------------------------

  lemma {:induction false} RunKeepsInv(s: Sys, steps: seq<Step>)
    requires Inv(s)
    ensures Inv(Run(s, steps))
    decreases |steps|
  {
    hide WorkersCounted, AllListed, AllPlaced, AllTimely, Take;
    if steps != [] {
      WorkersStayCounted(s, steps[0]);
      StepKeepsListed(s, steps[0]);
      StepKeepsPlaced(s, steps[0]);
      StepKeepsTimely(s, steps[0]);
      RunKeepsInv(Take(s, steps[0]), steps[1..]);
    }
  }

  /** A waiting read always has a live worker, at most eight run, and the count is right. */
  lemma WaitersHaveWorkers(steps: seq<Step>)
    ensures var s := Run(INIT, steps);
            s.running == |s.workers| <= 8 && (s.waiting != [] ==> s.workers != map[])
  {
    RunKeepsInv(INIT, steps);
  }

  /** Each caller waits in one place or has its answer, never both; an answer is its own row from after it asked. */
  lemma EachCallerIsAnsweredOnce(steps: seq<Step>, ticket: nat)
    requires ticket in Run(INIT, steps).asked
    ensures var s := Run(INIT, steps);
            && ticket in s.place
            && (match s.place[ticket]
                case Queued => ticket in Tickets(s.waiting)
                case With(w) => w in s.workers && ticket in Tickets(Items(s.workers[w]))
                case Done => ticket in s.answers)
            && (ticket in s.answers ==>
                  s.place[ticket] == Done && RightAnswer(s.answers[ticket], s.asked[ticket], s.history))
  {
    RunKeepsInv(INIT, steps);
  }

  /** An answer, once given, is never changed. */
  lemma {:induction false} AnswersStay(s: Sys, steps: seq<Step>, ticket: nat)
    requires Inv(s) && ticket in s.answers
    ensures var t := Run(s, steps); ticket in t.answers && t.answers[ticket] == s.answers[ticket]
    decreases |steps|
  {
    if steps != [] {
      StepKeepsAnswer(s, steps[0], ticket);
      hide WorkersCounted, AllListed, AllPlaced, AllTimely, Take;
      WorkersStayCounted(s, steps[0]);
      StepKeepsListed(s, steps[0]);
      StepKeepsPlaced(s, steps[0]);
      StepKeepsTimely(s, steps[0]);
      AnswersStay(Take(s, steps[0]), steps[1..], ticket);
    }
  }

  lemma StepKeepsAnswer(s: Sys, step: Step, ticket: nat)
    requires Inv(s) && ticket in s.answers
    ensures var t := Take(s, step); ticket in t.answers && t.answers[ticket] == s.answers[ticket]
  {
    if (step.Fail? || step.Reply?) && step.worker in s.workers {
      var items := Items(s.workers[step.worker]);
      assert Listed(items, s.asked, s.place, With(step.worker));
      assert ticket !in Tickets(items);
      AnsweredIs(s.answers, items, Failures(|items|));
      if step.Reply? && Replies(s, step.worker) { AnsweredIs(s.answers, items, RowsOf(s, step.worker)); }
      hide Answered, Tickets, Listed;
    }
  }

  // --- Every caller can be served ------------------------------------------------------------------------------

  predicate Has(answers: map<nat, Answer>, ticket: nat, a: Answer) { ticket in answers && answers[ticket] == a }

  predicate IsIdle(s: Sys, worker: nat) { worker in s.workers && s.workers[worker].Idle? }

  ghost predicate Distinct(items: seq<Waiter>) {
    forall i, j :: 0 <= i < j < |items| ==> items[i].ticket != items[j].ticket
  }

  function Batch(waiting: seq<Waiter>): seq<Waiter> { waiting[..Min(|waiting|, READ_BATCH)] }

  lemma PickTakes(s: Sys, worker: nat)
    requires IsIdle(s, worker) && s.waiting != [] && s.history != []
    ensures var t := Take(s, Pick(worker));
            && worker in t.workers && t.workers[worker] == Asking(Batch(s.waiting), |s.history| - 1)
            && t.history == s.history && t.answers == s.answers
  {
    hide Moved, Tickets;
  }

  lemma QueryReads(s: Sys, worker: nat, moments: seq<nat>)
    requires worker in s.workers && s.workers[worker].Asking? && Moments(s.workers[worker], moments, |s.history|)
    ensures var t := Take(s, Query(worker, moments));
            && t == s.(workers := s.workers[worker := Holding(s.workers[worker].items, moments)]) && Replies(t, worker)
  {
  }

  lemma ReplySends(s: Sys, worker: nat, i: nat)
    requires Replies(s, worker) && i < |s.workers[worker].items|
    requires Distinct(s.workers[worker].items)
    ensures var w := s.workers[worker]; var t := Take(s, Reply(worker));
            && IsIdle(t, worker)
            && Has(t.answers, w.items[i].ticket, Found(Lookup(s.history[w.moments[i]], w.items[i].id)))
  {
    AnsweredIs(s.answers, s.workers[worker].items, RowsOf(s, worker));
    hide Moved, Tickets, Answered;
  }

  lemma {:induction false} OneMoreStep(s: Sys, steps: seq<Step>, step: Step)
    ensures Run(s, steps + [step]) == Take(Run(s, steps), step)
    decreases |steps|
  {
    hide Take;
    if steps == [] {
      assert (steps + [step])[1..] == [] && Run(Take(s, step), []) == Take(s, step);
    } else {
      assert (steps + [step])[1..] == steps[1..] + [step];
      OneMoreStep(Take(s, steps[0]), steps[1..], step);
    }
  }

  /**
   * In every run, a worker between batches can serve any of the 200 that have waited longest: with the row of that
   * caller as it is when the batch is read.
   */
  lemma WaiterIsServed(steps: seq<Step>, worker: nat, i: nat, moments: seq<nat>)
    requires var s := Run(INIT, steps); IsIdle(s, worker) && i < |s.waiting| && i < 200
    requires |moments| == |Batch(Run(INIT, steps).waiting)|
    requires forall k :: 0 <= k < |moments| ==> moments[k] + 1 == |Run(INIT, steps).history|
    ensures var s := Run(INIT, steps);
            var t := Run(INIT, steps + [Pick(worker)] + [Query(worker, moments)] + [Reply(worker)]);
            && s.history != [] && IsIdle(t, worker)
            && Has(t.answers, s.waiting[i].ticket, Found(Lookup(s.history[|s.history| - 1], s.waiting[i].id)))
  {
    RunKeepsInv(INIT, steps);
    var s := Run(INIT, steps);
    assert Distinct(Batch(s.waiting)) && s.history != [];
    hide *;
    OneMoreStep(INIT, steps, Pick(worker));
    OneMoreStep(INIT, steps + [Pick(worker)], Query(worker, moments));
    OneMoreStep(INIT, steps + [Pick(worker)] + [Query(worker, moments)], Reply(worker));
    BatchIsServed(s, worker, i, moments);
  }

  /** A worker that finds nothing waiting ends; one whose batch could not be read tells each of its callers so. */
  lemma WorkerEndsOrTells(s: Sys, worker: nat, i: nat)
    requires s.history != [] && s.running > 0
    ensures IsIdle(s, worker) && s.waiting == [] ==>
              Take(s, Pick(worker)) == s.(workers := s.workers - {worker}, running := s.running - 1)
    ensures worker in s.workers && s.workers[worker].Asking? && Distinct(s.workers[worker].items)
            && i < |s.workers[worker].items| ==>
              IsIdle(Take(s, Fail(worker)), worker)
              && Has(Take(s, Fail(worker)).answers, s.workers[worker].items[i].ticket, Unavailable)
  {
    if worker in s.workers && s.workers[worker].Asking? && Distinct(s.workers[worker].items) {
      var items := s.workers[worker].items;
      AnsweredIs(s.answers, items, Failures(|items|));
      assert i < |items| ==> items[i].ticket in Tickets(items);
    }
    hide Moved, Tickets, Answered;
  }

  lemma BatchIsServed(s: Sys, worker: nat, i: nat, moments: seq<nat>)
    requires IsIdle(s, worker) && i < |s.waiting| && i < READ_BATCH && s.history != [] && Distinct(Batch(s.waiting))
    requires |moments| == |Batch(s.waiting)| && forall k :: 0 <= k < |moments| ==> moments[k] + 1 == |s.history|
    ensures var t := Take(Take(Take(s, Pick(worker)), Query(worker, moments)), Reply(worker));
            && IsIdle(t, worker)
            && Has(t.answers, s.waiting[i].ticket, Found(Lookup(s.history[|s.history| - 1], s.waiting[i].id)))
  {
    hide Take, Lookup, Replies, Has, Distinct;
    PickTakes(s, worker);
    var picked := Take(s, Pick(worker));
    QueryReads(picked, worker, moments);
    var read := Take(picked, Query(worker, moments));
    ReplySends(read, worker, i);
    assert Batch(s.waiting)[i] == s.waiting[i];
  }
}
