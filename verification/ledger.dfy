/**
 Bookkeeping for things that are asked for once and must be answered once: calls,
 connect requests, stream handles.
*/
module Ledgers {
  import opened Bytes
  import opened Statuses

  type Id = nat

  predicate Distinct(ids: seq<Id>) {
    forall i, j | 0 <= i < j < |ids| :: ids[i] != ids[j]
  }

  function Elements(ids: seq<Id>): set<Id> {
    set id | id in ids
  }

  /** The answers given so far, per id, in order. */
  type Answers = map<Id, seq<Status>>

  function Given(a: Answers, id: Id): seq<Status> {
    if id in a then a[id] else []
  }

  function Answer(a: Answers, id: Id, status: Status): Answers {
    a[id := Given(a, id) + [status]]
  }

  function AnswerAll(a: Answers, ids: set<Id>, status: Status): Answers {
    map id | id in a.Keys + ids :: if id in ids then Given(a, id) + [status] else a[id]
  }

  /** `known`: everything asked for; `queue`: what waits; `live`: what is under way; `answers`: what was answered. */
  datatype Ledger = Ledger(known: set<Id>, queue: seq<Id>, live: set<Id>, answers: Answers) {
    /** Everything known is in exactly one place, and what was answered was answered once. */
    ghost predicate Balanced() {
      && Apart()
      && known == Elements(queue) + live + answers.Keys
    }

    ghost predicate Apart() {
      && Distinct(queue)
      && Elements(queue) !! live && Elements(queue) !! answers.Keys && live !! answers.Keys
      && forall id <- answers :: |answers[id]| == 1
    }

    /** Balanced, but for `id`, which is known and nowhere else. */
    ghost predicate InTransit(id: Id) {
      && Apart()
      && id !in queue && id !in live && id !in answers
      && known == Elements(queue) + live + answers.Keys + {id}
    }

    function Admit(id: Id): Ledger {
      this.(known := known + {id})
    }

    function Release(): Ledger
      requires queue != []
    {
      this.(queue := queue[1..])
    }

    function Wait(id: Id): Ledger {
      this.(queue := queue + [id])
    }

    function Begin(id: Id): Ledger {
      this.(live := live + {id})
    }

    function Settle(id: Id, status: Status): Ledger {
      this.(answers := Answer(answers, id, status))
    }

    /** Answers everything that waits. */
    function SettleQueue(status: Status): Ledger {
      this.(queue := [], answers := AnswerAll(answers, Elements(queue), status))
    }

    /** Answers those of `ids` that are under way. */
    function SettleLive(ids: set<Id>, status: Status): Ledger {
      this.(live := live - ids, answers := AnswerAll(answers, ids * live, status))
    }
  }

  const BLANK := Ledger({}, [], {}, map[])

  lemma AdmitTransits(l: Ledger, id: Id)
    requires l.Balanced() && id !in l.known
    ensures l.Admit(id).InTransit(id)
  {
    assert id !in Elements(l.queue);
  }

  lemma ReleaseTransits(l: Ledger)
    requires l.Balanced() && l.queue != []
    ensures l.Release().InTransit(l.queue[0])
  {
    var id, rest := l.queue[0], l.queue[1..];
    assert forall i | 0 <= i < |rest| :: rest[i] == l.queue[i + 1];
    assert Elements(l.queue) == Elements(rest) + {id} by {
      assert l.queue == [id] + rest;
    }
    assert id in Elements(l.queue);
  }

  lemma TransitEnds(l: Ledger, id: Id, status: Status)
    requires l.InTransit(id)
    ensures l.Wait(id).Balanced() && l.Begin(id).Balanced() && l.Settle(id, status).Balanced()
  {
    assert Elements(l.queue + [id]) == Elements(l.queue) + {id};
  }

  lemma SettleQueueBalances(l: Ledger, status: Status)
    requires l.Balanced()
    ensures l.SettleQueue(status).Balanced()
  {
    assert Elements([]) == {};
  }

  lemma SettleLiveBalances(l: Ledger, ids: set<Id>, status: Status)
    requires l.Balanced()
    ensures l.SettleLive(ids, status).Balanced()
  {}

  lemma AnswerAllMore(a: Answers, ids: set<Id>, id: Id, status: Status)
    requires id !in ids
    ensures AnswerAll(a, ids + {id}, status) == Answer(AnswerAll(a, ids, status), id, status)
  {}

  lemma AnswerNext(a: Answers, ids: seq<Id>, i: nat, status: Status)
    requires Distinct(ids) && i < |ids|
    ensures AnswerAll(a, Elements(ids[..i + 1]), status)
            == Answer(AnswerAll(a, Elements(ids[..i]), status), ids[i], status)
  {
    assert ids[..i + 1] == ids[..i] + [ids[i]];
    assert Elements(ids[..i + 1]) == Elements(ids[..i]) + {ids[i]};
    AnswerAllMore(a, Elements(ids[..i]), ids[i], status);
  }
}
