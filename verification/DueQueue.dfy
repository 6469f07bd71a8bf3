/** Expiry-ordered queues of challenge ids, as the tracker keeps them
    (did-hosting-control/src/pending_challenges.rs:128-131, 206-212). */
module DueQueue {

  /** An id and the instant it runs out. */
  datatype Due = Due(at: nat, id: nat)

  /** The queue lists exactly the ids of `due`, each once and at its instant, oldest
      first. */
  ghost predicate Lists(q: seq<Due>, due: map<nat, nat>) {
    if q == [] then due == map[]
    else
      && q[0].id in due && due[q[0].id] == q[0].at
      && (forall id :: id in due ==> q[0].at <= due[id])
      && Lists(q[1..], due - {q[0].id})
  }

  /** Insert after every element due no later. */
  function InsertSorted(q: seq<Due>, d: Due): (r: seq<Due>)
    ensures |r| == |q| + 1
    ensures q != [] && q[0].at <= d.at ==> r[0] == q[0]
  {
    if q == [] || d.at < q[0].at then [d] + q else [q[0]] + InsertSorted(q[1..], d)
  }

  function Without(q: seq<Due>, id: nat): seq<Due> {
    if q == [] then []
    else if q[0].id == id then Without(q[1..], id)
    else [q[0]] + Without(q[1..], id)
  }

  lemma {:induction false} InsertLists(q: seq<Due>, due: map<nat, nat>, d: Due)
    requires Lists(q, due) && d.id !in due
    ensures Lists(InsertSorted(q, d), due[d.id := d.at])
  {
    var more := due[d.id := d.at];
    var r := InsertSorted(q, d);
    if q == [] || d.at < q[0].at {
      assert r[1..] == q && more - {d.id} == due;
    } else {
      InsertLists(q[1..], due - {q[0].id}, d);
      assert r[1..] == InsertSorted(q[1..], d);
      assert more - {q[0].id} == (due - {q[0].id})[d.id := d.at];
    }
  }

  lemma {:induction false} WithoutLists(q: seq<Due>, due: map<nat, nat>, id: nat)
    requires Lists(q, due)
    ensures Lists(Without(q, id), due - {id})
  {
    if q == [] {
      assert due - {id} == map[];
    } else {
      var rest := due - {q[0].id};
      WithoutLists(q[1..], rest, id);
      if q[0].id == id {
        assert rest - {id} == due - {id};
      } else {
        var r := Without(q, id);
        assert r[1..] == Without(q[1..], id);
        assert rest - {id} == (due - {id}) - {q[0].id};
      }
    }
  }

  /** A queue is as long as what it lists is large. */
  lemma {:induction false} ListsCount(q: seq<Due>, due: map<nat, nat>)
    requires Lists(q, due)
    ensures |q| == |due|
  {
    if q != [] {
      var rest := due - {q[0].id};
      ListsCount(q[1..], rest);
      assert due == rest[q[0].id := q[0].at];
    }
  }
}
