/** All queues of the scheduler: priority_level[l] and the `waiting` queue of each mutex (asst1/my_pthread.c:21, 136-138,
    417). Their cells are disjoint, so that an operation on one queue leaves the others alone. */
module QueueBank {
  import opened Sched
  import opened ThreadQueue

  datatype Shelf = Level(l: int) | Wait(m: MutexPtr)

  /** What the queues hold, front first. */
  type Lists = map<Shelf, seq<Ptr>>

  function QueueAt(v: Lists, k: Shelf): seq<Ptr> {
    if k in v then v[k] else []
  }

  class Bank {
    var queues: map<Shelf, Queue<Ptr>>
    ghost var Repr: set<object>
    ghost var home: map<object, Shelf>      // the queue an object belongs to

    /** Queue q is whole and lies at home in place k. */
    ghost predicate Houses(k: Shelf, q: Queue<Ptr>)
      reads this, Repr
    {
      && q in Repr && q in home && home[q] == k
      && (forall n :: n in q.nodes ==> n in Repr && n in home && home[n] == k)
      && q.Valid()
    }

    ghost predicate Valid()
      reads this, Repr
    {
      && this !in Repr
      && (forall k :: k in queues ==> Houses(k, queues[k]))
    }

    ghost function V(): (v: Lists)
      reads this, Repr
      requires Valid()
      ensures v.Keys == queues.Keys
    {
      map k | k in queues :: queues[k].Contents()
    }

    constructor ()
      ensures Valid() && V() == map[] && queues == map[] && fresh(Repr)
    {
      queues := map[];
      Repr := {};
      home := map[];
    }

    /** make_queue for place k; a queue that was there before is dropped. */
    method Make(k: Shelf)
      requires Valid()
      modifies this
      ensures Valid() && fresh(Repr - old(Repr)) && queues.Keys == old(queues.Keys) + {k}
      ensures V() == old(V())[k := []]
    {
      hide Houses, Queue.Valid, Queue.Contents;
      MakeAt(k);
    }

    method MakeAt(k: Shelf)
      requires Valid()
      modifies this
      ensures Valid() && fresh(Repr - old(Repr)) && queues.Keys == old(queues.Keys) + {k}
      ensures forall j :: j in queues ==>
                queues[j].Contents() == if j == k then [] else old(queues[j].Contents())
    {
      hide Houses, Queue.Valid, Queue.Contents;
      AllParts();
      var q := new Queue<Ptr>();
      queues := queues[k := q];
      Repr := Repr + {q};
      home := home[q := k];
      New(k, q);
      forall j | j in queues && j != k
        ensures Houses(j, queues[j]) && queues[j].Contents() == old(queues[j].Contents())
      {
        Whole(j, queues[j]);
      }
    }

    lemma New(k: Shelf, q: Queue<Ptr>)
      requires q in Repr && q in home && home[q] == k && q.Valid() && q.nodes == []
      ensures Houses(k, q)
    {
    }

    /** enqueue on the queue at place k */
    method Put(k: Shelf, t: Ptr)
      requires Valid() && k in queues
      modifies this, Repr
      ensures Valid() && fresh(Repr - old(Repr)) && queues == old(queues)
      ensures V() == old(V())[k := old(V())[k] + [t]]
    {
      hide Houses, Queue.Valid, Queue.Contents;
      PutIn(k, t);
    }

    method PutIn(k: Shelf, t: Ptr)
      requires Valid() && k in queues
      modifies this, Repr
      ensures Valid() && fresh(Repr - old(Repr)) && queues == old(queues)
      ensures forall j :: j in queues ==>
                queues[j].Contents() == if j == k then old(queues[k].Contents()) + [t] else old(queues[j].Contents())
    {
      hide Houses, Queue.Valid, Queue.Contents;
      var q := queues[k];
      AllParts();
      Apart(k);
      q.Enqueue(t);
      ghost var cell := q.nodes[|q.nodes| - 1];
      Repr := Repr + {cell};
      home := home[cell := k];
      assert q.nodes == old(q.nodes) + [cell];
      Whole(k, q);
      forall j | j in queues && j != k
        ensures Houses(j, queues[j]) && queues[j].Contents() == old(queues[j].Contents())
      {
        var p := queues[j];
        assert p != q && p.nodes == old(p.nodes);
        assert forall i :: 0 <= i < |p.nodes| ==> p.nodes[i] !in old(q.nodes);
        assert p.Valid() && p.Contents() == old(p.Contents());
        Whole(j, p);
      }
    }

    lemma AllParts()
      requires Valid()
      ensures forall k :: k in queues ==>
                var q := queues[k];
                && q in Repr && q in home && home[q] == k && q.Valid()
                && (forall n :: n in q.nodes ==> n in Repr && n in home && home[n] == k)
    {
    }

    lemma Whole(k: Shelf, q: Queue<Ptr>)
      requires q in Repr && q in home && home[q] == k
      requires forall n :: n in q.nodes ==> n in Repr && n in home && home[n] == k
      requires q.Valid()
      ensures Houses(k, q)
    {
    }

    /** Queues at different places share no object. */
    lemma Apart(k: Shelf)
      requires Valid() && k in queues
      ensures forall j :: j in queues && j != k ==>
                var p := queues[j]; p != queues[k] && forall i :: 0 <= i < |p.nodes| ==> p.nodes[i] !in queues[k].nodes
    {
      AllParts();
    }

    /** get_next on the queue at place k */
    method Take(k: Shelf) returns (r: Option<Ptr>)
      requires Valid() && k in queues
      modifies this, Repr
      ensures Valid() && Repr == old(Repr) && queues == old(queues)
      ensures if old(V())[k] == [] then r == None && V() == old(V())
              else r == Some(old(V())[k][0]) && V() == old(V())[k := old(V())[k][1..]]
    {
      hide Houses, Queue.Valid, Queue.Contents;
      var q := queues[k];
      AllParts();
      Apart(k);
      r := q.GetNext();
      Whole(k, q);
      forall j | j in queues && j != k
        ensures Houses(j, queues[j]) && queues[j].Contents() == old(queues[j].Contents())
      {
        var p := queues[j];
        assert p != q && p.nodes == old(p.nodes);
        assert forall i :: 0 <= i < |p.nodes| ==> p.nodes[i] !in old(q.nodes);
        assert p.Valid() && p.Contents() == old(p.Contents());
        Whole(j, p);
      }
    }

    /** The size of the queue at place k. */
    method Size(k: Shelf) returns (n: int)
      requires Valid() && k in queues
      ensures n == |V()[k]|
    {
      assert Houses(k, queues[k]);
      n := queues[k].size;
    }
  }
}
