/** The circular list behind the ready queues and the mutex queues: one pointer, to the back
    (asst1/my_pthread.c:37-88, asst1/my_pthread_t.h:47-55). */
module ThreadQueue {
  import opened Sched

  class Node<T> {
    var thread: T
    var next: Node<T>

    constructor (t: T)
      ensures thread == t && next == this
    {
      thread := t;
      next := this;
    }
  }

  /** A queue of threads; `nodes` lists the cells from front to back. */
  class Queue<T> {
    var back: Node?<T>
    var size: int
    ghost var nodes: seq<Node<T>>

    ghost predicate Valid()
      reads this, nodes
    {
      && size == |nodes|
      && (forall i, j :: 0 <= i < j < |nodes| ==> nodes[i] != nodes[j])
      && (if size == 0 then back == null else back == nodes[size - 1])
      && (forall i :: 0 <= i < |nodes| ==> nodes[i].next == nodes[if i + 1 < |nodes| then i + 1 else 0])
    }

    /** The threads in the queue, in the order in which they leave it. */
    ghost function Contents(): seq<T>
      reads this, nodes
    {
      seq(|nodes|, i requires 0 <= i < |nodes| reads this, nodes => nodes[i].thread)
    }

    /** make_queue */
    constructor ()
      ensures Valid() && Contents() == [] && nodes == []
    {
      back := null;
      size := 0;
      nodes := [];
    }

    /** enqueue */
    method Enqueue(t: T)
      requires Valid()
      modifies this, nodes
      ensures Valid() && Contents() == old(Contents()) + [t]
      ensures |nodes| == |old(nodes)| + 1 && nodes[..|old(nodes)|] == old(nodes) && fresh(nodes[|old(nodes)|])
    {
      var cell := new Node<T>(t);
      if size != 0 {
        cell.next := back.next;
        back.next := cell;
      }
      back := cell;
      size := size + 1;
      nodes := nodes + [cell];
    }

    /** get_next: NULL when the queue is empty, else the thread that has waited longest. */
    method GetNext() returns (r: Option<T>)
      requires Valid()
      modifies this, nodes
      ensures Valid()
      ensures if old(Contents()) == [] then r == None && Contents() == []
              else r.Some? && [r.value] + Contents() == old(Contents())
      ensures nodes == if old(nodes) == [] then [] else old(nodes)[1..]
    {
      if size == 0 {
        return None;
      } else if size == 1 {
        r := Some(back.thread);
        back := null;
        nodes := [];
      } else {
        r := Some(back.next.thread);
        assert nodes[0].next == nodes[0 + 1] && nodes[size - 1].next == nodes[0];
        if size == 2 {
          back.next := back;
        } else {
          back.next := back.next.next;
        }
        nodes := nodes[1..];
        forall i | 0 <= i < |nodes|
          ensures nodes[i].next == nodes[if i + 1 < |nodes| then i + 1 else 0]
        {
          assert nodes[i] == old(nodes)[i + 1];
          assert old(nodes[i + 1].next) == old(nodes[if i + 2 < |nodes| then i + 2 else 0]);
        }
      }
      size := size - 1;
    }
  }
}
