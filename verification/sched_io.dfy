// The I/O queue: a singly linked list of requests with head and tail, proved against
// the sequence of requests it holds.
module SchedIo {
  import opened SchedModel

  class IoNode {
    const pid: nat
    var executionTime: int
    var next: IoNode?

    constructor (pid: nat, executionTime: int)
      ensures this.pid == pid && this.executionTime == executionTime && next == null
    {
      this.pid, this.executionTime := pid, executionTime;
      next := null;
    }
  }

  class IoQueue {
    var head: IoNode?
    var tail: IoNode?
    ghost var nodes: seq<IoNode>
    ghost var requests: seq<IoRequest>
    ghost var repr: set<IoNode>

    /** The list runs from head to tail through `nodes`, which hold the requests. */
    ghost predicate Valid()
      reads this, repr
    {
      && head == (if nodes == [] then null else nodes[0])
      && tail == (if nodes == [] then null else nodes[|nodes| - 1])
      && |requests| == |nodes| && Distinct(nodes)
      && (forall n :: n in nodes ==> n in repr)
      && (forall i: nat :: i < |nodes| ==> NodeAt(nodes, requests, i))
    }

    static ghost predicate NodeAt(ns: seq<IoNode>, rs: seq<IoRequest>, i: nat)
      requires i < |ns| == |rs|
      reads ns
    {
      && ns[i].pid == rs[i].pid && ns[i].executionTime == rs[i].time
      && ns[i].next == if i + 1 < |ns| then ns[i + 1] else null
    }

    static ghost predicate Distinct(ns: seq<IoNode>) {
      forall i: nat, j: nat :: i < j < |ns| ==> ns[i] != ns[j]
    }

    constructor ()
      ensures Valid() && requests == [] && repr == {}
    {
      head, tail := null, null;
      nodes, requests, repr := [], [], {};
    }

    /** A request at the tail. */
    method Submit(pid: nat, executionTime: nat)
      requires Valid()
      modifies this, repr
      ensures Valid() && fresh(repr - old(repr))
      ensures requests == old(requests) + [IoRequest(pid, executionTime)]
    {
      var r := new IoNode(pid, executionTime);
      if tail != null {
        tail.next := r;
        tail := r;
      } else {
        head, tail := r, r;
      }
      ghost var ns, rs := nodes, requests;
      nodes, requests, repr := ns + [r], rs + [IoRequest(pid, executionTime)], repr + {r};
      forall i: nat | i < |nodes|
        ensures NodeAt(nodes, requests, i)
      {
        assert i < |ns| ==> old(NodeAt(ns, rs, i)) && nodes[i] == ns[i] && ns[i] in ns;
      }
    }

    /** One tick of the head. A request found at 0 is complete: it leaves, its process is returned. */
    method TickHead() returns (completed: int)
      requires Valid() && head != null
      modifies this, repr
      ensures Valid() && repr == old(repr) && old(requests) != []
      ensures var r := old(requests)[0];
        if r.time > 0 then completed == -1 && requests == old(requests)[0 := r.(time := r.time - 1)]
        else completed == r.pid && requests == old(requests)[1..]
    {
      assert NodeAt(nodes, requests, 0);
      ghost var ns, rs := nodes, requests;
      var time := head.executionTime;
      head.executionTime := time - 1;
      if time <= 0 {
        completed := head.pid;
        head := head.next;
        if head == null {
          tail := null;
        }
        nodes, requests := ns[1..], rs[1..];
        forall i: nat | i < |nodes|
          ensures NodeAt(nodes, requests, i)
        {
          assert old(NodeAt(ns, rs, i + 1));
        }
      } else {
        completed := -1;
        requests := rs[0 := rs[0].(time := rs[0].time - 1)];
        forall i: nat | i < |nodes|
          ensures NodeAt(nodes, requests, i)
        {
          assert old(NodeAt(ns, rs, i));
        }
      }
    }
  }
}
