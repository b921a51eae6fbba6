// The swap store: a singly linked list of pages with head, tail, size and a token
// counter, proved against a map from tokens to pages.
module VmSwap {
  import opened Basics
  import opened VmState

  class SwapInfo {
    const token: nat
    var page: seq<Byte>
    var next: SwapInfo?

    constructor (token: nat, pageSize: nat)
      ensures this.token == token && next == null && page == Zeros(pageSize)
    {
      this.token := token;
      page := Zeros(pageSize);
      next := null;
    }
  }

  class SwapQueue {
    const pageSize: nat
    var head: SwapInfo?
    var tail: SwapInfo?
    var size: nat
    var sizeMax: nat
    var nextToken: nat
    ghost var nodes: seq<SwapInfo>
    ghost var pages: map<nat, seq<Byte>>

    /** The list runs from head to tail through `nodes`. */
    ghost predicate Linked()
      reads `head, `tail, `nodes, nodes`next
    {
      && head == (if nodes == [] then null else nodes[0])
      && tail == (if nodes == [] then null else nodes[|nodes| - 1])
      && Chain(nodes) && Increasing(nodes)
    }

    static ghost predicate Chain(ns: seq<SwapInfo>)
      reads ns`next
    {
      forall i: nat :: i < |ns| ==> ChainAt(ns, i)
    }

    static ghost predicate ChainAt(ns: seq<SwapInfo>, i: nat)
      requires i < |ns|
      reads ns`next
    {
      ns[i].next == if i + 1 < |ns| then ns[i + 1] else null
    }

    /** It holds exactly the pages of the map. */
    ghost predicate Keyed()
      reads `nodes, `pages, nodes`page
    {
      KeyedBy(nodes, pages)
    }

    static ghost predicate KeyedBy(ns: seq<SwapInfo>, m: map<nat, seq<Byte>>)
      reads ns`page
    {
      && (forall i: nat :: i < |ns| ==> KeyedAt(ns, m, i))
      && (forall t :: t in m ==> HasToken(ns, t))
    }

    static ghost predicate KeyedAt(ns: seq<SwapInfo>, m: map<nat, seq<Byte>>, i: nat)
      requires i < |ns|
      reads ns`page
    {
      ns[i].token in m && m[ns[i].token] == ns[i].page
    }

    static ghost predicate Increasing(ns: seq<SwapInfo>) {
      forall i, j :: 0 <= i < j < |ns| ==> ns[i].token < ns[j].token
    }

    static ghost predicate HasToken(ns: seq<SwapInfo>, t: nat) {
      exists i :: 0 <= i < |ns| && ns[i].token == t
    }

    ghost predicate Valid()
      reads this, nodes
    {
      && Linked() && Keyed()
      && nextToken >= 1 && size == |nodes| <= sizeMax
      && Bounded(nodes, nextToken)
    }

    static ghost predicate Bounded(ns: seq<SwapInfo>, n: nat) {
      forall i :: 0 <= i < |ns| ==> 0 < ns[i].token < n
    }

    constructor (pageSize: nat)
      ensures Valid() && nodes == [] && pages == map[] && nextToken == 1 && this.pageSize == pageSize
    {
      this.pageSize := pageSize;
      head, tail := null, null;
      size, sizeMax, nextToken := 0, 0, 1;
      nodes, pages := [], map[];
    }

    method Find(token: nat) returns (info: SwapInfo?)
      requires Valid()
      ensures info != null <==> token in pages
      ensures info != null ==> info in nodes && info.token == token
    {
      info := head;
      ghost var i := 0;
      while info != null
        invariant 0 <= i <= |nodes|
        invariant info == if i < |nodes| then nodes[i] else null
        invariant forall j :: 0 <= j < i ==> nodes[j].token != token
        decreases |nodes| - i
      {
        assert KeyedAt(nodes, pages, i) && ChainAt(nodes, i);
        if info.token == token { return; }
        info := info.next;
        i := i + 1;
      }
    }

    /** A fresh entry of zeros under the next token. */
    method CreateEntry() returns (info: SwapInfo)
      requires Valid()
      modifies `nextToken
      ensures Valid() && fresh(info) && info.token == old(nextToken) && nextToken == old(nextToken) + 1
      ensures info.page == Zeros(pageSize)
    {
      info := new SwapInfo(nextToken, pageSize);
      nextToken := nextToken + 1;
    }

    /** Append a node behind the tail. */
    method Link(info: SwapInfo)
      requires Linked() && info !in nodes
      requires forall i :: 0 <= i < |nodes| ==> nodes[i].token < info.token
      modifies `head, `tail, `size, `sizeMax, `nodes, info`next, nodes`next
      ensures Linked() && nodes == old(nodes) + [info]
      ensures size == old(size) + 1 && sizeMax == if size > old(sizeMax) then size else old(sizeMax)
    {
      size := size + 1;
      if size > sizeMax {
        sizeMax := size;
      }
      info.next := null;
      if head == null {
        head, tail := info, info;
      } else {
        tail.next := info;
        tail := info;
      }
      ghost var ns := nodes;
      nodes := ns + [info];
      forall i: nat | i < |nodes|
        ensures ChainAt(nodes, i)
      {
        assert i < |ns| ==> old(ChainAt(ns, i)) && nodes[i] == ns[i];
        assert i + 1 < |ns| ==> ns[i] != ns[|ns| - 1] by { if i + 1 < |ns| { assert ns[i].token < ns[|ns| - 1].token; } }
      }
    }

    method Enqueue(info: SwapInfo)
      requires Valid() && info !in nodes && 0 < info.token < nextToken
      requires forall i :: 0 <= i < |nodes| ==> nodes[i].token < info.token
      modifies this, info`next, nodes`next
      ensures Valid() && nodes == old(nodes) + [info]
      ensures pages == old(pages)[info.token := info.page] && nextToken == old(nextToken)
      ensures sizeMax == if size > old(sizeMax) then size else old(sizeMax)
    {
      ghost var m := pages[info.token := info.page];
      KeyedAppend(nodes, info, pages);
      assert Bounded(nodes + [info], nextToken);
      Link(info);
      pages := m;
    }

    /** A new last entry: its token is fresh, so no earlier page is hidden. */
    static lemma KeyedAppend(ns: seq<SwapInfo>, info: SwapInfo, m: map<nat, seq<Byte>>)
      requires forall i :: 0 <= i < |ns| ==> ns[i].token < info.token
      requires KeyedBy(ns, m)
      ensures KeyedBy(ns + [info], m[info.token := info.page])
    {
      var ns', m' := ns + [info], m[info.token := info.page];
      forall t | t in m'
        ensures HasToken(ns', t)
      {
        if t == info.token {
          assert ns'[|ns|].token == t;
        } else {
          var i :| 0 <= i < |ns| && ns[i].token == t;
          assert ns'[i].token == t;
        }
      }
      forall i: nat | i < |ns'|
        ensures KeyedAt(ns', m', i)
      {
        assert i < |ns| ==> KeyedAt(ns, m, i);
      }
    }

    /** Take node k out of the list, its predecessor at hand. */
    method Unlink(curr: SwapInfo, prev: SwapInfo?, ghost k: nat)
      requires Linked() && k < |nodes| && curr == nodes[k]
      requires prev == if k == 0 then null else nodes[k - 1]
      modifies `head, `tail, `nodes, nodes`next
      ensures Linked() && nodes == RemoveAt(old(nodes), k)
    {
      SkipNode(curr, prev, k);
      Ends(nodes, k);
      DropTail(curr, prev, RemoveAt(nodes, k));
    }

    /** The tail moves to the predecessor if the node was the last. */
    method DropTail(curr: SwapInfo, prev: SwapInfo?, ghost rest: seq<SwapInfo>)
      requires Chain(rest) && Increasing(rest) && head == (if rest == [] then null else rest[0])
      requires (if curr == tail then prev else tail) == if rest == [] then null else rest[|rest| - 1]
      modifies `tail, `nodes
      ensures Linked() && nodes == rest
    {
      if curr == tail {
        tail := prev;
      }
      nodes := rest;
    }

    /** No link leads to node k any more. */
    method SkipNode(curr: SwapInfo, prev: SwapInfo?, ghost k: nat)
      requires Linked() && k < |nodes| && curr == nodes[k]
      requires prev == if k == 0 then null else nodes[k - 1]
      modifies `head, nodes`next
      ensures Chain(RemoveAt(nodes, k))
      ensures head == if k > 0 then nodes[0] else if |nodes| > 1 then nodes[1] else null
    {
      assert ChainAt(nodes, k);
      if prev != null {
        Bypass(nodes, k, curr, prev);
      } else {
        head := curr.next;
      }
      Bypassed(nodes, k);
    }

    static lemma Ends(ns: seq<SwapInfo>, k: nat)
      requires Increasing(ns) && k < |ns|
      ensures ns[k] == ns[|ns| - 1] <==> k == |ns| - 1
      ensures Increasing(RemoveAt(ns, k))
      ensures |ns| > 1 ==> RemoveAt(ns, k)[0] == (if k == 0 then ns[1] else ns[0])
      ensures |ns| > 1 ==> RemoveAt(ns, k)[|ns| - 2] == (if k == |ns| - 1 then ns[k - 1] else ns[|ns| - 1])
    {
      DistinctTokens(ns, k);
      var ns' := RemoveAt(ns, k);
      forall i, j | 0 <= i < j < |ns'|
        ensures ns'[i].token < ns'[j].token
      {
        assert ns'[i] == ns[if i < k then i else i + 1] && ns'[j] == ns[if j < k then j else j + 1];
      }
    }

    /** Node k is not reached any more, the others are linked as before. */
    static ghost predicate Skips(ns: seq<SwapInfo>, k: nat)
      requires k < |ns|
      reads ns`next
    {
      && (forall i: nat :: i < |ns| && i + 1 != k ==> ChainAt(ns, i))
      && (k > 0 ==> ns[k - 1].next == if k + 1 < |ns| then ns[k + 1] else null)
    }

    /** The write into the predecessor leaves the other links alone. */
    static method Bypass(ghost ns: seq<SwapInfo>, ghost k: nat, curr: SwapInfo, prev: SwapInfo)
      requires 0 < k < |ns| && Increasing(ns) && curr == ns[k] && prev == ns[k - 1]
      requires Chain(ns)
      modifies prev`next
      ensures Skips(ns, k)
    {
      assert ChainAt(ns, k);
      DistinctTokens(ns, k - 1);
      prev.next := curr.next;
      forall i: nat | i < |ns| && i + 1 != k
        ensures ChainAt(ns, i)
      {
        assert old(ChainAt(ns, i)) && ns[i] != prev;
      }
    }

    /** With node k skipped the other nodes are chained. */
    static lemma Bypassed(ns: seq<SwapInfo>, k: nat)
      requires k < |ns| && Skips(ns, k)
      ensures Chain(RemoveAt(ns, k))
    {
      var ns' := RemoveAt(ns, k);
      forall i: nat | i < |ns'|
        ensures ChainAt(ns', i)
      {
        if i + 1 != k {
          assert ChainAt(ns, if i < k then i else i + 1);
        }
        assert i + 1 < |ns'| ==> ns'[i + 1] == ns[if i + 1 < k then i + 1 else i + 2];
      }
    }

    method Remove(curr: SwapInfo, prev: SwapInfo?, ghost k: nat)
      requires Valid() && k < |nodes| && curr == nodes[k]
      requires prev == if k == 0 then null else nodes[k - 1]
      modifies this, nodes`next
      ensures Valid() && pages == old(pages) - {curr.token} && nextToken == old(nextToken)
      ensures nodes == RemoveAt(old(nodes), k)
    {
      KeyedUnlink(nodes, k, pages);
      BoundedUnlink(nodes, k, nextToken);
      Unlink(curr, prev, k);
      Account(curr.token);
    }

    /** One entry less. */
    method Account(token: nat)
      requires Linked() && KeyedBy(nodes, pages - {token}) && Bounded(nodes, nextToken)
      requires nextToken >= 1 && |nodes| + 1 == size <= sizeMax
      modifies `size, `pages
      ensures Valid() && pages == old(pages) - {token}
    {
      size := size - 1;
      pages := pages - {token};
    }

    static lemma BoundedUnlink(ns: seq<SwapInfo>, k: nat, n: nat)
      requires k < |ns| && Bounded(ns, n)
      ensures Bounded(RemoveAt(ns, k), n) && |RemoveAt(ns, k)| == |ns| - 1
    {
      assert forall i: nat :: i < |ns| - 1 ==> RemoveAt(ns, k)[i] == ns[if i < k then i else i + 1];
    }

    static lemma KeyedUnlink(ns: seq<SwapInfo>, k: nat, m: map<nat, seq<Byte>>)
      requires Increasing(ns) && k < |ns| && KeyedBy(ns, m)
      ensures KeyedBy(RemoveAt(ns, k), m - {ns[k].token})
    {
      var ns' := RemoveAt(ns, k);
      DistinctTokens(ns, k);
      forall t | t in m - {ns[k].token}
        ensures HasToken(ns', t)
      {
        var i :| 0 <= i < |ns| && ns[i].token == t;
        assert ns'[if i < k then i else i - 1] == ns[i];
      }
      forall i: nat | i < |ns'|
        ensures KeyedAt(ns', m - {ns[k].token}, i)
      {
        assert KeyedAt(ns, m, if i < k then i else i + 1);
      }
    }

    static lemma DistinctTokens(ns: seq<SwapInfo>, k: nat)
      requires Increasing(ns) && k < |ns|
      ensures forall i :: 0 <= i < |ns| && i != k ==> ns[i].token != ns[k].token
    {
      forall i | 0 <= i < |ns| && i != k
        ensures ns[i].token != ns[k].token
      {
        if i < k { assert ns[i].token < ns[k].token; } else { assert ns[k].token < ns[i].token; }
      }
    }

    /** Unlink the entry of a token. */
    method Dequeue(token: nat)
      requires Valid() && token in pages
      modifies this, nodes`next
      ensures Valid() && pages == old(pages) - {token} && nextToken == old(nextToken)
      ensures exists k :: 0 <= k < |old(nodes)| && old(nodes)[k].token == token && nodes == RemoveAt(old(nodes), k)
      ensures forall n :: n in nodes ==> n in old(nodes)
    {
      var curr, prev := head, null;
      ghost var k := 0;
      assert HasToken(nodes, token);
      while curr.token != token
        invariant 0 <= k < |nodes| && curr == nodes[k]
        invariant prev == if k == 0 then null else nodes[k - 1]
        invariant forall j :: 0 <= j < k ==> nodes[j].token != token
        decreases |nodes| - k
      {
        assert ChainAt(nodes, k);
        assert k + 1 < |nodes| by {
          var i :| 0 <= i < |nodes| && nodes[i].token == token;
        }
        prev := curr;
        curr := curr.next;
        k := k + 1;
      }
      Remove(curr, prev, k);
    }

    /** Overwrite the page of an entry in the list. */
    method StorePage(info: SwapInfo, page: seq<Byte>)
      requires Valid() && info in nodes
      modifies info`page, `pages
      ensures Valid() && nodes == old(nodes) && pages == old(pages)[info.token := page]
    {
      ghost var k: nat :| k < |nodes| && nodes[k] == info;
      assert KeyedAt(nodes, pages, k);
      PutPage(nodes, k, pages, info, page);
      KeyedAfterStore(nodes, k, pages, page);
      pages := pages[info.token := page];
    }

    /** The write itself reaches node k alone. */
    static method PutPage(ghost ns: seq<SwapInfo>, ghost k: nat, ghost m: map<nat, seq<Byte>>,
                          info: SwapInfo, page: seq<Byte>)
      requires k < |ns| && ns[k] == info && Increasing(ns)
      requires forall i: nat :: i < |ns| ==> KeyedAt(ns, m, i)
      modifies info`page
      ensures info.page == page
      ensures forall i: nat :: i < |ns| && i != k ==> KeyedAt(ns, m, i)
    {
      DistinctTokens(ns, k);
      info.page := page;
      forall i: nat | i < |ns| && i != k
        ensures KeyedAt(ns, m, i)
      {
        assert old(KeyedAt(ns, m, i));
      }
    }

    /** A fresh entry at the tail, its page still zeros. */
    method Append() returns (info: SwapInfo)
      requires Valid()
      modifies this, nodes`next
      ensures Valid() && fresh(info) && nodes == old(nodes) + [info] && info in nodes
      ensures info.token == old(nextToken) && nextToken == old(nextToken) + 1
      ensures pages == old(pages)[info.token := Zeros(pageSize)]
    {
      info := CreateEntry();
      assert Bounded(nodes, info.token);
      Enqueue(info);
    }

    method AppendPage(page: seq<Byte>) returns (info: SwapInfo)
      requires Valid()
      modifies this, nodes`next
      ensures Valid() && fresh(info) && nodes == old(nodes) + [info]
      ensures info.token == old(nextToken) && nextToken == old(nextToken) + 1
      ensures pages == old(pages)[info.token := page]
    {
      ghost var m := pages;
      info := Append();
      ghost var m1 := pages;
      StorePage(info, page);
      Overwritten(m, m1, pages, info.token, Zeros(pageSize), page);
    }

    static lemma Overwritten(m: map<nat, seq<Byte>>, m1: map<nat, seq<Byte>>, m2: map<nat, seq<Byte>>,
                             t: nat, a: seq<Byte>, b: seq<Byte>)
      requires m1 == m[t := a] && m2 == m1[t := b]
      ensures m2 == m[t := b]
    {
    }

    /** Store a page under its token if the list has it, else under a fresh one at the tail. */
    method Write(token: nat, page: seq<Byte>) returns (t: nat)
      requires Valid()
      modifies this, nodes
      ensures Valid()
      ensures forall n :: n in nodes && n !in old(nodes) ==> fresh(n)
      ensures t == if token in old(pages) then token else old(nextToken)
      ensures pages == old(pages)[t := page]
      ensures nextToken == if token in old(pages) then old(nextToken) else old(nextToken) + 1
    {
      var info := Find(token);
      if info == null {
        info := AppendPage(page);
        t := info.token;
      } else {
        StorePage(info, page);
        t := token;
      }
    }

    static lemma KeyedAfterStore(ns: seq<SwapInfo>, k: nat, m: map<nat, seq<Byte>>, page: seq<Byte>)
      requires k < |ns| && Increasing(ns) && ns[k].token in m && ns[k].page == page
      requires forall i: nat :: i < |ns| && i != k ==> KeyedAt(ns, m, i)
      requires forall t :: t in m ==> HasToken(ns, t)
      ensures KeyedBy(ns, m[ns[k].token := page])
    {
      DistinctTokens(ns, k);
      var m' := m[ns[k].token := page];
      forall i: nat | i < |ns|
        ensures KeyedAt(ns, m', i)
      {
        assert i != k ==> KeyedAt(ns, m, i);
      }
    }
  }
}
