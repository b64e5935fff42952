/**
 * The lifecycle of a getdns request: a parent `DnsReq` owning a singly
 * linked chain of `NetReq` nodes, one per elementary query. Construction
 * and teardown route every request and node through the context's
 * allocator, the name, the extensions copy and the answers through the
 * process heap, and the timers through the event library.
 */
module Request {
  import opened Types
  import opened Memory
  import opened Foreign
  import opened Bundling

  /** Dispatch state of a network request. */
  datatype NetReqState = NotSent | Sent | Answered | Canceled | Failed

  /** A getdns context; here only its allocate/deallocate pair matters. */
  class Context {
    const memory: Allocator

    constructor (memory: Allocator)
      ensures this.memory == memory
    {
      this.memory := memory;
    }
  }

  /** One elementary query (a record type and class) of a request. */
  class NetReq {
    var result: Packet?
    var next: NetReq?
    var requestType: uint16
    var requestClass: uint16
    var unboundId: int32
    var state: NetReqState
    var owner: DnsReq?

    /** A block of memory for a node; every field holds whatever was there. */
    constructor ()
    {
    }
  }

  /** The caller-visible request. */
  class DnsReq {
    const context: Context
    var name: NameBuf?
    var canceled: bool
    var currentReq: NetReq?
    var firstReq: NetReq?
    var transId: uint32
    var timeout: Timer?
    var localCbTimer: Timer?
    var evBase: object?
    var extensions: Dict?
    var userPointer: object?
    var userCallback: object?
    /** The nodes reachable from `firstReq`, in order. */
    ghost var chain: seq<NetReq>

    /** A block of memory for a request of `context`; other fields are unset. */
    constructor (context: Context)
      ensures this.context == context
    {
      this.context := context;
    }

    /** The field assignments of dns_req_new, in its order: no nodes, timers or callback yet. */
    method Init(nameCopy: NameBuf?, extensionsCopy: Dict?, transId: uint32)
      modifies this
      ensures name == nameCopy && extensions == extensionsCopy && Unstarted(this, transId)
      ensures chain == [] && firstReq == null && currentReq == null
    {
      name := nameCopy;
      canceled := false;
      currentReq := null;
      firstReq := null;
      this.transId := transId;
      timeout := null;
      localCbTimer := null;
      evBase := null;
      extensions := extensionsCopy;
      userPointer := null;
      userCallback := null;
      chain := [];
    }

    /**
     * The request is live in its context's allocator, `firstReq` and the
     * `next` links spell out `chain`, it owns every node of the chain, and
     * everything it would release on teardown is live in the allocator or
     * library that will release it, each answer owned by one node only.
     */
    ghost predicate Valid(heap: Allocator, reactor: Reactor)
      reads this, chain, context.memory, heap, reactor
    {
      context.memory != heap &&
      this in context.memory.live &&
      Linked(firstReq, chain) &&
      OwnedChain(chain, this, heap) &&
      (name != null ==> name in heap.live) &&
      (extensions != null ==> extensions in heap.live) &&
      (timeout != null ==> timeout in reactor.live) &&
      (localCbTimer != null ==> localCbTimer in reactor.live && localCbTimer != timeout)
    }
  }

  /**
   * Every node of `chain` belongs to `owner` and is live in its context's
   * allocator; every answer attached to a node is live in `heap` and
   * belongs to that node alone.
   */
  ghost predicate OwnedChain(chain: seq<NetReq>, owner: DnsReq, heap: Allocator)
    reads chain, owner.context.memory, heap
  {
    (forall i :: 0 <= i < |chain| ==>
      chain[i].owner == owner && chain[i] in owner.context.memory.live &&
      (chain[i].result != null ==> chain[i].result in heap.live)) &&
    NoneShared(Answers(chain))
  }

  /** The answers attached to the nodes of `chain`, null where there is none. */
  ghost function Answers(chain: seq<NetReq>): seq<object?>
    reads chain
  {
    seq(|chain|, k requires 0 <= k < |chain| reads chain => chain[k].result)
  }

  /** `first` and the `next` links of the nodes spell out exactly `chain`. */
  ghost predicate Linked(first: NetReq?, chain: seq<NetReq>)
    reads chain
    decreases |chain|
  {
    if chain == [] then first == null
    else first == chain[0] && Linked(chain[0].next, chain[1..])
  }

  /** Each node's `next` is the following node of the chain, or null for the last. */
  lemma {:induction false} LinkedAt(first: NetReq?, chain: seq<NetReq>, k: nat)
    requires Linked(first, chain)
    requires k < |chain|
    ensures chain[k].next == if k + 1 < |chain| then chain[k + 1] else null
    decreases k
  {
    if k > 0 {
      LinkedAt(chain[0].next, chain[1..], k - 1);
    } else if |chain| > 1 {
      assert Linked(chain[0].next, chain[1..]);
    }
  }

  /** A chain that ends in null has no repeated node, so a walk visits each node once. */
  lemma {:induction false} LinkedDistinct(first: NetReq?, chain: seq<NetReq>)
    requires Linked(first, chain)
    ensures forall i, j :: 0 <= i < j < |chain| ==> chain[i] != chain[j]
    decreases |chain|
  {
    if chain != [] {
      var tail := chain[1..];
      LinkedDistinct(chain[0].next, tail);
      forall j | 0 < j < |chain|
        ensures chain[0] != chain[j]
      {
        LinkedAt(first, chain, 0);
        LinkedAt(first, chain, j);
        if j + 1 < |chain| {
          assert tail[0] != tail[j];
        }
      }
    }
  }

  /** A node of a chain that ends in null does not occur earlier in the chain. */
  lemma NodeNotEarlier(first: NetReq?, chain: seq<NetReq>, i: nat)
    requires Linked(first, chain) && i < |chain|
    ensures chain[i] !in Elems(chain[..i])
  {
    LinkedDistinct(first, chain);
  }

  /**
   * Nodes owned by `owner` that carry no answer form an owned chain as soon
   * as they are live, and hold nothing in the heap.
   */
  lemma FreshChainOwned(chain: seq<NetReq>, owner: DnsReq, heap: Allocator)
    requires forall k :: 0 <= k < |chain| ==>
      chain[k].owner == owner && chain[k].result == null && chain[k] in owner.context.memory.live
    ensures Present(Answers(chain)) == []
    ensures OwnedChain(chain, owner, heap)
  {
    PresentOfNulls(Answers(chain));
  }

  /** A node as network_req_new leaves it: nothing attached, not sent, owned by `owner`. */
  ghost predicate Initial(n: NetReq, owner: DnsReq)
    reads n
  {
    n.owner == owner && n.result == null && n.unboundId == -1 && n.state == NotSent
  }

  /**
   * network_req_free: releases the answer if there is one, then the node,
   * both through the allocator that will accept them; a no-op on null.
   * `next` is neither followed nor released.
   */
  method NetworkReqFree(net: NetReq?, heap: Allocator)
    requires net != null ==>
      net.owner != null && net.owner.context.memory != heap &&
      net in net.owner.context.memory.live &&
      (net.result != null ==> net.result in heap.live)
    modifies if net == null then {} else {net.owner.context.memory, heap}
    ensures net != null ==>
      net.owner.context.memory.live == old(net.owner.context.memory.live) - {net} &&
      net.owner.context.memory.freed == old(net.owner.context.memory.freed) + [net] &&
      heap.live == old(heap.live) - Opt(net.result) &&
      heap.freed == old(heap.freed) + OptSeq(net.result)
  {
    if net == null {
      return;
    }
    var memory := net.owner.context.memory;
    var result := ReadResult(net, memory);
    if result != null {
      heap.Free(result);
    }
    memory.Free(net);
  }

  /**
   * Reads the answer of `net`. A node's fields may be read only while the
   * node is live: reading one after its release is a verification error.
   */
  method ReadResult(net: NetReq, memory: Allocator) returns (result: Packet?)
    requires net in memory.live
    ensures result == net.result
  {
    result := net.result;
  }

  /** Reads the successor of `net`, which must still be live. */
  method ReadNext(net: NetReq, memory: Allocator) returns (next: NetReq?)
    requires net in memory.live
    ensures next == net.next
  {
    next := net.next;
  }

  /**
   * network_req_new: a fresh node for `requestType`/`requestClass` owned
   * by `owner`, or null when the context's allocator refuses; nothing else
   * is touched, so the owner's chain is as it was. `extensions` is unused.
   */
  method NetworkReqNew(owner: DnsReq, requestType: uint16, requestClass: uint16, extensions: Dict?)
    returns (net: NetReq?)
    modifies owner.context.memory
    ensures owner.context.memory.freed == old(owner.context.memory.freed)
    ensures owner.context.memory.live == old(owner.context.memory.live) + Opt(net)
    ensures net != null ==>
      fresh(net) && Initial(net, owner) && net.next == null &&
      net.requestType == requestType && net.requestClass == requestClass
  {
    var memory := owner.context.memory;
    var block := new NetReq();
    var ok := memory.Malloc(block);
    if !ok {
      return null;
    }
    net := block;
    net.result := null;
    net.next := null;
    net.requestType := requestType;
    net.requestClass := requestClass;
    net.unboundId := -1;
    net.state := NotSent;
    net.owner := owner;
  }

  /**
   * The walk of dns_req_free: from `first` to the end of the chain, reads
   * each node's successor while the node is still live, then releases the
   * node with network_req_free. Each node of the chain is released once, in
   * chain order, with its answer.
   */
  method FreeChain(first: NetReq?, ghost chain: seq<NetReq>, owner: DnsReq, heap: Allocator)
    requires Linked(first, chain) && OwnedChain(chain, owner, heap)
    requires owner.context.memory != heap
    modifies owner.context.memory, heap
    ensures owner.context.memory.live == old(owner.context.memory.live) - Elems(chain)
    ensures owner.context.memory.freed == old(owner.context.memory.freed) + chain
    ensures heap.live == old(heap.live) - Elems(old(Present(Answers(chain))))
    ensures heap.freed == old(heap.freed) + old(Present(Answers(chain)))
  {
    var memory := owner.context.memory;
    ghost var answers := Answers(chain);
    ghost var nodes: seq<object> := chain;
    // the nodes a walk from `first` visits, then the null that ends it
    ghost var walk: seq<NetReq?> := chain + [null];
    ghost var nexts := seq(|chain|, k requires 0 <= k < |chain| reads chain => chain[k].next);
    forall k | 0 <= k < |chain|
      ensures nexts[k] == walk[k + 1]
    {
      LinkedAt(first, chain, k);
    }
    forall k | 0 <= k < |chain|
      ensures nodes[k] !in Elems(nodes[..k])
    {
      NodeNotEarlier(first, chain, k);
    }
    ghost var owned, heapLog := heap.live, heap.freed;
    ghost var nodesLive, nodesLog := memory.live, memory.freed;
    forall k | 0 <= k < |answers| && answers[k] != null
      ensures answers[k] in owned && answers[k] !in Elems(Present(answers[..k]))
    {
      PresentNotEarlier(answers, k);
    }
    var net := first;
    ghost var i := 0;
    assert first == walk[0] by {
      if chain != [] {
        assert walk[0] == chain[0];
      }
    }
    while net != null
      invariant 0 <= i <= |chain|
      invariant net == walk[i]
      invariant memory.live == nodesLive - Elems(nodes[..i])
      invariant memory.freed == nodesLog + nodes[..i]
      invariant heap.live == owned - Elems(Present(answers[..i]))
      invariant heap.freed == heapLog + Present(answers[..i])
      decreases |chain| - i
    {
      assert net.result == answers[i] && net.next == nexts[i] && net == nodes[i];
      var next := ReadNext(net, memory);
      FreeStep(net, heap, owner, i, nodes, nodesLive, nodesLog, answers, owned, heapLog);
      net := next;
      i := i + 1;
    }
    assert nodes[..i] == nodes && answers[..i] == answers;
  }

  /**
   * One step of the walk: network_req_free on the `i`th node, which is
   * still live when its successor is read; the accounting for the nodes
   * and answers before it is extended by the node and its answer.
   */
  method FreeStep(net: NetReq, heap: Allocator, ghost owner: DnsReq, ghost i: nat,
                  ghost nodes: seq<object>, ghost nodesLive: set<object>, ghost nodesLog: seq<object>,
                  ghost answers: seq<object?>, ghost owned: set<object>, ghost heapLog: seq<object>)
    requires i < |nodes| && i < |answers| && net == nodes[i] && net.result == answers[i]
    requires net.owner == owner && owner.context.memory != heap
    requires owner.context.memory.live == nodesLive - Elems(nodes[..i])
    requires owner.context.memory.freed == nodesLog + nodes[..i]
    requires net in nodesLive && net !in Elems(nodes[..i])
    requires heap.live == owned - Elems(Present(answers[..i]))
    requires heap.freed == heapLog + Present(answers[..i])
    requires net.result != null ==> net.result in owned && net.result !in Elems(Present(answers[..i]))
    modifies owner.context.memory, heap
    ensures owner.context.memory.live == nodesLive - Elems(nodes[..i + 1])
    ensures owner.context.memory.freed == nodesLog + nodes[..i + 1]
    ensures heap.live == owned - Elems(Present(answers[..i + 1]))
    ensures heap.freed == heapLog + Present(answers[..i + 1])
  {
    var memory := owner.context.memory;
    NetworkReqFree(net, heap);
    PresentSnoc(answers, i);
    TakeSnoc(nodes, i);
    ReleaseOne(heap.live, owned, Present(answers[..i]), net.result);
    LogMore(heap.freed, heapLog, Present(answers[..i]), OptSeq(net.result));
    ReleaseOne(memory.live, nodesLive, nodes[..i], net);
    LogMore(memory.freed, nodesLog, nodes[..i], OptSeq(net));
  }

  /**
   * dns_req_free: releases, in this order, the extensions copy, every node
   * of the chain (each once, in chain order, with its answer), the two
   * timers when armed, the name, and finally the request; a no-op on null.
   */
  method DnsReqFree(req: DnsReq?, heap: Allocator, reactor: Reactor)
    requires req != null ==> req.Valid(heap, reactor)
    modifies if req == null then {} else {req.context.memory, heap, reactor}
    ensures req != null ==>
      req.context.memory.live == old(req.context.memory.live) - Elems(req.chain) - {req} &&
      req.context.memory.freed == old(req.context.memory.freed) + req.chain + [req]
    ensures req != null ==>
      heap.live == old(heap.live) - Opt(req.extensions) - Elems(old(Present(Answers(req.chain)))) - Opt(req.name) &&
      heap.freed == old(heap.freed) + OptSeq(req.extensions) + old(Present(Answers(req.chain))) + OptSeq(req.name)
    ensures req != null ==>
      reactor.live == old(reactor.live) - Opt(req.timeout) - Opt(req.localCbTimer) &&
      reactor.pending == old(reactor.pending) - Opt(req.timeout) - Opt(req.localCbTimer)
  {
    if req == null {
      return;
    }
    ReleaseQueries(req, heap);
    var timeout, localCbTimer, name := ReadTail(req);
    ReleaseTimer(reactor, timeout);
    ReleaseTimer(reactor, localCbTimer);
    heap.Free(name);
    req.context.memory.Free(req);
  }

  /**
   * The first half of dns_req_free: the extensions copy, then every node of
   * the chain, in chain order, each with its answer.
   */
  method ReleaseQueries(req: DnsReq, heap: Allocator)
    requires req.context.memory != heap && req in req.context.memory.live
    requires Linked(req.firstReq, req.chain) && OwnedChain(req.chain, req, heap)
    requires req.extensions != null ==> req.extensions in heap.live
    modifies req.context.memory, heap
    ensures req.context.memory.live == old(req.context.memory.live) - Elems(req.chain)
    ensures req.context.memory.freed == old(req.context.memory.freed) + req.chain
    ensures heap.live == old(heap.live) - Opt(req.extensions) - Elems(old(Present(Answers(req.chain))))
    ensures heap.freed == old(heap.freed) + OptSeq(req.extensions) + old(Present(Answers(req.chain)))
  {
    ghost var chain := req.chain;
    heap.Free(req.extensions);
    FreeChain(req.firstReq, chain, req, heap);
  }

  /**
   * Reads the fields dns_req_free needs after the chain is gone: the two
   * timers and the name. The request must still be live.
   */
  method ReadTail(req: DnsReq) returns (timeout: Timer?, localCbTimer: Timer?, name: NameBuf?)
    requires req in req.context.memory.live
    ensures timeout == req.timeout && localCbTimer == req.localCbTimer && name == req.name
  {
    timeout, localCbTimer, name := req.timeout, req.localCbTimer, req.name;
  }

  /** Disarms and releases an armed timer; a no-op on null. */
  method ReleaseTimer(reactor: Reactor, t: Timer?)
    requires t != null ==> t in reactor.live
    modifies reactor
    ensures reactor.live == old(reactor.live) - Opt(t)
    ensures reactor.pending == old(reactor.pending) - Opt(t)
  {
    if t != null {
      reactor.EventDel(t);
      reactor.EventFree(t);
    }
  }

  /** The fields dns_req_new gives every new request, apart from the name, extensions and chain. */
  ghost predicate Unstarted(req: DnsReq, transId: uint32)
    reads req
  {
    !req.canceled && req.transId == transId &&
    req.timeout == null && req.localCbTimer == null && req.evBase == null &&
    req.userPointer == null && req.userCallback == null
  }

  /**
   * The first half of dns_req_new: a fresh request block from the context's
   * allocator, or null when it refuses; the name duplicated into the heap,
   * the extensions copied, no timers, no callback and no nodes yet.
   */
  method NewRequest(context: Context, heap: Allocator, reactor: Reactor, name: string,
                    extensions: Dict?, transId: uint32)
    returns (req: DnsReq?)
    requires context.memory != heap
    modifies context.memory, heap
    ensures context.memory.freed == old(context.memory.freed)
    ensures heap.freed == old(heap.freed)
    ensures req == null ==>
      context.memory.live == old(context.memory.live) && heap.live == old(heap.live)
    ensures req != null ==>
      fresh(req) && req.context == context && req.Valid(heap, reactor) &&
      req.chain == [] && req.firstReq == null && req.currentReq == null &&
      Unstarted(req, transId) &&
      context.memory.live == old(context.memory.live) + {req} &&
      heap.live == old(heap.live) + Opt(req.name) + Opt(req.extensions) &&
      old(context.memory.live) !! {req} &&
      old(heap.live) !! Opt(req.name) && old(heap.live) !! Opt(req.extensions) &&
      (req.name != null ==> fresh(req.name) && req.name.text == name) &&
      (req.extensions != null ==> fresh(req.extensions))
  {
    var memory := context.memory;
    var block := new DnsReq(context);
    var ok := memory.Malloc(block);
    if !ok {
      return null;
    }
    req := block;

    // the two library calls, in the order the fields are filled in
    var nameCopy := Strdup(heap, name);
    var extensionsCopy := DictCopy(heap, extensions);
    req.Init(nameCopy, extensionsCopy, transId);
  }

  /**
   * dns_req_new: a fresh request for `name` and `requestType` whose chain
   * holds one node per entry of `ChainTypes(flag, requestType)`, every node
   * of class IN and in its initial state; or null when the context's
   * allocator refuses any block, in which case everything the call
   * allocated has been released through DnsReqFree. `transId` stands for
   * the random transaction id and `flag` for the extension lookup.
   */
  method DnsReqNew(context: Context, heap: Allocator, reactor: Reactor, name: string,
                   requestType: uint16, extensions: Dict?, flag: FlagLookup, transId: uint32)
    returns (req: DnsReq?)
    requires context.memory != heap
    modifies context.memory, heap, reactor
    ensures reactor.live == old(reactor.live) && reactor.pending == old(reactor.pending)
    ensures req == null ==>
      context.memory.live == old(context.memory.live) && heap.live == old(heap.live)
    ensures req != null ==>
      fresh(req) && req.context == context && req.Valid(heap, reactor) &&
      context.memory.live == old(context.memory.live) + {req} + Elems(req.chain) &&
      context.memory.freed == old(context.memory.freed) &&
      heap.live == old(heap.live) + Opt(req.name) + Opt(req.extensions) &&
      heap.freed == old(heap.freed)
    ensures req != null ==>
      old(context.memory.live) !! {req} && old(context.memory.live) !! Elems(req.chain) &&
      old(heap.live) !! Opt(req.name) && old(heap.live) !! Opt(req.extensions)
    ensures req != null ==>
      Unstarted(req, transId) && req.firstReq == req.currentReq &&
      (req.name != null ==> fresh(req.name) && req.name.text == name) &&
      (req.extensions != null ==> fresh(req.extensions))
    ensures req != null ==>
      var types := ChainTypes(flag, requestType);
      |req.chain| == |types| &&
      forall i :: 0 <= i < |req.chain| ==>
        fresh(req.chain[i]) && Initial(req.chain[i], req) &&
        req.chain[i].requestType == types[i] && req.chain[i].requestClass == CLASS_IN
    ensures req != null ==>
      req.firstReq == req.chain[0] &&
      (|req.chain| == 2 ==> req.chain[0].next == req.chain[1])
  {
    ghost var memoryLive, heapLive := context.memory.live, heap.live;
    req := NewRequest(context, heap, reactor, name, extensions, transId);
    if req == null {
      return;
    }
    var complete := AddQueries(req, requestType, extensions, flag);
    FreshChainOwned(req.chain, req, heap);
    if !complete {
      FreeUnstarted(req, heap, reactor, memoryLive, heapLive);
      return null;
    }
  }

  /**
   * The failure exit of dns_req_new: DnsReqFree on a request that has no
   * answers and no timers yet returns both allocators to the state they
   * were in before the request was built.
   */
  method FreeUnstarted(req: DnsReq, heap: Allocator, reactor: Reactor,
                 ghost memoryBefore: set<object>, ghost heapBefore: set<object>)
    requires req.Valid(heap, reactor)
    requires req.timeout == null && req.localCbTimer == null
    requires Present(Answers(req.chain)) == []
    requires req.context.memory.live == memoryBefore + {req} + Elems(req.chain)
    requires memoryBefore !! {req} && memoryBefore !! Elems(req.chain)
    requires heap.live == heapBefore + Opt(req.name) + Opt(req.extensions)
    requires heapBefore !! Opt(req.name) && heapBefore !! Opt(req.extensions)
    modifies req.context.memory, heap, reactor
    ensures req.context.memory.live == memoryBefore && heap.live == heapBefore
    ensures reactor.live == old(reactor.live) && reactor.pending == old(reactor.pending)
  {
    ghost var nodes, nameCopy, extensionsCopy := Elems(req.chain), req.name, req.extensions;
    DnsReqFree(req, heap, reactor);
    AddThenRelease(memoryBefore, {req}, nodes, {});
    AddThenRelease(heapBefore, Opt(nameCopy), Opt(extensionsCopy), Elems([]));
  }

  /**
   * The second half of dns_req_new: the chain of network requests, one per
   * entry of `ChainTypes(flag, requestType)`, each linked in before the
   * next is allocated. `complete` is false when the context's allocator
   * refused a node; the chain then holds the nodes allocated so far, for
   * the caller to release (both failure exits of dns_req_new release the
   * whole request the same way).
   */
  method AddQueries(req: DnsReq, requestType: uint16, extensions: Dict?, flag: FlagLookup)
    returns (complete: bool)
    requires req.chain == [] && req.firstReq == null && req.currentReq == null
    modifies req.context.memory, req`currentReq, req`firstReq, req`chain
    ensures req.context.memory.freed == old(req.context.memory.freed)
    ensures req.context.memory.live == old(req.context.memory.live) + Elems(req.chain)
    ensures old(req.context.memory.live) !! Elems(req.chain)
    ensures Linked(req.firstReq, req.chain) && req.firstReq == req.currentReq
    ensures complete ==>
      req.chain != [] && req.firstReq == req.chain[0] &&
      (|req.chain| == 2 ==> req.chain[0].next == req.chain[1])
    ensures forall i :: 0 <= i < |req.chain| ==>
      fresh(req.chain[i]) && Initial(req.chain[i], req) && req.chain[i] in req.context.memory.live
    ensures complete ==>
      var types := ChainTypes(flag, requestType);
      |req.chain| == |types| &&
      forall i :: 0 <= i < |req.chain| ==>
        req.chain[i].requestType == types[i] && req.chain[i].requestClass == CLASS_IN
  {
    var first := NetworkReqNew(req, requestType, CLASS_IN, extensions);
    if first == null {
      return false;
    }
    req.currentReq := first;
    req.firstReq := first;
    req.chain := [first];

    if WantsBothFamilies(flag) && IsAddressType(requestType) {
      var nextType := Complement(requestType);
      var second := NetworkReqNew(req, nextType, CLASS_IN, extensions);
      if second == null {
        assert Linked(first.next, []);
        return false;
      }
      first.next := second;
      req.chain := [first, second];
      assert Linked(second.next, []);
    } else {
      assert Linked(first.next, []);
    }
    return true;
  }

  /**
   * Building a request and tearing it down straight away leaves every
   * allocator exactly as it was: nothing leaks, on any path.
   */
  method NewThenFree(context: Context, heap: Allocator, reactor: Reactor, name: string,
                     requestType: uint16, extensions: Dict?, flag: FlagLookup, transId: uint32)
    requires context.memory != heap
    modifies context.memory, heap, reactor
    ensures context.memory.live == old(context.memory.live)
    ensures heap.live == old(heap.live)
    ensures reactor.live == old(reactor.live) && reactor.pending == old(reactor.pending)
  {
    ghost var memoryLive, heapLive := context.memory.live, heap.live;
    var req := DnsReqNew(context, heap, reactor, name, requestType, extensions, flag, transId);
    if req != null {
      FreshChainOwned(req.chain, req, heap);
      FreeUnstarted(req, heap, reactor, memoryLive, heapLive);
    }
  }
}
