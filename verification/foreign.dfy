/**
 * The libraries the request core calls but does not implement: the C
 * library's strdup, the getdns dictionary copy, the ldns packet and the
 * libevent timers. Each is reduced to the ownership effect the core relies on.
 */
module Foreign {
  import opened Memory

  /** A NUL-terminated copy of a query name, owned by the request. */
  class NameBuf {
    const text: string

    constructor (text: string)
      ensures this.text == text
    {
      this.text := text;
    }
  }

  /** A getdns dictionary (the extensions); its contents are opaque here. */
  class Dict {
    constructor ()
    {
    }
  }

  /** An ldns packet, the answer attached to a network request. */
  class Packet {
    constructor ()
    {
    }
  }

  /** A libevent event used as a timer. */
  class Timer {
    constructor ()
    {
    }
  }

  /** The libevent side of the timers: which events exist and which are armed. */
  class Reactor {
    ghost var live: set<object>
    ghost var pending: set<object>

    constructor ()
      ensures live == {} && pending == {}
    {
      live, pending := {}, {};
    }

    /** event_del: disarms `t`. */
    method EventDel(t: Timer)
      requires t in live
      modifies this
      ensures pending == old(pending) - {t}
      ensures live == old(live)
    {
      pending := pending - {t};
    }

    /** event_free: releases `t`; a released timer is neither live nor armed. */
    method EventFree(t: Timer)
      requires t in live
      modifies this
      ensures live == old(live) - {t}
      ensures pending == old(pending) - {t}
    {
      live := live - {t};
      pending := pending - {t};
    }
  }

  /** strdup: a fresh heap copy of `s`, or null when the heap refuses. */
  method Strdup(heap: Allocator, s: string) returns (p: NameBuf?)
    modifies heap
    ensures heap.live == old(heap.live) + Opt(p)
    ensures p != null ==> fresh(p) && p.text == s
    ensures heap.freed == old(heap.freed)
  {
    var buf := new NameBuf(s);
    var ok := heap.Malloc(buf);
    p := if ok then buf else null;
  }

  /**
   * getdns_dict_copy: a fresh copy of `src`, never `src` itself. Whether the
   * copy succeeded is not reported to the caller, so the result may be null.
   */
  method DictCopy(heap: Allocator, src: Dict?) returns (copy: Dict?)
    modifies heap
    ensures heap.live == old(heap.live) + Opt(copy)
    ensures copy != null ==> fresh(copy)
    ensures heap.freed == old(heap.freed)
  {
    var d := new Dict();
    var ok := heap.Malloc(d);
    copy := if ok then d else null;
  }
}
