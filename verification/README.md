# getdns request lifecycle, modelled in Dafny

This project models the request core of getdns, `src/request-internal.c`.
That core builds and tears down the caller-visible DNS request (`getdns_dns_req`,
here `DnsReq`). Each request owns a singly linked chain of elementary queries
(`getdns_network_req`, here `NetReq`), one per record type and class it asks for.

The request and the node are Dafny classes whose fields the operations
assign in place. The four C functions become imperative module-level Dafny
methods that take those objects:

- `network_req_new` becomes `NetworkReqNew`.
- `network_req_free` becomes `NetworkReqFree`.
- `dns_req_new` becomes `DnsReqNew`.
- `dns_req_free` becomes `DnsReqFree`.

Memory is accounted for by `Allocator` objects. Each has a ghost set of live
blocks and a ghost log of released blocks, in release order. A release of a
block that is not live (a double free, a use of the wrong allocator) is a
verification error. The field reads that precede a release go through
accessors that require the object to be live: `ReadResult` and `ReadNext`
for a node, `ReadTail` for the request's timers and name. A read through one
of these accessors after the release is a verification error. An
allocation may fail; failure stands for the C
allocator returning NULL. There are two allocators:

- the context's `memory_allocator`/`memory_deallocator` pair (`gd_malloc` and
  `gd_free`), which holds the request and its nodes;
- the process heap (`strdup`/`free`, the ldns packet, the dictionary copy),
  which holds the name, the extensions copy and the answers.

The libevent timers live in a `Reactor` with ghost sets of existing and armed
events.

The bundling decision is a pure function, `Bundling.ChainTypes`. The chain holds
the requested type, followed by the other address family (A for AAAA, AAAA for A)
exactly when three things hold:

- the lookup of the "return both v4 and v6" extension returns GOOD;
- the looked-up value is `GETDNS_EXTENSION_TRUE`;
- the type is A (RFC 1035 section 3.2.2) or AAAA (RFC 3596 section 2.1).

Every node has class IN (RFC 1035 section 3.2.4).

Files:

- `types.dfy`: integer widths and protocol constants.
- `memory.dfy`: the allocator and sequence/set facts about releases.
- `foreign.dfy`: `strdup`, the dictionary copy, packets and timers.
- `bundling.dfy`: the bundling decision.
- `request.dfy`: the request and node classes and the four operations.

## Model

| member | source | states |
|---|---|---|
| `Request.NetworkReqNew` | src/request-internal.c:58-81 | On success the node is fresh and live in the context allocator. It has no answer, no `next`, `unboundId == -1`, state NOT_SENT, the given owner, type and class. On refusal it returns null, and only the allocator's (unchanged) state is in its frame, so the owner's chain is untouched. |
| `Request.NetworkReqFree` | src/request-internal.c:45-56 | A no-op on null. Otherwise it releases the answer to the heap only when there is one, then the node to the context allocator, each exactly once. The answer is read while the node is still live. Only the node and its answer leave the live sets: `next` is neither followed nor released. |
| `Request.ReadResult` | src/request-internal.c:52-53 | Reading a node's answer requires the node to be live, and yields exactly that answer. |
| `Request.ReadNext` | src/request-internal.c:98 | Reading a node's successor requires the node to be live, and yields exactly that successor. |
| `Request.DnsReqFree` | src/request-internal.c:83-118 | A no-op on null. Otherwise the context allocator's live set loses exactly the chain's nodes and the request, and its log gains the chain in order and then the request. The heap loses and logs the extensions copy, then every answer in chain order, then the name. The reactor disarms and releases exactly the non-null timers. The timers and the name are read through `ReadTail` while the request is live, and the request is released last. |
| `Request.ReadTail` | src/request-internal.c:104-115 | Reading the request's timers and name requires the request to be live, and yields exactly those fields. |
| `Request.ReleaseQueries` | src/request-internal.c:92-101 | On a live request, releases the extensions copy, then every node of the chain with its answer, in chain order. |
| `Request.FreeChain` | src/request-internal.c:95-101 | The cursor walk reads `next` through `ReadNext` before each release, so no node is used after release. Every node of the chain is released exactly once, in chain order, and no node remains live. Each answer is released once, in chain order. |
| `Request.FreeStep` | src/request-internal.c:98-100 | One iteration of the walk extends the released prefix of nodes, and of answers, by the current node and its answer. |
| `Request.ReleaseTimer` | src/request-internal.c:103-112 | An armed timer is deleted and freed: it is no longer pending or live. A null timer is left alone. |
| `Request.NewRequest` | src/request-internal.c:132-152 | If the context allocator refuses the request block, it returns null with nothing allocated. Otherwise the request is fresh and valid: the name copy carries the given text, the extensions copy is fresh (never the caller's dictionary), and there are no nodes, timers, event base or callback. |
| `Request.DnsReq.Init` | src/request-internal.c:137-152 | The field values dns_req_new gives a new request: not canceled, the given transaction id, null timers, event base, user pointer and callback, and no chain. |
| `Request.AddQueries` | src/request-internal.c:154-185 | Allocates the first node and installs it as both `first_req` and `current_req`. When the bundling condition holds, it allocates a node for the complementary type and links it after the first. On success the chain matches `ChainTypes`. On either refusal the chain holds exactly the nodes allocated so far, still linked and owned. |
| `Request.DnsReqNew` | src/request-internal.c:121-188 | On success the request is fresh and valid, with `first_req == current_req == chain[0]`. The chain has one node per entry of `ChainTypes(flag, type)`, in that order, each fresh, in its initial state, of class IN, and linked in order. Exactly the request, its nodes, the name and the extensions copy are newly live. On any allocation failure it returns null and both allocators' live sets are as before the call. |
| `Request.FreeUnstarted` | src/request-internal.c:157-160 | The failure exit: dns_req_free on a request with no answers and no timers returns both allocators' live sets to their state before the request was built. The first-node failure and the second-node failure (lines 180-183) both use it. |
| `Request.NewThenFree` | src/request-internal.c:121-188 | Building a request with dns_req_new and releasing it with dns_req_free (lines 83-118) leaves the context allocator, the heap and the reactor as they were, on every path: nothing leaks. |
| `Bundling.ChainTypes` | src/request-internal.c:165-185 | The chain holds one or two types and starts with the requested type. It holds two exactly when the lookup returned GOOD, the value is TRUE and the type is A or AAAA. The two types are then A and AAAA, one each. |
| `Bundling.Complement` | src/request-internal.c:173-175 | The complement of an address type is the other address type. |
| `Request.LinkedAt` | src/request-internal.c:96-100 | In a chain spelled out by `first_req` and the `next` links, each node's `next` is the following node, or null for the last. |
| `Request.LinkedDistinct` | src/request-internal.c:96-101 | A null-terminated chain has no repeated node, so the walk terminates and visits each node once. |
| `Request.NodeNotEarlier` | src/request-internal.c:96-101 | A node of the chain is not among the nodes the walk released before it, so releasing it is not a double free. |
| `Request.FreshChainOwned` | src/request-internal.c:69-76 | Nodes in their initial state carry no answers, so a chain of them owned by the request holds nothing in the heap. |
| `Memory.Present` | src/request-internal.c:52-53 | The non-null answers of a chain: every element comes from the chain, and every non-null entry of the chain is among them. |
| `Memory.PresentOfNulls` | src/request-internal.c:69 | A chain whose answers are all null releases no answer. |
| `Memory.PresentNotEarlier` | src/request-internal.c:52-53 | When no answer is shared between nodes, a node's answer is not among the answers released before it. |

## Left out

- The libevent calls `event_del` and `event_free` are reduced to their effect on the reactor's ghost sets of existing and armed events.
- `ldns_pkt_free` is a release on the process heap. The packet's contents are not modelled.
- `ldns_get_random` becomes the `transId` parameter, an arbitrary 32-bit value.
- The unbound context pointer stored at line 139 is not modelled. Nothing in this file uses it.
- The getdns dictionary library is outside the model. `getdns_dict_copy` yields null or a fresh heap block, and its return code is ignored, as in the code. `getdns_dict_destroy` is a heap release, and a release of null is a no-op. `getdns_dict_get_int` becomes the `FlagLookup` input: its return code and the flag value afterwards.
- `strdup` is unchecked in the code, so the name copy may be null. The model adds no failure handling for it, and `free(NULL)` is a no-op.
- The `extensions` parameter of `network_req_new` is accepted and unused, as in the code.
- Cancellation, answer attachment, state transitions beyond NOT_SENT, completion callbacks and timeout firing do not occur in this file.
- `Request.DnsReqNew`: the model reaches both failure exits through one call of `DnsReqFree`. The C code has two identical `dns_req_free(result); return NULL;` blocks.
- `Request.NewRequest`: `strdup` and `getdns_dict_copy` run just before the fields are assigned rather than between the assignments. Nothing else reads those fields in between.
- `Request.DnsReqFree`: its frame names the whole reactor even when both timers are null. Its ensures state that the reactor is then unchanged.
- Only the reads through `ReadResult`, `ReadNext` and `ReadTail`, and the reads inside `ReleaseQueries`, are guarded by liveness. Other field reads are plain reads: the read of `owner` at line 51, and the reads the ghost specification makes.
- Allocation failure is a nondeterministic choice. The model does not say when an allocator refuses.
- `network_req_new` leaves the new node's `next` null and does not touch the parent. `dns_req_new` does the linking (line 184), and the model does the same.
