/**
 * Allocation accounting. An `Allocator` stands for one allocate/deallocate
 * pair: the caller-supplied pair reached through a getdns context, or the
 * process heap (strdup/free). It owns nothing real; its ghost state records
 * which blocks are live and, in order, which blocks were released.
 */
module Memory {
  class Allocator {
    /** Blocks handed out and not yet released. */
    ghost var live: set<object>
    /** Every block released so far, in the order of release. */
    ghost var freed: seq<object>

    constructor ()
      ensures live == {} && freed == []
    {
      live, freed := {}, [];
    }

    /**
     * Offers the freshly created `block` as the memory the allocator hands
     * out. The allocator may refuse (`ok == false`): this is the allocator
     * returning NULL, and `block` is then never used.
     */
    method Malloc(block: object) returns (ok: bool)
      requires block !in live
      modifies this
      ensures live == if ok then old(live) + {block} else old(live)
      ensures freed == old(freed)
    {
      ok :| true;
      if ok {
        live := live + {block};
      }
    }

    /**
     * Releases `p`, a no-op on null. Releasing a block that is not live
     * (a double free, or a block of another allocator) is a verification error.
     */
    method Free(p: object?)
      requires p != null ==> p in live
      modifies this
      ensures live == old(live) - Opt(p)
      ensures freed == old(freed) + OptSeq(p)
    {
      if p != null {
        live := live - {p};
        freed := freed + [p];
      }
    }
  }

  /** The set holding `p`, or the empty set for null. */
  function Opt(p: object?): set<object>
  {
    if p == null then {} else {p}
  }

  /** The sequence holding `p`, or the empty sequence for null. */
  function OptSeq(p: object?): seq<object>
  {
    if p == null then [] else [p]
  }

  /** The elements of a sequence, as a set. */
  ghost function Elems(s: seq<object>): set<object>
  {
    set x | x in s
  }

  /** The non-null entries of `s`, in order: exactly the objects that occur in `s`. */
  function Present(s: seq<object?>): (r: seq<object>)
    ensures |r| <= |s|
    ensures forall i :: 0 <= i < |r| ==> r[i] in s
    ensures forall i :: 0 <= i < |s| && s[i] != null ==> s[i] in r
  {
    if s == [] then [] else Present(s[..|s| - 1]) + OptSeq(s[|s| - 1])
  }

  /** A sequence of nulls has no non-null entries. */
  lemma {:induction false} PresentOfNulls(s: seq<object?>)
    requires forall i :: 0 <= i < |s| ==> s[i] == null
    ensures Present(s) == []
  {
    if s != [] {
      PresentOfNulls(s[..|s| - 1]);
    }
  }

  /** No object occurs twice in `s`: no non-null entry occurs among the entries before it. */
  ghost predicate NoneShared(s: seq<object?>)
  {
    forall i :: 0 <= i < |s| && s[i] != null ==> s[i] !in s[..i]
  }

  /** In a sequence without sharing, an entry is not among the non-null entries before it. */
  lemma PresentNotEarlier(s: seq<object?>, i: nat)
    requires NoneShared(s) && i < |s| && s[i] != null
    ensures s[i] !in Elems(Present(s[..i]))
  {
    var r := Present(s[..i]);
    forall k | 0 <= k < |r|
      ensures r[k] != s[i]
    {
      assert r[k] in s[..i];
    }
  }

  /** Extending a prefix of `s` by one entry extends its non-null entries by that entry. */
  lemma PresentSnoc(s: seq<object?>, i: nat)
    requires i < |s|
    ensures Present(s[..i + 1]) == Present(s[..i]) + OptSeq(s[i])
  {
    assert s[..i + 1][..i] == s[..i];
  }

  /** A prefix one longer is the prefix followed by the next element. */
  lemma TakeSnoc<T>(s: seq<T>, i: nat)
    requires i < |s|
    ensures s[..i + 1] == s[..i] + [s[i]]
  {
  }

  /** The elements of a concatenation are those of its parts. */
  lemma ElemsConcat(a: seq<object>, b: seq<object>)
    ensures Elems(a + b) == Elems(a) + Elems(b)
  {
  }

  /** The sequence and the set built from `p` hold the same objects. */
  lemma ElemsOpt(p: object?)
    ensures Elems(OptSeq(p)) == Opt(p)
  {
  }

  /** Releasing `p` after the blocks of `done` releases the blocks of `done + OptSeq(p)`. */
  lemma ReleaseOne(live: set<object>, before: set<object>, done: seq<object>, p: object?)
    requires live == before - Elems(done) - Opt(p)
    ensures live == before - Elems(done + OptSeq(p))
  {
    ElemsConcat(done, OptSeq(p));
    ElemsOpt(p);
  }

  /**
   * Releasing the blocks just added, in reverse order, restores a set they
   * were not part of; releasing again blocks of `b` already released changes nothing.
   */
  lemma AddThenRelease(before: set<object>, a: set<object>, b: set<object>, again: set<object>)
    requires before !! a && before !! b && again <= b
    ensures before + a + b - b - a == before
    ensures before + a + b - b - again - a == before
  {
  }

  /** Logging `more` after `done` logs `done + more`. */
  lemma LogMore(log: seq<object>, before: seq<object>, done: seq<object>, more: seq<object>)
    requires log == before + done + more
    ensures log == before + (done + more)
  {
  }
}
