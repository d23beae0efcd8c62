// Address space maps of vm/vm_map.c: sorted lists of entries, merged and clipped, with two search caches.

module VmMap {
  import opened Common

  /** Offsets in objects are 64-bit words. */
  const WORD: nat := 0x1_0000_0000_0000_0000

  /** VM_MAP_NOMERGE, VM_MAP_FIXED, and the bits of VM_MAP_ENTRY_MASK. */
  const NOMERGE: nat := 0x10000
  const FIXED: nat := 0x20000

  /** flags & VM_MAP_ENTRY_MASK. */
  function EntryFlags(flags: nat): nat { flags % FIXED }

  predicate IsFixed(flags: nat) { flags / FIXED % 2 == 1 }

  predicate IsNoMerge(flags: nat) { flags / NOMERGE % 2 == 1 }

  /** VM_MAP_NO_FIND_CACHE. */
  const NO_FIND_CACHE: nat := WORD - 1

  datatype Entry = Entry(start: nat, end: nat, obj: Option<nat>, offset: nat, flags: nat)

  /** What an address maps to. */
  datatype Mapping = Mapping(obj: Option<nat>, offset: nat, flags: nat)

  predicate Covers(e: Entry, a: nat) { e.start <= a < e.end }

  function MapOf(e: Entry, a: nat): Mapping
    requires Covers(e, a)
  {
    Mapping(e.obj, if e.obj.Some? then (e.offset + (a - e.start)) % WORD else 0, e.flags)
  }

  function At(es: seq<Entry>, a: nat): Option<Mapping> {
    if es == [] then None else if Covers(es[0], a) then Some(MapOf(es[0], a)) else At(es[1..], a)
  }

  function Length(es: seq<Entry>): int {
    if es == [] then 0 else es[0].end - es[0].start + Length(es[1..])
  }

  /** Entries are not empty, and follow each other. */
  ghost predicate Sorted(es: seq<Entry>) {
    && (forall e | e in es :: e.start < e.end)
    && forall i, j | 0 <= i < j < |es| :: es[i].end <= es[j].start
  }

  ghost predicate Within(es: seq<Entry>, lo: nat, hi: nat) { forall e | e in es :: lo <= e.start && e.end <= hi }

  lemma {:induction false} AtConcat(xs: seq<Entry>, ys: seq<Entry>, a: nat)
    ensures At(xs + ys, a) == if At(xs, a).Some? then At(xs, a) else At(ys, a)
  {
    if xs == [] {
      assert xs + ys == ys;
    } else {
      assert (xs + ys)[1..] == xs[1..] + ys;
      AtConcat(xs[1..], ys, a);
    }
  }

  lemma {:induction false} LengthConcat(xs: seq<Entry>, ys: seq<Entry>)
    ensures Length(xs + ys) == Length(xs) + Length(ys)
  {
    if xs == [] {
      assert xs + ys == ys;
    } else {
      assert (xs + ys)[1..] == xs[1..] + ys;
      LengthConcat(xs[1..], ys);
    }
  }

  lemma {:induction false} AtCovered(es: seq<Entry>, a: nat)
    ensures At(es, a).Some? <==> exists e | e in es :: Covers(e, a)
  {
    if es != [] {
      AtCovered(es[1..], a);
      if Covers(es[0], a) { assert es[0] in es; }
    }
  }

  /** Replacing some entries by others that map the same keeps the whole. */
  lemma AtSplice(xs: seq<Entry>, ys: seq<Entry>, zs: seq<Entry>, a: nat)
    ensures At(xs + ys + zs, a) == if At(xs, a).Some? then At(xs, a) else if At(ys, a).Some? then At(ys, a) else At(zs, a)
  {
    AtConcat(xs + ys, zs, a);
    AtConcat(xs, ys, a);
  }

  lemma LengthSplice(xs: seq<Entry>, ys: seq<Entry>, zs: seq<Entry>)
    ensures Length(xs + ys + zs) == Length(xs) + Length(ys) + Length(zs)
  {
    LengthConcat(xs + ys, zs);
    LengthConcat(xs, ys);
  }

  lemma AtOne(e: Entry, a: nat)
    ensures At([e], a) == if Covers(e, a) then Some(MapOf(e, a)) else None
    ensures Length([e]) == e.end - e.start
  {}

  lemma AtTwo(e: Entry, f: Entry, a: nat)
    ensures At([e, f], a) == if Covers(e, a) then Some(MapOf(e, a)) else if Covers(f, a) then Some(MapOf(f, a)) else None
    ensures Length([e, f]) == e.end - e.start + (f.end - f.start)
  {
    assert [e, f] == [e] + [f];
    AtConcat([e], [f], a);
    LengthConcat([e], [f]);
    AtOne(e, a);
    AtOne(f, a);
  }

  // ---------------------------------------------------------------- splitting

  /** vm_map_split_entries: the part of an entry below an address, and the one from it on. */
  function Head(e: Entry, at: nat): Entry { e.(end := at) }

  function Tail(e: Entry, at: nat): Entry
    requires e.start <= at
  {
    e.(start := at, offset := if e.obj.Some? then (e.offset + (at - e.start)) % WORD else e.offset)
  }

  lemma SplitSame(e: Entry, at: nat, a: nat)
    requires e.start < at < e.end
    ensures At([Head(e, at), Tail(e, at)], a) == At([e], a)
    ensures Length([Head(e, at), Tail(e, at)]) == Length([e])
  {
    AtTwo(Head(e, at), Tail(e, at), a);
    AtOne(e, a);
    if Covers(Tail(e, at), a) { ModAdd(e.offset + (at - e.start), a - at); }
  }

  lemma ModAdd(x: nat, y: nat)
    ensures (x % WORD + y) % WORD == (x + y) % WORD
  {}

  /** The same mappings, for the same total length. */
  ghost predicate Same(xs: seq<Entry>, ys: seq<Entry>) {
    Length(xs) == Length(ys) && forall a: nat :: At(xs, a) == At(ys, a)
  }

  lemma SameSplice(xs: seq<Entry>, ys: seq<Entry>, ys': seq<Entry>, zs: seq<Entry>)
    requires Same(ys, ys')
    ensures Same(xs + ys + zs, xs + ys' + zs)
  {
    LengthSplice(xs, ys, zs);
    LengthSplice(xs, ys', zs);
    forall a: nat ensures At(xs + ys + zs, a) == At(xs + ys' + zs, a) {
      AtSplice(xs, ys, zs, a);
      AtSplice(xs, ys', zs, a);
    }
  }

  lemma SplitIsSame(e: Entry, at: nat)
    requires e.start < at < e.end
    ensures Same([e], [Head(e, at), Tail(e, at)])
  {
    forall a: nat ensures At([Head(e, at), Tail(e, at)], a) == At([e], a) { SplitSame(e, at, a); }
    SplitSame(e, at, 0);
  }

  /** vm_map_try_merge_compatible, of two entries. */
  predicate Compatible(e: Entry, f: Entry) { e.obj.None? && f.obj.None? && e.flags == f.flags }

  lemma JoinSame(e: Entry, f: Entry, g: Entry)
    requires Compatible(e, f) && e.start <= e.end == f.start <= f.end
    requires g.start == e.start && g.end == f.end && g.obj.None? && g.flags == e.flags
    ensures Same([g], [e, f])
  {
    AtOne(g, 0);
    AtTwo(e, f, 0);
    forall a: nat ensures At([g], a) == At([e, f], a) {
      AtOne(g, a);
      AtTwo(e, f, a);
    }
  }

  lemma SameTrans(xs: seq<Entry>, ys: seq<Entry>, zs: seq<Entry>)
    requires Same(xs, ys) && Same(ys, zs)
    ensures Same(xs, zs)
  {}

  // ---------------------------------------------------------------- order

  /** Sequences of entries that follow each other. */
  lemma SortedJoin(xs: seq<Entry>, lo: nat, ys: seq<Entry>, hi: nat, zs: seq<Entry>)
    requires Sorted(xs) && Sorted(ys) && Sorted(zs) && lo <= hi
    requires (forall e | e in xs :: e.end <= lo) && Within(ys, lo, hi) && forall e | e in zs :: hi <= e.start
    ensures Sorted(xs + ys + zs)
  {
    var s := xs + ys + zs;
    forall i, j | 0 <= i < j < |s| ensures s[i].end <= s[j].start {
      assert i < |xs| ==> s[i] == xs[i] && s[i] in xs;
      assert |xs| <= i < |xs| + |ys| ==> s[i] == ys[i - |xs|] && s[i] in ys;
      assert |xs| + |ys| <= i ==> s[i] == zs[i - |xs| - |ys|];
      assert j < |xs| ==> s[j] == xs[j];
      assert |xs| <= j < |xs| + |ys| ==> s[j] == ys[j - |xs|] && s[j] in ys;
      assert |xs| + |ys| <= j ==> s[j] == zs[j - |xs| - |ys|] && s[j] in zs;
    }
  }

  lemma SortedSlice(es: seq<Entry>, i: nat, j: nat)
    requires Sorted(es) && i <= j <= |es|
    ensures Sorted(es[i..j])
    ensures forall e | e in es[i..j] :: e in es
  {
    var t := es[i..j];
    assert forall k | 0 <= k < |t| :: t[k] == es[i + k];
  }

  /** The bounds between entries k - 1 and k. */
  lemma SortedAround(es: seq<Entry>, k: nat)
    requires Sorted(es) && k < |es|
    ensures forall e | e in es[..k] :: e.end <= es[k].start
    ensures forall e | e in es[k + 1..] :: es[k].end <= e.start
    ensures es[k] in es && es[k].start < es[k].end
    ensures es[k] !in es[..k] && es[k] !in es[k + 1..]
  {
    forall e | e in es[..k] ensures e.end <= es[k].start && e != es[k] {
      var i :| 0 <= i < k && es[..k][i] == e;
      assert e == es[i];
    }
    forall e | e in es[k + 1..] ensures es[k].end <= e.start && e != es[k] {
      var i :| 0 <= i < |es| - k - 1 && es[k + 1..][i] == e;
      assert e == es[k + 1 + i];
    }
  }

  // ---------------------------------------------------------------- free ranges

  /** No entry is in a range. */
  ghost predicate Clear(es: seq<Entry>, s: nat, len: nat) { forall e | e in es :: e.end <= s || s + len <= e.start }

  lemma ClearMeans(es: seq<Entry>, s: nat, len: nat)
    requires Sorted(es) && len > 0
    ensures Clear(es, s, len) <==> forall a | s <= a < s + len :: At(es, a).None?
  {
    if Clear(es, s, len) {
      forall a | s <= a < s + len ensures At(es, a).None? { AtCovered(es, a); }
    } else {
      var e :| e in es && !(e.end <= s || s + len <= e.start);
      var a := if s >= e.start then s else e.start;
      AtCovered(es, a);
      assert Covers(e, a);
    }
  }

  /** Index k is that of the first entry that ends after an address. */
  ghost predicate NearestAt(es: seq<Entry>, a: nat, k: nat) {
    k <= |es| && (forall j | 0 <= j < k :: es[j].end <= a) && (k < |es| ==> a < es[k].end)
  }

  /** A range from an address on is free up to the first entry that ends after it. */
  lemma GapClear(es: seq<Entry>, a: nat, k: nat, len: nat)
    requires Sorted(es) && NearestAt(es, a, k) && len > 0
    ensures Clear(es, a, len) <==> k == |es| || (a < es[k].start && len <= es[k].start - a)
  {
    if k < |es| {
      assert es[k] in es;
      forall e | e in es && len <= es[k].start - a ensures e.end <= a || a + len <= e.start {
        var j :| 0 <= j < |es| && es[j] == e;
      }
    } else {
      forall e | e in es ensures e.end <= a { var j :| 0 <= j < |es| && es[j] == e; }
    }
  }

  /** vm_map_request; next is the index of the entry that follows the range. */
  datatype Request = Request(start: nat, size: nat, flags: nat, obj: Option<nat>, offset: nat, next: nat)

  /** A range that a mapping of some size can use. */
  ghost predicate Fits(es: seq<Entry>, lo: nat, hi: nat, s: nat, size: nat) {
    lo <= s && s + size <= hi && Clear(es, s, size)
  }

  /** s is the first address where a mapping fits. */
  ghost predicate FirstFit(es: seq<Entry>, lo: nat, hi: nat, s: nat, size: nat) {
    Fits(es, lo, hi, s, size) && forall t: nat | t < s :: !Fits(es, lo, hi, t, size)
  }

  /** Free ranges that start below an address are not greater than the threshold. */
  ghost predicate Small(es: seq<Entry>, lo: nat, hi: nat, below: nat, threshold: nat) {
    forall t: nat, len: nat | t < below && len > threshold :: !Fits(es, lo, hi, t, len)
  }

  /** What one more gap tells. */
  lemma SmallStep(es: seq<Entry>, lo: nat, hi: nat, start: nat, k: nat, threshold: nat, space: nat)
    requires Sorted(es) && NearestAt(es, start, k) && k < |es| && Small(es, lo, hi, start, threshold)
    requires space == if start >= es[k].start then 0 else es[k].start - start
    ensures Small(es, lo, hi, es[k].end, if space > threshold then space else threshold)
    ensures NearestAt(es, es[k].end, k + 1)
  {
    var t' := if space > threshold then space else threshold;
    forall t: nat, len: nat | t < es[k].end && len > t' ensures !Fits(es, lo, hi, t, len) {
      if t < start { assert !Fits(es, lo, hi, t, len); } else { assert es[k] in es; }
    }
    if k + 1 < |es| { assert es[k + 1] in es; }
  }

  class VmMap {
    const start: nat
    const end: nat
    /** entry_list, and entry_tree. */
    var entries: seq<Entry>
    var tree: set<Entry>
    var nrEntries: nat
    var size: nat
    var lookupCache: Option<Entry>
    var findCache: nat
    var findCacheThreshold: nat

    ghost predicate Linked()
      reads this
    {
      && start < end < WORD && Sorted(entries) && Within(entries, start, end)
      && (forall e :: e in tree <==> e in entries) && nrEntries == |entries|
      && (lookupCache.Some? ==> lookupCache.value in entries)
    }

    /** The find cache skips no range that is greater than the threshold. */
    ghost predicate CacheOk()
      reads this
    {
      findCacheThreshold == NO_FIND_CACHE
      || (start <= findCache <= end && Small(entries, start, end, findCache, findCacheThreshold))
    }

    ghost predicate Valid()
      reads this
    {
      Linked() && CacheOk() && size == Length(entries)
    }

    /** vm_map_init. */
    constructor (lo: nat, hi: nat)
      requires lo < hi < WORD
      ensures Valid() && start == lo && end == hi && entries == []
    {
      start, end := lo, hi;
      entries, tree, nrEntries, size, lookupCache := [], {}, 0, 0, None;
      findCache, findCacheThreshold := 0, NO_FIND_CACHE;
    }

    /** The index of an entry of the list. */
    function IndexOf(es: seq<Entry>, e: Entry): (k: nat)
      requires e in es
      ensures k < |es| && es[k] == e
    {
      if es[0] == e then 0 else 1 + IndexOf(es[1..], e)
    }

    /** vm_map_lookup_nearest. */
    method LookupNearest(addr: nat) returns (k: nat)
      requires Linked()
      modifies this`lookupCache
      ensures Linked() && NearestAt(entries, addr, k)
    {
      if lookupCache.Some? && addr >= lookupCache.value.start && addr < lookupCache.value.end {
        k := IndexOf(entries, lookupCache.value);
        SortedAround(entries, k);
        assert forall j | 0 <= j < k :: entries[j] in entries[..k];
        return;
      }
      k := TreeNearest(addr);
      if k < |entries| {
        lookupCache := Some(entries[k]);
      }
    }

    /** rbtree_lookup_nearest on the entry tree, to the right. */
    method TreeNearest(addr: nat) returns (k: nat)
      requires Linked()
      ensures NearestAt(entries, addr, k)
    {
      if e :| e in tree && Closest(tree, addr, e) {
        k := IndexOf(entries, e);
        forall j | 0 <= j < k ensures entries[j].end <= addr {
          assert entries[j] in tree && e in entries;
        }
      } else {
        k := |entries|;
        NoneNearest(addr);
      }
    }

    lemma NoneNearest(addr: nat)
      requires (forall e :: e in tree <==> e in entries) && Sorted(entries)
      requires forall e | e in tree :: !Closest(tree, addr, e)
      ensures forall j | 0 <= j < |entries| :: entries[j].end <= addr
    {
      var i := FirstIndex(entries, addr);
      if i < |entries| { FirstIsClosest(entries, tree, addr, i); }
    }

    /** What a prepared request says: the range fits, and next is the entry after it. */
    ghost predicate Prepared(s: nat, len: nat, next: nat)
      reads this
    {
      Fits(entries, start, end, s, len) && NearestAt(entries, s, next)
    }

    /** vm_map_find_fixed. */
    method FindFixed(s: nat, len: nat) returns (ok: bool, next: nat)
      requires Linked() && len > 0 && s + len < WORD
      modifies this`lookupCache
      ensures Linked() && ok == Fits(entries, start, end, s, len)
      ensures ok ==> Prepared(s, len, next)
    {
      next := 0;
      if s < start || s + len > end {
        return false, 0;
      }
      next := LookupNearest(s);
      GapClear(entries, s, next, len);
      if next == |entries| {
        return end - s >= len, next;
      }
      if s >= entries[next].start || entries[next].start - s < len {
        return false, 0;
      }
      ok := true;
    }

    /** The search of vm_map_find_avail from an address on, with the label retry as its entry. */
    method Scan(base: nat, len: nat) returns (ok: bool, s: nat, next: nat)
      requires Linked() && len > 0 && start <= base <= end && Small(entries, start, end, base, findCacheThreshold)
      requires len > findCacheThreshold || base == start
      modifies this`lookupCache, this`findCache, this`findCacheThreshold
      ensures Linked()
      ensures ok ==> FirstFit(entries, start, end, s, len) && NearestAt(entries, s, next)
      ensures ok ==> findCache == s + len && Small(entries, start, end, s, findCacheThreshold)
      ensures !ok ==> forall t: nat :: !Fits(entries, start, end, t, len)
    {
      hide Sorted, Within, Clear, Small;
      s := base;
      next := LookupNearest(s);
      BelowBase(base, len);
      while true
        invariant Linked() && start <= s <= end && NearestAt(entries, s, next)
        invariant Small(entries, start, end, s, findCacheThreshold)
        invariant forall t: nat | t < s :: !Fits(entries, start, end, t, len)
        decreases |entries| - next
      {
        if end - s < len {
          return false, s, next;
        }
        var space := if next == |entries| then end - s else if s >= entries[next].start then 0 else entries[next].start - s;
        GapFits(s, len, next);
        if space >= len {
          findCache := s + len;
          return true, s, next;
        }
        GapNone(s, len, next);
        SmallStep(entries, start, end, s, next, findCacheThreshold, space);
        if space > findCacheThreshold {
          findCacheThreshold := space;
        }
        s := entries[next].end;
        next := next + 1;
        EndsWithin(next - 1);
      }
    }

    lemma BelowBase(base: nat, len: nat)
      requires Small(entries, start, end, base, findCacheThreshold) && (len > findCacheThreshold || base == start)
      ensures forall t: nat | t < base :: !Fits(entries, start, end, t, len)
    {}

    lemma EndsWithin(k: nat)
      requires Linked() && k < |entries|
      ensures start <= entries[k].end <= end
    {
      assert entries[k] in entries;
    }

    lemma GapFits(s: nat, len: nat, k: nat)
      requires Linked() && NearestAt(entries, s, k) && len > 0 && start <= s && len <= end - s
      ensures Fits(entries, start, end, s, len) <==> k == |entries| || (s < entries[k].start && len <= entries[k].start - s)
    {
      GapClear(entries, s, k, len);
    }

    /** Nothing fits before the end of an entry when nothing fits in the gap before it. */
    lemma GapNone(s: nat, len: nat, k: nat)
      requires Linked() && NearestAt(entries, s, k) && len > 0 && start <= s && len <= end - s
      requires !Fits(entries, start, end, s, len) && forall t: nat | t < s :: !Fits(entries, start, end, t, len)
      ensures k < |entries| && (if s >= entries[k].start then 0 else entries[k].start - s) < len
      ensures forall t: nat | t < entries[k].end :: !Fits(entries, start, end, t, len)
    {
      GapFits(s, len, k);
      assert entries[k] in entries;
    }

    /** vm_map_find_avail, without alignment. */
    method FindAvail(hint: nat, len: nat) returns (ok: bool, s: nat, next: nat)
      requires Linked() && CacheOk() && len > 0 && hint + len < WORD
      modifies this`lookupCache, this`findCache, this`findCacheThreshold
      ensures Linked()
      ensures ok ==> Prepared(s, len, next)
      ensures if hint != 0 && Fits(entries, start, end, hint, len) then ok && s == hint && CacheOk()
              else if ok then FirstFit(entries, start, end, s, len) && findCache == s + len
                              && Small(entries, start, end, s, findCacheThreshold)
              else forall t: nat :: !Fits(entries, start, end, t, len)
    {
      if hint != 0 {
        ok, next := FindFixed(hint, len);
        if ok {
          return true, hint, next;
        }
      }
      var base;
      if len > findCacheThreshold {
        base := findCache;
      } else {
        base := start;
        findCacheThreshold := 0;
      }
      SmallStart();
      ok, s, next := Scan(base, len);
      if !ok && base != start {
        base := start;
        findCacheThreshold := 0;
        ok, s, next := Scan(base, len);
      }
    }

    lemma SmallStart()
      ensures Small(entries, start, end, start, findCacheThreshold)
    {}

    /** vm_map_link: before index k. */
    method Link(e: Entry, k: nat)
      requires k <= |entries| && (forall f :: f in tree <==> f in entries) && nrEntries == |entries|
      modifies this`entries, this`tree, this`nrEntries
      ensures entries == old(entries)[..k] + [e] + old(entries)[k..]
      ensures (forall f :: f in tree <==> f in entries) && nrEntries == |entries|
    {
      tree := tree + {e};
      nrEntries := nrEntries + 1;
      LinkMembers(entries, e, k);
      entries := entries[..k] + [e] + entries[k..];
    }

    lemma LinkMembers(es: seq<Entry>, e: Entry, k: nat)
      requires k <= |es|
      ensures forall f :: f in es[..k] + [e] + es[k..] <==> f in es || f == e
    {
      assert es == es[..k] + es[k..];
    }

    /** vm_map_unlink. */
    method Unlink(k: nat)
      requires k < |entries| && (forall f :: f in tree <==> f in entries) && nrEntries == |entries|
      requires entries[k] !in entries[..k] && entries[k] !in entries[k + 1..]
      modifies this`entries, this`tree, this`nrEntries, this`lookupCache
      ensures entries == old(entries)[..k] + old(entries)[k + 1..]
      ensures (forall f :: f in tree <==> f in entries) && nrEntries == |entries|
      ensures lookupCache == if old(lookupCache) == Some(old(entries)[k]) then None else old(lookupCache)
    {
      if lookupCache == Some(entries[k]) {
        lookupCache := None;
      }
      UnlinkMembers(entries, k);
      tree := tree - {entries[k]};
      nrEntries := nrEntries - 1;
      entries := entries[..k] + entries[k + 1..];
    }

    lemma UnlinkMembers(es: seq<Entry>, k: nat)
      requires k < |es| && es[k] !in es[..k] && es[k] !in es[k + 1..]
      ensures forall f :: f in es[..k] + es[k + 1..] <==> f in es && f != es[k]
    {
      assert es == es[..k] + [es[k]] + es[k + 1..];
    }

    /** An entry is unlinked, changed, and linked again at its place. */
    method Relink(k: nat, e: Entry)
      requires Linked() && k < |entries| && e.start < e.end && start <= e.start && e.end <= end
      requires forall f | f in entries[..k] :: f.end <= e.start
      requires forall f | f in entries[k + 1..] :: e.end <= f.start
      modifies this`entries, this`tree, this`nrEntries, this`lookupCache
      ensures Linked() && entries == old(entries)[..k] + [e] + old(entries)[k + 1..]
    {
      ghost var es := entries;
      SortedAround(entries, k);
      Unlink(k);
      Link(e, k);
      assert entries == es[..k] + [e] + es[k + 1..];
      Relinked(es, k, e);
    }

    lemma Relinked(es: seq<Entry>, k: nat, e: Entry)
      requires Sorted(es) && Within(es, start, end) && k < |es| && e.start < e.end && start <= e.start && e.end <= end
      requires forall f | f in es[..k] :: f.end <= e.start
      requires forall f | f in es[k + 1..] :: e.end <= f.start
      ensures Sorted(es[..k] + [e] + es[k + 1..]) && Within(es[..k] + [e] + es[k + 1..], start, end)
      ensures forall f | f in es && f != es[k] :: f in es[..k] + [e] + es[k + 1..]
    {
      SortedSlice(es, 0, k);
      SortedSlice(es, k + 1, |es|);
      SortedJoin(es[..k], e.start, [e], e.end, es[k + 1..]);
      assert es == es[..k] + [es[k]] + es[k + 1..];
    }

    /** Where a prepared range lies in the list. */
    lemma PreparedAround(s: nat, len: nat, k: nat)
      requires Linked() && len > 0 && Prepared(s, len, k)
      ensures k <= |entries| && (forall e | e in entries[..k] :: e.end <= s) && (forall e | e in entries[k..] :: s + len <= e.start)
    {
      forall e | e in entries[..k] ensures e.end <= s {
        var j :| 0 <= j < k && entries[..k][j] == e;
        assert entries[j].end <= s;
      }
      forall e | e in entries[k..] ensures s + len <= e.start {
        var j :| 0 <= j < |entries| - k && entries[k..][j] == e;
        assert entries[k + j] in entries && entries[k] in entries;
      }
    }

    /** vm_map_try_merge_near, when the range is exactly between two entries it can be merged with. */
    method MergeNear(k: nat, e: Entry)
      requires Linked() && 0 < k < |entries| && entries[k - 1].end == e.start < e.end == entries[k].start
      requires Compatible(entries[k - 1], e) && Compatible(e, entries[k])
      modifies this`entries, this`tree, this`nrEntries, this`lookupCache
      ensures Linked() && Same(entries, old(entries)[..k] + [e] + old(entries)[k..])
    {
      hide Sorted, Within, Same, Compatible;
      ghost var es := entries;
      var first, second := entries[k - 1], entries[k];
      AroundPair(es, k);
      NearSame(es, k, e);
      NearSorted(es, k);
      SortedAround(es, k - 1);
      Unlink(k - 1);
      AfterUnlink(es, k);
      Unlink(k - 1);
      Link(first.(end := second.end), k - 1);
      assert entries == es[..k - 1] + [first.(end := second.end)] + es[k + 1..];
    }

    lemma AfterUnlink(es: seq<Entry>, k: nat)
      requires 0 < k < |es| && es[k] !in es[..k - 1] && es[k] !in es[k + 1..]
      ensures var r := es[..k - 1] + es[k..];
              r[k - 1] == es[k] && r[..k - 1] == es[..k - 1] && r[k..] == es[k + 1..]
    {}

    lemma AroundPair(es: seq<Entry>, k: nat)
      requires Sorted(es) && 0 < k < |es|
      ensures es[k] !in es[..k - 1] && es[k - 1] != es[k] && es[k] !in es[k + 1..]
      ensures es[k - 1].start < es[k - 1].end && es[k].start < es[k].end
      ensures forall f | f in es && f != es[k - 1] && f != es[k] :: f in es[..k - 1] || f in es[k + 1..]
    {
      SortedAround(es, k);
      assert forall f | f in es[..k - 1] :: f in es[..k];
      assert es[k - 1] in es[..k];
      assert es == es[..k - 1] + [es[k - 1], es[k]] + es[k + 1..];
    }

    lemma NearSame(es: seq<Entry>, k: nat, e: Entry)
      requires 0 < k < |es| && es[k - 1].start <= es[k - 1].end == e.start <= e.end == es[k].start <= es[k].end
      requires Compatible(es[k - 1], e) && Compatible(e, es[k])
      ensures Same(es[..k - 1] + [es[k - 1].(end := es[k].end)] + es[k + 1..], es[..k] + [e] + es[k..])
    {
      var p, n := es[k - 1], es[k];
      var pe, g := p.(end := e.end), p.(end := n.end);
      JoinSame(p, e, pe);
      JoinSame(pe, n, g);
      SameSplice([], [pe], [p, e], [n]);
      assert [] + [pe] + [n] == [pe, n] && [] + [p, e] + [n] == [p, e, n];
      SameTrans([g], [pe, n], [p, e, n]);
      SameSplice(es[..k - 1], [g], [p, e, n], es[k + 1..]);
      assert es[..k - 1] + [p, e, n] + es[k + 1..] == es[..k] + [e] + es[k..];
    }

    lemma NearSorted(es: seq<Entry>, k: nat)
      requires Sorted(es) && Within(es, start, end) && 0 < k < |es|
      ensures var g := es[k - 1].(end := es[k].end);
              Sorted(es[..k - 1] + [g] + es[k + 1..]) && Within(es[..k - 1] + [g] + es[k + 1..], start, end)
    {
      SortedAround(es, k - 1);
      SortedAround(es, k);
      SortedSlice(es, 0, k - 1);
      SortedSlice(es, k + 1, |es|);
      var g := es[k - 1].(end := es[k].end);
      assert es[k - 1].end <= es[k].start;
      SortedJoin(es[..k - 1], g.start, [g], g.end, es[k + 1..]);
    }

    /** vm_map_try_merge_prev. */
    method MergePrev(k: nat, e: Entry)
      requires Linked() && 0 < k <= |entries| && entries[k - 1].end == e.start < e.end <= end && Compatible(entries[k - 1], e)
      requires forall f | f in entries[k..] :: e.end <= f.start
      modifies this`entries, this`tree, this`nrEntries, this`lookupCache
      ensures Linked() && Same(entries, old(entries)[..k] + [e] + old(entries)[k..])
    {
      ghost var es := entries;
      var prev := entries[k - 1];
      SortedAround(entries, k - 1);
      Relink(k - 1, prev.(end := prev.end + (e.end - e.start)));
      JoinSame(prev, e, prev.(end := e.end));
      SameSplice(es[..k - 1], [prev.(end := e.end)], [prev, e], es[k..]);
      assert es[..k - 1] + [prev, e] + es[k..] == es[..k] + [e] + es[k..];
    }

    /** vm_map_try_merge_next. */
    method MergeNext(k: nat, e: Entry)
      requires Linked() && k < |entries| && start <= e.start < e.end == entries[k].start && Compatible(e, entries[k])
      requires forall f | f in entries[..k] :: f.end <= e.start
      modifies this`entries, this`tree, this`nrEntries, this`lookupCache
      ensures Linked() && Same(entries, old(entries)[..k] + [e] + old(entries)[k..])
    {
      hide Sorted, Same;
      ghost var es := entries;
      var next := entries[k];
      SortedAround(entries, k);
      Relink(k, next.(start := e.start));
      JoinNext(e, next);
      SameSplice(es[..k], [next.(start := e.start)], [e, next], es[k + 1..]);
      assert es[..k] + [e, next] + es[k + 1..] == es[..k] + [e] + es[k..];
    }

    lemma JoinNext(e: Entry, next: Entry)
      requires Compatible(e, next) && e.start <= e.end == next.start <= next.end
      ensures Same([next.(start := e.start)], [e, next])
    {
      JoinSame(e, next, next.(start := e.start));
    }

    /** vm_map_try_merge. */
    method TryMerge(k: nat, e: Entry) returns (merged: bool)
      requires Linked() && e.start < e.end && Prepared(e.start, e.end - e.start, k)
      modifies this`entries, this`tree, this`nrEntries, this`lookupCache
      ensures Linked() && if merged then Same(entries, old(entries)[..k] + [e] + old(entries)[k..]) else entries == old(entries)
    {
      hide Sorted, Within, Same, Clear;
      PreparedAround(e.start, e.end - e.start, k);
      merged := false;
      if 0 < k < |entries| && entries[k - 1].end == e.start && e.end == entries[k].start
         && Compatible(entries[k - 1], e) && Compatible(e, entries[k]) {
        MergeNear(k, e);
        return true;
      }
      if 0 < k && Compatible(entries[k - 1], e) && entries[k - 1].end == e.start {
        MergePrev(k, e);
        return true;
      }
      if k < |entries| && Compatible(e, entries[k]) && e.end == entries[k].start {
        MergeNext(k, e);
        return true;
      }
    }

    /** vm_map_insert, of a new entry. */
    method Insert(k: nat, e: Entry)
      requires Linked() && e.start < e.end && Prepared(e.start, e.end - e.start, k)
      modifies this`entries, this`tree, this`nrEntries, this`lookupCache, this`size
      ensures Linked() && Same(entries, old(entries)[..k] + [e] + old(entries)[k..])
      ensures size == old(size) + (e.end - e.start)
    {
      hide Sorted, Within, Same, Clear;
      PreparedAround(e.start, e.end - e.start, k);
      var merged := TryMerge(k, e);
      if !merged {
        LinkedAround(k, e);
        Link(e, k);
      }
      size := size + (e.end - e.start);
    }

    lemma LinkedAround(k: nat, e: Entry)
      requires Linked() && k <= |entries| && start <= e.start < e.end <= end
      requires (forall f | f in entries[..k] :: f.end <= e.start) && forall f | f in entries[k..] :: e.end <= f.start
      ensures var es := entries[..k] + [e] + entries[k..];
              Sorted(es) && Within(es, start, end) && Same(es, es) && forall f | f in entries :: f in es
    {
      SortedSlice(entries, 0, k);
      SortedSlice(entries, k, |entries|);
      SortedJoin(entries[..k], e.start, [e], e.end, entries[k..]);
      assert entries == entries[..k] + entries[k..];
    }

    /** vm_map_enter. Addresses and sizes are below 2^64; no alignment is asked for. */
    method Enter(hint: nat, len: nat, flags: nat, obj: Option<nat>, offset: nat) returns (ok: bool, s: nat)
      requires Valid() && len > 0 && hint + len < WORD && !IsNoMerge(flags) && (obj.None? ==> offset == 0)
      modifies this`entries, this`tree, this`nrEntries, this`lookupCache, this`size, this`findCache, this`findCacheThreshold
      ensures Valid()
      ensures if hint != 0 && Fits(old(entries), start, end, hint, len) then ok && s == hint
              else if IsFixed(flags) then ok == Fits(old(entries), start, end, hint, len) && (ok ==> s == hint)
              else if ok then FirstFit(old(entries), start, end, s, len)
              else forall t: nat :: !Fits(old(entries), start, end, t, len)
      ensures ok ==> Fits(old(entries), start, end, s, len)
      ensures ok ==> forall a: nat :: (At(entries, a) == (
        if s <= a < s + len then Some(Mapping(obj, if obj.Some? then (offset + (a - s)) % WORD else 0, EntryFlags(flags)))
        else At(old(entries), a)))
      ensures !ok ==> entries == old(entries)
    {
      hide Sorted, Within, Same, Clear, Small, At;
      ghost var es := entries;
      var next;
      if IsFixed(flags) {
        s := hint;
        ok, next := FindFixed(s, len);
      } else {
        ok, s, next := FindAvail(hint, len);
      }
      if !ok {
        ResetFindCache();
        return;
      }
      var e := Entry(s, s + len, obj, offset, EntryFlags(flags));
      PreparedAround(s, len, next);
      Insert(next, e);
      Entered(es, next, e);
      CacheKept(es, next, e);
    }

    /** vm_map_reset_find_cache. */
    method ResetFindCache()
      requires Linked()
      modifies this`findCache, this`findCacheThreshold
      ensures Linked() && CacheOk()
    {
      findCache := 0;
      findCacheThreshold := NO_FIND_CACHE;
    }

    /** The mappings once a range has been entered. */
    lemma Entered(es: seq<Entry>, k: nat, e: Entry)
      requires k <= |es| && Sorted(es) && e.start < e.end && Clear(es, e.start, e.end - e.start)
      requires Same(entries, es[..k] + [e] + es[k..])
      ensures forall a: nat :: At(entries, a) == if Covers(e, a) then Some(MapOf(e, a)) else At(es, a)
      ensures Length(entries) == Length(es) + (e.end - e.start)
    {
      assert es == es[..k] + es[k..];
      LengthSplice(es[..k], [e], es[k..]);
      LengthConcat(es[..k], es[k..]);
      AtOne(e, 0);
      ClearMeans(es, e.start, e.end - e.start);
      forall a: nat ensures At(entries, a) == if Covers(e, a) then Some(MapOf(e, a)) else At(es, a) {
        AtSplice(es[..k], [e], es[k..], a);
        AtConcat(es[..k], es[k..], a);
        AtOne(e, a);
      }
    }

    /** What is free after an insertion was free before, out of the new range. */
    lemma FitsBefore(es: seq<Entry>, e: Entry, t: nat, len: nat)
      requires Sorted(es) && Sorted(entries) && e.start < e.end && len > 0 && Fits(entries, start, end, t, len)
      requires forall a: nat :: At(entries, a) == if Covers(e, a) then Some(MapOf(e, a)) else At(es, a)
      ensures Fits(es, start, end, t, len) && !Covers(e, t)
    {
      ClearMeans(entries, t, len);
      ClearMeans(es, t, len);
      assert At(entries, t).None?;
      forall a | t <= a < t + len ensures At(es, a).None? { assert At(entries, a).None?; }
    }

    lemma CacheKept(es: seq<Entry>, k: nat, e: Entry)
      requires Sorted(es) && Linked() && e.start < e.end && start <= e.start && e.end <= end
      requires forall a: nat :: At(entries, a) == if Covers(e, a) then Some(MapOf(e, a)) else At(es, a)
      requires findCacheThreshold == NO_FIND_CACHE
               || (start <= findCache <= end && Small(es, start, end, findCache, findCacheThreshold))
               || (findCache == e.end && Small(es, start, end, e.start, findCacheThreshold))
      ensures CacheOk()
    {
      if findCacheThreshold != NO_FIND_CACHE {
        forall t: nat, len: nat | t < findCache && len > findCacheThreshold ensures !Fits(entries, start, end, t, len) {
          if Fits(entries, start, end, t, len) { FitsBefore(es, e, t, len); }
        }
      }
    }

    /** An entry becomes its two parts: its place is taken by the part below an address, then the one from it on. */
    method SplitAt(k: nat, at: nat)
      requires Linked() && k < |entries| && entries[k].start < at < entries[k].end
      modifies this`entries, this`tree, this`nrEntries, this`lookupCache
      ensures Linked() && entries == old(entries)[..k] + [Head(old(entries)[k], at), Tail(old(entries)[k], at)] + old(entries)[k + 1..]
    {
      ghost var es := entries;
      var e := entries[k];
      SortedAround(entries, k);
      Unlink(k);
      Link(Tail(e, at), k);
      Link(Head(e, at), k);
      assert entries == es[..k] + [Head(e, at), Tail(e, at)] + es[k + 1..];
      SplitSorted(es, k, at);
    }

    lemma SplitSorted(es: seq<Entry>, k: nat, at: nat)
      requires Sorted(es) && Within(es, start, end) && k < |es| && es[k].start < at < es[k].end
      ensures var r := es[..k] + [Head(es[k], at), Tail(es[k], at)] + es[k + 1..];
              Sorted(r) && Within(r, start, end) && Same(r, es) && forall f | f in es && f != es[k] :: f in r
    {
      hide Sorted, Within, Same;
      var e := es[k];
      SplitOrder(es, k, at);
      SplitWithin(es, k, at);
      SplitIsSame(e, at);
      SameSplice(es[..k], [e], [Head(e, at), Tail(e, at)], es[k + 1..]);
      SameSwap(es[..k] + [e] + es[k + 1..], es[..k] + [Head(e, at), Tail(e, at)] + es[k + 1..]);
      assert es == es[..k] + [e] + es[k + 1..];
    }

    lemma SameSwap(xs: seq<Entry>, ys: seq<Entry>)
      requires Same(xs, ys) || Same(ys, xs)
      ensures Same(ys, xs)
    {}

    lemma SplitOrder(es: seq<Entry>, k: nat, at: nat)
      requires Sorted(es) && k < |es| && es[k].start < at < es[k].end
      ensures Sorted(es[..k] + [Head(es[k], at), Tail(es[k], at)] + es[k + 1..])
    {
      SortedAround(es, k);
      SortedSlice(es, 0, k);
      SortedSlice(es, k + 1, |es|);
      SortedJoin(es[..k], es[k].start, [Head(es[k], at), Tail(es[k], at)], es[k].end, es[k + 1..]);
    }

    lemma SplitWithin(es: seq<Entry>, k: nat, at: nat)
      requires Within(es, start, end) && k < |es| && es[k].start < at < es[k].end
      ensures var r := es[..k] + [Head(es[k], at), Tail(es[k], at)] + es[k + 1..];
              Within(r, start, end) && forall f | f in es && f != es[k] :: f in r
    {
      forall f | f in es && f != es[k] ensures f in es[..k] || f in es[k + 1..] {
        var i :| 0 <= i < |es| && es[i] == f;
        assert i < k ==> es[..k][i] == f;
        assert i > k ==> es[k + 1..][i - k - 1] == f;
      }
    }

    /** vm_map_clip_start: the entry that is kept is the part from the address on. */
    method ClipStart(k: nat, at: nat) returns (j: nat)
      requires Linked() && k < |entries|
      modifies this`entries, this`tree, this`nrEntries, this`lookupCache
      ensures Linked() && Same(entries, old(entries)) && j < |entries|
      ensures if old(entries)[k].start < at < old(entries)[k].end
              then j == k + 1 && entries[j] == Tail(old(entries)[k], at) && entries[k] == Head(old(entries)[k], at)
              else j == k && entries[j] == old(entries)[k]
      ensures forall i | 0 <= i < k :: entries[i] == old(entries)[i]
    {
      hide Sorted, Within, Same;
      j := k;
      if at <= entries[k].start || at >= entries[k].end {
        SameSelf(entries);
        return;
      }
      LinkedSplit(k, at);
      SplitAt(k, at);
      j := k + 1;
    }

    /** vm_map_clip_end: the entry that is kept is the part below the address. */
    method ClipEnd(k: nat, at: nat)
      requires Linked() && k < |entries|
      modifies this`entries, this`tree, this`nrEntries, this`lookupCache
      ensures Linked() && Same(entries, old(entries)) && k < |entries|
      ensures entries[k] == if old(entries)[k].start < at < old(entries)[k].end then Head(old(entries)[k], at) else old(entries)[k]
      ensures forall i | 0 <= i < k :: entries[i] == old(entries)[i]
    {
      hide Sorted, Within, Same;
      if at <= entries[k].start || at >= entries[k].end {
        SameSelf(entries);
        return;
      }
      LinkedSplit(k, at);
      SplitAt(k, at);
    }

    lemma SameSelf(es: seq<Entry>)
      ensures Same(es, es)
    {}

    lemma LinkedSplit(k: nat, at: nat)
      requires Linked() && k < |entries| && entries[k].start < at < entries[k].end
      ensures Same(entries[..k] + [Head(entries[k], at), Tail(entries[k], at)] + entries[k + 1..], entries)
    {
      SplitSorted(entries, k, at);
    }

    /** What the loop of vm_map_remove keeps: entries below index k end below the range, the others start in or
        above it, and out of the range nothing has changed. */
    ghost predicate Removing(es: seq<Entry>, lo: nat, hi: nat, k: nat)
      reads this
    {
      && Linked() && k <= |entries| && size == Length(entries)
      && (forall i | 0 <= i < k :: entries[i].end <= lo) && (forall i | k <= i < |entries| :: lo <= entries[i].start)
      && forall a: nat | !(lo <= a < hi) :: At(entries, a) == At(es, a)
    }

    /** One iteration of the loop. */
    method RemoveOne(k: nat, lo: nat, hi: nat, ghost es: seq<Entry>)
      requires Removing(es, lo, hi, k) && k < |entries| && entries[k].start < hi
      modifies this`entries, this`tree, this`nrEntries, this`lookupCache, this`size
      ensures Removing(es, lo, hi, k) && (k < |entries| ==> entries[k].start > old(entries)[k].start)
    {
      ghost var before := entries;
      ClipEnd(k, hi);
      Clipped(es, before, lo, hi, k);
      ghost var middle := entries;
      SortedAround(entries, k);
      var e := entries[k];
      size := size - (e.end - e.start);
      Unlink(k);
      Removed(middle, k);
      SortedAround(middle, k);
      Dropped(es, middle, lo, hi, k);
    }

    lemma Clipped(es: seq<Entry>, before: seq<Entry>, lo: nat, hi: nat, k: nat)
      requires Linked() && Same(entries, before) && k < |entries| && k < |before| && size == Length(before)
      requires forall a: nat | !(lo <= a < hi) :: At(before, a) == At(es, a)
      requires (forall i | 0 <= i < k :: before[i].end <= lo) && lo <= before[k].start < hi
      requires forall i | 0 <= i < k :: entries[i] == before[i]
      requires entries[k] == if before[k].start < hi < before[k].end then Head(before[k], hi) else before[k]
      ensures Removing(es, lo, hi, k) && entries[k].end <= hi && size >= entries[k].end - entries[k].start
    {
      SortedAround(entries, k);
      forall i | k <= i < |entries| ensures lo <= entries[i].start {
        if i > k { assert entries[i] in entries[k + 1..]; }
      }
      PartLength(entries, k);
    }

    lemma PartLength(es: seq<Entry>, k: nat)
      requires Sorted(es) && k < |es|
      ensures Length(es) >= es[k].end - es[k].start
    {
      LengthSplice(es[..k], [es[k]], es[k + 1..]);
      assert es == es[..k] + [es[k]] + es[k + 1..];
      SortedSlice(es, 0, k);
      SortedSlice(es, k + 1, |es|);
      LengthNat(es[..k]);
      LengthNat(es[k + 1..]);
      AtOne(es[k], 0);
    }

    /** A list without one of its entries. */
    lemma Removed(es: seq<Entry>, k: nat)
      requires Sorted(es) && Within(es, start, end) && k < |es|
      ensures var r := es[..k] + es[k + 1..];
              && Sorted(r) && Within(r, start, end) && Length(es) == Length(r) + (es[k].end - es[k].start)
              && (forall a: nat | !Covers(es[k], a) :: At(r, a) == At(es, a)) && forall f | f in r :: f in es
    {
      SortedAround(es, k);
      SortedSlice(es, 0, k);
      SortedSlice(es, k + 1, |es|);
      assert es[..k] + [] + es[k + 1..] == es[..k] + es[k + 1..] && es == es[..k] + [es[k]] + es[k + 1..];
      SortedJoin(es[..k], es[k].start, [], es[k].end, es[k + 1..]);
      LengthSplice(es[..k], [es[k]], es[k + 1..]);
      LengthConcat(es[..k], es[k + 1..]);
      AtOne(es[k], 0);
      forall a: nat | !Covers(es[k], a) ensures At(es[..k] + es[k + 1..], a) == At(es, a) {
        AtSplice(es[..k], [es[k]], es[k + 1..], a);
        AtConcat(es[..k], es[k + 1..], a);
        AtOne(es[k], a);
      }
    }

    lemma Dropped(es: seq<Entry>, middle: seq<Entry>, lo: nat, hi: nat, k: nat)
      requires k < |middle| && entries == middle[..k] + middle[k + 1..] && Linked() && size == Length(entries)
      requires (forall i | 0 <= i < k :: middle[i].end <= lo) && (forall i | k <= i < |middle| :: lo <= middle[i].start)
      requires middle[k].end <= hi && Sorted(middle)
      requires forall a: nat | !(lo <= a < hi) :: At(middle, a) == At(es, a)
      requires forall a: nat | !Covers(middle[k], a) :: At(entries, a) == At(middle, a)
      ensures Removing(es, lo, hi, k) && (k < |entries| ==> entries[k].start > middle[k].start)
    {
      assert middle[k] in middle;
    }

    /** vm_map_remove. */
    method Remove(lo: nat, hi: nat)
      requires Valid() && start <= lo < hi <= end
      modifies this`entries, this`tree, this`nrEntries, this`lookupCache, this`size, this`findCache, this`findCacheThreshold
      ensures Valid()
      ensures forall a: nat :: At(entries, a) == if lo <= a < hi then None else At(old(entries), a)
    {
      hide Sorted, Within, Same, At, Length, Small;
      ghost var es := entries;
      var k := LookupNearest(lo);
      if k == |entries| {
        NothingAbove(lo);
        return;
      }
      ghost var i := k;
      k := ClipStart(k, lo);
      RemoveStart(es, i, k, lo, hi);
      while entries[k].start < hi
        invariant k < |entries| && Removing(es, lo, hi, k)
        decreases hi - entries[k].start
      {
        RemoveOne(k, lo, hi, es);
        if k == |entries| {
          break;
        }
      }
      RemoveEnd(es, lo, hi, k);
      ResetFindCache();
    }

    lemma NothingAbove(lo: nat)
      requires Linked() && forall j | 0 <= j < |entries| :: entries[j].end <= lo
      ensures forall a: nat | lo <= a :: At(entries, a).None?
    {
      forall a: nat | lo <= a ensures At(entries, a).None? { AtCovered(entries, a); }
    }

    lemma RemoveStart(es: seq<Entry>, i: nat, k: nat, lo: nat, hi: nat)
      requires Linked() && Same(entries, es) && size == Length(es) && i < |es| && NearestAt(es, lo, i) && k < |entries|
      requires if es[i].start < lo < es[i].end then k == i + 1 && entries[k] == Tail(es[i], lo) && entries[i] == Head(es[i], lo)
               else k == i && entries[k] == es[i]
      requires forall j | 0 <= j < i :: entries[j] == es[j]
      ensures Removing(es, lo, hi, k)
    {
      SortedAround(entries, k);
      forall j | k <= j < |entries| ensures lo <= entries[j].start {
        if j > k { assert entries[j] in entries[k + 1..]; }
      }
    }

    lemma RemoveEnd(es: seq<Entry>, lo: nat, hi: nat, k: nat)
      requires Removing(es, lo, hi, k) && (k == |entries| || hi <= entries[k].start)
      ensures forall a: nat :: At(entries, a) == if lo <= a < hi then None else At(es, a)
    {
      forall a: nat | lo <= a < hi ensures At(entries, a).None? {
        AtCovered(entries, a);
        forall e | e in entries ensures !Covers(e, a) {
          var j :| 0 <= j < |entries| && entries[j] == e;
          assert k < |entries| ==> entries[k] in entries;
        }
      }
    }
  }

  lemma {:induction false} LengthNat(es: seq<Entry>)
    requires forall e | e in es :: e.start <= e.end
    ensures Length(es) >= 0
  {
    if es != [] { LengthNat(es[1..]); }
  }

  lemma FirstIsClosest(es: seq<Entry>, t: set<Entry>, addr: nat, i: nat)
    requires Sorted(es) && NearestAt(es, addr, i) && i < |es| && forall e | e in t :: e in es
    ensures Closest(t, addr, es[i])
  {
    forall f | f in t && addr < f.end ensures es[i].start <= f.start {
      var m :| 0 <= m < |es| && es[m] == f;
      assert es[i] in es && es[m] in es;
    }
  }

  predicate Closest(t: set<Entry>, addr: nat, e: Entry) { addr < e.end && forall f | f in t && addr < f.end :: e.start <= f.start }

  lemma {:induction false} FirstIndex(es: seq<Entry>, a: nat) returns (k: nat)
    ensures NearestAt(es, a, k)
  {
    if es == [] || a < es[0].end {
      k := 0;
    } else {
      var i := FirstIndex(es[1..], a);
      k := i + 1;
      assert forall j | 0 < j < k :: es[j] == es[1..][j - 1];
    }
  }
}
