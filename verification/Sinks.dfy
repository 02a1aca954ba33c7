/**
 The cache of output sinks and the handles that count their uses: the handle that takes a use count
 to zero erases the sink from the cache.
 */
module Sinks {
  import opened Wrappers

  /** An iterator: `gen` tells an entry from a later one that reuses its name. */
  datatype Ref = Ref(name: string, gen: nat)

  datatype Entry = Entry(gen: nat, uses: nat)

  type Cache = map<string, Entry>

  /** The iterator of a handle still points to an entry. */
  predicate Live(c: Cache, r: Ref) {
    r.name in c && c[r.name].gen == r.gen
  }

  function Acquired(c: Cache, r: Ref): Cache
    requires Live(c, r)
  {
    c[r.name := Entry(r.gen, c[r.name].uses + 1)]
  }

  predicate Releasable(c: Cache, h: Option<Ref>) {
    h.Some? ==> Live(c, h.value) && c[h.value.name].uses > 0
  }

  function Cleared(c: Cache, h: Option<Ref>): Cache
    requires Releasable(c, h)
  {
    if h.None? then c
    else
      var r := h.value;
      if c[r.name].uses == 1 then c - {r.name} else c[r.name := Entry(r.gen, c[r.name].uses - 1)]
  }

  /** The cache after a handle that was `mine` has been assigned `other`. */
  function Assigned(c: Cache, mine: Option<Ref>, other: Option<Ref>): Cache
    requires Releasable(c, mine) && (other.Some? ==> Live(c, other.value))
  {
    if mine == other then c
    else if other.None? then Cleared(c, mine)
    else Acquired(Cleared(c, mine), other.value)
  }

  class SinkCache {
    var entries: Cache

    constructor ()
      ensures entries == map[]
    {
      entries := map[];
    }
  }

  class SinkHandle {
    var cache: SinkCache?
    var iter: Ref

    ghost function View(): Option<Ref>
      reads this
    {
      if cache == null then None else Some(iter)
    }

    constructor Empty()
      ensures View() == None
    {
      cache, iter := null, Ref("", 0);
    }

    constructor At(c: SinkCache, r: Ref)
      requires Live(c.entries, r)
      modifies c
      ensures cache == c && View() == Some(r) && c.entries == Acquired(old(c.entries), r)
    {
      cache, iter := c, r;
      new;
      c.entries := c.entries[r.name := Entry(r.gen, c.entries[r.name].uses + 1)];
    }

    constructor CopyOf(other: SinkHandle)
      requires other.cache != null ==> Live(other.cache.entries, other.iter)
      modifies other.cache
      ensures cache == old(other.cache) && View() == old(other.View())
      ensures cache != null ==> cache.entries == Assigned(old(other.cache.entries), None, View())
    {
      cache, iter := null, other.iter;
      new;
      Assign(other);
    }

    method Release()
      requires cache != null ==> Releasable(cache.entries, View())
      modifies this, cache
      ensures old(cache) != null ==> old(cache).entries == Cleared(old(cache.entries), old(View()))
      ensures cache == null || cache == old(cache)
    {
      if cache != null {
        var e := cache.entries[iter.name];
        if e.uses - 1 == 0 {
          cache.entries := cache.entries - {iter.name};
          cache := null;
        } else {
          cache.entries := cache.entries[iter.name := Entry(e.gen, e.uses - 1)];
        }
      }
    }

    method Assign(other: SinkHandle)
      requires cache != null ==> Releasable(cache.entries, View())
      requires other.cache != null ==> Live(other.cache.entries, other.iter)
      requires cache != null && other.cache != null ==> cache == other.cache
      modifies this, cache, other.cache
      ensures View() == old(other.View()) && cache == old(other.cache)
      ensures other != this ==> other.View() == old(other.View())
      ensures old(cache) != null && old(other.cache) == null ==>
                old(cache).entries == Assigned(old(cache.entries), old(View()), None)
      ensures cache != null ==> cache.entries == Assigned(old(other.cache.entries), old(View()), View())
    {
      if cache != other.cache || iter != other.iter {
        Release();
        cache := other.cache;
        if cache != null {
          iter := other.iter;
          var e := cache.entries[iter.name];
          cache.entries := cache.entries[iter.name := Entry(e.gen, e.uses + 1)];
        }
      }
    }
  }
}
