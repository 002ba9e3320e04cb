/** The provisioner's cache of its own PVs, and the informer handlers that fill it. */
module VolumeCaches {
  import opened Common

  datatype Phase = Available | Bound | Released

  datatype ReclaimPolicy = Retain | Recycle | Delete

  /** A PV object as the API server stored it at one moment. `inc` tells apart objects that
      were created under the same name one after the other (the object's UID). */
  datatype PV = PV(name: string, inc: nat, phase: Phase, policy: ReclaimPolicy, provisionedBy: Option<string>)

  type Cache = map<string, PV>

  /** A PV enters the cache only when it carries this provisioner's annotation; once its name
      is in the cache every update of that name is taken. */
  function HandlePVUpdate(cache: Cache, me: string, pv: PV): Cache {
    if pv.name in cache || pv.provisionedBy == Some(me) then cache[pv.name := pv] else cache
  }

  function HandlePVDelete(cache: Cache, name: string): Cache {
    cache - {name}
  }

  /** `pvs` lists exactly the cached PVs, one per name, in some order. */
  ghost predicate Lists(pvs: seq<PV>, cache: Cache) {
    && (forall i :: 0 <= i < |pvs| ==> pvs[i].name in cache && cache[pvs[i].name] == pvs[i])
    && (forall i, j :: 0 <= i < j < |pvs| ==> pvs[i].name != pvs[j].name)
    && (forall name :: name in cache ==> cache[name] in pvs)
  }

  class VolumeCache {
    var pvs: map<string, PV>

    /** A PV is cached under its own name. */
    ghost predicate Valid()
      reads this
    {
      forall name :: name in pvs ==> pvs[name].name == name
    }

    constructor ()
      ensures Valid() && pvs == map[]
    {
      pvs := map[];
    }

    method GetPV(name: string) returns (pv: Option<PV>)
      ensures pv.Some? <==> name in pvs
      ensures pv.Some? ==> pv.value == pvs[name]
    {
      if name in pvs {
        return Some(pvs[name]);
      }
      return None;
    }

    method AddPV(pv: PV)
      requires Valid()
      modifies this
      ensures Valid() && pvs == old(pvs)[pv.name := pv]
    {
      pvs := pvs[pv.name := pv];
    }

    method UpdatePV(pv: PV)
      requires Valid()
      modifies this
      ensures Valid() && pvs == old(pvs)[pv.name := pv]
    {
      pvs := pvs[pv.name := pv];
    }

    method DeletePV(name: string)
      requires Valid()
      modifies this
      ensures Valid() && pvs == old(pvs) - {name}
    {
      pvs := pvs - {name};
    }

    method ListPVs() returns (list: seq<PV>)
      requires Valid()
      ensures Lists(list, pvs)
    {
      list := [];
      var todo := pvs.Keys;
      while todo != {}
        invariant todo <= pvs.Keys
        invariant forall i :: 0 <= i < |list| ==>
                    list[i].name in pvs && pvs[list[i].name] == list[i] && list[i].name !in todo
        invariant forall i, j :: 0 <= i < j < |list| ==> list[i].name != list[j].name
        invariant forall name :: name in pvs && name !in todo ==> pvs[name] in list
        decreases |todo|
      {
        var name :| name in todo;
        todo := todo - {name};
        list := list + [pvs[name]];
      }
    }
  }

  class Populator {
    const me: string
    const cache: VolumeCache

    constructor (me: string, cache: VolumeCache)
      ensures this.me == me && this.cache == cache
    {
      this.me, this.cache := me, cache;
    }

    method HandleUpdate(pv: PV)
      requires cache.Valid()
      modifies cache
      ensures cache.Valid() && cache.pvs == HandlePVUpdate(old(cache.pvs), me, pv)
      ensures cache.pvs == if pv.name in old(cache.pvs) || pv.provisionedBy == Some(me)
                           then old(cache.pvs)[pv.name := pv] else old(cache.pvs)
    {
      var cached := cache.GetPV(pv.name);
      if cached.Some? {
        cache.UpdatePV(pv);
      } else if pv.provisionedBy.Some? {
        if pv.provisionedBy.value == me {
          cache.AddPV(pv);
        }
      }
    }

    method HandleDelete(pv: PV)
      requires cache.Valid()
      modifies cache
      ensures cache.Valid() && cache.pvs == HandlePVDelete(old(cache.pvs), pv.name)
      ensures cache.pvs == old(cache.pvs) - {pv.name}
    {
      var cached := cache.GetPV(pv.name);
      if cached.Some? {
        cache.DeletePV(pv.name);
      }
    }
  }
}
