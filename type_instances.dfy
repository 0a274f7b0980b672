/**
 * Type-information objects with identity. The resolver's two memo caches
 * work on objects: `ClassTypeInformation.Cache` hands out one shared instance
 * per type, and each instance memoises `GetProperty` in its own
 * `_fieldTypes` dictionary. An `InfoHeap` holds every instance created so far;
 * a `Ref` is an index into it and stands for object identity.
 */
module TypeInstances {
  import opened Wrappers
  import opened Universe
  import opened TypeInformation

  type Ref = nat

  /** One object: its value, the object its `_parent` field points to, and its `_fieldTypes` cache. */
  datatype Instance = Instance(info: TypeInfo, parentRef: Option<Ref>, fieldTypes: map<string, Ref>)

  /** Every reference stored in an instance points into the table. */
  ghost predicate RefsClosed(instances: seq<Instance>)
  {
    forall r :: 0 <= r < |instances| ==>
      && (instances[r].parentRef.Some? ==> instances[r].parentRef.value < |instances|)
      && (forall n :: n in instances[r].fieldTypes ==> instances[r].fieldTypes[n] < |instances|)
  }

  /**
   * An instance is coherent when its parent reference points at the object
   * holding its parent value, and every cached field entry is a non-dotted
   * name whose entry holds exactly what `GetPropertyInformation` computes.
   */
  ghost predicate InstanceCoherent(u: Universe, instances: seq<Instance>, r: nat)
    requires WellFormed(u) && RefsClosed(instances) && r < |instances|
  {
    var inst := instances[r];
    && (match inst.parentRef
        case Some(p) => inst.info.IsParentAware() && inst.info.parent == Some(instances[p].info)
        case None => !(inst.info.IsParentAware() && inst.info.parent.Some?))
    && (forall n :: n in inst.fieldTypes ==>
          '.' !in n && GetPropertyInformation(u, inst.info, n) == Ok(Some(instances[inst.fieldTypes[n]].info)))
  }

  ghost predicate HeapValid(u: Universe, instances: seq<Instance>, cache: map<TypeId, Ref>)
  {
    && WellFormed(u)
    && RefsClosed(instances)
    && (forall r :: 0 <= r < |instances| ==> InstanceCoherent(u, instances, r))
    && (forall t :: t in cache ==> cache[t] < |instances| && instances[cache[t]].info == ClassInfo(t, []))
  }

  /** Appending a coherent instance keeps the table valid. */
  lemma AppendKeepsValid(u: Universe, instances: seq<Instance>, cache: map<TypeId, Ref>, inst: Instance)
    requires HeapValid(u, instances, cache)
    requires inst.fieldTypes == map[]
    requires match inst.parentRef
             case Some(p) => p < |instances| && inst.info.IsParentAware() && inst.info.parent == Some(instances[p].info)
             case None => !(inst.info.IsParentAware() && inst.info.parent.Some?)
    ensures HeapValid(u, instances + [inst], cache)
  {
    var next := instances + [inst];
    assert RefsClosed(next);
    forall r | 0 <= r < |next| ensures InstanceCoherent(u, next, r) {
      if r < |instances| {
        assert InstanceCoherent(u, instances, r);
        assert next[r] == instances[r];
        var inst' := next[r];
        if inst'.parentRef.Some? {
          assert next[inst'.parentRef.value] == instances[inst'.parentRef.value];
        }
        forall n | n in inst'.fieldTypes
          ensures GetPropertyInformation(u, inst'.info, n) == Ok(Some(next[inst'.fieldTypes[n]].info))
        {
          assert next[inst'.fieldTypes[n]] == instances[inst'.fieldTypes[n]];
        }
      }
    }
  }

  /** Adding a coherent cache entry to one instance keeps the table valid. */
  lemma CacheEntryKeepsValid(u: Universe, instances: seq<Instance>, cache: map<TypeId, Ref>, r: nat, name: string, target: nat)
    requires HeapValid(u, instances, cache)
    requires r < |instances| && target < |instances| && '.' !in name
    requires GetPropertyInformation(u, instances[r].info, name) == Ok(Some(instances[target].info))
    ensures HeapValid(u, instances[r := instances[r].(fieldTypes := instances[r].fieldTypes[name := target])], cache)
  {
    var next := instances[r := instances[r].(fieldTypes := instances[r].fieldTypes[name := target])];
    assert forall k :: 0 <= k < |next| ==> next[k].info == instances[k].info && next[k].parentRef == instances[k].parentRef;
    assert RefsClosed(next);
    forall k | 0 <= k < |next| ensures InstanceCoherent(u, next, k) {
      assert InstanceCoherent(u, instances, k);
      var inst' := next[k];
      if inst'.parentRef.Some? {
        assert next[inst'.parentRef.value].info == instances[inst'.parentRef.value].info;
      }
      forall n | n in inst'.fieldTypes
        ensures '.' !in n && GetPropertyInformation(u, inst'.info, n) == Ok(Some(next[inst'.fieldTypes[n]].info))
      {
        if k != r || n != name {
          assert n in instances[k].fieldTypes && inst'.fieldTypes[n] == instances[k].fieldTypes[n];
        }
        assert next[inst'.fieldTypes[n]].info == instances[inst'.fieldTypes[n]].info;
      }
    }
  }

  class InfoHeap {
    const u: Universe
    var instances: seq<Instance>
    var classCache: map<TypeId, Ref>   // ClassTypeInformation.Cache

    ghost predicate Valid()
      reads this
    {
      HeapValid(u, instances, classCache)
    }

    /** The value of the object `r`. */
    function Info(r: Ref): TypeInfo
      reads this
      requires r < |instances|
    {
      instances[r].info
    }

    constructor (universe: Universe)
      requires WellFormed(universe)
      ensures Valid() && u == universe && instances == [] && classCache == map[]
    {
      u := universe;
      instances := [];
      classCache := map[];
    }

    /** `new TypeDiscoverer(type, dictionary)`: a fresh, uncached object; a null dictionary becomes empty. */
    method NewDiscoverer(t: TypeId, dictionary: Option<TypeMap>) returns (r: Ref)
      requires Valid()
      modifies this
      ensures Valid() && classCache == old(classCache)
      ensures r == |old(instances)| && instances == old(instances) + [Instance(TypeInformation.NewDiscoverer(t, dictionary), None, map[])]
    {
      AppendKeepsValid(u, instances, classCache, Instance(TypeInformation.NewDiscoverer(t, dictionary), None, map[]));
      r := |instances|;
      instances := instances + [Instance(TypeInformation.NewDiscoverer(t, dictionary), None, map[])];
    }

    /**
     * `ClassTypeInformation.From`: the cached object when there is one;
     * otherwise a new class info with an empty dictionary, added to the cache.
     */
    method From(t: TypeId) returns (r: Ref)
      requires Valid()
      modifies this
      ensures Valid()
      ensures r < |instances| && instances[r].info == ClassInfo(t, [])
      ensures t in old(classCache) ==> r == old(classCache)[t] && instances == old(instances) && classCache == old(classCache)
      ensures t !in old(classCache) ==>
                && r == |old(instances)|
                && instances == old(instances) + [Instance(ClassInfo(t, []), None, map[])]
                && classCache == old(classCache)[t := r]
      ensures t in classCache && classCache[t] == r
    {
      if t in classCache {
        return classCache[t];
      }
      AppendKeepsValid(u, instances, classCache, Instance(ClassInfo(t, []), None, map[]));
      r := |instances|;
      instances := instances + [Instance(ClassInfo(t, []), None, map[])];
      classCache := classCache[t := r];
    }

    /**
     * `CreateInfo` on the object `self`: the parent object itself when the
     * parent resolves to the requested type, `self` for its own raw type, the
     * shared cached object for a class info, a new object otherwise.
     */
    method CreateInfo(self: Ref, fieldType: TypeId) returns (r: Result<Ref, TypeError>)
      requires Valid() && self < |instances|
      modifies this
      ensures Valid()
      ensures |old(instances)| <= |instances| && instances[..|old(instances)|] == old(instances)
      ensures forall t :: t in old(classCache) ==> t in classCache && classCache[t] == old(classCache)[t]
      ensures r.Ok? <==> TypeInformation.CreateInfo(u, old(Info(self)), fieldType).Ok?
      ensures r.Err? ==> r.error == TypeInformation.CreateInfo(u, old(Info(self)), fieldType).error
      ensures r.Ok? ==> r.value < |instances| && Info(r.value) == TypeInformation.CreateInfo(u, old(Info(self)), fieldType).value
      ensures r.Ok? && old(instances[self].parentRef).Some? && Type(u, old(instances[instances[self].parentRef.value].info)) == fieldType
              ==> r.value == old(instances[self].parentRef).value
      ensures fieldType == old(Info(self)).rawType
              && !(old(instances[self].parentRef).Some? && Type(u, old(instances[instances[self].parentRef.value].info)) == fieldType)
              ==> r == Ok(self)
      ensures r.Ok? && Info(r.value).ClassInfo? && Info(r.value) != Info(self)
              && !(old(instances[self].parentRef).Some? && Type(u, old(instances[instances[self].parentRef.value].info)) == fieldType)
              ==> fieldType in classCache && r.value == classCache[fieldType]
    {
      var info := instances[self].info;
      assert InstanceCoherent(u, instances, self);
      var expected := TypeInformation.CreateInfo(u, info, fieldType);
      if instances[self].parentRef.Some? && Type(u, instances[instances[self].parentRef.value].info) == fieldType {
        return Ok(instances[self].parentRef.value);
      }
      if fieldType == info.rawType {
        return Ok(self);
      }
      var raw := Raw(u, fieldType);
      if raw.isArray {
        var inst := Instance(ArrayInfo(fieldType, TypeVariableDictionary(info), Some(info)), Some(self), map[]);
        AppendKeepsValid(u, instances, classCache, inst);
        r := Ok(|instances|);
        instances := instances + [inst];
      } else if raw.isGeneric {
        var inst := Instance(ParamInfo(fieldType, Some(info)), Some(self), map[]);
        AppendKeepsValid(u, instances, classCache, inst);
        r := Ok(|instances|);
        instances := instances + [inst];
      } else if raw.isGenericParameter {
        var inst := Instance(VarInfo(fieldType, Type(u, info), Some(info)), Some(self), map[]);
        AppendKeepsValid(u, instances, classCache, inst);
        r := Ok(|instances|);
        instances := instances + [inst];
      } else if raw.kind != OtherKind {
        var c := From(fieldType);
        r := Ok(c);
      } else {
        r := Err(ArgumentError);
      }
    }

    /** `GetPropertyInformation` on the object `self`: walk the fields, then `CreateInfo`. */
    method GetPropertyInformation(self: Ref, name: string) returns (r: Result<Option<Ref>, TypeError>)
      requires Valid() && self < |instances|
      modifies this
      ensures Valid()
      ensures |old(instances)| <= |instances| && instances[..|old(instances)|] == old(instances)
      ensures forall t :: t in old(classCache) ==> t in classCache && classCache[t] == old(classCache)[t]
      ensures r.Ok? <==> TypeInformation.GetPropertyInformation(u, old(Info(self)), name).Ok?
      ensures r.Err? ==> r.error == TypeInformation.GetPropertyInformation(u, old(Info(self)), name).error
      ensures r.Ok? ==> (r.value.Some? <==> TypeInformation.GetPropertyInformation(u, old(Info(self)), name).value.Some?)
      ensures r.Ok? && r.value.Some? ==>
                r.value.value < |instances| && Info(r.value.value) == TypeInformation.GetPropertyInformation(u, old(Info(self)), name).value.value
    {
      var field := WalkFields(u, Type(u, instances[self].info), name);
      if field.Err? {
        return Err(field.error);
      }
      if field.value.None? {
        return Ok(None);
      }
      var c := CreateInfo(self, field.value.value.fieldType);
      if c.Err? {
        return Err(c.error);
      }
      return Ok(Some(c.value));
    }

    /**
     * The lookup `GetProperty` performs in the current state: a plain name
     * reads the field table, a dotted name follows its head only when that
     * head is cached.
     */
    ghost function CachedLookup(self: Ref, name: string): (r: Result<Option<TypeInfo>, TypeError>)
      reads this
      requires Valid() && self < |instances|
      decreases |name|
      ensures instances[self].fieldTypes == map[] ==> r == TypeInformation.GetProperty(u, Info(self), name)
    {
      var sep := FirstDot(name);
      if sep < 0 then TypeInformation.GetPropertyInformation(u, Info(self), name)
      else
        var head := name[..sep];
        if head in instances[self].fieldTypes then CachedLookup(instances[self].fieldTypes[head], name[sep + 1..])
        else Ok(None)
    }

    /**
     * `GetProperty` on a plain name: answered from the cache when present,
     * otherwise computed and cached only when found.
     */
    method GetPlainProperty(self: Ref, name: string) returns (r: Result<Option<Ref>, TypeError>)
      requires Valid() && self < |instances| && '.' !in name
      modifies this
      ensures Valid()
      ensures |old(instances)| <= |instances|
      ensures forall k :: 0 <= k < |old(instances)| ==> instances[k].info == old(instances[k].info)
      ensures r.Ok? <==> TypeInformation.GetPropertyInformation(u, old(Info(self)), name).Ok?
      ensures r.Ok? ==> (r.value.Some? <==> TypeInformation.GetPropertyInformation(u, old(Info(self)), name).value.Some?)
      ensures r.Ok? && r.value.Some? ==>
                r.value.value < |instances| && Info(r.value.value) == TypeInformation.GetPropertyInformation(u, old(Info(self)), name).value.value
      // hits are memoised, misses are not
      ensures r.Ok? && r.value.Some? ==> name in instances[self].fieldTypes && instances[self].fieldTypes[name] == r.value.value
      ensures name in old(instances[self].fieldTypes) ==> r == Ok(Some(old(instances[self].fieldTypes[name])))
      ensures r.Ok? && r.value.None? ==> name !in instances[self].fieldTypes
    {
      assert InstanceCoherent(u, instances, self);
      if name in instances[self].fieldTypes {
        return Ok(Some(instances[self].fieldTypes[name]));
      }
      var found := GetPropertyInformation(self, name);
      if found.Ok? && found.value.Some? {
        CacheEntryKeepsValid(u, instances, classCache, self, name, found.value.value);
        instances := instances[self := instances[self].(fieldTypes := instances[self].fieldTypes[name := found.value.value])];
      }
      return found;
    }

    /**
     * `GetProperty`. A plain name is looked up as above; a dotted name splits
     * at the first '.' and follows only an already cached head.
     */
    method GetProperty(self: Ref, name: string) returns (r: Result<Option<Ref>, TypeError>)
      requires Valid() && self < |instances|
      modifies this
      decreases |name|
      ensures Valid()
      ensures |old(instances)| <= |instances|
      ensures forall k :: 0 <= k < |old(instances)| ==> instances[k].info == old(instances[k].info)
      ensures r.Ok? <==> old(CachedLookup(self, name)).Ok?
      ensures r.Ok? ==> (r.value.Some? <==> old(CachedLookup(self, name)).value.Some?)
      ensures r.Ok? && r.value.Some? ==> r.value.value < |instances| && Info(r.value.value) == old(CachedLookup(self, name)).value.value
      // hits are memoised, misses are not
      ensures '.' !in name && r.Ok? && r.value.Some? ==>
                name in instances[self].fieldTypes && instances[self].fieldTypes[name] == r.value.value
      ensures '.' !in name && name in old(instances[self].fieldTypes) ==> r == Ok(Some(old(instances[self].fieldTypes[name])))
      ensures '.' !in name && r.Ok? && r.value.None? ==> name !in instances[self].fieldTypes
      // an uncached head answers null and changes nothing
      ensures '.' in name && name[..FirstDot(name)] !in old(instances[self].fieldTypes) ==>
                r == Ok(None) && instances == old(instances) && classCache == old(classCache)
    {
      var sep := FirstDot(name);
      if sep < 0 {
        r := GetPlainProperty(self, name);
        return;
      }
      var head := name[..sep];
      if head !in instances[self].fieldTypes {
        return Ok(None);
      }
      r := GetProperty(instances[self].fieldTypes[head], name[sep + 1..]);
    }

    /**
     * `ClassTypeInformation.FromReturnTypeOf`: the return type's info relative
     * to a new class info for the declaring type, which is not cached.
     */
    method FromReturnTypeOf(declaringType: TypeId, returnType: TypeId) returns (r: Result<Ref, TypeError>)
      requires Valid()
      modifies this
      ensures Valid()
      ensures |old(instances)| < |instances| && instances[|old(instances)|].info == ClassInfo(declaringType, [])
      ensures r.Ok? <==> TypeInformation.CreateInfo(u, ClassInfo(declaringType, []), returnType).Ok?
      ensures r.Ok? ==> r.value < |instances| && Info(r.value) == TypeInformation.CreateInfo(u, ClassInfo(declaringType, []), returnType).value
    {
      var declaring := Instance(ClassInfo(declaringType, []), None, map[]);
      AppendKeepsValid(u, instances, classCache, declaring);
      var d := |instances|;
      instances := instances + [declaring];
      r := CreateInfo(d, returnType);
    }
  }

  /** `IndexOf('.')`: the position of the first '.', or -1. */
  function FirstDot(s: string): (r: int)
    ensures -1 <= r < |s|
    ensures r == -1 <==> '.' !in s
    ensures r >= 0 ==> s[r] == '.' && '.' !in s[..r]
  {
    if s == [] then -1
    else if s[0] == '.' then 0
    else
      var k := FirstDot(s[1..]);
      if k == -1 then -1
      else
        assert s[..k + 1] == [s[0]] + s[1..][..k];
        k + 1
  }
}
