/** How an instance-group spec sets the group's disk, properties, VM placement,
    environment, update input, default networks, migration sources and desired
    instances. Each function is one step of the parser, returning the value it
    stores or the error it raises. */
module GroupSettings {
  import opened Wrappers
  import opened Values
  import opened DeploymentPlan
  import opened JobResolution
  import PlaceholderNames

  /** The string a manifest hash holds under a key. */
  function StrAt(spec: Value, key: string): Option<string> {
    if Field(spec, key).Some? && Field(spec, key).value.Str? then Some(Field(spec, key).value.s) else None
  }

  /** The integer a manifest hash holds under a key. */
  function IntAt(spec: Value, key: string): Option<int> {
    if Field(spec, key).Some? && Field(spec, key).value.Int? then Some(Field(spec, key).value.i) else None
  }

  /** A hash whose key, when present, holds a value of the class. */
  predicate Typed(spec: Value, key: string, kind: Kind) {
    spec.Hash? && (Field(spec, key).Some? ==> OfKind(Field(spec, key).value, kind))
  }

  /** The persistent disk of the group: a size, or a disk type named by
      `persistent_disk_type` or by `persistent_disk_pool`, or neither. */
  datatype DiskSetting = DiskSetting(size: Option<int>, diskType: Option<DiskType>)

  /** The disk rules: type and pool exclude each other, a size excludes both, a size
      must not be negative and a named disk type must exist. */
  function Disk(spec: Value, d: Deployment, group: string): (r: Result<DiskSetting, ParseError>)
    ensures r.Success? ==> !(r.value.size.Some? && r.value.diskType.Some?)
    ensures r.Success? && r.value.size.Some? ==>
      r.value.size == IntAt(spec, "persistent_disk") && r.value.size.value >= 0
    ensures r.Success? && r.value.diskType.Some? ==>
      var name := if StrAt(spec, "persistent_disk_type").Some? then StrAt(spec, "persistent_disk_type")
                  else StrAt(spec, "persistent_disk_pool");
      name.Some? && name.value in d.diskTypes && r.value.diskType.value == d.diskTypes[name.value]
    ensures (Typed(spec, "persistent_disk", IntegerKind) && Typed(spec, "persistent_disk_type", StringKind)
             && Typed(spec, "persistent_disk_pool", StringKind)) ==>
      var size := IntAt(spec, "persistent_disk");
      var typeName := StrAt(spec, "persistent_disk_type");
      var poolName := StrAt(spec, "persistent_disk_pool");
      var name := if typeName.Some? then typeName else poolName;
      var source := if typeName.Some? then TypeKey else PoolKey;
      (typeName.Some? && poolName.Some? <==> r == Failure(BothDiskTypeAndPool(group)))
      && (!(typeName.Some? && poolName.Some?) && size.Some? && name.Some? ==>
            r == Failure(DiskSizeAndName(group, size.value, source, name.value)))
      && (size.Some? && name.None? && size.value < 0 ==> r == Failure(InvalidDiskSize(group, size.value)))
      && (size.None? && name.Some? && !(typeName.Some? && poolName.Some?) && name.value !in d.diskTypes ==>
            r == Failure(UnknownDisk(group, source, name.value)))
      && (r.Success? <==>
            !(typeName.Some? && poolName.Some?) && !(size.Some? && name.Some?)
            && (size.Some? ==> size.value >= 0) && (name.Some? ==> name.value in d.diskTypes))
  {
    var size :- OptionalInt(spec, "persistent_disk");
    var typeName :- OptionalString(spec, "persistent_disk_type");
    var poolName :- OptionalString(spec, "persistent_disk_pool");
    if typeName.Some? && poolName.Some? then Failure(BothDiskTypeAndPool(group))
    else
      var name := if typeName.Some? then typeName else poolName;
      var source := if typeName.Some? then TypeKey else PoolKey;
      if size.Some? && name.Some? then Failure(DiskSizeAndName(group, size.value, source, name.value))
      else if size.Some? && size.value < 0 then Failure(InvalidDiskSize(group, size.value))
      else if name.Some? && name.value !in d.diskTypes then Failure(UnknownDisk(group, source, name.value))
      else Success(DiskSetting(size, if name.Some? then Some(d.diskTypes[name.value]) else None))
  }

  /** `a.recursive_merge(b)`: b's values win, except that a hash in both is merged. */
  function DeepMerge(a: Value, b: Value): (r: Value)
    ensures !(a.Hash? && b.Hash?) ==> r == b
    ensures a.Hash? && b.Hash? ==>
      r.Hash?
      && (forall k :: HasKey(r.entries, k) <==> HasKey(a.entries, k) || HasKey(b.entries, k))
      && (forall k :: !HasKey(b.entries, k) ==> Lookup(r.entries, k) == Lookup(a.entries, k))
    decreases b, if b.Hash? then |b.entries| + 1 else 0
  {
    if a.Hash? && b.Hash? then Hash(MergeInto(a.entries, b, 0)) else b
  }

  /** Merges the entries of b from index i on into acc. */
  function MergeInto(acc: seq<Entry>, b: Value, i: nat): (r: seq<Entry>)
    requires b.Hash? && i <= |b.entries|
    ensures forall k :: HasKey(r, k) <==> HasKey(acc, k) || KeyFrom(b.entries, i, k)
    ensures forall k :: !KeyFrom(b.entries, i, k) ==> Lookup(r, k) == Lookup(acc, k)
    decreases b, |b.entries| - i
  {
    if i == |b.entries| then acc
    else
      var e := b.entries[i];
      var v := if HasKey(acc, e.key) then DeepMerge(Lookup(acc, e.key).value, e.val) else e.val;
      KeyFromStep(b.entries, i);
      MergeInto(Put(acc, e.key, v), b, i + 1)
  }

  /** Some entry from index i on has key k. */
  predicate KeyFrom(es: seq<Entry>, i: nat, k: string) {
    exists j :: i <= j < |es| && es[j].key == k
  }

  lemma KeyFromStep(es: seq<Entry>, i: nat)
    requires i < |es|
    ensures forall k :: KeyFrom(es, i, k) <==> es[i].key == k || KeyFrom(es, i + 1, k)
  {
    forall k ensures KeyFrom(es, i, k) <==> es[i].key == k || KeyFrom(es, i + 1, k) {
      if KeyFrom(es, i, k) && es[i].key != k {
        var j :| i <= j < |es| && es[j].key == k;
        assert i + 1 <= j;
      }
    }
  }

  /** A Ruby hash never holds a key twice. */
  predicate UniqueKeys(es: seq<Entry>) {
    forall i, j :: 0 <= i < j < |es| ==> es[i].key != es[j].key
  }

  /** A key of b is b's value, merged with a's when both are hashes. */
  lemma DeepMergeOverrides(a: seq<Entry>, b: seq<Entry>, k: string)
    requires UniqueKeys(b) && HasKey(b, k)
    ensures var r := DeepMerge(Hash(a), Hash(b)).entries;
      Lookup(r, k) == Some(if HasKey(a, k) then DeepMerge(Lookup(a, k).value, Lookup(b, k).value)
                           else Lookup(b, k).value)
  {
    var j := LookupWitness(b, k);
    MergeIntoAt(a, Hash(b), 0, j);
  }

  /** Merging from index i: the entry at j >= i, whose key no other entry has, ends
      up as it was merged into what acc held for it. */
  lemma {:induction false} MergeIntoAt(acc: seq<Entry>, b: Value, i: nat, j: nat)
    requires b.Hash? && UniqueKeys(b.entries) && i <= j < |b.entries|
    ensures var k := b.entries[j].key;
      Lookup(MergeInto(acc, b, i), k) == Some(if HasKey(acc, k) then DeepMerge(Lookup(acc, k).value, b.entries[j].val)
                                             else b.entries[j].val)
    decreases |b.entries| - i
  {
    var e := b.entries[i];
    var v := if HasKey(acc, e.key) then DeepMerge(Lookup(acc, e.key).value, e.val) else e.val;
    var acc' := Put(acc, e.key, v);
    if i == j {
      NoLaterKey(b.entries, i);
    } else {
      MergeIntoAt(acc', b, i + 1, j);
      assert b.entries[j].key != e.key by {
        assert b.entries[i].key != b.entries[j].key;
      }
    }
  }

  /** In entries with unique keys, no entry after index i has the key of the entry at i. */
  lemma NoLaterKey(es: seq<Entry>, i: nat)
    requires UniqueKeys(es) && i < |es|
    ensures !KeyFrom(es, i + 1, es[i].key)
  {
    forall m | i + 1 <= m < |es| ensures es[m].key != es[i].key {
      assert es[i].key != es[m].key;
    }
  }

  /** `lookup_property(collection, name)`: the keys of a dotted name walked into the
      properties; a missing key or a nil value gives nothing. */
  function LookupProperty(props: Value, from: Value): (r: Option<Value>)
    ensures r.Some? <==>
      from.Str? && At(props, KeyPath(DotKeys(from.s))).Some? && !At(props, KeyPath(DotKeys(from.s))).value.Null?
    ensures r.Some? ==> At(props, KeyPath(DotKeys(from.s))) == Some(r.value)
  {
    if !from.Str? then None
    else match At(props, KeyPath(DotKeys(from.s)))
      case Some(v) => if v.Null? then None else Some(v)
      case None => None
  }

  /** `name.split(".")`: the segments between dots, trailing empty ones dropped. */
  function DotKeys(name: string): seq<string> {
    DropTrailingEmpty(PlaceholderNames.Split(name))
  }

  function DropTrailingEmpty(segs: seq<string>): (r: seq<string>)
    ensures |r| <= |segs| && r == segs[..|r|]
    ensures |r| > 0 ==> r[|r| - 1] != ""
    ensures forall i :: |r| <= i < |segs| ==> segs[i] == ""
  {
    if segs == [] then []
    else if segs[|segs| - 1] == "" then DropTrailingEmpty(segs[..|segs| - 1])
    else segs
  }

  /** The target keys of property mappings. */
  function Targets(ms: seq<Entry>): (ts: seq<string>)
    ensures |ts| == |ms| && forall j :: 0 <= j < |ms| ==> ts[j] == ms[j].key
  {
    seq(|ms|, j requires 0 <= j < |ms| => ms[j].key)
  }

  /** Property mappings applied in order, each setting its target key to the value its
      source names in the properties as they are by then. */
  function Mapped(props: seq<Entry>, ms: seq<Entry>): (r: Result<seq<Entry>, ParseError>)
    ensures r.Failure? ==>
      exists j :: 0 <= j < |ms| && r.error == InvalidPropertyMapping(ms[j].key, ms[j].val)
    decreases |ms|
  {
    if ms == [] then Success(props)
    else match LookupProperty(Hash(props), ms[0].val)
      case None => Failure(InvalidPropertyMapping(ms[0].key, ms[0].val))
      case Some(v) =>
        var r := Mapped(Put(props, ms[0].key, v), ms[1..]);
        assert r.Failure? ==> exists j :: 0 <= j < |ms| && r.error == InvalidPropertyMapping(ms[j].key, ms[j].val) by {
          if r.Failure? {
            var j :| 0 <= j < |ms| - 1 && r.error == InvalidPropertyMapping(ms[1..][j].key, ms[1..][j].val);
            assert ms[1..][j] == ms[j + 1];
          }
        }
        r
  }

  /** Mapping keeps every key the properties had. */
  lemma {:induction false} MappedKeepsKey(props: seq<Entry>, ms: seq<Entry>, k: string)
    requires Mapped(props, ms).Success? && HasKey(props, k)
    ensures HasKey(Mapped(props, ms).value, k)
    decreases |ms|
  {
    if ms != [] {
      var v := LookupProperty(Hash(props), ms[0].val).value;
      MappedKeepsKey(Put(props, ms[0].key, v), ms[1..], k);
    }
  }

  /** Every target key of a mapping is set. */
  lemma {:induction false} MappedSetsTarget(props: seq<Entry>, ms: seq<Entry>, j: nat)
    requires Mapped(props, ms).Success? && j < |ms|
    ensures HasKey(Mapped(props, ms).value, ms[j].key)
    decreases |ms|
  {
    var v := LookupProperty(Hash(props), ms[0].val).value;
    var next := Put(props, ms[0].key, v);
    assert Mapped(props, ms) == Mapped(next, ms[1..]);
    if j == 0 {
      MappedKeepsKey(next, ms[1..], ms[0].key);
    } else {
      assert ms[1..][j - 1] == ms[j];
      MappedSetsTarget(next, ms[1..], j - 1);
    }
  }

  /** A key that no mapping targets keeps its value. */
  lemma {:induction false} MappedLeavesOthers(props: seq<Entry>, ms: seq<Entry>, k: string)
    requires Mapped(props, ms).Success? && k !in Targets(ms)
    ensures Lookup(Mapped(props, ms).value, k) == Lookup(props, k)
    decreases |ms|
  {
    if ms != [] {
      var v := LookupProperty(Hash(props), ms[0].val).value;
      assert Targets(ms) == [ms[0].key] + Targets(ms[1..]);
      MappedLeavesOthers(Put(props, ms[0].key, v), ms[1..], k);
    }
  }

  /** The mapping at index j resolves against the properties as the mappings before
      it left them. */
  predicate ResolvesAt(props: seq<Entry>, ms: seq<Entry>, j: nat)
    requires j < |ms|
  {
    Mapped(props, ms[..j]).Success? && LookupProperty(Hash(Mapped(props, ms[..j]).value), ms[j].val).Some?
  }

  /** The mappings before index j apply, and the one at j does not resolve. */
  predicate FailsAt(props: seq<Entry>, ms: seq<Entry>, j: nat)
    requires j < |ms|
  {
    Mapped(props, ms[..j]).Success? && LookupProperty(Hash(Mapped(props, ms[..j]).value), ms[j].val).None?
  }

  /** After a first mapping that resolves, the prefixes of the mappings are those of
      the rest, applied to the properties the first one left. */
  lemma ShiftPrefix(props: seq<Entry>, ms: seq<Entry>, j: nat)
    requires 0 < j <= |ms| && LookupProperty(Hash(props), ms[0].val).Some?
    ensures Mapped(props, ms[..j])
      == Mapped(Put(props, ms[0].key, LookupProperty(Hash(props), ms[0].val).value), ms[1..][..j - 1])
  {
    assert ms[..j][0] == ms[0] && ms[..j][1..] == ms[1..][..j - 1];
  }

  /** After a first mapping that resolves, the mapping at j + 1 resolves or fails
      exactly as the one at j of the rest does. */
  lemma ShiftAt(props: seq<Entry>, ms: seq<Entry>, j: nat)
    requires 0 < j < |ms| && LookupProperty(Hash(props), ms[0].val).Some?
    ensures var next := Put(props, ms[0].key, LookupProperty(Hash(props), ms[0].val).value);
      (ResolvesAt(props, ms, j) <==> ResolvesAt(next, ms[1..], j - 1))
      && (FailsAt(props, ms, j) <==> FailsAt(next, ms[1..], j - 1))
  {
    ShiftPrefix(props, ms, j);
    assert ms[1..][j - 1] == ms[j];
  }

  /** The property mappings succeed exactly when each one resolves against the
      properties the earlier ones left; a failure is raised for a mapping that does
      not. */
  lemma {:induction false} MappedMeaning(props: seq<Entry>, ms: seq<Entry>)
    ensures Mapped(props, ms).Success? <==> forall j :: 0 <= j < |ms| ==> ResolvesAt(props, ms, j)
    ensures Mapped(props, ms).Failure? ==>
      exists j :: 0 <= j < |ms| && FailsAt(props, ms, j)
        && Mapped(props, ms).error == InvalidPropertyMapping(ms[j].key, ms[j].val)
    decreases |ms|
  {
    if ms != [] {
      assert ms[..0] == [];
      var first := LookupProperty(Hash(props), ms[0].val);
      if first.None? {
        assert FailsAt(props, ms, 0) && !ResolvesAt(props, ms, 0);
      } else {
        var next := Put(props, ms[0].key, first.value);
        assert Mapped(props, ms) == Mapped(next, ms[1..]);
        MappedMeaning(next, ms[1..]);
        forall j | 0 < j < |ms|
          ensures (ResolvesAt(props, ms, j) <==> ResolvesAt(next, ms[1..], j - 1))
            && (FailsAt(props, ms, j) <==> FailsAt(next, ms[1..], j - 1))
        {
          ShiftAt(props, ms, j);
        }
        assert ResolvesAt(props, ms, 0);
        if Mapped(props, ms).Failure? {
          var j :| 0 <= j < |ms| - 1 && FailsAt(next, ms[1..], j)
            && Mapped(next, ms[1..]).error == InvalidPropertyMapping(ms[1..][j].key, ms[1..][j].val);
          assert ms[1..][j] == ms[j + 1];
          assert FailsAt(props, ms, j + 1);
        } else {
          forall j | 0 <= j < |ms| ensures ResolvesAt(props, ms, j) {
            if j > 0 {
              assert ResolvesAt(next, ms[1..], j - 1);
            }
          }
        }
      }
    }
  }

  /** The mapping a failure is raised for is the first that does not resolve: every
      mapping before it does. */
  lemma FailsAtIsFirst(props: seq<Entry>, ms: seq<Entry>, j: nat)
    requires j < |ms| && FailsAt(props, ms, j)
    ensures forall i :: 0 <= i < j ==> ResolvesAt(props, ms, i)
  {
    MappedMeaning(props, ms[..j]);
    forall i | 0 <= i < j ensures ResolvesAt(props, ms, i) {
      assert ms[..j][..i] == ms[..i] && ms[..j][i] == ms[i];
      assert ResolvesAt(props, ms[..j], i);
    }
  }

  /** After the mappings, the target of the last mapping to a key holds the value that
      mapping's source resolved to when it was applied. */
  lemma {:induction false} MappedTargetValue(props: seq<Entry>, ms: seq<Entry>, j: nat)
    requires Mapped(props, ms).Success? && j < |ms|
    requires forall i :: j < i < |ms| ==> ms[i].key != ms[j].key
    ensures Mapped(props, ms[..j]).Success?
    ensures Lookup(Mapped(props, ms).value, ms[j].key)
      == LookupProperty(Hash(Mapped(props, ms[..j]).value), ms[j].val)
    decreases |ms|
  {
    var first := LookupProperty(Hash(props), ms[0].val);
    var next := Put(props, ms[0].key, first.value);
    assert Mapped(props, ms) == Mapped(next, ms[1..]);
    if j == 0 {
      assert ms[..0] == [];
      assert forall i :: 0 <= i < |ms| - 1 ==> Targets(ms[1..])[i] == ms[i + 1].key;
      assert ms[0].key !in Targets(ms[1..]);
      MappedLeavesOthers(next, ms[1..], ms[0].key);
    } else {
      assert ms[1..][j - 1] == ms[j];
      MappedTargetValue(next, ms[1..], j - 1);
      ShiftPrefix(props, ms, j);
    }
  }

  /** What mapping keeps, sets and leaves alone, for all keys at once. */
  lemma MappedKeys(props: seq<Entry>, ms: seq<Entry>)
    requires Mapped(props, ms).Success?
    ensures forall k :: HasKey(props, k) ==> HasKey(Mapped(props, ms).value, k)
    ensures forall j :: 0 <= j < |ms| ==> HasKey(Mapped(props, ms).value, ms[j].key)
    ensures forall k :: k !in Targets(ms) ==> Lookup(Mapped(props, ms).value, k) == Lookup(props, k)
  {
    forall k | HasKey(props, k) ensures HasKey(Mapped(props, ms).value, k) {
      MappedKeepsKey(props, ms, k);
    }
    forall j | 0 <= j < |ms| ensures HasKey(Mapped(props, ms).value, ms[j].key) {
      MappedSetsTarget(props, ms, j);
    }
    forall k | k !in Targets(ms) ensures Lookup(Mapped(props, ms).value, k) == Lookup(props, k) {
      MappedLeavesOthers(props, ms, k);
    }
  }

  /** The group's properties: the deployment's merged with the group's, then mapped. */
  datatype PropertySet = PropertySet(all: Value, allUninterpolated: Value)

  function MergedProperties(d: Deployment, own: seq<Entry>): (r: seq<Entry>)
    ensures forall k :: HasKey(own, k) ==> HasKey(r, k)
  {
    DeepMerge(d.properties, Hash(own)).entries
  }

  /** `properties` and `uninterpolated_properties` merged over the deployment's,
      then the `property_mappings` applied; every mapping source must resolve. */
  function Properties(spec: Value, d: Deployment): (r: Result<PropertySet, ParseError>)
    ensures r.Success? ==> r.value.all.Hash? && r.value.allUninterpolated.Hash?
    ensures r.Success? ==>
      HashOrEmpty(spec, "properties").Success? && HashOrEmpty(spec, "property_mappings").Success?
      && HashOrEmpty(spec, "uninterpolated_properties").Success?
      && var own := HashOrEmpty(spec, "properties").value;
      var ms := HashOrEmpty(spec, "property_mappings").value;
      (forall k :: k !in Targets(ms) && HasKey(own, k) ==> Lookup(r.value.all.entries, k) == Lookup(MergedProperties(d, own), k))
      && (forall j :: 0 <= j < |ms| ==> HasKey(r.value.all.entries, ms[j].key))
      && r.value.allUninterpolated == DeepMerge(d.uninterpolatedProperties, Hash(HashOrEmpty(spec, "uninterpolated_properties").value))
    ensures (r.Failure? && HashOrEmpty(spec, "properties").Success? && HashOrEmpty(spec, "uninterpolated_properties").Success?
             && HashOrEmpty(spec, "property_mappings").Success?) ==>
      r.error.InvalidPropertyMapping?
  {
    var own :- HashOrEmpty(spec, "properties");
    var ownUninterpolated :- HashOrEmpty(spec, "uninterpolated_properties");
    var merged := MergedProperties(d, own);
    var uninterpolated := DeepMerge(d.uninterpolatedProperties, Hash(ownUninterpolated));
    var ms :- HashOrEmpty(spec, "property_mappings");
    var all :- Mapped(merged, ms);
    MappedKeys(merged, ms);
    Success(PropertySet(Hash(all), uninterpolated))
  }

  /** `Properties` as the two merges followed by the mappings. */
  lemma PropertiesSteps(spec: Value, d: Deployment)
    requires HashOrEmpty(spec, "properties").Success? && HashOrEmpty(spec, "uninterpolated_properties").Success?
    requires HashOrEmpty(spec, "property_mappings").Success?
    ensures var all := Mapped(MergedProperties(d, HashOrEmpty(spec, "properties").value), HashOrEmpty(spec, "property_mappings").value);
      var uninterpolated := DeepMerge(d.uninterpolatedProperties, Hash(HashOrEmpty(spec, "uninterpolated_properties").value));
      && (all.Failure? ==> Properties(spec, d) == Failure(all.error))
      && (all.Success? ==> Properties(spec, d) == Success(PropertySet(Hash(all.value), uninterpolated)))
  {
  }

  /** With the property hashes well formed, the properties fail exactly when a mapping
      does not resolve, with the error of the first that does not, and each mapping
      target holds the value its source resolved to. */
  lemma PropertiesMappings(spec: Value, d: Deployment)
    requires HashOrEmpty(spec, "properties").Success? && HashOrEmpty(spec, "uninterpolated_properties").Success?
    requires HashOrEmpty(spec, "property_mappings").Success?
    ensures var merged := MergedProperties(d, HashOrEmpty(spec, "properties").value);
      var ms := HashOrEmpty(spec, "property_mappings").value;
      (Properties(spec, d).Success? <==> forall j :: 0 <= j < |ms| ==> ResolvesAt(merged, ms, j))
      && (Properties(spec, d).Failure? ==>
            exists j :: 0 <= j < |ms| && FailsAt(merged, ms, j)
              && Properties(spec, d).error == InvalidPropertyMapping(ms[j].key, ms[j].val))
      && (Properties(spec, d).Success? ==>
            forall j :: 0 <= j < |ms| && (forall i :: j < i < |ms| ==> ms[i].key != ms[j].key) ==>
              Mapped(merged, ms[..j]).Success?
              && Lookup(Properties(spec, d).value.all.entries, ms[j].key)
                 == LookupProperty(Hash(Mapped(merged, ms[..j]).value), ms[j].val))
  {
    var merged := MergedProperties(d, HashOrEmpty(spec, "properties").value);
    var ms := HashOrEmpty(spec, "property_mappings").value;
    PropertiesSteps(spec, d);
    MappedMeaning(merged, ms);
    if Properties(spec, d).Success? {
      forall j | 0 <= j < |ms| && (forall i :: j < i < |ms| ==> ms[i].key != ms[j].key)
        ensures Mapped(merged, ms[..j]).Success?
          && Lookup(Properties(spec, d).value.all.entries, ms[j].key)
             == LookupProperty(Hash(Mapped(merged, ms[..j]).value), ms[j].val)
      {
        MappedTargetValue(merged, ms, j);
      }
    }
  }

  /** Where the group's VMs come from: a resource pool, or a VM type, extensions and
      a stemcell; and their environment. */
  datatype Placement = Placement(vmType: VmType, vmExtensions: seq<Option<VmExtension>>, stemcell: Stemcell, env: Env)

  /** `deployment.vm_extension(name)` for each name; an unknown name gives nothing. */
  function Extensions(d: Deployment, names: seq<Value>): (es: seq<Option<VmExtension>>)
    ensures |es| == |names|
    ensures forall i :: 0 <= i < |names| ==>
      es[i] == if names[i].Str? && names[i].s in d.vmExtensions then Some(d.vmExtensions[names[i].s]) else None
  {
    seq(|names|, i requires 0 <= i < |names| =>
      if names[i].Str? && names[i].s in d.vmExtensions then Some(d.vmExtensions[names[i].s]) else None)
  }

  /** The VM placement of the group. With `resource_pool` the pool supplies the VM
      type, the stemcell and, when the group declares none, the env; a group and a
      pool may not both declare env. Otherwise `vm_type` and `stemcell` must name
      known ones. */
  function VmPlacement(spec: Value, d: Deployment, group: string): (r: Result<Placement, ParseError>)
    ensures r.Success? ==>
      HashOrEmpty(spec, "uninterpolated_env").Success?
      && r.value.env.uninterpolated == HashOrEmpty(spec, "uninterpolated_env").value
    ensures (StrAt(spec, "resource_pool").Some? && HashOrEmpty(spec, "env").Success?
             && HashOrEmpty(spec, "uninterpolated_env").Success?) ==>
      var name := StrAt(spec, "resource_pool").value;
      var env := HashOrEmpty(spec, "env").value;
      (name !in d.resourcePools ==> r == Failure(UnknownResourcePool(group, name)))
      && (name in d.resourcePools ==>
            var pool := d.resourcePools[name];
            (env != [] && pool.env != [] <==> r == Failure(AmbiguousEnv(group, name)))
            && (r.Success? ==>
                  r.value.vmType == VmType(pool.name, pool.cloudProperties) && r.value.vmExtensions == []
                  && r.value.stemcell == pool.stemcell
                  && r.value.env.spec == if env == [] then pool.env else env))
    ensures r.Success? && spec.Hash? && Field(spec, "resource_pool").None? ==>
      StrAt(spec, "vm_type").Some? && StrAt(spec, "vm_type").value in d.vmTypes
      && r.value.vmType == d.vmTypes[StrAt(spec, "vm_type").value]
      && StrAt(spec, "stemcell").Some? && StrAt(spec, "stemcell").value in d.stemcells
      && r.value.stemcell == d.stemcells[StrAt(spec, "stemcell").value]
      && HashOrEmpty(spec, "env").Success? && r.value.env.spec == HashOrEmpty(spec, "env").value
    ensures (spec.Hash? && Field(spec, "resource_pool").None? && HashOrEmpty(spec, "env").Success?
             && HashOrEmpty(spec, "uninterpolated_env").Success? && StrAt(spec, "vm_type").Some?
             && StrAt(spec, "vm_type").value !in d.vmTypes) ==>
      r == Failure(UnknownVmType(group, StrAt(spec, "vm_type").value))
  {
    var env :- HashOrEmpty(spec, "env");
    var uninterpolatedEnv :- HashOrEmpty(spec, "uninterpolated_env");
    var poolName :- OptionalString(spec, "resource_pool");
    if poolName.Some? then
      if poolName.value !in d.resourcePools then Failure(UnknownResourcePool(group, poolName.value))
      else
        var pool := d.resourcePools[poolName.value];
        if env != [] && pool.env != [] then Failure(AmbiguousEnv(group, poolName.value))
        else
          Success(Placement(VmType(pool.name, pool.cloudProperties), [], pool.stemcell,
                            Env(if env == [] then pool.env else env, uninterpolatedEnv)))
    else
      var vmTypeName :- RequiredString(spec, "vm_type");
      if vmTypeName !in d.vmTypes then Failure(UnknownVmType(group, vmTypeName))
      else
        var extensionNames :- OptionalArray(spec, "vm_extensions");
        var stemcellName :- RequiredString(spec, "stemcell");
        if stemcellName !in d.stemcells then Failure(UnknownStemcell(group, stemcellName))
        else
          Success(Placement(d.vmTypes[vmTypeName], Extensions(d, extensionNames.GetOr([])),
                            d.stemcells[stemcellName], Env(env, uninterpolatedEnv)))
  }

  /** With a known `resource_pool` and the env hashes read, nothing else can fail: the
      placement is AmbiguousEnv exactly when both the group and the pool declare an env,
      and otherwise the pool's VM type and stemcell, no extensions, and the group's env,
      or the pool's when the group declares none. */
  lemma PlacementWithPool(spec: Value, d: Deployment, group: string)
    requires StrAt(spec, "resource_pool").Some? && StrAt(spec, "resource_pool").value in d.resourcePools
    requires HashOrEmpty(spec, "env").Success? && HashOrEmpty(spec, "uninterpolated_env").Success?
    ensures var name := StrAt(spec, "resource_pool").value;
      var pool := d.resourcePools[name];
      var env := HashOrEmpty(spec, "env").value;
      (env != [] && pool.env != [] <==> VmPlacement(spec, d, group) == Failure(AmbiguousEnv(group, name)))
      && (!(env != [] && pool.env != []) <==> VmPlacement(spec, d, group).Success?)
      && (!(env != [] && pool.env != []) ==>
            VmPlacement(spec, d, group)
              == Success(Placement(VmType(pool.name, pool.cloudProperties), [], pool.stemcell,
                                   Env(if env == [] then pool.env else env,
                                       HashOrEmpty(spec, "uninterpolated_env").value))))
  {
    assert OptionalString(spec, "resource_pool") == Success(Some(StrAt(spec, "resource_pool").value));
  }

  /** Without `resource_pool`, once the env hashes, a known `vm_type`, the extension
      list and a `stemcell` name have been read: the placement fails with
      UnknownStemcell exactly when no stemcell has that name, and otherwise is the named
      VM type, one `vm_extension` lookup per listed name, the named stemcell and the
      group's own env. */
  lemma PlacementWithoutPool(spec: Value, d: Deployment, group: string)
    requires spec.Hash? && Field(spec, "resource_pool").None?
    requires HashOrEmpty(spec, "env").Success? && HashOrEmpty(spec, "uninterpolated_env").Success?
    requires StrAt(spec, "vm_type").Some? && StrAt(spec, "vm_type").value in d.vmTypes
    requires OptionalArray(spec, "vm_extensions").Success? && StrAt(spec, "stemcell").Some?
    ensures var stemcell := StrAt(spec, "stemcell").value;
      (stemcell !in d.stemcells <==> VmPlacement(spec, d, group) == Failure(UnknownStemcell(group, stemcell)))
      && (stemcell in d.stemcells <==> VmPlacement(spec, d, group).Success?)
    ensures VmPlacement(spec, d, group).Success? ==>
      VmPlacement(spec, d, group).value
        == Placement(d.vmTypes[StrAt(spec, "vm_type").value],
                     Extensions(d, OptionalArray(spec, "vm_extensions").value.GetOr([])),
                     d.stemcells[StrAt(spec, "stemcell").value],
                     Env(HashOrEmpty(spec, "env").value, HashOrEmpty(spec, "uninterpolated_env").value))
  {
    assert OptionalString(spec, "resource_pool") == Success(None);
    assert RequiredString(spec, "vm_type") == Success(StrAt(spec, "vm_type").value);
    assert RequiredString(spec, "stemcell") == Success(StrAt(spec, "stemcell").value);
  }

  /** The `remove_dev_tools` setting under `bosh` in an env hash, when there is one. */
  function DevToolsSetting(spec: seq<Entry>): Option<Value> {
    var bosh := Lookup(spec, "bosh");
    if bosh.Some? && bosh.value.Hash? then Lookup(bosh.value.entries, "remove_dev_tools") else None
  }

  /** With the director's `remove_dev_tools` set, the env gets it under `bosh` unless
      it already says; an existing setting is never overwritten. */
  function WithRemoveDevTools(env: Env, setting: Value, group: string): (r: Result<Env, ParseError>)
    ensures !Truthy(setting) ==> r == Success(env)
    ensures DevToolsSetting(env.spec).Some? ==> r == Success(env)
    ensures r.Success? ==> r.value.uninterpolated == env.uninterpolated
    ensures r.Success? && Truthy(setting) ==>
      DevToolsSetting(r.value.spec) == Some(DevToolsSetting(env.spec).GetOr(setting))
    ensures r.Success? ==> forall k :: k != "bosh" ==> Lookup(r.value.spec, k) == Lookup(env.spec, k)
    ensures r.Failure? <==>
      Truthy(setting) && Lookup(env.spec, "bosh").Some? && Truthy(Lookup(env.spec, "bosh").value)
      && !Lookup(env.spec, "bosh").value.Hash?
  {
    if !Truthy(setting) then Success(env)
    else
      var bosh := Lookup(env.spec, "bosh");
      if bosh.Some? && Truthy(bosh.value) then
        if !bosh.value.Hash? then Failure(EnvBoshNotHash(group))
        else if HasKey(bosh.value.entries, "remove_dev_tools") then Success(env)
        else
          var updated := Hash(Put(bosh.value.entries, "remove_dev_tools", setting));
          Success(env.(spec := Put(env.spec, "bosh", updated)))
      else Success(env.(spec := Put(env.spec, "bosh", Hash([Entry("remove_dev_tools", setting)]))))
  }

  /** The command-line overrides of `canaries` and `max_in_flight`, when set. */
  function Overrides(options: seq<Entry>): (es: seq<Entry>)
    ensures forall k :: k != "canaries" && k != "max_in_flight" ==> !HasKey(es, k)
  {
    var canaries := Lookup(options, "canaries");
    var maxInFlight := Lookup(options, "max_in_flight");
    (if canaries.Some? && Truthy(canaries.value) then [Entry("canaries", canaries.value)] else [])
    + (if maxInFlight.Some? && Truthy(maxInFlight.value) then [Entry("max_in_flight", maxInFlight.value)] else [])
  }

  /** The update input: the manifest's `update` hash with the set overrides in it. */
  function Update(spec: Value, options: seq<Entry>, d: Deployment): (r: Result<UpdateSettings, ParseError>)
    ensures r.Success? ==> r.value.deploymentDefaults == d.update
    ensures r.Success? ==> OptionalHash(spec, "update").Success?
    ensures r.Success? && OptionalHash(spec, "update").Success? ==>
      forall k | k in ["canaries", "max_in_flight"] ::
        var o := Lookup(options, k);
        Lookup(r.value.manifest, k)
          == if o.Some? && Truthy(o.value) then o
             else Lookup(OptionalHash(spec, "update").value.GetOr([]), k)
    ensures r.Success? && OptionalHash(spec, "update").Success? ==>
      forall k :: k != "canaries" && k != "max_in_flight" ==>
        Lookup(r.value.manifest, k) == Lookup(OptionalHash(spec, "update").value.GetOr([]), k)
  {
    var own :- OptionalHash(spec, "update");
    Success(UpdateSettings(Merge(own.GetOr([]), Overrides(options)), d.update))
  }

  /** `networks.find { |n| n.default_for?(property) }`, by name. */
  function FirstDefault(networks: seq<JobNetwork>, property: string): (r: Option<string>)
    ensures r.None? <==> forall i :: 0 <= i < |networks| ==> property !in networks[i].defaults
    ensures r.Some? ==> exists i :: FirstDefaultAt(networks, property, i) && networks[i].name == r.value
  {
    if networks == [] then None
    else if property in networks[0].defaults then
      assert FirstDefaultAt(networks, property, 0);
      Some(networks[0].name)
    else
      var r := FirstDefault(networks[1..], property);
      assert forall i :: 1 <= i < |networks| ==> networks[i] == networks[1..][i - 1];
      assert r.Some? ==> exists i :: FirstDefaultAt(networks, property, i) && networks[i].name == r.value by {
        if r.Some? {
          var i :| FirstDefaultAt(networks[1..], property, i) && networks[1..][i].name == r.value;
          assert FirstDefaultAt(networks, property, i + 1);
        }
      }
      r
  }

  /** Network i is the first one that is the default for the property. */
  ghost predicate FirstDefaultAt(networks: seq<JobNetwork>, property: string, i: int) {
    0 <= i < |networks| && property in networks[i].defaults
    && forall j :: 0 <= j < i ==> property !in networks[j].defaults
  }

  /** The default network of each property, added to what `m` holds. */
  function AssignDefaults(m: map<string, string>, networks: seq<JobNetwork>, properties: seq<string>)
    : (r: map<string, string>)
    ensures forall p :: p !in properties ==> (p in r <==> p in m) && (p in m ==> r[p] == m[p])
    ensures forall p :: p in properties ==>
      (p in r <==> p in m || FirstDefault(networks, p).Some?)
      && (FirstDefault(networks, p).Some? ==> r[p] == FirstDefault(networks, p).value)
      && (FirstDefault(networks, p).None? && p in m ==> r[p] == m[p])
    decreases |properties|
  {
    if properties == [] then m
    else
      var p := properties[0];
      var found := FirstDefault(networks, p);
      var r := AssignDefaults(if found.Some? then m[p := found.value] else m, networks, properties[1..]);
      assert forall q :: q in properties <==> q == p || q in properties[1..];
      r
  }

  /** One entry of `migrated_from`; its `az`, when given, must be a zone of the group. */
  function MigratedJob(entry: Value, zones: seq<string>, group: string): (r: Result<MigratedFromJob, ParseError>)
    ensures r.Success? ==> r.value.az.None? || r.value.az.value in zones
    ensures r.Success? ==> Field(entry, "name") == Some(Str(r.value.name))
    ensures RequiredString(entry, "name").Success? && StrAt(entry, "az").Some? && StrAt(entry, "az").value !in zones ==>
      r == Failure(InvalidMigratedFromAz(RequiredString(entry, "name").value, group, StrAt(entry, "az").value))
  {
    var name :- RequiredString(entry, "name");
    var az :- OptionalString(entry, "az");
    if az.Some? && az.value !in zones then Failure(InvalidMigratedFromAz(name, group, az.value))
    else Success(MigratedFromJob(name, az))
  }

  function MigratedResults(entries: seq<Value>, zones: seq<string>, group: string)
    : (rs: seq<Result<MigratedFromJob, ParseError>>)
    ensures |rs| == |entries| && forall i :: 0 <= i < |entries| ==> rs[i] == MigratedJob(entries[i], zones, group)
  {
    seq(|entries|, i requires 0 <= i < |entries| => MigratedJob(entries[i], zones, group))
  }

  /** The `migrated_from` entries, an array that defaults to empty. */
  function MigratedEntries(spec: Value): Result<seq<Value>, ParseError> {
    var v :- SafeProperty(spec, "migrated_from", ArrayKind, true, Some(Arr([])));
    Success(if v.Some? && v.value.Arr? then v.value.items else [])
  }

  /** The migration sources appended to `acc`; every az they name is a zone of the group. */
  function MigratedFrom(acc: seq<MigratedFromJob>, spec: Value, zones: seq<string>, group: string)
    : (r: Result<seq<MigratedFromJob>, ParseError>)
    ensures r.Success? ==> |r.value| >= |acc| && r.value[..|acc|] == acc
    ensures r.Success? ==> forall i :: |acc| <= i < |r.value| ==> r.value[i].az.None? || r.value[i].az.value in zones
    ensures MigratedEntries(spec).Success? ==>
      r == Collect(acc, MigratedResults(MigratedEntries(spec).value, zones, group))
  {
    var entries :- MigratedEntries(spec);
    var r := Collect(acc, MigratedResults(entries, zones, group));
    assert r.Success? ==> forall i :: |acc| <= i < |r.value| ==>
      r.value[i] == MigratedResults(entries, zones, group)[i - |acc|].value;
    r
  }

  /** Every network with static IPs has exactly `instances` of them; the first that
      does not is reported. */
  function StaticIpsMatch(networks: seq<JobNetwork>, instances: int, group: string): (r: Result<(), ParseError>)
    ensures r.Success? <==>
      forall i :: 0 <= i < |networks| && networks[i].staticIps.Some? ==> |networks[i].staticIps.value| == instances
    ensures r.Failure? ==>
      exists i :: 0 <= i < |networks| && networks[i].staticIps.Some?
        && r.error == StaticIpMismatch(group, instances, |networks[i].staticIps.value|, networks[i].name)
        && |networks[i].staticIps.value| != instances
    decreases |networks|
  {
    if networks == [] then Success(())
    else
      var ips := networks[0].staticIps;
      if ips.Some? && |ips.value| != instances then
        Failure(StaticIpMismatch(group, instances, |ips.value|, networks[0].name))
      else
        var r := StaticIpsMatch(networks[1..], instances, group);
        assert forall i :: 1 <= i < |networks| ==> networks[i] == networks[1..][i - 1];
        r
  }

  predicate ValidStateValue(v: Value) {
    v.Str? && v.s in ValidStates
  }

  /** The `instance_states` entries stored into `acc`; each state must be valid. */
  function InstanceStates(acc: map<string, string>, entries: seq<Entry>, group: string)
    : (r: Result<map<string, string>, ParseError>)
    ensures r.Success? <==> forall j :: 0 <= j < |entries| ==> ValidStateValue(entries[j].val)
    ensures r.Success? ==> forall j :: 0 <= j < |entries| ==> entries[j].key in r.value
    ensures r.Success? ==> forall k :: k in r.value ==> k in acc || k in Targets(entries)
    ensures r.Success? ==>
      forall k :: k in r.value && (k !in acc || k in Targets(entries)) ==> r.value[k] in ValidStates
    ensures r.Success? ==> forall k :: k in acc && k !in Targets(entries) ==> k in r.value && r.value[k] == acc[k]
    ensures r.Failure? ==>
      exists j :: 0 <= j < |entries| && !ValidStateValue(entries[j].val)
        && r.error == InvalidInstanceState(group, entries[j].key, entries[j].val)
    decreases |entries|
  {
    if entries == [] then Success(acc)
    else
      var e := entries[0];
      if !ValidStateValue(e.val) then Failure(InvalidInstanceState(group, e.key, e.val))
      else
        var r := InstanceStates(acc[e.key := e.val.s], entries[1..], group);
        assert forall j :: 1 <= j < |entries| ==> entries[j] == entries[1..][j - 1];
        assert Targets(entries) == [e.key] + Targets(entries[1..]);
        r
  }

  /** What the group's desired-instance step sets. */
  datatype Desired = Desired(state: Option<string>, instanceStates: map<string, string>, instances: seq<DesiredInstance>)

  /** `instances.times.map { DesiredInstance.new }`: none for a negative count. */
  function DesiredList(count: int, group: string): (ds: seq<DesiredInstance>)
    ensures |ds| == if count < 0 then 0 else count
    ensures forall i :: 0 <= i < |ds| ==> ds[i] == DesiredInstance(group)
  {
    seq(if count < 0 then 0 else count, _ => DesiredInstance(group))
  }

  /** `state`, `instances` and `instance_states`: static IP counts must match the
      instance count, and every state must be a valid one. */
  function DesiredInstances(acc: map<string, string>, spec: Value, networks: seq<JobNetwork>, group: string)
    : (r: Result<Desired, ParseError>)
    ensures r.Success? ==>
      IntAt(spec, "instances").Some?
      && |r.value.instances| == (if IntAt(spec, "instances").value < 0 then 0 else IntAt(spec, "instances").value)
    ensures r.Success? ==>
      forall i :: 0 <= i < |networks| && networks[i].staticIps.Some? ==>
        |networks[i].staticIps.value| == IntAt(spec, "instances").value
    ensures r.Success? && r.value.state.Some? ==> r.value.state.value in ValidStates && r.value.state == StrAt(spec, "state")
    ensures r.Success? && spec.Hash? && Field(spec, "state").None? ==> r.value.state.None?
    ensures r.Success? ==> forall k :: k in r.value.instanceStates && k !in acc ==> r.value.instanceStates[k] in ValidStates
    ensures (OptionalString(spec, "state").Success? && RequiredInt(spec, "instances").Success?
             && HashOrEmpty(spec, "instance_states").Success?
             && StaticIpsMatch(networks, RequiredInt(spec, "instances").value, group).Success?
             && InstanceStates(acc, HashOrEmpty(spec, "instance_states").value, group).Success?
             && StrAt(spec, "state").Some?) ==>
      (r.Failure? <==> StrAt(spec, "state").value !in ValidStates)
      && (r.Failure? ==> r.error == InvalidState(group, StrAt(spec, "state").value))
  {
    var state :- OptionalString(spec, "state");
    var count :- RequiredInt(spec, "instances");
    var entries :- HashOrEmpty(spec, "instance_states");
    var _ :- StaticIpsMatch(networks, count, group);
    var states :- InstanceStates(acc, entries, group);
    if state.Some? && state.value !in ValidStates then Failure(InvalidState(group, state.value))
    else Success(Desired(state, states, DesiredList(count, group)))
  }
}
