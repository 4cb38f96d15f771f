/** Manifest and property documents: the JSON/YAML-shaped trees that the director
    reads from deployment manifests, the config server and agents. A hash keeps
    its insertion order, as a Ruby Hash does. */
module Values {
  import opened Wrappers

  datatype Value =
    | Null
    | Bool(b: bool)
    | Int(i: int)
    | Str(s: string)
    | Arr(items: seq<Value>)
    | Hash(entries: seq<Entry>)

  datatype Entry = Entry(key: string, val: Value)

  /** Ruby truthiness: everything except nil and false. */
  predicate Truthy(v: Value) {
    !(v.Null? || v == Bool(false))
  }

  /** `hash[k]`: the value of the first entry with key k. */
  function Lookup(es: seq<Entry>, k: string): (r: Option<Value>)
    ensures r.Some? ==> exists i :: 0 <= i < |es| && es[i] == Entry(k, r.value)
    ensures r.None? ==> forall i :: 0 <= i < |es| ==> es[i].key != k
  {
    if es == [] then None
    else if es[0].key == k then Some(es[0].val)
    else
      var r := Lookup(es[1..], k);
      assert r.Some? ==> exists i :: 0 <= i < |es[1..]| && es[1..][i] == Entry(k, r.value);
      r
  }

  /** `hash.has_key?(k)` */
  predicate HasKey(es: seq<Entry>, k: string) {
    Lookup(es, k).Some?
  }

  /** `v[k]` on a document: the value under key k when v is a hash that has it. */
  function Get(v: Value, k: string): Option<Value> {
    if v.Hash? then Lookup(v.entries, k) else None
  }

  /** `hash[k] = v`: replaces the value of an existing key in place, or appends. */
  function Put(es: seq<Entry>, k: string, v: Value): (r: seq<Entry>)
    ensures Lookup(r, k) == Some(v)
    ensures forall k' :: k' != k ==> Lookup(r, k') == Lookup(es, k')
    ensures HasKey(es, k) ==> |r| == |es|
    ensures !HasKey(es, k) ==> r == es + [Entry(k, v)]
  {
    if es == [] then [Entry(k, v)]
    else if es[0].key == k then [Entry(k, v)] + es[1..]
    else
      var rest := Put(es[1..], k, v);
      var r := [es[0]] + rest;
      assert r[0] == es[0] && r[1..] == rest;
      assert !HasKey(es, k) ==> r == es + [Entry(k, v)] by {
        if !HasKey(es, k) {
          assert rest == es[1..] + [Entry(k, v)];
          assert es == [es[0]] + es[1..];
        }
      }
      r
  }

  /** `a.merge(b)`: the keys of b override those of a, the others are kept.
      The lookups agree with Ruby's; the entry order of the keys b adds is not modelled. */
  function Merge(a: seq<Entry>, b: seq<Entry>): (r: seq<Entry>)
    ensures forall k :: HasKey(b, k) ==> Lookup(r, k) == Lookup(b, k)
    ensures forall k :: !HasKey(b, k) ==> Lookup(r, k) == Lookup(a, k)
    decreases |b|
  {
    if b == [] then a
    else
      Put(Merge(a, b[1..]), b[0].key, b[0].val)
  }

  /** The first index holding key k, and its value, for a hash that has k. */
  lemma LookupWitness(es: seq<Entry>, k: string) returns (i: nat)
    requires HasKey(es, k)
    ensures i < |es| && es[i].key == k && Lookup(es, k) == Some(es[i].val)
    ensures forall j :: 0 <= j < i ==> es[j].key != k
  {
    if es[0].key == k {
      i := 0;
    } else {
      var i' := LookupWitness(es[1..], k);
      i := i' + 1;
    }
  }

  /** An entry with key k that no earlier entry shadows is the one `hash[k]` finds. */
  lemma {:induction false} LookupFirst(es: seq<Entry>, k: string, i: nat)
    requires i < |es| && es[i].key == k
    requires forall j :: 0 <= j < i ==> es[j].key != k
    ensures Lookup(es, k) == Some(es[i].val)
  {
    if i > 0 {
      LookupFirst(es[1..], k, i - 1);
    }
  }

  /** One step of a path into a document: a hash key or an array index. */
  datatype Step = Key(key: string) | Index(index: nat)

  type Path = seq<Step>

  /** `dig`: the sub-document at a path, when every step exists. */
  function At(v: Value, p: Path): (r: Option<Value>)
    ensures p == [] ==> r == Some(v)
    decreases |p|
  {
    if p == [] then Some(v)
    else match p[0]
      case Key(k) =>
        if v.Hash? && HasKey(v.entries, k) then At(Lookup(v.entries, k).value, p[1..]) else None
      case Index(n) =>
        if v.Arr? && n < |v.items| then At(v.items[n], p[1..]) else None
  }

  /** Walking a path is walking its first part, then the rest from what that reached. */
  lemma {:induction false} AtConcat(v: Value, p: Path, q: Path)
    ensures At(v, p + q) == if At(v, p).Some? then At(At(v, p).value, q) else None
    decreases |p|
  {
    if p == [] {
      assert [] + q == q;
    } else {
      assert (p + q)[0] == p[0] && (p + q)[1..] == p[1..] + q;
      match p[0]
      case Key(k) =>
        if v.Hash? && HasKey(v.entries, k) {
          AtConcat(Lookup(v.entries, k).value, p[1..], q);
        }
      case Index(n) =>
        if v.Arr? && n < |v.items| {
          AtConcat(v.items[n], p[1..], q);
        }
    }
  }

  /** A path reaches a value only through hashes that have its keys and arrays that
      have its indices: every step starts from a value the path's prefix reaches and
      that has that step. */
  lemma AtThrough(v: Value, p: Path, i: nat)
    requires At(v, p).Some? && i < |p|
    ensures At(v, p[..i]).Some?
    ensures var u := At(v, p[..i]).value;
      match p[i]
      case Key(k) => u.Hash? && HasKey(u.entries, k)
      case Index(n) => u.Arr? && n < |u.items|
  {
    assert p == p[..i] + p[i..];
    AtConcat(v, p[..i], p[i..]);
    assert p[i..][0] == p[i];
  }

  /** A document as Ruby holds it: every hash, at every depth, has each key once. */
  predicate Document(v: Value)
    decreases v
  {
    match v
    case Arr(items) => forall i :: 0 <= i < |items| ==> Document(items[i])
    case Hash(es) =>
      (forall i, j :: 0 <= i < j < |es| ==> es[i].key != es[j].key)
      && forall i :: 0 <= i < |es| ==> Document(es[i].val)
    case _ => true
  }

  /** The path made of hash keys only, as a dotted name walks it. */
  function KeyPath(keys: seq<string>): (p: Path)
    ensures |p| == |keys|
    ensures forall i :: 0 <= i < |keys| ==> p[i] == Key(keys[i])
  {
    seq(|keys|, i requires 0 <= i < |keys| => Key(keys[i]))
  }
}
