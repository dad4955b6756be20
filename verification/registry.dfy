/** The orchestrator's module registry (daruk.ts, lines 146-182): a map
    from module type to a bucket that is either a key/value object or an
    array whose order matters (the middleware order, for one). */
module Registry {
  import opened Wrappers

  /** A bucket. JavaScript arrays are objects too, so a key written into
      an array bucket by `setModule` lands in `props` beside its items. */
  datatype Bucket<V> = Keyed(entries: map<string, V>) | Ordered(items: seq<V>, props: map<string, V>)
  {
    function Props(): map<string, V> {
      match this
      case Keyed(m) => m
      case Ordered(_, p) => p
    }

    function WithProp(key: string, value: V): Bucket<V> {
      match this
      case Keyed(m) => Keyed(m[key := value])
      case Ordered(items, p) => Ordered(items, p[key := value])
    }
  }

  type Modules<V> = map<string, Bucket<V>>

  /** The second argument of `mergeModule`: `is.object` holds of the
      objects whose tag is `[object Object]` (class instances and
      prototype-less objects included), so `null`, numbers, strings,
      arrays and functions are all `NotObject`. */
  datatype MergeArg<V> = PlainObject(fields: map<string, V>) | NotObject

  /** `module[type][key]`, or None when the type or the key is absent. */
  function Lookup<V>(reg: Modules<V>, t: string, key: string): Option<V> {
    if t in reg && key in reg[t].Props() then Some(reg[t].Props()[key]) else None
  }

  /** `module[type]` as an ordered sequence, when it is one. */
  function Items<V>(reg: Modules<V>, t: string): Option<seq<V>> {
    if t in reg && reg[t].Ordered? then Some(reg[t].items) else None
  }

  /** `setModule(type, key, value)`: creates an empty object bucket when
      the type has none, then writes the one key. */
  function SetModule<V>(reg: Modules<V>, t: string, key: string, value: V): (r: Modules<V>)
    ensures r.Keys == reg.Keys + {t}
    ensures Lookup(r, t, key) == Some(value)
    ensures forall t', k :: (t' != t || k != key) ==> Lookup(r, t', k) == Lookup(reg, t', k)
    ensures forall t' :: t' != t && t' in reg ==> r[t'] == reg[t']
    ensures Items(r, t) == Items(reg, t)
  {
    var b := if t in reg then reg[t] else Keyed(map[]);
    reg[t := b.WithProp(key, value)]
  }

  /** `setArrayModule(type, arr)`: the whole bucket becomes `arr`, in the
      given order and with repetitions kept. */
  function SetArrayModule<V>(reg: Modules<V>, t: string, arr: seq<V>): (r: Modules<V>)
    ensures r.Keys == reg.Keys + {t}
    ensures Items(r, t) == Some(arr)
    ensures forall k :: Lookup(r, t, k).None?
    ensures forall t' :: t' != t && t' in reg ==> r[t'] == reg[t']
  {
    reg[t := Ordered(arr, map[])]
  }

  /** `mergeModule(type, obj)`: nothing happens unless `obj` is a plain
      object; otherwise the bucket is created if needed (even for an empty
      object) and every key of `obj` is set, one `setModule` at a time. */
  method MergeModule<V>(reg: Modules<V>, t: string, arg: MergeArg<V>) returns (r: Modules<V>)
    ensures arg.NotObject? ==> r == reg
    ensures arg.PlainObject? ==> r.Keys == reg.Keys + {t}
    ensures arg.PlainObject? ==> forall k :: k in arg.fields ==> Lookup(r, t, k) == Some(arg.fields[k])
    ensures arg.PlainObject? ==>
      forall t', k :: (t' != t || k !in arg.fields) ==> Lookup(r, t', k) == Lookup(reg, t', k)
    ensures forall t' :: t' != t && t' in reg ==> r[t'] == reg[t']
    ensures Items(r, t) == Items(reg, t)
  {
    if arg.NotObject? {
      return reg;
    }
    r := if t in reg then reg else reg[t := Keyed(map[])];
    var fields := arg.fields;
    var pending := fields.Keys;
    while pending != {}
      invariant pending <= fields.Keys
      invariant r.Keys == reg.Keys + {t}
      invariant forall k :: k in fields && k !in pending ==> Lookup(r, t, k) == Some(fields[k])
      invariant forall t', k :: (t' != t || k !in fields || k in pending) ==> Lookup(r, t', k) == Lookup(reg, t', k)
      invariant forall t' :: t' != t && t' in reg ==> r[t'] == reg[t']
      invariant Items(r, t) == Items(reg, t)
      decreases pending
    {
      var k :| k in pending;
      r := SetModule(r, t, k, fields[k]);
      pending := pending - {k};
    }
  }

  /** Writes to different (type, key) places commute. */
  lemma SetModuleCommutes<V>(reg: Modules<V>, t1: string, k1: string, v1: V, t2: string, k2: string, v2: V)
    requires t1 != t2 || k1 != k2
    ensures SetModule(SetModule(reg, t1, k1, v1), t2, k2, v2) == SetModule(SetModule(reg, t2, k2, v2), t1, k1, v1)
  {
    var a := SetModule(SetModule(reg, t1, k1, v1), t2, k2, v2);
    var b := SetModule(SetModule(reg, t2, k2, v2), t1, k1, v1);
    assert a.Keys == b.Keys;
    forall t | t in a ensures a[t] == b[t] {
      if t == t1 || t == t2 {
        assert a[t].Props() == b[t].Props() by {
          forall k | k in a[t].Props() || k in b[t].Props()
            ensures k in a[t].Props() && k in b[t].Props() && a[t].Props()[k] == b[t].Props()[k]
          {
            assert Lookup(a, t, k) == Lookup(b, t, k);
          }
        }
        assert a[t].Ordered? == b[t].Ordered?;
      }
    }
  }

  /** A later write to the same place wins. */
  lemma SetModuleOverwrites<V>(reg: Modules<V>, t: string, k: string, v1: V, v2: V)
    ensures SetModule(SetModule(reg, t, k, v1), t, k, v2) == SetModule(reg, t, k, v2)
  {
    var b := if t in reg then reg[t] else Keyed(map[]);
    match b
    case Keyed(m) =>
      assert m[k := v1][k := v2] == m[k := v2];
    case Ordered(items, p) =>
      assert p[k := v1][k := v2] == p[k := v2];
  }

  /** Replacing a bucket by an array forgets every key written into it
      before. */
  lemma SetArrayModuleReplaces<V>(reg: Modules<V>, t: string, k: string, v: V, arr: seq<V>)
    ensures SetArrayModule(SetModule(reg, t, k, v), t, arr) == SetArrayModule(reg, t, arr)
  {
  }
}
