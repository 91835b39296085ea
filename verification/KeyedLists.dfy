/**
  Order-independent comparison of status lists (internal/controller/papermcserver_controller.go,
  conditionsEqual and pluginStatusSliceEqual): two lists of keyed values are compared through a map
  made from the first.
 */
module KeyedLists {
  import opened Wrappers
  import opened Text
  import opened Api

  datatype Item<V> = Item(key: string, value: V)

  ghost predicate UniqueKeys<V>(items: seq<Item<V>>) {
    forall i, j | 0 <= i < j < |items| :: items[i].key != items[j].key
  }

  /** The value that a map filled in list order ends up with. */
  function LastValue<V>(items: seq<Item<V>>, key: string): Option<V> {
    if items == [] then None
    else if items[|items| - 1].key == key then Some(items[|items| - 1].value)
    else LastValue(items[..|items| - 1], key)
  }

  /** What the comparison computes. */
  ghost predicate Compared<V>(a: seq<Item<V>>, b: seq<Item<V>>) {
    |a| == |b| && forall x | x in b :: LastValue(a, x.key) == Some(x.value)
  }

  lemma {:induction false} LastValueIsItem<V>(items: seq<Item<V>>, key: string)
    ensures match LastValue(items, key)
            case Some(v) => Item(key, v) in items
            case None => forall x | x in items :: x.key != key
    ensures UniqueKeys(items) ==> forall x | x in items && x.key == key :: LastValue(items, key) == Some(x.value)
  {
    if items != [] {
      LastValueIsItem(items[..|items| - 1], key);
      assert items == items[..|items| - 1] + [items[|items| - 1]];
    }
  }

  /** A list with unique keys whose items all occur in one of the same length is that list in another order. */
  lemma {:induction false} Pigeonhole<V>(a: seq<Item<V>>, b: seq<Item<V>>)
    requires UniqueKeys(b) && |a| == |b|
    requires forall x | x in b :: x in a
    ensures multiset(a) == multiset(b)
  {
    if b != [] {
      var n := |b| - 1;
      var x := b[n];
      assert x in b;
      var i :| 0 <= i < |a| && a[i] == x;
      var rest := a[..i] + a[i + 1..];
      assert a == a[..i] + [x] + a[i + 1..];
      assert b == b[..n] + [x];
      forall y | y in b[..n] ensures y in rest {
        assert y in b && y != x;
      }
      Pigeonhole(rest, b[..n]);
    }
  }

  lemma {:induction false} OccursOnce<V>(items: seq<Item<V>>, x: Item<V>)
    requires UniqueKeys(items) && x in items
    ensures multiset(items)[x] == 1
  {
    var n := |items| - 1;
    assert items == items[..n] + [items[n]];
    if x in items[..n] {
      OccursOnce(items[..n], x);
    }
  }

  lemma OccursTwice<V>(items: seq<Item<V>>, i: nat, j: nat)
    requires i < j < |items| && items[i] == items[j]
    ensures multiset(items)[items[i]] >= 2
  {
    assert items == items[..j] + items[j..];
    assert items[i] in items[..j] && items[j..][0] == items[j];
  }

  lemma PermutedKeysUnique<V>(a: seq<Item<V>>, b: seq<Item<V>>)
    requires UniqueKeys(b) && multiset(a) == multiset(b)
    ensures UniqueKeys(a) && |a| == |b|
  {
    assert |a| == |multiset(a)| == |multiset(b)| == |b|;
    forall i, j | 0 <= i < j < |a| ensures a[i].key != a[j].key {
      assert a[i] in multiset(b) && a[j] in multiset(b);
      OccursOnce(b, a[i]);
      if a[i] == a[j] {
        OccursTwice(a, i, j);
      }
    }
  }

  /** When the keys of the second list are unique, the comparison says exactly whether both hold the same items. */
  lemma ComparedMeansSameItems<V>(a: seq<Item<V>>, b: seq<Item<V>>)
    requires UniqueKeys(b)
    ensures Compared(a, b) <==> multiset(a) == multiset(b)
  {
    if Compared(a, b) {
      forall x | x in b ensures x in a {
        LastValueIsItem(a, x.key);
      }
      Pigeonhole(a, b);
    }
    if multiset(a) == multiset(b) {
      PermutedKeysUnique(a, b);
      forall x | x in b ensures LastValue(a, x.key) == Some(x.value) {
        assert x in multiset(a);
        LastValueIsItem(a, x.key);
      }
    }
  }

  /** A key that no item has. */
  lemma {:induction false} FreshKey<V>(items: seq<Item<V>>) returns (key: string)
    ensures forall x | x in items :: |x.key| < |key|
  {
    if items == [] {
      key := "x";
    } else {
      var shorter := FreshKey(items[1..]);
      key := shorter + items[0].key + "x";
      assert items == [items[0]] + items[1..];
    }
  }

  /** Where the second list repeats a key, some first list is judged wrongly. */
  lemma RepeatedKeyMisjudged<V>(b: seq<Item<V>>, i: nat, j: nat) returns (a: seq<Item<V>>)
    requires i < j < |b| && b[i].key == b[j].key
    ensures !(Compared(a, b) <==> multiset(a) == multiset(b))
  {
    if Compared(b, b) {
      var key := FreshKey(b);
      var stray := Item(key, b[i].value);
      a := b[i := stray];
      assert stray in multiset(a) && stray !in multiset(b) by {
        assert a[i] == stray;
        assert forall x | x in b :: x != stray;
      }
      forall x | x in b ensures LastValue(a, x.key) == LastValue(b, x.key) {
        LastValueAfterUpdate(b, i, j, stray, x.key);
      }
    } else {
      a := b;
    }
  }

  lemma {:induction false} LastValueAfterUpdate<V>(b: seq<Item<V>>, i: nat, j: nat, stray: Item<V>, key: string)
    requires i < j < |b| && b[i].key == b[j].key && key != stray.key
    ensures LastValue(b[i := stray], key) == LastValue(b, key)
    decreases |b|
  {
    var n := |b| - 1;
    if n > j {
      assert b[i := stray][..n] == b[..n][i := stray];
      LastValueAfterUpdate(b[..n], i, j, stray, key);
    } else if b[j].key != key {
      OtherKeysKept(b, i, stray, key);
    }
  }

  lemma {:induction false} OtherKeysKept<V>(b: seq<Item<V>>, i: nat, stray: Item<V>, key: string)
    requires i < |b| && b[i].key != key && stray.key != key
    ensures LastValue(b[i := stray], key) == LastValue(b, key)
    decreases |b|
  {
    var n := |b| - 1;
    if i < n {
      assert b[i := stray][..n] == b[..n][i := stray];
      OtherKeysKept(b[..n], i, stray, key);
    } else {
      assert b[i := stray][..n] == b[..n];
    }
  }

  /** The comparison with b is right for every first list exactly when the keys of b are unique. */
  lemma ComparisonIsRightIff<V>(b: seq<Item<V>>)
    ensures (forall a :: Compared(a, b) <==> multiset(a) == multiset(b)) <==> UniqueKeys(b)
  {
    if UniqueKeys(b) {
      forall a: seq<Item<V>> ensures Compared(a, b) <==> multiset(a) == multiset(b) {
        ComparedMeansSameItems(a, b);
      }
    } else {
      var i, j :| 0 <= i < j < |b| && b[i].key == b[j].key;
      var a := RepeatedKeyMisjudged(b, i, j);
    }
  }

  /** On lists with unique keys the comparison is an equivalence. */
  lemma ComparedIsEquivalence<V>(a: seq<Item<V>>, b: seq<Item<V>>, c: seq<Item<V>>)
    requires UniqueKeys(a) && UniqueKeys(b) && UniqueKeys(c)
    ensures Compared(a, a)
    ensures Compared(a, b) <==> Compared(b, a)
    ensures Compared(a, b) && Compared(b, c) ==> Compared(a, c)
  {
    ComparedMeansSameItems(a, a);
    ComparedMeansSameItems(a, b);
    ComparedMeansSameItems(b, a);
    ComparedMeansSameItems(b, c);
    ComparedMeansSameItems(a, c);
  }

  // ---------------------------------------------------------------- conditions

  datatype ConditionValue = ConditionValue(status: string, reason: string, message: string)

  /** What of a condition is compared: not its times. */
  function ConditionItems(cs: seq<Condition>): (items: seq<Item<ConditionValue>>)
    ensures |items| == |cs|
    ensures forall i | 0 <= i < |cs| :: items[i] == Item(cs[i].kind, ConditionValue(cs[i].status, cs[i].reason, cs[i].message))
  {
    seq(|cs|, i requires 0 <= i < |cs| => Item(cs[i].kind, ConditionValue(cs[i].status, cs[i].reason, cs[i].message)))
  }

  ghost predicate HoldsLast<V, T>(m: map<string, T>, items: seq<Item<V>>, value: T -> V) {
    forall key :: LastValue(items, key) == if key in m then Some(value(m[key])) else None
  }

  method ConditionsEqual(a: seq<Condition>, b: seq<Condition>) returns (equal: bool)
    ensures equal <==> Compared(ConditionItems(a), ConditionItems(b))
    ensures UniqueKeys(ConditionItems(b)) ==> (equal <==> multiset(ConditionItems(a)) == multiset(ConditionItems(b)))
  {
    ghost var as', bs := ConditionItems(a), ConditionItems(b);
    if UniqueKeys(bs) {
      ComparedMeansSameItems(as', bs);
    }
    if |a| != |b| {
      return false;
    }
    var conditions: map<string, Condition> := map[];
    for i := 0 to |a|
      invariant HoldsLast(conditions, as'[..i], (c: Condition) => ConditionValue(c.status, c.reason, c.message))
    {
      conditions := conditions[a[i].kind := a[i]];
      assert as'[..i + 1][..i] == as'[..i];
    }
    assert as'[..|a|] == as';
    for i := 0 to |b|
      invariant forall j | 0 <= j < i :: LastValue(as', bs[j].key) == Some(bs[j].value)
    {
      var c := b[i];
      assert bs[i] in bs;
      if c.kind !in conditions {
        return false;
      }
      var prev := conditions[c.kind];
      if prev.status != c.status || prev.reason != c.reason || prev.message != c.message {
        return false;
      }
    }
    return true;
  }

  // ---------------------------------------------------------------- plugin statuses

  datatype PluginValue = PluginValue(resolvedVersion: string, currentVersion: string, desiredVersion: string,
                                     compatible: bool, source: string, pendingDeletion: bool, installedJar: string)

  function RefKey(r: Key): string {
    r.namespace + "/" + r.name
  }

  function ValueOf(p: PluginStatus): PluginValue {
    PluginValue(p.resolvedVersion, p.currentVersion, p.desiredVersion, p.compatible, p.source, p.pendingDeletion, p.installedJar)
  }

  function PluginItems(ps: seq<PluginStatus>): (items: seq<Item<PluginValue>>)
    ensures |items| == |ps|
    ensures forall i | 0 <= i < |ps| :: items[i] == Item(RefKey(ps[i].ref), ValueOf(ps[i]))
  {
    seq(|ps|, i requires 0 <= i < |ps| => Item(RefKey(ps[i].ref), ValueOf(ps[i])))
  }

  ghost predicate SlashFree(ps: seq<PluginStatus>) {
    forall p | p in ps :: '/' !in p.ref.namespace
  }

  lemma UniqueRefsHaveUniqueKeys(ps: seq<PluginStatus>)
    requires UniqueRefs(ps) && SlashFree(ps)
    ensures UniqueKeys(PluginItems(ps))
  {
    forall i, j | 0 <= i < j < |ps| ensures RefKey(ps[i].ref) != RefKey(ps[j].ref) {
      assert ps[i] in ps && ps[j] in ps;
      SplitAtFirst('/', ps[i].ref.namespace, ps[i].ref.name, ps[j].ref.namespace, ps[j].ref.name);
    }
  }

  /** An item determines the plugin status that it stands for. */
  lemma ItemsDetermineStatuses(a: seq<PluginStatus>, b: seq<PluginStatus>)
    requires SlashFree(a) && SlashFree(b)
    ensures multiset(PluginItems(a)) == multiset(PluginItems(b)) ==> forall p :: p in a <==> p in b
  {
    if multiset(PluginItems(a)) == multiset(PluginItems(b)) {
      ItemsCover(a, b);
      ItemsCover(b, a);
    }
  }

  lemma ItemsCover(a: seq<PluginStatus>, b: seq<PluginStatus>)
    requires SlashFree(a) && SlashFree(b)
    requires multiset(PluginItems(a)) == multiset(PluginItems(b))
    ensures forall p | p in a :: p in b
  {
    forall p | p in a ensures p in b {
      var i :| 0 <= i < |a| && a[i] == p;
      var item := PluginItems(a)[i];
      assert item in multiset(PluginItems(b));
      var j :| 0 <= j < |b| && PluginItems(b)[j] == item;
      assert b[j] in b;
      SplitAtFirst('/', p.ref.namespace, p.ref.name, b[j].ref.namespace, b[j].ref.name);
    }
  }

  /** With unique references in slash-free namespaces: true exactly when both lists hold the same plugin statuses. */
  method PluginStatusSliceEqual(a: seq<PluginStatus>, b: seq<PluginStatus>) returns (equal: bool)
    ensures equal <==> Compared(PluginItems(a), PluginItems(b))
    ensures UniqueRefs(a) && UniqueRefs(b) && SlashFree(a) && SlashFree(b) ==> (equal <==> forall p :: p in a <==> p in b)
  {
    ghost var as', bs := PluginItems(a), PluginItems(b);
    if UniqueRefs(a) && UniqueRefs(b) && SlashFree(a) && SlashFree(b) {
      SameStatusesIff(a, b);
    }
    if |a| != |b| {
      return false;
    }
    var lookup: map<string, PluginStatus> := map[];
    for i := 0 to |a|
      invariant HoldsLast(lookup, as'[..i], ValueOf)
    {
      lookup := lookup[RefKey(a[i].ref) := a[i]];
      assert as'[..i + 1][..i] == as'[..i];
    }
    assert as'[..|a|] == as';
    for i := 0 to |b|
      invariant forall j | 0 <= j < i :: LastValue(as', bs[j].key) == Some(bs[j].value)
    {
      var p := b[i];
      assert bs[i] in bs;
      if RefKey(p.ref) !in lookup || ValueOf(lookup[RefKey(p.ref)]) != ValueOf(p) {
        return false;
      }
    }
    return true;
  }

  lemma SameStatusesIff(a: seq<PluginStatus>, b: seq<PluginStatus>)
    requires UniqueRefs(a) && UniqueRefs(b) && SlashFree(a) && SlashFree(b)
    ensures Compared(PluginItems(a), PluginItems(b)) <==> forall p :: p in a <==> p in b
  {
    UniqueRefsHaveUniqueKeys(a);
    UniqueRefsHaveUniqueKeys(b);
    ComparedMeansSameItems(PluginItems(a), PluginItems(b));
    ItemsDetermineStatuses(a, b);
    if forall p :: p in a <==> p in b {
      ItemsIncluded(a, b);
      ItemsIncluded(b, a);
      NoLongerThan(PluginItems(a), PluginItems(b));
      NoLongerThan(PluginItems(b), PluginItems(a));
      Pigeonhole(PluginItems(a), PluginItems(b));
    }
  }

  lemma ItemsIncluded(a: seq<PluginStatus>, b: seq<PluginStatus>)
    requires forall p | p in a :: p in b
    ensures forall x | x in PluginItems(a) :: x in PluginItems(b)
  {
    forall x | x in PluginItems(a) ensures x in PluginItems(b) {
      var i :| 0 <= i < |a| && PluginItems(a)[i] == x;
      assert a[i] in a;
      var j :| 0 <= j < |b| && b[j] == a[i];
      assert PluginItems(b)[j] == x;
    }
  }

  lemma {:induction false} NoLongerThan<V>(a: seq<Item<V>>, b: seq<Item<V>>)
    requires UniqueKeys(a) && forall x | x in a :: x in b
    ensures |a| <= |b|
  {
    if a != [] {
      var n := |a| - 1;
      var x := a[n];
      assert x in a;
      var i :| 0 <= i < |b| && b[i] == x;
      var rest := b[..i] + b[i + 1..];
      forall y | y in a[..n] ensures y in rest {
        assert y in a && y != x;
        assert b == b[..i] + [x] + b[i + 1..];
      }
      NoLongerThan(a[..n], rest);
    }
  }
}
