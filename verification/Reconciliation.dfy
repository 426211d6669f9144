/** Reconciling two JSON documents: a projection that drops implementation-owned identities, and the list
    of changes among those identities. */
module Reconciliation {
  import opened Wrappers

  /** JSON values up to Python's equality, which takes true and false for the numbers 1 and 0. */
  datatype Json =
    | Null
    | Number(value: real)
    | Text(text: string)
    | Array(items: seq<Json>)
    | Object(fields: map<string, Json>)

  const MUTABLE_IDENTITY_KEYS: set<string> := {
    "audit_sha256", "capability_resolution_sha256", "case_submission_registry_sha256", "certificate_sha256",
    "evidence_sha256", "execution_profile_sha256", "feasibility_certificate_sha256",
    "independent_sample_sha256_by_role", "observation_sha256", "plan_sha256", "planning_submission_sha256",
    "samples_sha256_by_role", "trajectory_set_sha256", "trajectory_sha256_by_role" }

  predicate Mutable(key: string) { key in MUTABLE_IDENTITY_KEYS }

  function SemanticProjection(v: Json): Json {
    match v
    case Object(fields) => Object(map k | k in fields && !Mutable(k) :: SemanticProjection(fields[k]))
    case Array(items) => Array(seq(|items|, i requires 0 <= i < |items| => SemanticProjection(items[i])))
    case _ => v
  }

  // ----- the list of changes -----

  datatype Step = Key(key: string) | Index(index: nat)

  datatype Change = Change(path: seq<Step>, before: Json, after: Json)

  /** How a set of keys is put in order. */
  type KeyOrder = set<string> -> seq<string>

  ghost predicate Lists(order: KeyOrder, keys: set<string>) {
    forall k :: k in order(keys) <==> k in keys
  }

  ghost predicate IsKeyOrder(order: KeyOrder) {
    forall keys :: Lists(order, keys)
  }

  /** A missing key reads as null. */
  function Get(fields: map<string, Json>, key: string): Json {
    if key in fields then fields[key] else Null
  }

  function Changes(order: KeyOrder, expected: Json, actual: Json, path: seq<Step>): seq<Change>
    decreases expected, 1, 0
  {
    if expected.Object? && actual.Object? then
      KeyChanges(order, expected, actual, path, order(expected.fields.Keys + actual.fields.Keys))
    else if expected.Array? && actual.Array? then
      ItemChanges(order, expected, actual, path, if |expected.items| < |actual.items| then |expected.items| else |actual.items|)
    else []
  }

  function KeyChanges(order: KeyOrder, expected: Json, actual: Json, path: seq<Step>, keys: seq<string>): seq<Change>
    requires expected.Object? && actual.Object?
    decreases expected, 0, |keys|
  {
    if keys == [] then []
    else
      var n := |keys| - 1;
      var key := keys[n];
      KeyChanges(order, expected, actual, path, keys[..n]) + KeyChange(order, expected, actual, path, key)
  }

  function KeyChange(order: KeyOrder, expected: Json, actual: Json, path: seq<Step>, key: string): seq<Change>
    requires expected.Object? && actual.Object?
    decreases expected, 0, 0
  {
    if Mutable(key) then
      var before, after := Get(expected.fields, key), Get(actual.fields, key);
      if before != after then [Change(path + [Key(key)], before, after)] else []
    else if key in expected.fields && key in actual.fields then
      Changes(order, expected.fields[key], actual.fields[key], path + [Key(key)])
    else []
  }

  function ItemChanges(order: KeyOrder, expected: Json, actual: Json, path: seq<Step>, n: nat): seq<Change>
    requires expected.Array? && actual.Array? && n <= |expected.items| && n <= |actual.items|
    decreases expected, 0, n
  {
    if n == 0 then []
    else ItemChanges(order, expected, actual, path, n - 1)
         + Changes(order, expected.items[n - 1], actual.items[n - 1], path + [Index(n - 1)])
  }

  /** Recurses through both documents and appends what changed. */
  method MutableIdentityChanges(order: KeyOrder, expected: Json, actual: Json, path: seq<Step>) returns (changes: seq<Change>)
    ensures changes == Changes(order, expected, actual, path)
    decreases expected
  {
    changes := [];
    if expected.Object? && actual.Object? {
      var keys := order(expected.fields.Keys + actual.fields.Keys);
      for k := 0 to |keys|
        invariant changes == KeyChanges(order, expected, actual, path, keys[..k])
      {
        var key := keys[k];
        var nested := path + [Key(key)];
        assert keys[..k + 1][..k] == keys[..k];
        if Mutable(key) {
          var before, after := Get(expected.fields, key), Get(actual.fields, key);
          if before != after {
            changes := changes + [Change(nested, before, after)];
          }
        } else if key in expected.fields && key in actual.fields {
          var inner := MutableIdentityChanges(order, expected.fields[key], actual.fields[key], nested);
          changes := changes + inner;
        }
      }
      assert keys[..|keys|] == keys;
      return;
    }
    if expected.Array? && actual.Array? {
      var n := if |expected.items| < |actual.items| then |expected.items| else |actual.items|;
      for k := 0 to n
        invariant changes == ItemChanges(order, expected, actual, path, k)
      {
        var inner := MutableIdentityChanges(order, expected.items[k], actual.items[k], path + [Index(k)]);
        changes := changes + inner;
      }
    }
  }

  // ----- which changes are listed -----

  /** The part of a document a path leads to. */
  ghost function At(v: Json, path: seq<Step>): Option<Json>
    decreases |path|
  {
    if path == [] then Some(v)
    else match path[0]
      case Key(k) => if v.Object? && k in v.fields then At(v.fields[k], path[1..]) else None
      case Index(i) => if v.Array? && i < |v.items| then At(v.items[i], path[1..]) else None
  }

  ghost predicate NoMutableStep(path: seq<Step>) {
    forall i :: 0 <= i < |path| ==> !(path[i].Key? && Mutable(path[i].key))
  }

  /** Under `at`, which no mutable key is part of, both documents have an object, and they read differently at mutable key k. */
  ghost predicate DiffersAt(expected: Json, actual: Json, at: seq<Step>, k: string, before: Json, after: Json) {
    var e, a := At(expected, at), At(actual, at);
    && NoMutableStep(at) && Mutable(k) && e.Some? && a.Some? && e.value.Object? && a.value.Object?
    && before == Get(e.value.fields, k) && after == Get(a.value.fields, k) && before != after
  }

  ghost predicate IsChangeOf(expected: Json, actual: Json, path: seq<Step>, c: Change) {
    exists at, k :: c.path == path + at + [Key(k)] && DiffersAt(expected, actual, at, k, c.before, c.after)
  }

  lemma {:induction false} ListedByKey(order: KeyOrder, expected: Json, actual: Json, path: seq<Step>, keys: seq<string>, c: Change)
    requires expected.Object? && actual.Object?
    ensures c in KeyChanges(order, expected, actual, path, keys)
       <==> exists i :: 0 <= i < |keys| && c in KeyChange(order, expected, actual, path, keys[i])
  {
    if keys != [] {
      var n := |keys| - 1;
      ListedByKey(order, expected, actual, path, keys[..n], c);
      assert forall i :: 0 <= i < n ==> keys[..n][i] == keys[i];
      hide KeyChange;
    }
  }

  ghost predicate ItemLists(order: KeyOrder, expected: Json, actual: Json, path: seq<Step>, i: nat, c: Change)
    requires expected.Array? && actual.Array? && i < |expected.items| && i < |actual.items|
  {
    c in Changes(order, expected.items[i], actual.items[i], path + [Index(i)])
  }

  lemma {:induction false} ListedByItem(order: KeyOrder, expected: Json, actual: Json, path: seq<Step>, n: nat, c: Change)
    requires expected.Array? && actual.Array? && n <= |expected.items| && n <= |actual.items|
    ensures c in ItemChanges(order, expected, actual, path, n)
       <==> exists i: nat :: i < n && ItemLists(order, expected, actual, path, i, c)
  {
    if n != 0 {
      ListedByItem(order, expected, actual, path, n - 1, c);
      assert c in ItemChanges(order, expected, actual, path, n)
        <==> c in ItemChanges(order, expected, actual, path, n - 1) || ItemLists(order, expected, actual, path, n - 1, c);
      hide ItemLists, ItemChanges;
    }
  }

  lemma StepInto(v: Json, step: Step, at: seq<Step>)
    ensures At(v, [step] + at) ==
      match step
      case Key(k) => if v.Object? && k in v.fields then At(v.fields[k], at) else None
      case Index(i) => if v.Array? && i < |v.items| then At(v.items[i], at) else None
  {
    assert ([step] + at)[1..] == at;
  }

  /** A change below one step is a change of the whole. */
  lemma DeeperChange(expected: Json, actual: Json, path: seq<Step>, step: Step, e: Json, a: Json, c: Change)
    requires At(expected, [step]) == Some(e) && At(actual, [step]) == Some(a) && !(step.Key? && Mutable(step.key))
    requires IsChangeOf(e, a, path + [step], c)
    ensures IsChangeOf(expected, actual, path, c)
  {
    var at, k :| c.path == path + [step] + at + [Key(k)] && DiffersAt(e, a, at, k, c.before, c.after);
    StepInto(expected, step, at);
    StepInto(actual, step, at);
    StepInto(expected, step, []);
    StepInto(actual, step, []);
    assert path + [step] + at + [Key(k)] == path + ([step] + at) + [Key(k)];
    hide At, Get;
    assert DiffersAt(expected, actual, [step] + at, k, c.before, c.after);
  }

  /** Everything listed is a change of a mutable identity outside all mutable identities. */
  lemma {:induction false} ListedIsChange(order: KeyOrder, expected: Json, actual: Json, path: seq<Step>, c: Change)
    requires c in Changes(order, expected, actual, path)
    ensures IsChangeOf(expected, actual, path, c)
    decreases expected
  {
    if expected.Object? && actual.Object? {
      var e, a := expected.fields, actual.fields;
      var keys := order(e.Keys + a.Keys);
      ListedByKey(order, expected, actual, path, keys, c);
      var i :| 0 <= i < |keys| && c in KeyChange(order, expected, actual, path, keys[i]);
      var key := keys[i];
      if Mutable(key) {
        assert path + [] + [Key(key)] == path + [Key(key)];
        assert DiffersAt(expected, actual, [], key, c.before, c.after);
      } else {
        ListedIsChange(order, e[key], a[key], path + [Key(key)], c);
        StepInto(expected, Key(key), []);
        StepInto(actual, Key(key), []);
        DeeperChange(expected, actual, path, Key(key), e[key], a[key], c);
      }
    } else if expected.Array? && actual.Array? {
      var n := if |expected.items| < |actual.items| then |expected.items| else |actual.items|;
      ListedByItem(order, expected, actual, path, n, c);
      var i: nat :| i < n && ItemLists(order, expected, actual, path, i, c);
      ListedIsChange(order, expected.items[i], actual.items[i], path + [Index(i)], c);
      StepInto(expected, Index(i), []);
      StepInto(actual, Index(i), []);
      DeeperChange(expected, actual, path, Index(i), expected.items[i], actual.items[i], c);
    }
  }

  /** Every such change is listed, whatever the order of the keys. */
  lemma {:induction false} ChangeIsListed(
    order: KeyOrder, expected: Json, actual: Json, path: seq<Step>, at: seq<Step>, k: string, c: Change)
    requires IsKeyOrder(order) && c.path == path + at + [Key(k)] && DiffersAt(expected, actual, at, k, c.before, c.after)
    ensures c in Changes(order, expected, actual, path)
    decreases |at|
  {
    if at == [] {
      var keys := order(expected.fields.Keys + actual.fields.Keys);
      assert Lists(order, expected.fields.Keys + actual.fields.Keys);
      assert k in expected.fields.Keys + actual.fields.Keys && k in keys;
      var i :| 0 <= i < |keys| && keys[i] == k;
      assert c.path == path + [Key(k)];
      assert c == Change(path + [Key(k)], c.before, c.after);
      assert c in KeyChange(order, expected, actual, path, keys[i]);
      ListedByKey(order, expected, actual, path, keys, c);
    } else {
      var step, rest := at[0], at[1..];
      assert at == [step] + rest;
      assert c.path == path + [step] + rest + [Key(k)];
      assert NoMutableStep(rest) by {
        assert forall i :: 0 <= i < |rest| ==> rest[i] == at[i + 1];
      }
      match step
      case Key(key) =>
        var keys := order(expected.fields.Keys + actual.fields.Keys);
        assert Lists(order, expected.fields.Keys + actual.fields.Keys);
        assert key in expected.fields.Keys + actual.fields.Keys && key in keys && !Mutable(key);
        var i :| 0 <= i < |keys| && keys[i] == key;
        ChangeIsListed(order, expected.fields[key], actual.fields[key], path + [step], rest, k, c);
        assert c in KeyChange(order, expected, actual, path, keys[i]);
        ListedByKey(order, expected, actual, path, keys, c);
      case Index(i) =>
        ChangeIsListed(order, expected.items[i], actual.items[i], path + [step], rest, k, c);
        var n := if |expected.items| < |actual.items| then |expected.items| else |actual.items|;
        assert ItemLists(order, expected, actual, path, i, c);
        ListedByItem(order, expected, actual, path, n, c);
    }
  }

  /** Exactly what is listed: for every place outside the mutable identities where both documents have an object, and every
      mutable key they read differently there, one path, the old value and the new one. */
  lemma ChangesExactly(order: KeyOrder, expected: Json, actual: Json, path: seq<Step>, c: Change)
    requires IsKeyOrder(order)
    ensures c in Changes(order, expected, actual, path) <==> IsChangeOf(expected, actual, path, c)
  {
    if c in Changes(order, expected, actual, path) { ListedIsChange(order, expected, actual, path, c); }
    if IsChangeOf(expected, actual, path, c) {
      var at, k :| c.path == path + at + [Key(k)] && DiffersAt(expected, actual, at, k, c.before, c.after);
      ChangeIsListed(order, expected, actual, path, at, k, c);
    }
  }

  ghost predicate DistinctPaths(changes: seq<Change>) {
    forall i, j :: 0 <= i < j < |changes| ==> changes[i].path != changes[j].path
  }

  ghost predicate OncePerKey(order: KeyOrder) {
    forall keys :: Once(order(keys))
  }

  ghost predicate Once(keys: seq<string>) {
    forall i, j :: 0 <= i < j < |keys| ==> keys[i] != keys[j]
  }

  /** Every listed path goes on from `path` by this step. */
  ghost predicate GoesBy(changes: seq<Change>, path: seq<Step>, step: Step) {
    forall i :: 0 <= i < |changes| ==> |path| < |changes[i].path| && changes[i].path[|path|] == step
  }

  lemma NestedGoesBy(order: KeyOrder, expected: Json, actual: Json, path: seq<Step>, step: Step)
    ensures GoesBy(Changes(order, expected, actual, path + [step]), path, step)
  {
    var listed := Changes(order, expected, actual, path + [step]);
    forall i | 0 <= i < |listed| ensures |path| < |listed[i].path| && listed[i].path[|path|] == step {
      ListedIsChange(order, expected, actual, path + [step], listed[i]);
      var at, k :| listed[i].path == path + [step] + at + [Key(k)] && DiffersAt(expected, actual, at, k, listed[i].before, listed[i].after);
    }
  }

  lemma KeyGoesBy(order: KeyOrder, expected: Json, actual: Json, path: seq<Step>, key: string)
    requires expected.Object? && actual.Object?
    ensures GoesBy(KeyChange(order, expected, actual, path, key), path, Key(key))
  {
    if !Mutable(key) && key in expected.fields && key in actual.fields {
      NestedGoesBy(order, expected.fields[key], actual.fields[key], path, Key(key));
    }
  }

  lemma JoinedDistinct(first: seq<Change>, second: seq<Change>, path: seq<Step>, step: Step)
    requires DistinctPaths(first) && DistinctPaths(second) && GoesBy(second, path, step)
    requires forall i :: 0 <= i < |first| ==> |path| < |first[i].path| && first[i].path[|path|] != step
    ensures DistinctPaths(first + second)
  {
  }

  /** No place is listed twice. */
  lemma {:induction false} ListedOnce(order: KeyOrder, expected: Json, actual: Json, path: seq<Step>)
    requires OncePerKey(order)
    ensures DistinctPaths(Changes(order, expected, actual, path))
    decreases expected, 1, 0
  {
    if expected.Object? && actual.Object? {
      assert Once(order(expected.fields.Keys + actual.fields.Keys));
      KeysListedOnce(order, expected, actual, path, order(expected.fields.Keys + actual.fields.Keys));
    } else if expected.Array? && actual.Array? {
      ItemsListedOnce(order, expected, actual, path, if |expected.items| < |actual.items| then |expected.items| else |actual.items|);
    }
  }

  lemma {:induction false} KeysListedOnce(order: KeyOrder, expected: Json, actual: Json, path: seq<Step>, keys: seq<string>)
    requires OncePerKey(order) && expected.Object? && actual.Object? && Once(keys)
    ensures DistinctPaths(KeyChanges(order, expected, actual, path, keys))
    ensures forall c :: c in KeyChanges(order, expected, actual, path, keys) ==>
      |path| < |c.path| && c.path[|path|].Key? && c.path[|path|].key in keys
    decreases expected, 0, |keys|
  {
    if keys != [] {
      var n := |keys| - 1;
      var key := keys[n];
      var earlier, here := KeyChanges(order, expected, actual, path, keys[..n]), KeyChange(order, expected, actual, path, key);
      KeysListedOnce(order, expected, actual, path, keys[..n]);
      KeyGoesBy(order, expected, actual, path, key);
      if !Mutable(key) && key in expected.fields && key in actual.fields {
        ListedOnce(order, expected.fields[key], actual.fields[key], path + [Key(key)]);
      }
      assert DistinctPaths(here);
      forall i | 0 <= i < |earlier| ensures |path| < |earlier[i].path| && earlier[i].path[|path|] != Key(key) {
        assert earlier[i] in earlier && key !in keys[..n];
      }
      JoinedDistinct(earlier, here, path, Key(key));
    }
  }

  lemma {:induction false} ItemsListedOnce(order: KeyOrder, expected: Json, actual: Json, path: seq<Step>, n: nat)
    requires OncePerKey(order) && expected.Array? && actual.Array? && n <= |expected.items| && n <= |actual.items|
    ensures DistinctPaths(ItemChanges(order, expected, actual, path, n))
    ensures forall c :: c in ItemChanges(order, expected, actual, path, n) ==>
      |path| < |c.path| && c.path[|path|].Index? && c.path[|path|].index < n
    decreases expected, 0, n
  {
    if n != 0 {
      var earlier := ItemChanges(order, expected, actual, path, n - 1);
      var here := Changes(order, expected.items[n - 1], actual.items[n - 1], path + [Index(n - 1)]);
      ItemsListedOnce(order, expected, actual, path, n - 1);
      NestedGoesBy(order, expected.items[n - 1], actual.items[n - 1], path, Index(n - 1));
      ListedOnce(order, expected.items[n - 1], actual.items[n - 1], path + [Index(n - 1)]);
      forall i | 0 <= i < |earlier| ensures |path| < |earlier[i].path| && earlier[i].path[|path|] != Index(n - 1) {
        assert earlier[i] in earlier;
      }
      JoinedDistinct(earlier, here, path, Index(n - 1));
    }
  }

  // ----- what an empty list says -----

  ghost predicate KeyUnchanged(order: KeyOrder, expected: Json, actual: Json, path: seq<Step>, key: string)
    requires expected.Object? && actual.Object?
  {
    if Mutable(key) then Get(expected.fields, key) == Get(actual.fields, key)
    else key in expected.fields && key in actual.fields ==>
           Changes(order, expected.fields[key], actual.fields[key], path + [Key(key)]) == []
  }

  lemma {:induction false} NoKeyChanges(order: KeyOrder, expected: Json, actual: Json, path: seq<Step>, keys: seq<string>)
    requires expected.Object? && actual.Object?
    ensures KeyChanges(order, expected, actual, path, keys) == []
       <==> forall key :: key in keys ==> KeyUnchanged(order, expected, actual, path, key)
  {
    if keys != [] {
      var n := |keys| - 1;
      NoKeyChanges(order, expected, actual, path, keys[..n]);
      assert keys == keys[..n] + [keys[n]];
      assert KeyChange(order, expected, actual, path, keys[n]) == [] <==> KeyUnchanged(order, expected, actual, path, keys[n]);
      assert KeyChanges(order, expected, actual, path, keys) == []
        <==> KeyChanges(order, expected, actual, path, keys[..n]) == [] && KeyChange(order, expected, actual, path, keys[n]) == [];
    }
  }

  ghost predicate ItemUnchanged(order: KeyOrder, expected: Json, actual: Json, path: seq<Step>, i: nat)
    requires expected.Array? && actual.Array? && i < |expected.items| && i < |actual.items|
  {
    Changes(order, expected.items[i], actual.items[i], path + [Index(i)]) == []
  }

  lemma {:induction false} NoItemChanges(order: KeyOrder, expected: Json, actual: Json, path: seq<Step>, n: nat)
    requires expected.Array? && actual.Array? && n <= |expected.items| && n <= |actual.items|
    ensures ItemChanges(order, expected, actual, path, n) == []
       <==> forall i :: 0 <= i < n ==> ItemUnchanged(order, expected, actual, path, i)
  {
    if n != 0 {
      NoItemChanges(order, expected, actual, path, n - 1);
      assert ItemChanges(order, expected, actual, path, n) == []
        <==> ItemChanges(order, expected, actual, path, n - 1) == [] && ItemUnchanged(order, expected, actual, path, n - 1);
    }
  }

  /** The document without the mutable keys that hold null. */
  ghost function Canonical(v: Json): Json {
    match v
    case Object(fields) =>
      Object(map k | k in fields && !(Mutable(k) && fields[k] == Null) :: if Mutable(k) then fields[k] else Canonical(fields[k]))
    case Array(items) => Array(seq(|items|, i requires 0 <= i < |items| => Canonical(items[i])))
    case _ => v
  }

  lemma {:induction false} ProjectionIdempotent(v: Json)
    ensures SemanticProjection(SemanticProjection(v)) == SemanticProjection(v)
    decreases v
  {
    match v
    case Object(fields) =>
      var once := SemanticProjection(v);
      forall k | k in fields && !Mutable(k)
        ensures SemanticProjection(once.fields[k]) == once.fields[k]
      {
        ProjectionIdempotent(fields[k]);
      }
      assert SemanticProjection(once).fields == once.fields;
    case Array(items) =>
      var once := SemanticProjection(v);
      forall i | 0 <= i < |items|
        ensures SemanticProjection(once.items[i]) == once.items[i]
      {
        ProjectionIdempotent(items[i]);
      }
      assert SemanticProjection(once).items == once.items;
    case _ =>
  }

  /** Nothing mutable is left in a projection, at any depth. */
  ghost predicate HasNoMutableKey(v: Json) {
    match v
    case Object(fields) => forall k :: k in fields ==> !Mutable(k) && HasNoMutableKey(fields[k])
    case Array(items) => forall i :: 0 <= i < |items| ==> HasNoMutableKey(items[i])
    case _ => true
  }

  lemma {:induction false} ProjectionDropsAll(v: Json)
    ensures HasNoMutableKey(SemanticProjection(v))
    ensures HasNoMutableKey(v) ==> SemanticProjection(v) == v
    decreases v
  {
    match v
    case Object(fields) =>
      forall k | k in fields ensures HasNoMutableKey(SemanticProjection(fields[k]))
                             ensures HasNoMutableKey(fields[k]) ==> SemanticProjection(fields[k]) == fields[k]
      {
        ProjectionDropsAll(fields[k]);
      }
      if HasNoMutableKey(v) { assert SemanticProjection(v).fields == fields; }
    case Array(items) =>
      forall i | 0 <= i < |items| ensures HasNoMutableKey(SemanticProjection(items[i]))
                                  ensures HasNoMutableKey(items[i]) ==> SemanticProjection(items[i]) == items[i]
      {
        ProjectionDropsAll(items[i]);
      }
      if HasNoMutableKey(v) { assert SemanticProjection(v).items == items; }
    case _ =>
  }

  /** Equal projections and no listed change. */
  ghost predicate Reconciled(order: KeyOrder, expected: Json, actual: Json, path: seq<Step>) {
    SemanticProjection(expected) == SemanticProjection(actual) && Changes(order, expected, actual, path) == []
  }

  /** One key of two objects: both read the same if it is mutable, both have it and reconcile if not. */
  ghost predicate KeyReconciled(order: KeyOrder, expected: map<string, Json>, actual: map<string, Json>, path: seq<Step>,
                                key: string)
  {
    if Mutable(key) then Get(expected, key) == Get(actual, key)
    else (key in expected <==> key in actual)
         && (key in expected && key in actual ==> Reconciled(order, expected[key], actual[key], path + [Key(key)]))
  }

  lemma ObjectsReconciled(order: KeyOrder, expected: Json, actual: Json, path: seq<Step>)
    requires IsKeyOrder(order) && expected.Object? && actual.Object?
    ensures Reconciled(order, expected, actual, path)
       <==> forall key :: key in expected.fields.Keys + actual.fields.Keys ==>
              KeyReconciled(order, expected.fields, actual.fields, path, key)
  {
    var e, a := expected.fields, actual.fields;
    var keys := order(e.Keys + a.Keys);
    assert Lists(order, e.Keys + a.Keys);
    NoKeyChanges(order, expected, actual, path, keys);
    if Reconciled(order, expected, actual, path) {
      forall key | key in e.Keys + a.Keys ensures KeyReconciled(order, e, a, path, key) {
        assert KeyUnchanged(order, expected, actual, path, key);
        assert !Mutable(key) ==> (key in SemanticProjection(expected).fields <==> key in e);
        assert !Mutable(key) ==> (key in SemanticProjection(actual).fields <==> key in a);
      }
    }
    if forall key :: key in e.Keys + a.Keys ==> KeyReconciled(order, e, a, path, key) {
      forall key | key in keys ensures KeyUnchanged(order, expected, actual, path, key) {
        assert KeyReconciled(order, e, a, path, key);
      }
      var p, q := SemanticProjection(expected).fields, SemanticProjection(actual).fields;
      forall key | key in e.Keys + a.Keys && !Mutable(key) ensures key in p && key in q && p[key] == q[key] {
        assert KeyReconciled(order, e, a, path, key);
      }
      assert p == q;
    }
  }

  lemma ArraysReconciled(order: KeyOrder, expected: Json, actual: Json, path: seq<Step>)
    requires expected.Array? && actual.Array?
    ensures Reconciled(order, expected, actual, path)
       <==> |expected.items| == |actual.items|
            && forall i :: 0 <= i < |expected.items| ==> Reconciled(order, expected.items[i], actual.items[i], path + [Index(i)])
  {
    var e, a := expected.items, actual.items;
    var p, q := SemanticProjection(expected).items, SemanticProjection(actual).items;
    NoItemChanges(order, expected, actual, path, if |e| < |a| then |e| else |a|);
    if Reconciled(order, expected, actual, path) {
      assert |e| == |p| == |q| == |a|;
      forall i | 0 <= i < |e| ensures Reconciled(order, e[i], a[i], path + [Index(i)]) {
        assert p[i] == q[i] && ItemUnchanged(order, expected, actual, path, i);
      }
    }
    if |e| == |a| && forall i :: 0 <= i < |e| ==> Reconciled(order, e[i], a[i], path + [Index(i)]) {
      forall i | 0 <= i < |e|
        ensures p[i] == q[i]
        ensures ItemUnchanged(order, expected, actual, path, i)
      {
        assert Reconciled(order, e[i], a[i], path + [Index(i)]);
      }
      assert p == q;
    }
  }

  /** The whole verdict: projections agree and nothing is listed exactly when the two documents are equal up
      to mutable keys that are null on one side and absent on the other. */
  lemma {:induction false} ReconciledIff(order: KeyOrder, expected: Json, actual: Json, path: seq<Step>)
    requires IsKeyOrder(order)
    ensures Reconciled(order, expected, actual, path) <==> Canonical(expected) == Canonical(actual)
    decreases expected
  {
    if expected.Object? && actual.Object? {
      var e, a := expected.fields, actual.fields;
      ObjectsReconciled(order, expected, actual, path);
      forall key | key in e && key in a && !Mutable(key)
        ensures Reconciled(order, e[key], a[key], path + [Key(key)]) <==> Canonical(e[key]) == Canonical(a[key])
      {
        ReconciledIff(order, e[key], a[key], path + [Key(key)]);
      }
      CanonicalObjects(order, expected, actual, path);
    } else if expected.Array? && actual.Array? {
      var e, a := expected.items, actual.items;
      ArraysReconciled(order, expected, actual, path);
      forall i | 0 <= i < |e| && i < |a|
        ensures Reconciled(order, e[i], a[i], path + [Index(i)]) <==> Canonical(e[i]) == Canonical(a[i])
      {
        ReconciledIff(order, e[i], a[i], path + [Index(i)]);
      }
      CanonicalArrays(expected, actual);
    }
  }

  lemma CanonicalArrays(expected: Json, actual: Json)
    requires expected.Array? && actual.Array?
    ensures Canonical(expected) == Canonical(actual)
       <==> |expected.items| == |actual.items|
            && forall i :: 0 <= i < |expected.items| ==> Canonical(expected.items[i]) == Canonical(actual.items[i])
  {
    var e, a := expected.items, actual.items;
    var p, q := Canonical(expected).items, Canonical(actual).items;
    assert |p| == |e| && forall i :: 0 <= i < |e| ==> p[i] == Canonical(e[i]);
    assert |q| == |a| && forall i :: 0 <= i < |a| ==> q[i] == Canonical(a[i]);
    hide Canonical;
    if |e| == |a| && forall i :: 0 <= i < |e| ==> Canonical(e[i]) == Canonical(a[i]) {
      assert p == q;
    }
  }

  lemma CanonicalObjects(order: KeyOrder, expected: Json, actual: Json, path: seq<Step>)
    requires expected.Object? && actual.Object?
    requires forall key :: key in expected.fields && key in actual.fields && !Mutable(key) ==>
      (Reconciled(order, expected.fields[key], actual.fields[key], path + [Key(key)])
       <==> Canonical(expected.fields[key]) == Canonical(actual.fields[key]))
    ensures Canonical(expected) == Canonical(actual)
       <==> forall key :: key in expected.fields.Keys + actual.fields.Keys ==>
              KeyReconciled(order, expected.fields, actual.fields, path, key)
  {
    var e, a := expected.fields, actual.fields;
    var p, q := Canonical(expected).fields, Canonical(actual).fields;
    if p == q {
      forall key | key in e.Keys + a.Keys ensures KeyReconciled(order, e, a, path, key) {
        assert key in p <==> key in q;
      }
    }
    if forall key :: key in e.Keys + a.Keys ==> KeyReconciled(order, e, a, path, key) {
      forall key | key in e.Keys + a.Keys
        ensures key in p <==> key in q
        ensures key in p && key in q ==> p[key] == q[key]
      {
        assert KeyReconciled(order, e, a, path, key);
      }
      assert p == q;
    }
  }

  /** Two documents the reconciliation passes although they differ. */
  lemma NullPassesForAbsent(order: KeyOrder)
    requires IsKeyOrder(order)
    ensures Object(map["plan_sha256" := Null]) != Object(map[])
    ensures Reconciled(order, Object(map["plan_sha256" := Null]), Object(map[]), [])
  {
    var present, absent := Object(map["plan_sha256" := Null]), Object(map[]);
    assert "plan_sha256" in present.fields;
    assert Canonical(present).fields == map[] == Canonical(absent).fields;
    ReconciledIff(order, present, absent, []);
  }
}
