/** Round trips between a value and its frozen snapshot
    (backend/src/long_invest/platform/json_snapshot.py). */
module JsonLaws {
  import opened Wrappers
  import opened KeyOrder
  import opened JsonTree

  // ----- reading the recursive freeze field by field -----

  lemma {:induction false} FieldsOk(t: Tree, order: seq<string>)
    requires t.Dict? && forall k :: k in order ==> HasText(t.entries, k)
    ensures FreezeFields(t, order).Ok? <==>
            forall i | 0 <= i < |order| :: FreezeTree(t.entries[Pos(t.entries, order[i])].1).Ok?
    ensures FreezeFields(t, order).Ok? ==>
              var fs := FreezeFields(t, order).value;
              && |fs| == |order|
              && forall i | 0 <= i < |order| ::
                   && fs[i].0 == Key(order[i], true)
                   && FreezeTree(t.entries[Pos(t.entries, order[i])].1) == Ok(fs[i].1)
  {
    if |order| > 0 {
      FieldsOk(t, order[1..]);
      assert forall i | 0 < i < |order| :: order[i] == order[1..][i - 1];
      if forall i | 0 <= i < |order| :: FreezeTree(t.entries[Pos(t.entries, order[i])].1).Ok? {
        assert forall i | 0 <= i < |order[1..]| :: order[1..][i] == order[i + 1];
      }
    }
  }

  lemma {:induction false} ItemsOk(t: Tree, from: nat)
    requires t.Items? && from <= |t.items|
    ensures FreezeItems(t, from).Ok? <==> forall i | from <= i < |t.items| :: FreezeTree(t.items[i]).Ok?
    ensures FreezeItems(t, from).Ok? ==>
              var fs := FreezeItems(t, from).value;
              && |fs| == |t.items| - from
              && forall i | 0 <= i < |fs| :: FreezeTree(t.items[from + i]) == Ok(fs[i])
    decreases |t.items| - from
  {
    if from < |t.items| { ItemsOk(t, from + 1); }
  }

  // ----- scalars -----

  /** Which scalars freeze, into what, and why the others do not. */
  lemma ScalarFreezes(a: Atom)
    ensures FreezeAtom(a).Ok? <==> AcceptedScalar(a)
    ensures FreezeAtom(a).Ok? ==> FreezeAtom(a).value == if a.DecimalAtom? then StrAtom(a.text) else a
    ensures FreezeAtom(a) == Err(NotFinite) <==> (a.FloatAtom? || a.DecimalAtom?) && !a.finite
    ensures FreezeAtom(a) == Err(Unsupported) <==> a.OtherAtom?
  {
  }

  // ----- the frozen form is canonical -----

  lemma FieldsAreOrdered(es: seq<(Key, Tree)>, fs: seq<(Key, Tree)>)
    requires AllStrings(es) && DistinctKeys(es)
    requires |fs| == |Order(es)| && forall i | 0 <= i < |fs| :: fs[i].0 == Key(Order(es)[i], true)
    ensures AllStrings(fs) && DistinctKeys(fs) && Sorted(Texts(fs))
  {
    DistinctTexts(es);
    SortMembers(Texts(es));
    DistinctMultiset(Texts(es), Order(es));
    assert Texts(fs) == Order(es);
  }

  /** The frozen form of a dictionary lists its keys in order. */
  lemma FrozenDictFields(t: Tree)
    requires t.Dict? && FreezeTree(t).Ok?
    ensures AllStrings(t.entries) && FreezeFields(t, Order(t.entries)).Ok?
    ensures var fs := FreezeFields(t, Order(t.entries)).value;
            FreezeTree(t) == Ok(Dict(true, fs)) && Texts(fs) == Order(t.entries)
  {
    FieldsOk(t, Order(t.entries));
    var fs := FreezeFields(t, Order(t.entries)).value;
    assert Texts(fs) == Order(t.entries);
  }

  lemma FrozenField(t: Tree, i: nat)
    requires t.Dict? && FreezeTree(t).Ok? && i < |Order(t.entries)|
    ensures var fs, k := FreezeTree(t).value.entries, Order(t.entries)[i];
            |fs| == |Order(t.entries)| && fs[i].0 == Key(k, true) && FreezeTree(t.entries[Pos(t.entries, k)].1) == Ok(fs[i].1)
  {
    FieldsOk(t, Order(t.entries));
  }

  lemma FrozenItemCount(t: Tree)
    requires t.Items? && FreezeTree(t).Ok?
    ensures FreezeTree(t).value.Items? && FreezeTree(t).value.isTuple && |FreezeTree(t).value.items| == |t.items|
  {
    ItemsOk(t, 0);
  }

  lemma FrozenItem(t: Tree, i: nat)
    requires t.Items? && FreezeTree(t).Ok? && i < |t.items|
    ensures FreezeTree(t).value.Items? && |FreezeTree(t).value.items| == |t.items|
    ensures FreezeTree(t.items[i]) == Ok(FreezeTree(t).value.items[i])
  {
    ItemsOk(t, 0);
    assert FreezeTree(t.items[0 + i]) == Ok(FreezeTree(t).value.items[i]);
  }

  lemma FrozenDictShape(t: Tree)
    requires t.Dict? && DistinctKeys(t.entries) && FreezeTree(t).Ok?
    ensures var f := FreezeTree(t).value;
            f.Dict? && f.proxy && AllStrings(f.entries) && DistinctKeys(f.entries) && Sorted(Texts(f.entries))
    ensures |FreezeTree(t).value.entries| == |Order(t.entries)|
  {
    FrozenDictFields(t);
    var fs := FreezeTree(t).value.entries;
    forall i | 0 <= i < |fs| ensures fs[i].0 == Key(Order(t.entries)[i], true) { FrozenField(t, i); }
    FieldsAreOrdered(t.entries, fs);
  }

  /** What freeze returns is canonical. */
  lemma {:induction false} FreezeYieldsFrozen(t: Tree)
    requires WellKeyed(t) && FreezeTree(t).Ok?
    ensures IsFrozen(FreezeTree(t).value)
  {
    match t
    case Leaf(_) =>
    case Dict(_, es) =>
      FrozenDictShape(t);
      var fs := FreezeTree(t).value.entries;
      forall i | 0 <= i < |fs| ensures IsFrozen(fs[i].1) {
        FrozenField(t, i);
        FreezeYieldsFrozen(es[Pos(es, Order(es)[i])].1);
      }
    case Items(_, items) =>
      FrozenItemCount(t);
      forall i | 0 <= i < |items| ensures IsFrozen(FreezeTree(t).value.items[i]) {
        FrozenItem(t, i);
        FreezeYieldsFrozen(items[i]);
      }
  }

  /** Canonical values are fixed points of freeze. */
  lemma {:induction false} FrozenIsFixed(f: Tree)
    requires IsFrozen(f)
    ensures FreezeTree(f) == Ok(f)
  {
    match f
    case Leaf(_) =>
    case Dict(_, es) =>
      DistinctTexts(es);
      SortMembers(Texts(es));
      DistinctMultiset(Texts(es), Order(es));
      SortedUnique(Texts(es), Order(es));
      forall i | 0 <= i < |es| ensures Pos(es, Order(es)[i]) == i && FreezeTree(es[i].1) == Ok(es[i].1) {
        PosOf(es, i);
        FrozenIsFixed(es[i].1);
      }
      FieldsOk(f, Order(es));
      assert FreezeFields(f, Order(es)).value == es;
    case Items(_, items) =>
      forall i | 0 <= i < |items| ensures FreezeTree(items[i]) == Ok(items[i]) { FrozenIsFixed(items[i]); }
      ItemsOk(f, 0);
      assert FreezeItems(f, 0).value == items;
  }

  /** freeze(freeze(v)) = freeze(v). */
  lemma FreezeIdempotent(t: Tree)
    requires WellKeyed(t) && FreezeTree(t).Ok?
    ensures FreezeTree(FreezeTree(t).value) == FreezeTree(t)
  {
    FreezeYieldsFrozen(t);
    FrozenIsFixed(FreezeTree(t).value);
  }

  // ----- insertion order and container kind are invisible -----

  lemma SameEntries(t: Tree, u: Tree)
    requires t.Dict? && u.Dict? && Same(t, u) && DistinctKeys(t.entries) && DistinctKeys(u.entries)
    ensures AllStrings(t.entries) == AllStrings(u.entries)
    ensures AllStrings(t.entries) ==>
              && Order(t.entries) == Order(u.entries)
              && forall k | HasText(t.entries, k) ::
                   && HasText(u.entries, k)
                   && t.entries[Pos(t.entries, k)].0 == u.entries[Pos(u.entries, k)].0
  {
    var es, fs := t.entries, u.entries;
    KeysShared(es, fs);
    KeysShared(fs, es);
    if AllStrings(es) {
      DistinctTexts(es);
      DistinctTexts(fs);
      forall k ensures k in Texts(es) <==> k in Texts(fs) {
        if k in Texts(es) { TextShared(es, fs, k); }
        if k in Texts(fs) { TextShared(fs, es, k); }
      }
      SortForgetsOrder(Texts(es), Texts(fs));
    }
  }

  lemma KeysShared(es: seq<(Key, Tree)>, fs: seq<(Key, Tree)>)
    requires KeySet(es) == KeySet(fs)
    ensures AllStrings(fs) ==> AllStrings(es)
  {
    if AllStrings(fs) {
      forall i | 0 <= i < |es| ensures es[i].0.isString {
        assert es[i].0 in KeySet(es);
        var j :| 0 <= j < |fs| && fs[j].0 == es[i].0;
      }
    }
  }

  lemma TextShared(es: seq<(Key, Tree)>, fs: seq<(Key, Tree)>, k: string)
    requires KeySet(es) == KeySet(fs) && k in Texts(es)
    ensures k in Texts(fs)
  {
    var i :| 0 <= i < |es| && Texts(es)[i] == k;
    assert es[i].0 in KeySet(fs);
    var j :| 0 <= j < |fs| && es[i].0 == fs[j].0;
    assert Texts(fs)[j] == k;
  }

  /** Values that are the same up to insertion order and container kind freeze alike, errors included. */
  lemma {:induction false} FreezeForgetsOrder(t: Tree, u: Tree)
    requires Same(t, u) && WellKeyed(t) && WellKeyed(u)
    ensures FreezeTree(t) == FreezeTree(u)
    decreases t, 1, 0
  {
    match t
    case Leaf(_) =>
    case Dict(_, es) =>
      SameEntries(t, u);
      if AllStrings(es) { FieldsForgetOrder(t, u, Order(es)); }
    case Items(_, _) => ItemsForgetKind(t, u, 0);
  }

  lemma {:induction false} FieldsForgetOrder(t: Tree, u: Tree, order: seq<string>)
    requires t.Dict? && u.Dict? && Same(t, u) && WellKeyed(t) && WellKeyed(u) && AllStrings(t.entries)
    requires forall k :: k in order ==> HasText(t.entries, k) && HasText(u.entries, k)
    ensures FreezeFields(t, order) == FreezeFields(u, order)
    decreases t, 0, |order|
  {
    if |order| > 0 {
      SameEntries(t, u);
      FreezeForgetsOrder(t.entries[Pos(t.entries, order[0])].1, u.entries[Pos(u.entries, order[0])].1);
      FieldsForgetOrder(t, u, order[1..]);
    }
  }

  lemma {:induction false} ItemsForgetKind(t: Tree, u: Tree, from: nat)
    requires t.Items? && u.Items? && Same(t, u) && WellKeyed(t) && WellKeyed(u) && from <= |t.items|
    ensures FreezeItems(t, from) == FreezeItems(u, from)
    decreases t, 0, |t.items| - from
  {
    if from < |t.items| {
      FreezeForgetsOrder(t.items[from], u.items[from]);
      ItemsForgetKind(t, u, from + 1);
    }
  }

  /** Values with one frozen form are the same. */
  lemma {:induction false} FreezeKeepsContent(t: Tree, u: Tree)
    requires WellKeyed(t) && WellKeyed(u) && FreezeTree(t).Ok? && FreezeTree(t) == FreezeTree(u)
    ensures Same(t, u)
  {
    EqualKinds(t, u);
    match t
    case Leaf(_) => EqualScalars(t, u);
    case Dict(_, es) =>
      EqualFreezeFields(t, u);
      forall i, j | 0 <= i < |es| && 0 <= j < |u.entries| && es[i].0 == u.entries[j].0
        ensures Same(es[i].1, u.entries[j].1)
      {
        EqualFreezeChild(t, u, i, j);
        FreezeKeepsContent(es[i].1, u.entries[j].1);
      }
    case Items(_, items) =>
      EqualFreezeItems(t, u);
      forall i | 0 <= i < |items| ensures Same(items[i], u.items[i]) {
        FreezeKeepsContent(items[i], u.items[i]);
      }
  }

  lemma EqualScalars(t: Tree, u: Tree)
    requires t.Leaf? && FreezeTree(t).Ok? && FreezeTree(t) == FreezeTree(u)
    ensures u.Leaf? && SameScalar(t.atom, u.atom)
  {
  }

  lemma EqualKinds(t: Tree, u: Tree)
    requires FreezeTree(t).Ok? && FreezeTree(t) == FreezeTree(u)
    ensures (t.Dict? <==> u.Dict?) && (t.Items? <==> u.Items?)
  {
  }

  /** An accepted value is the same as its frozen form, at every depth: scalars are kept as they are, and a
      Decimal becomes its text. */
  lemma FrozenIsSame(t: Tree)
    requires WellKeyed(t) && FreezeTree(t).Ok?
    ensures Same(t, FreezeTree(t).value)
  {
    var f := FreezeTree(t).value;
    FreezeYieldsFrozen(t);
    FrozenIsWellKeyed(f);
    FrozenIsFixed(f);
    FreezeKeepsContent(t, f);
  }

  lemma EqualFreezeItems(t: Tree, u: Tree)
    requires t.Items? && u.Items? && FreezeTree(t).Ok? && FreezeTree(t) == FreezeTree(u)
    ensures |t.items| == |u.items|
    ensures forall i | 0 <= i < |t.items| :: FreezeTree(t.items[i]).Ok? && FreezeTree(t.items[i]) == FreezeTree(u.items[i])
  {
    FrozenItemCount(t);
    FrozenItemCount(u);
    forall i | 0 <= i < |t.items| ensures FreezeTree(t.items[i]).Ok? && FreezeTree(t.items[i]) == FreezeTree(u.items[i]) {
      FrozenItem(t, i);
      FrozenItem(u, i);
    }
  }

  lemma EqualFreezeFields(t: Tree, u: Tree)
    requires t.Dict? && u.Dict? && DistinctKeys(t.entries) && DistinctKeys(u.entries)
    requires FreezeTree(t).Ok? && FreezeTree(t) == FreezeTree(u)
    ensures |t.entries| == |u.entries| && KeySet(t.entries) == KeySet(u.entries)
    ensures Order(t.entries) == Order(u.entries)
    ensures FreezeFields(t, Order(t.entries)).Ok?
    ensures FreezeFields(t, Order(t.entries)) == FreezeFields(u, Order(u.entries))
  {
    FrozenDictFields(t);
    FrozenDictFields(u);
    SameOrderSameKeys(t.entries, u.entries);
  }

  lemma SameOrderSameKeys(es: seq<(Key, Tree)>, fs: seq<(Key, Tree)>)
    requires AllStrings(es) && AllStrings(fs) && Order(es) == Order(fs)
    ensures |es| == |fs| && KeySet(es) == KeySet(fs)
  {
    forall k: Key ensures k in KeySet(es) <==> k in KeySet(fs) {
      KeyByText(es, k);
      KeyByText(fs, k);
    }
  }

  lemma EqualFreezeChild(t: Tree, u: Tree, i: nat, j: nat)
    requires t.Dict? && u.Dict? && DistinctKeys(t.entries) && DistinctKeys(u.entries)
    requires FreezeTree(t).Ok? && FreezeTree(t) == FreezeTree(u)
    requires i < |t.entries| && j < |u.entries| && t.entries[i].0 == u.entries[j].0
    ensures FreezeTree(t.entries[i].1).Ok? && FreezeTree(t.entries[i].1) == FreezeTree(u.entries[j].1)
  {
    EqualFreezeFields(t, u);
    PosOf(t.entries, i);
    PosOf(u.entries, j);
    var order := Order(t.entries);
    var k :| 0 <= k < |order| && order[k] == t.entries[i].0.text;
    FieldsOk(t, order);
    FieldsOk(u, order);
  }

  lemma KeyByText(es: seq<(Key, Tree)>, k: Key)
    requires AllStrings(es)
    ensures k in KeySet(es) <==> k.isString && HasText(es, k.text)
  {
    if k in KeySet(es) {
      var i :| 0 <= i < |es| && es[i].0 == k;
      assert Texts(es)[i] == k.text;
    }
    if k.isString && HasText(es, k.text) {
      assert es[Pos(es, k.text)].0 == k;
    }
  }

  /** Two accepted values have the same snapshot exactly when they are the same up to insertion order,
      container kind and a finite Decimal against its text. */
  lemma SnapshotsEqualIffSame(t: Tree, u: Tree)
    requires WellKeyed(t) && WellKeyed(u) && FreezeTree(t).Ok?
    ensures FreezeTree(t) == FreezeTree(u) <==> Same(t, u)
  {
    if Same(t, u) { FreezeForgetsOrder(t, u); }
    if FreezeTree(t) == FreezeTree(u) { FreezeKeepsContent(t, u); }
  }

  // ----- thaw -----

  lemma {:induction false} ThawIsSame(t: Tree)
    requires WellKeyed(t)
    ensures Same(t, Thaw(t)) && WellKeyed(Thaw(t))
  {
    match t
    case Leaf(_) =>
    case Dict(_, es) =>
      forall i | 0 <= i < |es| ensures Same(es[i].1, Thaw(es[i].1)) && WellKeyed(Thaw(es[i].1)) {
        ThawIsSame(es[i].1);
      }
      var fs := Thaw(t).entries;
      assert forall k: Key :: k in KeySet(es) ==> k in KeySet(fs) by {
        forall k: Key | k in KeySet(es) ensures k in KeySet(fs) {
          var i :| 0 <= i < |es| && es[i].0 == k;
          assert fs[i].0 == k;
        }
      }
      assert KeySet(es) == KeySet(fs);
    case Items(isTuple, items) =>
      forall i | 0 <= i < |items| ensures Same(items[i], Thaw(items[i])) && WellKeyed(Thaw(items[i])) {
        ThawIsSame(items[i]);
      }
      if !isTuple { SameReflexive(t); }
  }

  lemma {:induction false} SameReflexive(t: Tree)
    requires WellKeyed(t)
    ensures Same(t, t)
  {
    match t
    case Leaf(_) =>
    case Dict(_, es) => forall i | 0 <= i < |es| ensures Same(es[i].1, es[i].1) { SameReflexive(es[i].1); }
    case Items(_, items) => forall i | 0 <= i < |items| ensures Same(items[i], items[i]) { SameReflexive(items[i]); }
  }

  /** Thawing first changes nothing for freeze, on accepted and rejected values alike. */
  lemma FreezeAfterThaw(t: Tree)
    requires WellKeyed(t)
    ensures FreezeTree(Thaw(t)) == FreezeTree(t)
  {
    ThawIsSame(t);
    FreezeForgetsOrder(t, Thaw(t));
  }

  /** freeze(thaw(f)) = f for every frozen f: a snapshot survives being handed out as plain data. */
  lemma FreezeThawRoundTrip(f: Tree)
    requires IsFrozen(f)
    ensures FreezeTree(Thaw(f)) == Ok(f)
  {
    FrozenIsWellKeyed(f);
    FreezeAfterThaw(f);
    FrozenIsFixed(f);
  }

  lemma {:induction false} FrozenIsWellKeyed(f: Tree)
    requires IsFrozen(f)
    ensures WellKeyed(f)
  {
    match f
    case Leaf(_) =>
    case Dict(_, es) => forall i | 0 <= i < |es| ensures WellKeyed(es[i].1) { FrozenIsWellKeyed(es[i].1); }
    case Items(_, items) => forall i | 0 <= i < |items| ensures WellKeyed(items[i]) { FrozenIsWellKeyed(items[i]); }
  }

  /** Thaw is idempotent on every value. */
  lemma {:induction false} ThawIdempotent(t: Tree)
    ensures Thaw(Thaw(t)) == Thaw(t)
  {
    match t
    case Leaf(_) =>
    case Dict(_, es) =>
      forall i | 0 <= i < |es| ensures Thaw(Thaw(es[i].1)) == Thaw(es[i].1) { ThawIdempotent(es[i].1); }
      assert Thaw(Thaw(t)).entries == Thaw(t).entries;
    case Items(_, items) =>
  }

  /** No tuple and no read-only proxy anywhere. */
  predicate IsPlain(t: Tree) {
    match t
    case Leaf(_) => true
    case Dict(proxy, es) => !proxy && forall i | 0 <= i < |es| :: IsPlain(es[i].1)
    case Items(isTuple, items) => !isTuple && forall i | 0 <= i < |items| :: IsPlain(items[i])
  }

  /** A thawed snapshot is plain mutable data at every depth. */
  lemma {:induction false} ThawedSnapshotIsPlain(f: Tree)
    requires IsFrozen(f)
    ensures IsPlain(Thaw(f))
  {
    match f
    case Leaf(_) =>
    case Dict(_, es) => forall i | 0 <= i < |es| ensures IsPlain(Thaw(es[i].1)) { ThawedSnapshotIsPlain(es[i].1); }
    case Items(_, items) => forall i | 0 <= i < |items| ensures IsPlain(Thaw(items[i])) { ThawedSnapshotIsPlain(items[i]); }
  }
}
