/** Freezing live Python objects, which may share containers and contain themselves
    (backend/src/long_invest/platform/json_snapshot.py). */
module JsonSnapshot {
  import opened Wrappers
  import opened KeyOrder
  import opened JsonTree
  import opened JsonLaws

  /** A value is a scalar or the identity (`id`) of a container. */
  datatype Value = Scalar(atom: Atom) | Ref(id: nat)

  datatype Container =
    | Mapping(proxy: bool, entries: seq<(Key, Value)>)
    | Sequence(isTuple: bool, items: seq<Value>)

  type Heap = map<nat, Container>

  predicate HeapKeyed(h: Heap) {
    forall a | a in h && h[a].Mapping? :: DistinctKeys(h[a].entries)
  }

  // ----- the recursive freeze -----

  /** `_freeze_json_value(value, active)`. */
  function Freeze(h: Heap, v: Value, active: set<nat>): Result<Tree, FreezeError>
    decreases h.Keys - active, 0
  {
    match v
    case Scalar(a) => (match FreezeAtom(a) case Ok(b) => Ok(Leaf(b)) case Err(e) => Err(e))
    case Ref(a) =>
      if a !in h then Err(Unsupported)
      else if a in active then Err(Cycle)
      else
        assert h.Keys - (active + {a}) < h.Keys - active by { assert a in h.Keys - active; }
        match h[a]
        case Mapping(_, es) =>
          if !AllStrings(es) then Err(NonStringKey)
          else
            (match FreezeEntries(h, es, Order(es), active + {a})
             case Ok(fs) => Ok(Dict(true, fs)) case Err(e) => Err(e))
        case Sequence(_, items) =>
          (match FreezeAll(h, items, active + {a}) case Ok(fs) => Ok(Items(true, fs)) case Err(e) => Err(e))
  }

  function FreezeEntries(h: Heap, es: seq<(Key, Value)>, order: seq<string>, active: set<nat>)
    : Result<seq<(Key, Tree)>, FreezeError>
    requires forall k :: k in order ==> HasText(es, k)
    decreases h.Keys - active, |order|
  {
    if |order| == 0 then Ok([])
    else
      match Freeze(h, es[Pos(es, order[0])].1, active)
      case Err(e) => Err(e)
      case Ok(f) => Prepend([(Key(order[0], true), f)], FreezeEntries(h, es, order[1..], active))
  }

  function FreezeAll(h: Heap, items: seq<Value>, active: set<nat>): Result<seq<Tree>, FreezeError>
    decreases h.Keys - active, |items|
  {
    if |items| == 0 then Ok([])
    else
      match Freeze(h, items[0], active)
      case Err(e) => Err(e)
      case Ok(f) => Prepend([f], FreezeAll(h, items[1..], active))
  }

  // ----- the procedure with its mutable set of active markers -----

  class ActiveMarkers {
    var ids: set<nat>

    constructor ()
      ensures ids == {}
    {
      ids := {};
    }
  }

  /** `path` leads, container by container and without repetition, to a container that holds `v`. */
  ghost predicate LeadsTo(h: Heap, path: seq<nat>, v: Value) {
    && Distinct(path) && (forall i | 0 <= i < |path| :: path[i] in h)
    && (forall i | 0 < i < |path| :: Ref(path[i]) in Children(h[path[i - 1]]))
    && (|path| > 0 ==> v in Children(h[path[|path| - 1]]))
  }

  lemma LongerPath(h: Heap, path: seq<nat>, a: nat, v: Value)
    requires LeadsTo(h, path, Ref(a)) && a in h && a !in path && v in Children(h[a])
    ensures LeadsTo(h, path + [a], v) && Members(path + [a]) == Members(path) + {a}
  {
  }

  /** At every call the active markers are exactly the containers on the path from the root. The procedure
      marks a container before visiting it and unmarks it on every way out, so the set it was given comes
      back unchanged whether it returns or raises, and the result is `Freeze`'s. */
  method FreezeValue(h: Heap, v: Value, active: ActiveMarkers, ghost path: seq<nat>) returns (r: Result<Tree, FreezeError>)
    requires active.ids == Members(path) && LeadsTo(h, path, v)
    modifies active
    ensures active.ids == old(active.ids)
    ensures r == Freeze(h, v, old(active.ids))
    decreases h.Keys - active.ids, 0
  {
    match v {
      case Scalar(a) =>
        var frozen := FreezeAtom(a);
        r := match frozen case Ok(b) => Ok(Leaf(b)) case Err(e) => Err(e);
      case Ref(marker) =>
        if marker !in h {
          return Err(Unsupported);
        }
        if marker in active.ids {
          return Err(Cycle);
        }
        ghost var before := active.ids;
        assert h.Keys - (before + {marker}) < h.Keys - before by { assert marker in h.Keys - before; }
        active.ids := active.ids + {marker};
        match h[marker] {
          case Mapping(_, es) =>
            if !AllStrings(es) {
              r := Err(NonStringKey);
            } else {
              r := FreezeMappingItems(h, marker, es, active, path);
            }
          case Sequence(_, items) =>
            r := FreezeSequenceItems(h, marker, items, active, path);
        }
        active.ids := active.ids - {marker};
        assert active.ids == before;
    }
  }

  lemma FieldPath(h: Heap, path: seq<nat>, a: nat, k: string)
    requires LeadsTo(h, path, Ref(a)) && a in h && a !in path && h[a].Mapping? && HasText(h[a].entries, k)
    ensures var v := h[a].entries[Pos(h[a].entries, k)].1;
            LeadsTo(h, path + [a], v) && Members(path + [a]) == Members(path) + {a}
  {
    var i := Pos(h[a].entries, k);
    assert Children(h[a])[i] == h[a].entries[i].1;
    LongerPath(h, path, a, h[a].entries[i].1);
  }

  lemma FieldsBegin(h: Heap, es: seq<(Key, Value)>, order: seq<string>, active: set<nat>)
    requires forall k :: k in order ==> HasText(es, k)
    ensures FreezeEntries(h, es, order, active) == Prepend([], FreezeEntries(h, es, order[0..], active))
  {
    assert order[0..] == order;
    PrependNothing(FreezeEntries(h, es, order, active));
  }

  /** Taking one more field out of the rest of the keys. */
  lemma FieldStep(h: Heap, es: seq<(Key, Value)>, order: seq<string>, i: nat, active: set<nat>, items: seq<(Key, Tree)>)
    requires i < |order| && forall k :: k in order ==> HasText(es, k)
    ensures Prepend(items, FreezeEntries(h, es, order[i..], active)) ==
            match Freeze(h, es[Pos(es, order[i])].1, active)
            case Err(e) => Err(e)
            case Ok(f) => Prepend(items + [(Key(order[i], true), f)], FreezeEntries(h, es, order[i + 1..], active))
  {
    assert order[i..][1..] == order[i + 1..];
    match Freeze(h, es[Pos(es, order[i])].1, active)
    case Err(_) =>
    case Ok(f) => PrependTwice(items, (Key(order[i], true), f), FreezeEntries(h, es, order[i + 1..], active));
  }

  method FreezeMappingItems(h: Heap, marker: nat, es: seq<(Key, Value)>, active: ActiveMarkers, ghost path: seq<nat>)
    returns (r: Result<Tree, FreezeError>)
    requires AllStrings(es) && marker in h && h[marker].Mapping? && h[marker].entries == es
    requires active.ids == Members(path) + {marker} && marker !in path && LeadsTo(h, path, Ref(marker))
    modifies active
    ensures active.ids == old(active.ids)
    ensures r == match FreezeEntries(h, es, Order(es), old(active.ids))
                 case Ok(fs) => Ok(Dict(true, fs)) case Err(e) => Err(e)
    decreases h.Keys - active.ids, 1
  {
    var order := Order(es);
    var items: seq<(Key, Tree)> := [];
    var i := 0;
    ghost var ids, whole := active.ids, FreezeEntries(h, es, order, active.ids);
    FieldsBegin(h, es, order, ids);
    while i < |order|
      invariant 0 <= i <= |order| && active.ids == ids
      invariant whole == Prepend(items, FreezeEntries(h, es, order[i..], ids))
    {
      var value := es[Pos(es, order[i])].1;
      FieldPath(h, path, marker, order[i]);
      var field := FreezeValue(h, value, active, path + [marker]);
      FieldStep(h, es, order, i, ids, items);
      if field.Err? {
        return Err(field.error);
      }
      items := items + [(Key(order[i], true), field.value)];
      i := i + 1;
    }
    assert items + [] == items;
    r := Ok(Dict(true, items));
  }

  method FreezeSequenceItems(h: Heap, marker: nat, items: seq<Value>, active: ActiveMarkers, ghost path: seq<nat>)
    returns (r: Result<Tree, FreezeError>)
    requires marker in h && h[marker].Sequence? && h[marker].items == items
    requires active.ids == Members(path) + {marker} && marker !in path && LeadsTo(h, path, Ref(marker))
    modifies active
    ensures active.ids == old(active.ids)
    ensures r == match FreezeAll(h, items, old(active.ids))
                 case Ok(fs) => Ok(Items(true, fs)) case Err(e) => Err(e)
    decreases h.Keys - active.ids, 1
  {
    var frozen: seq<Tree> := [];
    var i := 0;
    assert items[0..] == items;
    PrependNothing(FreezeAll(h, items, active.ids));
    while i < |items|
      invariant 0 <= i <= |items| && active.ids == old(active.ids)
      invariant FreezeAll(h, items, active.ids)
             == Prepend(frozen, FreezeAll(h, items[i..], active.ids))
    {
      LongerPath(h, path, marker, items[i]);
      var item := FreezeValue(h, items[i], active, path + [marker]);
      assert items[i..][1..] == items[i + 1..];
      if item.Err? {
        return Err(item.error);
      }
      PrependTwice(frozen, item.value, FreezeAll(h, items[i + 1..], active.ids));
      frozen := frozen + [item.value];
      i := i + 1;
    }
    assert items[i..] == [];
    assert frozen + [] == frozen;
    r := Ok(Items(true, frozen));
  }

  /** `freeze_json_mapping(value)`. */
  method FreezeJsonMapping(h: Heap, v: Value) returns (r: Result<Tree, FreezeError>)
    ensures v.Ref? && v.id in h && h[v.id].Mapping? ==> r == Freeze(h, v, {}) && (r.Ok? ==> r.value.Dict?)
    ensures !(v.Ref? && v.id in h && h[v.id].Mapping?) ==> r == Err(NotAnObject)
  {
    if v.Scalar? || v.id !in h || !h[v.id].Mapping? {
      return Err(NotAnObject);
    }
    var active := new ActiveMarkers();
    r := FreezeValue(h, v, active, []);
  }

  // ----- when freezing succeeds: paths through the object graph -----

  function Children(c: Container): seq<Value> {
    match c
    case Mapping(_, es) => seq(|es|, i requires 0 <= i < |es| => es[i].1)
    case Sequence(_, items) => items
  }

  /** A walk from a value to one of its descendants, container by container. */
  predicate IsPath(h: Heap, p: seq<Value>) {
    && |p| > 0
    && forall i | 0 <= i < |p| - 1 :: p[i].Ref? && p[i].id in h && p[i + 1] in Children(h[p[i].id])
  }

  /** The value itself is acceptable, its contents aside: a supported finite scalar, a list or a tuple,
      or a mapping with string keys only. */
  predicate NodeOk(h: Heap, v: Value) {
    match v
    case Scalar(a) => AcceptedScalar(a)
    case Ref(a) => a in h && (h[a].Mapping? ==> forall i | 0 <= i < |h[a].entries| :: h[a].entries[i].0.isString)
  }

  /** No container occurs twice on the walk, none is already active, and the walk ends well. */
  predicate CleanWalk(h: Heap, p: seq<Value>, active: set<nat>)
    requires |p| > 0
  {
    && NodeOk(h, p[|p| - 1])
    && (forall i | 0 <= i < |p| :: p[i].Ref? ==> p[i].id !in active)
    && (forall i, j | 0 <= i < j < |p| && p[i].Ref? :: p[i] != p[j])
  }

  ghost predicate AllWalksClean(h: Heap, v: Value, active: set<nat>) {
    forall p: seq<Value> | IsPath(h, p) && p[0] == v :: CleanWalk(h, p, active)
  }

  lemma {:induction false} EntriesOk(h: Heap, es: seq<(Key, Value)>, order: seq<string>, active: set<nat>)
    requires forall k :: k in order ==> HasText(es, k)
    ensures FreezeEntries(h, es, order, active).Ok? <==>
            forall i | 0 <= i < |order| :: Freeze(h, es[Pos(es, order[i])].1, active).Ok?
    decreases |order|
  {
    if |order| > 0 {
      EntriesOk(h, es, order[1..], active);
      assert forall i | 0 < i < |order| :: order[i] == order[1..][i - 1];
      assert forall i | 0 <= i < |order[1..]| :: order[1..][i] == order[i + 1];
    }
  }

  lemma {:induction false} AllOk(h: Heap, items: seq<Value>, active: set<nat>)
    ensures FreezeAll(h, items, active).Ok? <==> forall i | 0 <= i < |items| :: Freeze(h, items[i], active).Ok?
    decreases |items|
  {
    if |items| > 0 {
      AllOk(h, items[1..], active);
      assert forall i | 0 < i < |items| :: items[i] == items[1..][i - 1];
      assert forall i | 0 <= i < |items[1..]| :: items[1..][i] == items[i + 1];
    }
  }

  /** One level of freeze: a container freezes when it is not active, its keys are strings and each
      child freezes with the container added to the active set. */
  lemma FreezeOneLevel(h: Heap, a: nat, active: set<nat>)
    requires HeapKeyed(h)
    ensures Freeze(h, Ref(a), active).Ok? <==>
            && NodeOk(h, Ref(a)) && a !in active
            && forall c | c in Children(h[a]) :: Freeze(h, c, active + {a}).Ok?
  {
    if NodeOk(h, Ref(a)) && a !in active {
      match h[a]
      case Mapping(_, es) =>
        EntriesOk(h, es, Order(es), active + {a});
        var cs := Children(h[a]);
        if FreezeEntries(h, es, Order(es), active + {a}).Ok? {
          forall c | c in cs ensures Freeze(h, c, active + {a}).Ok? {
            var i :| 0 <= i < |cs| && cs[i] == c;
            PosOf(es, i);
            var k :| 0 <= k < |Order(es)| && Order(es)[k] == es[i].0.text;
          }
        }
        if forall c | c in cs :: Freeze(h, c, active + {a}).Ok? {
          forall i | 0 <= i < |Order(es)| ensures Freeze(h, es[Pos(es, Order(es)[i])].1, active + {a}).Ok? {
            assert cs[Pos(es, Order(es)[i])] in cs;
          }
        }
      case Sequence(_, items) =>
        AllOk(h, items, active + {a});
    }
  }

  /** Freeze succeeds from `v` with `active` already marked exactly when every walk from `v` is clean. */
  lemma {:induction false} FreezeSucceedsIff(h: Heap, v: Value, active: set<nat>)
    requires HeapKeyed(h)
    ensures Freeze(h, v, active).Ok? <==> AllWalksClean(h, v, active)
    decreases h.Keys - active
  {
    var here := [v];
    assert IsPath(h, here);
    match v
    case Scalar(a) =>
      forall p: seq<Value> | IsPath(h, p) && p[0] == v ensures p == here { }
    case Ref(a) =>
      FreezeOneLevel(h, a, active);
      if a in active || !NodeOk(h, v) {
        assert !CleanWalk(h, here, active);
      } else {
        assert h.Keys - (active + {a}) < h.Keys - active by { assert a in h.Keys - active; }
        forall c | c in Children(h[a])
          ensures Freeze(h, c, active + {a}).Ok? <==> AllWalksClean(h, c, active + {a})
        {
          FreezeSucceedsIff(h, c, active + {a});
        }
        if forall c | c in Children(h[a]) :: AllWalksClean(h, c, active + {a}) {
          forall p: seq<Value> | IsPath(h, p) && p[0] == v ensures CleanWalk(h, p, active) {
            ExtendCleanWalk(h, p, active);
          }
        }
        if AllWalksClean(h, v, active) {
          forall c, p: seq<Value> | c in Children(h[a]) && IsPath(h, p) && p[0] == c
            ensures CleanWalk(h, p, active + {a})
          {
            ShortenCleanWalk(h, v, p, active);
          }
        }
      }
  }

  lemma ExtendCleanWalk(h: Heap, p: seq<Value>, active: set<nat>)
    requires IsPath(h, p) && p[0].Ref? && NodeOk(h, p[0]) && p[0].id !in active
    requires forall c | c in Children(h[p[0].id]) :: AllWalksClean(h, c, active + {p[0].id})
    ensures CleanWalk(h, p, active)
  {
    if |p| > 1 {
      var q := p[1..];
      assert IsPath(h, q) by {
        forall i | 0 <= i < |q| - 1 ensures q[i].Ref? && q[i].id in h && q[i + 1] in Children(h[q[i].id]) {
          assert q[i] == p[i + 1] && q[i + 1] == p[i + 1 + 1];
        }
      }
      assert p[0 + 1] in Children(h[p[0].id]);
      assert AllWalksClean(h, q[0], active + {p[0].id});
      assert CleanWalk(h, q, active + {p[0].id});
      assert forall i | 0 < i < |p| :: p[i] == q[i - 1];
    }
  }

  lemma ShortenCleanWalk(h: Heap, v: Value, q: seq<Value>, active: set<nat>)
    requires v.Ref? && v.id in h && IsPath(h, q) && q[0] in Children(h[v.id])
    requires AllWalksClean(h, v, active)
    ensures CleanWalk(h, q, active + {v.id})
  {
    var p := [v] + q;
    LongerPathOf(h, v, q);
    assert CleanWalk(h, p, active);
    assert forall i | 0 <= i < |q| :: q[i] == p[i + 1];
  }

  /** A snapshot is taken exactly of the values from which no walk meets a container twice and no walk
      ends at an unsupported value, a non-finite number or a mapping with a non-string key. Meeting the
      same container on two different walks is allowed. */
  lemma SnapshotTakenIff(h: Heap, v: Value)
    requires HeapKeyed(h)
    ensures Freeze(h, v, {}).Ok? <==>
            forall p: seq<Value> | IsPath(h, p) && p[0] == v ::
              && NodeOk(h, p[|p| - 1])
              && forall i, j | 0 <= i < j < |p| && p[i].Ref? :: p[i] != p[j]
  {
    FreezeSucceedsIff(h, v, {});
    assert forall p: seq<Value> | |p| > 0 ::
        CleanWalk(h, p, {}) <==>
        && NodeOk(h, p[|p| - 1])
        && forall i, j | 0 <= i < j < |p| && p[i].Ref? :: p[i] != p[j];
  }

  // ----- why freezing fails -----

  /** The last value of the walk is at fault, in the way the error says. */
  predicate AtFault(h: Heap, p: seq<Value>, active: set<nat>, e: FreezeError)
    requires |p| > 0
  {
    var v := p[|p| - 1];
    match e
    case Cycle => v.Ref? && (v.id in active || exists i | 0 <= i < |p| - 1 :: p[i] == v)
    case NotFinite => v.Scalar? && (v.atom.FloatAtom? || v.atom.DecimalAtom?) && !v.atom.finite
    case NonStringKey =>
      v.Ref? && v.id in h && h[v.id].Mapping? && exists i | 0 <= i < |h[v.id].entries| :: !h[v.id].entries[i].0.isString
    case Unsupported => (v.Scalar? && v.atom.OtherAtom?) || (v.Ref? && v.id !in h)
    case NotAnObject => false
  }

  /** Every error names a fault that can be walked to. */
  lemma {:induction false} ErrorHasFault(h: Heap, v: Value, active: set<nat>) returns (p: seq<Value>)
    requires HeapKeyed(h) && Freeze(h, v, active).Err?
    ensures IsPath(h, p) && p[0] == v && AtFault(h, p, active, Freeze(h, v, active).error)
    decreases h.Keys - active
  {
    p := [v];
    if v.Ref? && v.id in h && v.id !in active && (h[v.id].Mapping? ==> AllStrings(h[v.id].entries)) {
      var a := v.id;
      var c := FaultyChild(h, a, active);
      assert h.Keys - (active + {a}) < h.Keys - active by { assert a in h.Keys - active; }
      var q := ErrorHasFault(h, c, active + {a});
      p := [v] + q;
      LongerPathOf(h, v, q);
      LongerFault(h, v, q, active, Freeze(h, v, active).error);
    }
  }

  lemma LongerPathOf(h: Heap, v: Value, q: seq<Value>)
    requires v.Ref? && v.id in h && IsPath(h, q) && q[0] in Children(h[v.id])
    ensures IsPath(h, [v] + q)
  {
    var p := [v] + q;
    forall i | 0 <= i < |p| - 1 ensures p[i].Ref? && p[i].id in h && p[i + 1] in Children(h[p[i].id]) {
      if i > 0 { assert p[i] == q[i - 1] && p[i + 1] == q[i - 1 + 1]; }
    }
  }

  lemma LongerFault(h: Heap, v: Value, q: seq<Value>, active: set<nat>, e: FreezeError)
    requires v.Ref? && |q| > 0 && AtFault(h, q, active + {v.id}, e)
    ensures AtFault(h, [v] + q, active, e)
  {
    var p, w := [v] + q, q[|q| - 1];
    assert p[|p| - 1] == w && p[0] == v;
    if e == Cycle && w != v && w.id !in active {
      var i :| 0 <= i < |q| - 1 && q[i] == w;
      assert p[i + 1] == w;
    }
  }

  /** The first child that does not freeze gives the container its error. */
  lemma FaultyChild(h: Heap, a: nat, active: set<nat>) returns (c: Value)
    requires HeapKeyed(h) && a in h && a !in active && (h[a].Mapping? ==> AllStrings(h[a].entries))
    requires Freeze(h, Ref(a), active).Err?
    ensures c in Children(h[a]) && Freeze(h, c, active + {a}) == Err(Freeze(h, Ref(a), active).error)
  {
    match h[a]
    case Mapping(_, es) =>
      var k := FaultyKey(h, es, Order(es), active + {a});
      c := es[Pos(es, k)].1;
      assert Children(h[a])[Pos(es, k)] == c;
    case Sequence(_, items) => c := FaultyItem(h, items, active + {a});
  }

  lemma {:induction false} FaultyKey(h: Heap, es: seq<(Key, Value)>, order: seq<string>, active: set<nat>) returns (k: string)
    requires forall k :: k in order ==> HasText(es, k)
    requires FreezeEntries(h, es, order, active).Err?
    ensures k in order && Freeze(h, es[Pos(es, k)].1, active) == Err(FreezeEntries(h, es, order, active).error)
    decreases |order|
  {
    k := order[0];
    if Freeze(h, es[Pos(es, k)].1, active).Ok? { k := FaultyKey(h, es, order[1..], active); }
  }

  lemma {:induction false} FaultyItem(h: Heap, items: seq<Value>, active: set<nat>) returns (c: Value)
    requires FreezeAll(h, items, active).Err?
    ensures c in items && Freeze(h, c, active) == Err(FreezeAll(h, items, active).error)
    decreases |items|
  {
    c := items[0];
    if Freeze(h, c, active).Ok? { c := FaultyItem(h, items[1..], active); }
  }

  // ----- the graph freeze refines the tree freeze -----

  /** Following references from `v` spells out the finite tree `t`. */
  predicate Unfolds(h: Heap, v: Value, t: Tree)
    decreases t
  {
    match t
    case Leaf(a) => v == Scalar(a)
    case Dict(proxy, es) =>
      && v.Ref? && v.id in h && h[v.id].Mapping? && h[v.id].proxy == proxy && |h[v.id].entries| == |es|
      && forall i | 0 <= i < |es| ::
           h[v.id].entries[i].0 == es[i].0 && Unfolds(h, h[v.id].entries[i].1, es[i].1)
    case Items(isTuple, ts) =>
      && v.Ref? && v.id in h && h[v.id].Sequence? && h[v.id].isTuple == isTuple && |h[v.id].items| == |ts|
      && forall i | 0 <= i < |ts| :: Unfolds(h, h[v.id].items[i], ts[i])
  }

  lemma {:induction false} UnfoldingUnique(h: Heap, v: Value, t: Tree, u: Tree)
    requires Unfolds(h, v, t) && Unfolds(h, v, u)
    ensures t == u
    decreases t
  {
    match t
    case Leaf(_) =>
    case Dict(_, es) =>
      forall i | 0 <= i < |es| ensures es[i] == u.entries[i] {
        UnfoldingUnique(h, h[v.id].entries[i].1, es[i].1, u.entries[i].1);
      }
      assert es == u.entries;
    case Items(_, ts) =>
      forall i | 0 <= i < |ts| ensures ts[i] == u.items[i] {
        UnfoldingUnique(h, h[v.id].items[i], ts[i], u.items[i]);
      }
      assert ts == u.items;
  }

  function Height(t: Tree): nat
    decreases t, 1, 0
  {
    match t
    case Leaf(_) => 0
    case Dict(_, es) => 1 + ChildHeight(t, |es|)
    case Items(_, ts) => 1 + ChildHeight(t, |ts|)
  }

  function ChildCount(t: Tree): nat {
    match t
    case Leaf(_) => 0
    case Dict(_, es) => |es|
    case Items(_, ts) => |ts|
  }

  function ChildAt(t: Tree, i: nat): (c: Tree)
    requires i < ChildCount(t)
    ensures c < t
  {
    match t
    case Dict(_, es) => es[i].1
    case Items(_, ts) => ts[i]
  }

  function ChildHeight(t: Tree, n: nat): (r: nat)
    requires n <= ChildCount(t)
    ensures forall i | 0 <= i < n :: Height(ChildAt(t, i)) <= r
    decreases t, 0, n
  {
    if n == 0 then 0
    else
      var r := ChildHeight(t, n - 1);
      if r < Height(ChildAt(t, n - 1)) then Height(ChildAt(t, n - 1)) else r
  }

  /** Containers already active unfold to taller trees, so they cannot be met again. */
  ghost predicate ActiveAbove(h: Heap, active: set<nat>, height: int) {
    forall a | a in active :: exists u :: Unfolds(h, Ref(a), u) && Height(u) > height
  }

  lemma {:induction false} GraphRefinesTree(h: Heap, v: Value, t: Tree, active: set<nat>)
    requires Unfolds(h, v, t) && ActiveAbove(h, active, Height(t))
    ensures Freeze(h, v, active) == FreezeTree(t)
    decreases t, 1, 0
  {
    if v.Ref? && v.id in active {
      var u :| Unfolds(h, Ref(v.id), u) && Height(u) > Height(t);
      UnfoldingUnique(h, v, t, u);
      assert false;
    }
    match t
    case Leaf(_) =>
    case Dict(_, es) =>
      var vs := h[v.id].entries;
      assert Texts(vs) == Texts(es);
      assert AllStrings(vs) == AllStrings(es);
      if AllStrings(es) { GraphFieldsRefineTree(h, v, t, Order(es), active); }
    case Items(_, _) =>
      GraphItemsRefineTree(h, v, t, 0, active);
      assert h[v.id].items[0..] == h[v.id].items;
  }

  lemma BelowActive(h: Heap, v: Value, t: Tree, i: nat, active: set<nat>)
    requires v.Ref? && Unfolds(h, v, t) && ActiveAbove(h, active, Height(t)) && i < ChildCount(t)
    ensures ActiveAbove(h, active + {v.id}, Height(ChildAt(t, i)))
  {
    assert Height(ChildAt(t, i)) < Height(t);
  }

  lemma {:induction false} GraphFieldsRefineTree(h: Heap, v: Value, t: Tree, order: seq<string>, active: set<nat>)
    requires t.Dict? && Unfolds(h, v, t) && ActiveAbove(h, active, Height(t))
    requires forall k :: k in order ==> HasText(t.entries, k) && HasText(h[v.id].entries, k)
    ensures FreezeEntries(h, h[v.id].entries, order, active + {v.id}) == FreezeFields(t, order)
    decreases t, 0, |order|
  {
    if |order| > 0 {
      var vs := h[v.id].entries;
      var i := Pos(t.entries, order[0]);
      assert Pos(vs, order[0]) == i;
      BelowActive(h, v, t, i, active);
      GraphRefinesTree(h, vs[i].1, t.entries[i].1, active + {v.id});
      GraphFieldsRefineTree(h, v, t, order[1..], active);
    }
  }

  lemma {:induction false} GraphItemsRefineTree(h: Heap, v: Value, t: Tree, from: nat, active: set<nat>)
    requires t.Items? && Unfolds(h, v, t) && ActiveAbove(h, active, Height(t)) && from <= |t.items|
    ensures FreezeAll(h, h[v.id].items[from..], active + {v.id}) == FreezeItems(t, from)
    decreases t, 0, |t.items| - from
  {
    if from < |t.items| {
      var vs := h[v.id].items;
      BelowActive(h, v, t, from, active);
      GraphRefinesTree(h, vs[from], t.items[from], active + {v.id});
      GraphItemsRefineTree(h, v, t, from + 1, active);
      assert vs[from..][1..] == vs[from + 1..];
    }
  }

  /** On an object graph that spells out a finite tree, sharing and identity do not matter: freezing the
      live object gives what freezing the tree gives, error for error. */
  lemma SnapshotOfFiniteValue(h: Heap, v: Value, t: Tree)
    requires Unfolds(h, v, t)
    ensures Freeze(h, v, {}) == FreezeTree(t)
  {
    GraphRefinesTree(h, v, t, {});
  }

  /** Every accepted object graph spells out a finite tree. */
  lemma {:induction false} AcceptedIsFinite(h: Heap, v: Value, active: set<nat>) returns (t: Tree)
    requires HeapKeyed(h) && Freeze(h, v, active).Ok?
    ensures Unfolds(h, v, t) && WellKeyed(t)
    decreases h.Keys - active, 0
  {
    match v
    case Scalar(a) => t := Leaf(a);
    case Ref(a) =>
      FreezeOneLevel(h, a, active);
      assert h.Keys - (active + {a}) < h.Keys - active by { assert a in h.Keys - active; }
      var ts := AcceptedChildren(h, Children(h[a]), active + {a});
      match h[a] {
        case Mapping(proxy, es) =>
          t := Dict(proxy, seq(|es|, i requires 0 <= i < |es| => (es[i].0, ts[i])));
        case Sequence(isTuple, items) => t := Items(isTuple, ts);
      }
  }

  lemma {:induction false} AcceptedChildren(h: Heap, cs: seq<Value>, active: set<nat>) returns (ts: seq<Tree>)
    requires HeapKeyed(h) && forall c | c in cs :: Freeze(h, c, active).Ok?
    ensures |ts| == |cs| && forall i | 0 <= i < |cs| :: Unfolds(h, cs[i], ts[i]) && WellKeyed(ts[i])
    decreases h.Keys - active, 1, |cs|
  {
    ts := [];
    if |cs| > 0 {
      var first := AcceptedIsFinite(h, cs[0], active);
      var rest := AcceptedChildren(h, cs[1..], active);
      ts := [first] + rest;
    }
  }

  /** Two accepted live objects, in any two object graphs, have equal snapshots exactly when the trees
      they spell out are the same up to insertion order and container kind. */
  lemma LiveSnapshotsEqualIffSame(h: Heap, v: Value, t: Tree, g: Heap, w: Value, u: Tree)
    requires Unfolds(h, v, t) && Unfolds(g, w, u) && WellKeyed(t) && WellKeyed(u)
    requires Freeze(h, v, {}).Ok?
    ensures Freeze(h, v, {}) == Freeze(g, w, {}) <==> Same(t, u)
  {
    SnapshotOfFiniteValue(h, v, t);
    SnapshotOfFiniteValue(g, w, u);
    SnapshotsEqualIffSame(t, u);
  }
}
