/** Python values as finite trees, and what freezing and thawing mean on them
    (backend/src/long_invest/platform/json_snapshot.py). */
module JsonTree {
  import opened Wrappers
  import opened KeyOrder

  datatype FreezeError = NotAnObject | NotFinite | Cycle | NonStringKey | Unsupported

  /** Scalars. A float keeps its bits, a Decimal the text `str` gives it; `OtherAtom` is any value of a
      class the snapshot does not know, subclasses of the scalar types included. */
  datatype Atom =
    | NoneAtom
    | BoolAtom(b: bool)
    | IntAtom(i: int)
    | StrAtom(s: string)
    | FloatAtom(bits: int, finite: bool)
    | DecimalAtom(text: string, finite: bool)
    | DateAtom(ordinal: int)
    | OtherAtom(tag: int)

  datatype Key = Key(text: string, isString: bool)

  /** `proxy` tells a MappingProxyType from a dict, `isTuple` a tuple from a list. */
  datatype Tree =
    | Leaf(atom: Atom)
    | Dict(proxy: bool, entries: seq<(Key, Tree)>)
    | Items(isTuple: bool, items: seq<Tree>)

  function FreezeAtom(a: Atom): Result<Atom, FreezeError> {
    match a
    case NoneAtom | BoolAtom(_) | IntAtom(_) | StrAtom(_) | DateAtom(_) => Ok(a)
    case FloatAtom(_, finite) => if finite then Ok(a) else Err(NotFinite)
    case DecimalAtom(text, finite) => if finite then Ok(StrAtom(text)) else Err(NotFinite)
    case OtherAtom(_) => Err(Unsupported)
  }

  // ----- dictionaries as entry lists in insertion order -----

  function Texts<V>(es: seq<(Key, V)>): (r: seq<string>)
    ensures |r| == |es| && forall i | 0 <= i < |r| :: r[i] == es[i].0.text
  {
    seq(|es|, i requires 0 <= i < |es| => es[i].0.text)
  }

  predicate AllStrings<V>(es: seq<(Key, V)>) {
    forall i | 0 <= i < |es| :: es[i].0.isString
  }

  /** No key occurs twice; Python dictionaries guarantee it. */
  predicate DistinctKeys<V>(es: seq<(Key, V)>) {
    forall i, j | 0 <= i < j < |es| :: es[i].0 != es[j].0
  }

  function KeySet<V>(es: seq<(Key, V)>): set<Key> {
    set i | 0 <= i < |es| :: es[i].0
  }

  predicate HasText<V>(es: seq<(Key, V)>, k: string) {
    k in Texts(es)
  }

  /** Index of the entry `mapping[k]` reads. */
  function Pos<V>(es: seq<(Key, V)>, k: string): (i: nat)
    requires HasText(es, k)
    ensures i < |es| && es[i].0.text == k
    ensures forall j | 0 <= j < i :: es[j].0.text != k
  {
    if es[0].0.text == k then 0
    else
      assert k in Texts(es[1..]) by {
        var j :| 0 <= j < |es| && Texts(es)[j] == k;
        assert Texts(es[1..])[j - 1] == k;
      }
      Pos(es[1..], k) + 1
  }

  lemma PosOf<V>(es: seq<(Key, V)>, i: nat)
    requires i < |es| && AllStrings(es) && DistinctKeys(es)
    ensures HasText(es, es[i].0.text) && Pos(es, es[i].0.text) == i
  {
    assert Texts(es)[i] == es[i].0.text;
  }

  lemma DistinctTexts<V>(es: seq<(Key, V)>)
    requires AllStrings(es) && DistinctKeys(es)
    ensures Distinct(Texts(es))
  {
  }

  /** The order in which a dictionary's keys are visited. */
  function Order<V>(es: seq<(Key, V)>): (r: seq<string>)
    ensures Sorted(r) && |r| == |es| && forall k :: k in r <==> HasText(es, k)
  {
    SortMembers(Texts(es));
    Sort(Texts(es))
  }

  // ----- freeze and thaw -----

  function FreezeTree(t: Tree): Result<Tree, FreezeError>
    decreases t, 1, 0
  {
    match t
    case Leaf(a) =>
      (match FreezeAtom(a) case Ok(b) => Ok(Leaf(b)) case Err(e) => Err(e))
    case Dict(_, es) =>
      if !AllStrings(es) then Err(NonStringKey)
      else (match FreezeFields(t, Order(es)) case Ok(fs) => Ok(Dict(true, fs)) case Err(e) => Err(e))
    case Items(_, _) =>
      (match FreezeItems(t, 0) case Ok(fs) => Ok(Items(true, fs)) case Err(e) => Err(e))
  }

  function FreezeFields(t: Tree, order: seq<string>): (r: Result<seq<(Key, Tree)>, FreezeError>)
    requires t.Dict? && forall k :: k in order ==> HasText(t.entries, k)
    decreases t, 0, |order|
  {
    if |order| == 0 then Ok([])
    else
      match FreezeTree(t.entries[Pos(t.entries, order[0])].1)
      case Err(e) => Err(e)
      case Ok(f) => Prepend([(Key(order[0], true), f)], FreezeFields(t, order[1..]))
  }

  function FreezeItems(t: Tree, from: nat): (r: Result<seq<Tree>, FreezeError>)
    requires t.Items? && from <= |t.items|
    decreases t, 0, |t.items| - from
  {
    if from == |t.items| then Ok([])
    else
      match FreezeTree(t.items[from])
      case Err(e) => Err(e)
      case Ok(f) => Prepend([f], FreezeItems(t, from + 1))
  }

  function Thaw(t: Tree): Tree {
    match t
    case Dict(_, es) => Dict(false, seq(|es|, i requires 0 <= i < |es| => (es[i].0, Thaw(es[i].1))))
    case Items(true, items) => Items(false, seq(|items|, i requires 0 <= i < |items| => Thaw(items[i])))
    case _ => t
  }

  // ----- properties of trees -----

  /** Scalars a snapshot can hold as they are. */
  predicate FrozenScalar(a: Atom) {
    match a
    case NoneAtom | BoolAtom(_) | IntAtom(_) | StrAtom(_) | DateAtom(_) => true
    case FloatAtom(_, finite) => finite
    case DecimalAtom(_, _) | OtherAtom(_) => false
  }

  /** Scalars a snapshot accepts: those, and a finite Decimal. */
  predicate AcceptedScalar(a: Atom) {
    FrozenScalar(a) || (a.DecimalAtom? && a.finite)
  }

  /** The same scalar, but for a finite Decimal standing for its text. */
  predicate SameScalar(a: Atom, b: Atom) {
    a == b || (AsText(a).Some? && AsText(a) == AsText(b))
  }

  function AsText(a: Atom): Option<string> {
    match a
    case StrAtom(s) => Some(s)
    case DecimalAtom(text, finite) => if finite then Some(text) else None
    case _ => None
  }

  /** Every dictionary in the tree has distinct keys. */
  predicate WellKeyed(t: Tree) {
    match t
    case Leaf(_) => true
    case Dict(_, es) => DistinctKeys(es) && forall i | 0 <= i < |es| :: WellKeyed(es[i].1)
    case Items(_, items) => forall i | 0 <= i < |items| :: WellKeyed(items[i])
  }

  /** The immutable canonical form: read-only mappings with strictly ascending string keys, tuples,
      finite scalars, no Decimal. */
  predicate IsFrozen(t: Tree) {
    match t
    case Leaf(a) => FrozenScalar(a)
    case Dict(proxy, es) =>
      && proxy && DistinctKeys(es) && Sorted(Texts(es))
      && forall i | 0 <= i < |es| :: es[i].0.isString && IsFrozen(es[i].1)
    case Items(isTuple, items) => isTuple && forall i | 0 <= i < |items| :: IsFrozen(items[i])
  }

  /** Equal up to insertion order at any depth, list against tuple, dict against read-only proxy, and
      a finite Decimal against its text. */
  ghost predicate Same(t: Tree, u: Tree) {
    match (t, u)
    case (Leaf(a), Leaf(b)) => SameScalar(a, b)
    case (Dict(_, es), Dict(_, fs)) =>
      && |es| == |fs| && KeySet(es) == KeySet(fs)
      && forall i, j | 0 <= i < |es| && 0 <= j < |fs| && es[i].0 == fs[j].0 :: Same(es[i].1, fs[j].1)
    case (Items(_, ts), Items(_, us)) => |ts| == |us| && forall i | 0 <= i < |ts| :: Same(ts[i], us[i])
    case _ => false
  }
}
