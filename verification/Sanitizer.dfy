/**
 The logger's `sanitize`: a depth-first copy of an object graph that may have cycles, with one shared set
 of objects already seen. The graph is a finite heap; a reference is a heap address.
 */
module Sanitizer {
  import opened Types

  datatype Value = Null | Undefined | Bool(b: bool) | Num(n: real) | Str(s: string) | Ref(to: Id)

  datatype Entry = Entry(key: string, value: Value)

  datatype Node =
    | ErrorNode(name: string, message: string, code: Option<string>, stack: string)
    | ArrayNode(items: seq<Value>)
    | ObjectNode(entries: seq<Entry>)

  type Heap = map<Id, Node>

  /**
   The copy. An array or object remembers which one it is a copy of, and `Circular` stands for the string
   "[Circular]", told apart from an equal string in the data.
   */
  datatype Tree =
    | Leaf(value: Value)
    | Circular
    | ErrorTree(name: string, message: string, code: Option<string>, stack: string)
    | ArrayTree(source: Id, items: seq<Tree>)
    | ObjectTree(source: Id, fields: seq<Field>)

  datatype Field = Field(key: string, tree: Tree)

  datatype Outcome = Outcome(tree: Tree, seen: set<Id>)
  datatype Items = Items(trees: seq<Tree>, seen: set<Id>)
  datatype Fields = Fields(fields: seq<Field>, seen: set<Id>)

  const REDACTED_KEYS: set<string> := {
    "password", "token", "access_token", "authorization", "refreshToken", "refresh_token", "secret", "jwt"}

  const REDACTED := Leaf(Str("[REDACTED]"))

  /** The values directly below a node that sanitizing it looks at. */
  function Visible(node: Node): seq<Value> {
    match node
    case ErrorNode(_, _, _, _) => []
    case ArrayNode(items) => items
    case ObjectNode(entries) => VisibleEntries(entries)
  }

  function VisibleEntries(entries: seq<Entry>): seq<Value> {
    if entries == [] then []
    else (if entries[0].key in REDACTED_KEYS then [] else [entries[0].value]) + VisibleEntries(entries[1..])
  }

  predicate Points(heap: Heap, v: Value) {
    v.Ref? ==> v.to in heap
  }

  /** No reference leaves the heap. */
  ghost predicate Closed(heap: Heap) {
    forall r :: r in heap ==>
      && (heap[r].ArrayNode? ==> forall v :: v in heap[r].items ==> Points(heap, v))
      && (heap[r].ObjectNode? ==> forall e :: e in heap[r].entries ==> Points(heap, e.value))
  }

  function ErrorCopy(node: Node): Tree
    requires node.ErrorNode?
  {
    ErrorTree(node.name, node.message, if node.code == Some("") then None else node.code, node.stack)
  }

  // ---------------------------------------------------------------- specification

  lemma FewerUnseen(heap: Heap, seen: set<Id>, seen': set<Id>)
    requires seen <= seen'
    ensures |heap.Keys - seen'| <= |heap.Keys - seen|
    ensures (exists r :: r in seen' && r in heap && r !in seen) ==> |heap.Keys - seen'| < |heap.Keys - seen|
  {
    var fewer, more := heap.Keys - seen', heap.Keys - seen;
    assert fewer <= more;
    assert more == fewer + (more - fewer);
    if r :| r in seen' && r in heap && r !in seen {
      assert r in more - fewer;
    }
  }

  /** The measure: the objects not seen yet, then how much of a list is left. */
  function Sanitized(heap: Heap, v: Value, seen: set<Id>): (o: Outcome)
    requires Closed(heap) && Points(heap, v)
    ensures seen <= o.seen
    decreases |heap.Keys - seen|, 0
  {
    if !v.Ref? then Outcome(Leaf(v), seen)
    else if heap[v.to].ErrorNode? then Outcome(ErrorCopy(heap[v.to]), seen)
    else if v.to in seen then Outcome(Circular, seen)
    else
      FewerUnseen(heap, seen, seen + {v.to});
      match heap[v.to]
      case ArrayNode(items) =>
        var all := SanitizedItems(heap, items, seen + {v.to});
        Outcome(ArrayTree(v.to, all.trees), all.seen)
      case ObjectNode(entries) =>
        var all := SanitizedFields(heap, entries, seen + {v.to});
        Outcome(ObjectTree(v.to, all.fields), all.seen)
  }

  function SanitizedItems(heap: Heap, items: seq<Value>, seen: set<Id>): (o: Items)
    requires Closed(heap) && forall v :: v in items ==> Points(heap, v)
    ensures seen <= o.seen
    decreases |heap.Keys - seen|, |items| + 1
  {
    if items == [] then Items([], seen)
    else
      var first := Sanitized(heap, items[0], seen);
      FewerUnseen(heap, seen, first.seen);
      var rest := SanitizedItems(heap, items[1..], first.seen);
      Items([first.tree] + rest.trees, rest.seen)
  }

  function SanitizedField(heap: Heap, e: Entry, seen: set<Id>): (o: Outcome)
    requires Closed(heap) && Points(heap, e.value)
    ensures seen <= o.seen
    decreases |heap.Keys - seen|, 1
  {
    if e.key in REDACTED_KEYS then Outcome(REDACTED, seen) else Sanitized(heap, e.value, seen)
  }

  function SanitizedFields(heap: Heap, entries: seq<Entry>, seen: set<Id>): (o: Fields)
    requires Closed(heap) && forall e :: e in entries ==> Points(heap, e.value)
    ensures seen <= o.seen
    decreases |heap.Keys - seen|, |entries| + 2
  {
    if entries == [] then Fields([], seen)
    else
      var first := SanitizedField(heap, entries[0], seen);
      FewerUnseen(heap, seen, first.seen);
      var rest := SanitizedFields(heap, entries[1..], first.seen);
      Fields([Field(entries[0].key, first.tree)] + rest.fields, rest.seen)
  }

  // ---------------------------------------------------------------- what a copy shows

  /** Every redacted key of every copied object, at every depth, maps to the marker. */
  ghost predicate Redacted(t: Tree) {
    match t
    case Leaf(_) => true
    case Circular => true
    case ErrorTree(_, _, _, _) => true
    case ArrayTree(_, items) => forall i :: 0 <= i < |items| ==> Redacted(items[i])
    case ObjectTree(_, fields) =>
      forall i :: 0 <= i < |fields| ==>
        (fields[i].key in REDACTED_KEYS ==> fields[i].tree == REDACTED) && Redacted(fields[i].tree)
  }

  /**
   `t` is a copy of `v`: equal leaves, every element and every key in order, and nothing cut short but
   redacted values and references marked circular.
   */
  ghost predicate Shows(heap: Heap, v: Value, t: Tree)
    decreases t
  {
    if !v.Ref? then t == Leaf(v)
    else if v.to !in heap then false
    else
      match heap[v.to]
      case ErrorNode(_, _, _, _) => t == ErrorCopy(heap[v.to])
      case ArrayNode(items) =>
        || t == Circular
        || (t.ArrayTree? && t.source == v.to && |t.items| == |items|
            && forall i :: 0 <= i < |items| ==> Shows(heap, items[i], t.items[i]))
      case ObjectNode(entries) =>
        || t == Circular
        || (t.ObjectTree? && t.source == v.to && |t.fields| == |entries|
            && forall i :: 0 <= i < |entries| ==>
                 t.fields[i].key == entries[i].key
                 && (entries[i].key !in REDACTED_KEYS ==> Shows(heap, entries[i].value, t.fields[i].tree)))
  }

  /** The objects a copy expands, one entry per expansion, in order. */
  function Expanded(t: Tree): seq<Id> {
    match t
    case Leaf(_) => []
    case Circular => []
    case ErrorTree(_, _, _, _) => []
    case ArrayTree(source, items) => [source] + ExpandedItems(items)
    case ObjectTree(source, fields) => [source] + ExpandedFields(fields)
  }

  function ExpandedItems(items: seq<Tree>): seq<Id> {
    if items == [] then [] else Expanded(items[0]) + ExpandedItems(items[1..])
  }

  function ExpandedFields(fields: seq<Field>): seq<Id> {
    if fields == [] then [] else Expanded(fields[0].tree) + ExpandedFields(fields[1..])
  }

  /** `ids` lists, without repetition, exactly what was added to `seen`. */
  ghost predicate Adds(ids: seq<Id>, seen: set<Id>, seen': set<Id>) {
    NoDuplicates(ids) && forall r :: r in ids <==> r in seen' && r !in seen
  }

  lemma AddsJoin(a: seq<Id>, b: seq<Id>, seen: set<Id>, mid: set<Id>, seen': set<Id>)
    requires seen <= mid <= seen' && Adds(a, seen, mid) && Adds(b, mid, seen')
    ensures Adds(a + b, seen, seen')
  {
    assert forall i :: 0 <= i < |a| ==> a[i] in a;
    assert forall i :: 0 <= i < |b| ==> b[i] in b;
  }

  lemma AddsFirst(r: Id, a: seq<Id>, seen: set<Id>, seen': set<Id>)
    requires r !in seen && seen + {r} <= seen' && Adds(a, seen + {r}, seen')
    ensures Adds([r] + a, seen, seen')
  {
    AddsJoin([r], a, seen, seen + {r}, seen');
  }

  /** Redacted everywhere, a true copy, and each object expanded exactly when it is first met. */
  lemma {:induction false} SanitizedCopies(heap: Heap, v: Value, seen: set<Id>)
    requires Closed(heap) && Points(heap, v)
    ensures var o := Sanitized(heap, v, seen);
      Redacted(o.tree) && Shows(heap, v, o.tree) && Adds(Expanded(o.tree), seen, o.seen)
    decreases |heap.Keys - seen|, 0
  {
    if v.Ref? && !heap[v.to].ErrorNode? && v.to !in seen {
      FewerUnseen(heap, seen, seen + {v.to});
      match heap[v.to]
      case ArrayNode(items) =>
        ItemsCopy(heap, items, seen + {v.to});
        var all := SanitizedItems(heap, items, seen + {v.to});
        AddsFirst(v.to, ExpandedItems(all.trees), seen, all.seen);
      case ObjectNode(entries) =>
        FieldsCopy(heap, entries, seen + {v.to});
        var all := SanitizedFields(heap, entries, seen + {v.to});
        AddsFirst(v.to, ExpandedFields(all.fields), seen, all.seen);
    }
  }

  lemma {:induction false} ItemsCopy(heap: Heap, items: seq<Value>, seen: set<Id>)
    requires Closed(heap) && forall v :: v in items ==> Points(heap, v)
    ensures var o := SanitizedItems(heap, items, seen);
      && |o.trees| == |items|
      && (forall i :: 0 <= i < |items| ==> Redacted(o.trees[i]) && Shows(heap, items[i], o.trees[i]))
      && Adds(ExpandedItems(o.trees), seen, o.seen)
    decreases |heap.Keys - seen|, |items| + 1
  {
    if items != [] {
      var first := Sanitized(heap, items[0], seen);
      SanitizedCopies(heap, items[0], seen);
      FewerUnseen(heap, seen, first.seen);
      ItemsCopy(heap, items[1..], first.seen);
      var rest := SanitizedItems(heap, items[1..], first.seen);
      hide Adds, Sanitized, Redacted, Shows;
      AddsJoin(Expanded(first.tree), ExpandedItems(rest.trees), seen, first.seen, rest.seen);
      assert ([first.tree] + rest.trees)[1..] == rest.trees;
    }
  }

  lemma {:induction false} FieldsCopy(heap: Heap, entries: seq<Entry>, seen: set<Id>)
    requires Closed(heap) && forall e :: e in entries ==> Points(heap, e.value)
    ensures var o := SanitizedFields(heap, entries, seen);
      && |o.fields| == |entries|
      && (forall i :: 0 <= i < |entries| ==> FieldCopies(heap, entries[i], o.fields[i]))
      && Adds(ExpandedFields(o.fields), seen, o.seen)
    decreases |heap.Keys - seen|, |entries| + 2
  {
    if entries != [] {
      var first := SanitizedField(heap, entries[0], seen);
      var head := Field(entries[0].key, first.tree);
      FieldCopy(heap, entries[0], seen);
      FewerUnseen(heap, seen, first.seen);
      FieldsCopy(heap, entries[1..], first.seen);
      var rest := SanitizedFields(heap, entries[1..], first.seen);
      hide FieldCopies, Adds, Sanitized, SanitizedField;
      AddsJoin(Expanded(first.tree), ExpandedFields(rest.fields), seen, first.seen, rest.seen);
      var fields := [head] + rest.fields;
      assert fields[1..] == rest.fields && SanitizedFields(heap, entries, seen) == Fields(fields, rest.seen);
      forall i | 0 <= i < |entries| ensures FieldCopies(heap, entries[i], fields[i]) {
        if i > 0 { assert entries[i] == entries[1..][i - 1] && fields[i] == rest.fields[i - 1]; }
      }
    }
  }

  lemma {:induction false} FieldCopy(heap: Heap, e: Entry, seen: set<Id>)
    requires Closed(heap) && Points(heap, e.value)
    ensures var o := SanitizedField(heap, e, seen);
      FieldCopies(heap, e, Field(e.key, o.tree)) && Adds(Expanded(o.tree), seen, o.seen)
    decreases |heap.Keys - seen|, 1
  {
    if e.key !in REDACTED_KEYS {
      SanitizedCopies(heap, e.value, seen);
    }
  }

  ghost predicate FieldCopies(heap: Heap, e: Entry, f: Field) {
    && f.key == e.key
    && (e.key in REDACTED_KEYS ==> f.tree == REDACTED)
    && (e.key !in REDACTED_KEYS ==> Shows(heap, e.value, f.tree))
    && Redacted(f.tree)
  }

  // ---------------------------------------------------------------- what is reached

  /** A reference to something that is copied at most once: an array or an object, not an error. */
  predicate IsObject(heap: Heap, v: Value) {
    v.Ref? && v.to in heap && !heap[v.to].ErrorNode?
  }

  ghost predicate ChildrenIn(heap: Heap, node: Node, ids: set<Id>) {
    forall c :: c in Visible(node) && IsObject(heap, c) ==> c.to in ids
  }

  /** Closed under following visible references. */
  ghost predicate ClosedUnder(heap: Heap, ids: set<Id>) {
    forall r :: r in ids && r in heap ==> ChildrenIn(heap, heap[r], ids)
  }

  /** What was added has all its children among what has been seen. */
  ghost predicate Explored(heap: Heap, seen: set<Id>, seen': set<Id>) {
    seen <= seen' && forall r :: r in seen' && r !in seen ==> r in heap && ChildrenIn(heap, heap[r], seen')
  }

  lemma ExploredJoin(heap: Heap, seen: set<Id>, mid: set<Id>, seen': set<Id>)
    requires Explored(heap, seen, mid) && Explored(heap, mid, seen')
    ensures Explored(heap, seen, seen')
  {
  }

  lemma {:induction false} SanitizedExplores(heap: Heap, v: Value, seen: set<Id>, all: set<Id>)
    requires Closed(heap) && Points(heap, v) && ClosedUnder(heap, all) && (IsObject(heap, v) ==> v.to in all)
    ensures var o := Sanitized(heap, v, seen);
      Explored(heap, seen, o.seen) && (IsObject(heap, v) ==> v.to in o.seen) && o.seen <= seen + all
    decreases |heap.Keys - seen|, 0
  {
    if IsObject(heap, v) && v.to !in seen {
      FewerUnseen(heap, seen, seen + {v.to});
      assert ChildrenIn(heap, heap[v.to], all);
      match heap[v.to]
      case ArrayNode(items) => ItemsExplore(heap, items, seen + {v.to}, all);
      case ObjectNode(entries) => FieldsExplore(heap, entries, seen + {v.to}, all);
    }
  }

  lemma {:induction false} ItemsExplore(heap: Heap, items: seq<Value>, seen: set<Id>, all: set<Id>)
    requires Closed(heap) && (forall v :: v in items ==> Points(heap, v)) && ClosedUnder(heap, all)
    requires forall v :: v in items && IsObject(heap, v) ==> v.to in all
    ensures var o := SanitizedItems(heap, items, seen);
      && Explored(heap, seen, o.seen) && o.seen <= seen + all
      && forall v :: v in items && IsObject(heap, v) ==> v.to in o.seen
    decreases |heap.Keys - seen|, |items| + 1
  {
    if items != [] {
      var first := Sanitized(heap, items[0], seen);
      SanitizedExplores(heap, items[0], seen, all);
      FewerUnseen(heap, seen, first.seen);
      ItemsExplore(heap, items[1..], first.seen, all);
      ExploredJoin(heap, seen, first.seen, SanitizedItems(heap, items[1..], first.seen).seen);
    }
  }

  lemma {:induction false} FieldsExplore(heap: Heap, entries: seq<Entry>, seen: set<Id>, all: set<Id>)
    requires Closed(heap) && (forall e :: e in entries ==> Points(heap, e.value)) && ClosedUnder(heap, all)
    requires forall v :: v in VisibleEntries(entries) && IsObject(heap, v) ==> v.to in all
    ensures var o := SanitizedFields(heap, entries, seen);
      && Explored(heap, seen, o.seen) && o.seen <= seen + all
      && forall v :: v in VisibleEntries(entries) && IsObject(heap, v) ==> v.to in o.seen
    decreases |heap.Keys - seen|, |entries| + 2
  {
    if entries != [] {
      var first := SanitizedField(heap, entries[0], seen);
      if entries[0].key !in REDACTED_KEYS {
        SanitizedExplores(heap, entries[0].value, seen, all);
      }
      FewerUnseen(heap, seen, first.seen);
      FieldsExplore(heap, entries[1..], first.seen, all);
      ExploredJoin(heap, seen, first.seen, SanitizedFields(heap, entries[1..], first.seen).seen);
    }
  }

  /** The copy of `v` made from nothing seen. */
  function Copy(heap: Heap, v: Value): Tree
    requires Closed(heap) && Points(heap, v)
  {
    Sanitized(heap, v, {}).tree
  }

  /**
   The whole contract: redacted at every depth, a true copy, and each object reachable without passing a
   redacted key or an error expanded exactly once - those being the least set with `v` closed under references.
   */
  lemma CopyIsExact(heap: Heap, v: Value)
    requires Closed(heap) && Points(heap, v)
    ensures var t := Copy(heap, v);
      && Redacted(t) && Shows(heap, v, t)
      && NoDuplicates(Expanded(t))
      && var ids := set r | r in Expanded(t);
      && (IsObject(heap, v) ==> v.to in ids) && ClosedUnder(heap, ids)
      && forall all :: ClosedUnder(heap, all) && (IsObject(heap, v) ==> v.to in all) ==> ids <= all
  {
    hide Redacted, Shows;
    SanitizedCopies(heap, v, {});
    var o := Sanitized(heap, v, {});
    var ids := set r | r in Expanded(o.tree);
    assert ids == o.seen;
    forall all | ClosedUnder(heap, all) && (IsObject(heap, v) ==> v.to in all) ensures ids <= all {
      SanitizedExplores(heap, v, {}, all);
    }
    var everything := heap.Keys;
    assert ClosedUnder(heap, everything);
    SanitizedExplores(heap, v, {}, everything);
  }

  // ---------------------------------------------------------------- the circular marker

  function Marks(t: Tree): nat {
    match t
    case Leaf(_) => 0
    case Circular => 1
    case ErrorTree(_, _, _, _) => 0
    case ArrayTree(_, items) => MarksInItems(items)
    case ObjectTree(_, fields) => MarksInFields(fields)
  }

  function MarksInItems(items: seq<Tree>): nat {
    if items == [] then 0 else Marks(items[0]) + MarksInItems(items[1..])
  }

  function MarksInFields(fields: seq<Field>): nat {
    if fields == [] then 0 else Marks(fields[0].tree) + MarksInFields(fields[1..])
  }

  function ObjectRefs(heap: Heap, values: seq<Value>): nat {
    if values == [] then 0 else (if IsObject(heap, values[0]) then 1 else 0) + ObjectRefs(heap, values[1..])
  }

  /** The visible references held by these objects. */
  function RefsFrom(heap: Heap, ids: seq<Id>): nat {
    if ids == [] then 0
    else (if ids[0] in heap then ObjectRefs(heap, Visible(heap[ids[0]])) else 0) + RefsFrom(heap, ids[1..])
  }

  lemma {:induction false} RefsFromConcat(heap: Heap, a: seq<Id>, b: seq<Id>)
    ensures RefsFrom(heap, a + b) == RefsFrom(heap, a) + RefsFrom(heap, b)
  {
    if a == [] {
      assert a + b == b;
    } else {
      RefsFromConcat(heap, a[1..], b);
      assert (a + b)[1..] == a[1..] + b;
    }
  }

  /** Every reference followed either expands its object or leaves a marker. */
  lemma {:induction false} ReferencesAccount(heap: Heap, v: Value, seen: set<Id>)
    requires Closed(heap) && Points(heap, v)
    ensures var t := Sanitized(heap, v, seen).tree;
      (if IsObject(heap, v) then 1 else 0) + RefsFrom(heap, Expanded(t)) == |Expanded(t)| + Marks(t)
    decreases |heap.Keys - seen|, 0
  {
    if IsObject(heap, v) && v.to !in seen {
      FewerUnseen(heap, seen, seen + {v.to});
      var t := Sanitized(heap, v, seen).tree;
      assert Expanded(t)[1..] == if t.ArrayTree? then ExpandedItems(t.items) else ExpandedFields(t.fields);
      match heap[v.to]
      case ArrayNode(items) => ItemsAccount(heap, items, seen + {v.to});
      case ObjectNode(entries) => FieldsAccount(heap, entries, seen + {v.to});
    }
  }

  lemma {:induction false} ItemsAccount(heap: Heap, items: seq<Value>, seen: set<Id>)
    requires Closed(heap) && forall v :: v in items ==> Points(heap, v)
    ensures var ts := SanitizedItems(heap, items, seen).trees;
      ObjectRefs(heap, items) + RefsFrom(heap, ExpandedItems(ts)) == |ExpandedItems(ts)| + MarksInItems(ts)
    decreases |heap.Keys - seen|, |items| + 1
  {
    if items != [] {
      var first := Sanitized(heap, items[0], seen);
      ReferencesAccount(heap, items[0], seen);
      FewerUnseen(heap, seen, first.seen);
      ItemsAccount(heap, items[1..], first.seen);
      var rest := SanitizedItems(heap, items[1..], first.seen).trees;
      assert SanitizedItems(heap, items, seen).trees[1..] == rest;
      RefsFromConcat(heap, Expanded(first.tree), ExpandedItems(rest));
    }
  }

  lemma {:induction false} FieldsAccount(heap: Heap, entries: seq<Entry>, seen: set<Id>)
    requires Closed(heap) && forall e :: e in entries ==> Points(heap, e.value)
    ensures var fs := SanitizedFields(heap, entries, seen).fields;
      ObjectRefs(heap, VisibleEntries(entries)) + RefsFrom(heap, ExpandedFields(fs))
        == |ExpandedFields(fs)| + MarksInFields(fs)
    decreases |heap.Keys - seen|, |entries| + 2
  {
    if entries != [] {
      var fs, visible := SanitizedFields(heap, entries, seen).fields, VisibleEntries(entries[1..]);
      var first := SanitizedField(heap, entries[0], seen);
      if entries[0].key in REDACTED_KEYS {
        assert VisibleEntries(entries) == visible;
        assert Expanded(first.tree) == [] && Marks(first.tree) == 0;
      } else {
        assert VisibleEntries(entries)[1..] == visible;
        ReferencesAccount(heap, entries[0].value, seen);
      }
      FewerUnseen(heap, seen, first.seen);
      FieldsAccount(heap, entries[1..], first.seen);
      var rest := SanitizedFields(heap, entries[1..], first.seen).fields;
      assert fs[0] == Field(entries[0].key, first.tree) && fs[1..] == rest;
      RefsFromConcat(heap, Expanded(first.tree), ExpandedFields(rest));
    }
  }

  lemma RefsWithout(heap: Heap, b: seq<Id>, i: nat)
    requires i < |b|
    ensures RefsFrom(heap, b) == RefsFrom(heap, [b[i]]) + RefsFrom(heap, b[..i] + b[i + 1..])
  {
    hide ObjectRefs;
    var front, back := b[..i], b[i + 1..];
    assert b == front + ([b[i]] + back);
    RefsFromConcat(heap, front, [b[i]] + back);
    RefsFromConcat(heap, [b[i]], back);
    RefsFromConcat(heap, front, back);
  }

  /** The count does not depend on the order in which the objects are listed. */
  lemma {:induction false} RefsOfSameObjects(heap: Heap, a: seq<Id>, b: seq<Id>)
    requires NoDuplicates(a) && NoDuplicates(b) && forall r :: r in a <==> r in b
    ensures |a| == |b| && RefsFrom(heap, a) == RefsFrom(heap, b)
    decreases |a|
  {
    assert b != [] ==> b[0] in b;
    if a != [] {
      assert a[0] in b;
      var i :| 0 <= i < |b| && b[i] == a[0];
      var rest := b[..i] + b[i + 1..];
      SameRest(a, b, i);
      RefsOfSameObjects(heap, a[1..], rest);
      RefsWithout(heap, b, i);
      RefsWithout(heap, a, 0);
      assert a[..0] + a[1..] == a[1..];
    }
  }

  lemma SameRest(a: seq<Id>, b: seq<Id>, i: nat)
    requires NoDuplicates(a) && NoDuplicates(b) && forall r :: r in a <==> r in b
    requires a != [] && i < |b| && b[i] == a[0]
    ensures var rest := b[..i] + b[i + 1..]; NoDuplicates(rest) && forall r :: r in a[1..] <==> r in rest
  {
    var rest := b[..i] + b[i + 1..];
    forall r | r in a[1..] ensures r in rest {
      assert r in a && r != a[0];
      var k :| 0 <= k < |b| && b[k] == r;
      assert rest[if k < i then k else k - 1] == r;
    }
    forall r | r in rest ensures r in a[1..] {
      var k :| 0 <= k < |rest| && rest[k] == r;
      assert r == b[if k < i then k else k + 1];
      assert r in a && r != a[0];
    }
  }

  /** `ids` lists, each once, the objects reachable from the root past no redacted key and no error. */
  ghost predicate ListsReachable(heap: Heap, root: Id, ids: seq<Id>) {
    && NoDuplicates(ids) && root in ids && ClosedUnder(heap, set r | r in ids)
    && forall all: set<Id> :: root in all && ClosedUnder(heap, all) ==> forall r :: r in ids ==> r in all
  }

  /**
   "[Circular]" does not mean a cycle: it appears exactly when the reachable objects hold more references
   than it takes to reach each of them once, shared or cyclic alike.
   */
  lemma MarkedIffShared(heap: Heap, root: Id, ids: seq<Id>)
    requires Closed(heap) && root in heap && !heap[root].ErrorNode? && ListsReachable(heap, root, ids)
    ensures Marks(Copy(heap, Ref(root))) > 0 <==> RefsFrom(heap, ids) > |ids| - 1
  {
    ExpandedListsReachable(heap, root);
    hide *;
    SameListing(heap, root, ids, Expanded(Copy(heap, Ref(root))));
    AccountAlone(heap, root);
  }

  lemma ExpandedListsReachable(heap: Heap, root: Id)
    requires Closed(heap) && root in heap && !heap[root].ErrorNode?
    ensures ListsReachable(heap, root, Expanded(Copy(heap, Ref(root))))
  {
    CopyIsExact(heap, Ref(root));
    hide Redacted, Shows, Copy, Expanded, ClosedUnder;
    var ids := set r | r in Expanded(Copy(heap, Ref(root)));
    assert IsObject(heap, Ref(root));
    forall all: set<Id> | root in all && ClosedUnder(heap, all)
      ensures forall r :: r in Expanded(Copy(heap, Ref(root))) ==> r in all
    {
      assert ids <= all;
    }
  }

  lemma SameListing(heap: Heap, root: Id, a: seq<Id>, b: seq<Id>)
    requires ListsReachable(heap, root, a) && ListsReachable(heap, root, b)
    ensures |a| == |b| && RefsFrom(heap, a) == RefsFrom(heap, b)
  {
    hide ClosedUnder, RefsFrom;
    var inA, inB := set r | r in a, set r | r in b;
    assert root in inA && root in inB;
    RefsOfSameObjects(heap, a, b);
  }

  lemma AccountAlone(heap: Heap, root: Id)
    requires Closed(heap) && root in heap && !heap[root].ErrorNode?
    ensures var t := Copy(heap, Ref(root)); 1 + RefsFrom(heap, Expanded(t)) == |Expanded(t)| + Marks(t)
  {
    ReferencesAccount(heap, Ref(root), {});
  }

  /** An object shared by two elements of an array, with no cycle anywhere, is marked. */
  lemma SharedIsMarked(heap: Heap)
    requires heap == map[0 := ArrayNode([Ref(1), Ref(1)]), 1 := ArrayNode([])]
    ensures Closed(heap) && Copy(heap, Ref(0)) == ArrayTree(0, [ArrayTree(1, []), Circular])
  {
    assert Closed(heap);
    assert Sanitized(heap, Ref(1), {0}) == Outcome(ArrayTree(1, []), {0, 1});
    assert Sanitized(heap, Ref(1), {0, 1}) == Outcome(Circular, {0, 1});
    var items := [Ref(1), Ref(1)];
    assert items[1..] == [Ref(1)] && items[1..][1..] == [];
    assert SanitizedItems(heap, [Ref(1)], {0, 1}) == Items([Circular], {0, 1});
    assert SanitizedItems(heap, items, {0}) == Items([ArrayTree(1, []), Circular], {0, 1});
    assert {} + {0} == {0};
  }

  /** The names under which nothing is ever logged, in exactly this spelling. */
  lemma SecretNames(key: string)
    ensures key in REDACTED_KEYS <==>
      || key == "password" || key == "token" || key == "access_token" || key == "authorization"
      || key == "refreshToken" || key == "refresh_token" || key == "secret" || key == "jwt"
  {
  }

  /**
   What becomes of each entry of an object: its key stays in its place, a secret's value is replaced, any other
   plain value is kept, and of an error just the name, the message, a non-empty code and the stack.
   */
  lemma EntriesAreCopied(heap: Heap, r: Id, i: nat)
    requires Closed(heap) && r in heap && heap[r].ObjectNode? && i < |heap[r].entries|
    ensures var t, e := Copy(heap, Ref(r)), heap[r].entries[i];
      && t.ObjectTree? && t.source == r && |t.fields| == |heap[r].entries| && t.fields[i].key == e.key
      && (e.key in {"password", "token", "access_token", "authorization", "refreshToken", "refresh_token", "secret",
                    "jwt"} ==>
            t.fields[i].tree == Leaf(Str("[REDACTED]")))
      && (e.key !in REDACTED_KEYS && !e.value.Ref? ==> t.fields[i].tree == Leaf(e.value))
      && (e.key !in REDACTED_KEYS && e.value.Ref? && heap[e.value.to].ErrorNode? ==>
            var error := heap[e.value.to];
            t.fields[i].tree == ErrorTree(error.name, error.message,
              if error.code.None? || error.code.value == "" then None else error.code, error.stack))
  {
    assert heap[r].entries[i] in heap[r].entries;
    SanitizedCopies(heap, Ref(r), {});
    CopyOfObject(heap, r);
  }

  /** A copy that begins at an object expands it. */
  lemma CopyOfObject(heap: Heap, r: Id)
    requires Closed(heap) && r in heap && heap[r].ObjectNode?
    ensures Copy(heap, Ref(r)).ObjectTree?
  {
  }

  // ---------------------------------------------------------------- the logger

  /** `trees` and `seen` are where the loop over `items` from `start` stands after its first `i` turns. */
  ghost predicate ItemsSoFar(heap: Heap, items: seq<Value>, start: set<Id>, i: nat, trees: seq<Tree>, seen: set<Id>)
    requires Closed(heap) && i <= |items| && forall v :: v in items ==> Points(heap, v)
  {
    var rest := SanitizedItems(heap, items[i..], seen);
    start <= seen && SanitizedItems(heap, items, start) == Items(trees + rest.trees, rest.seen)
  }

  lemma ItemsEnds(heap: Heap, items: seq<Value>, start: set<Id>, trees: seq<Tree>, seen: set<Id>)
    requires Closed(heap) && forall v :: v in items ==> Points(heap, v)
    ensures ItemsSoFar(heap, items, start, 0, [], start)
    ensures ItemsSoFar(heap, items, start, |items|, trees, seen) ==>
      Items(trees, seen) == SanitizedItems(heap, items, start)
  {
    assert items[0..] == items && items[|items|..] == [];
  }

  lemma ItemsTurn(heap: Heap, items: seq<Value>, start: set<Id>, i: nat, trees: seq<Tree>, seen: set<Id>)
    requires Closed(heap) && i < |items| && forall v :: v in items ==> Points(heap, v)
    requires ItemsSoFar(heap, items, start, i, trees, seen)
    ensures var o := Sanitized(heap, items[i], seen);
      ItemsSoFar(heap, items, start, i + 1, trees + [o.tree], o.seen)
  {
    hide Sanitized, Closed;
    assert items[i..][0] == items[i] && items[i..][1..] == items[i + 1..];
    var o := Sanitized(heap, items[i], seen);
    var rest := SanitizedItems(heap, items[i + 1..], o.seen).trees;
    assert trees + ([o.tree] + rest) == trees + [o.tree] + rest;
  }

  ghost predicate FieldsSoFar(heap: Heap, entries: seq<Entry>, start: set<Id>, i: nat, out: seq<Field>, seen: set<Id>)
    requires Closed(heap) && i <= |entries| && forall e :: e in entries ==> Points(heap, e.value)
  {
    var rest := SanitizedFields(heap, entries[i..], seen);
    start <= seen && SanitizedFields(heap, entries, start) == Fields(out + rest.fields, rest.seen)
  }

  lemma FieldsEnds(heap: Heap, entries: seq<Entry>, start: set<Id>, out: seq<Field>, seen: set<Id>)
    requires Closed(heap) && forall e :: e in entries ==> Points(heap, e.value)
    ensures FieldsSoFar(heap, entries, start, 0, [], start)
    ensures FieldsSoFar(heap, entries, start, |entries|, out, seen) ==>
      Fields(out, seen) == SanitizedFields(heap, entries, start)
  {
    assert entries[0..] == entries && entries[|entries|..] == [];
  }

  lemma FieldsTurn(heap: Heap, entries: seq<Entry>, start: set<Id>, i: nat, out: seq<Field>, seen: set<Id>)
    requires Closed(heap) && i < |entries| && forall e :: e in entries ==> Points(heap, e.value)
    requires FieldsSoFar(heap, entries, start, i, out, seen)
    ensures var o := SanitizedField(heap, entries[i], seen);
      FieldsSoFar(heap, entries, start, i + 1, out + [Field(entries[i].key, o.tree)], o.seen)
  {
    hide SanitizedField, Closed;
    assert entries[i..][0] == entries[i] && entries[i..][1..] == entries[i + 1..];
    var o := SanitizedField(heap, entries[i], seen);
    var rest := SanitizedFields(heap, entries[i + 1..], o.seen).fields;
    assert out + ([Field(entries[i].key, o.tree)] + rest) == out + [Field(entries[i].key, o.tree)] + rest;
  }

  class WeakSet {
    var members: set<Id>

    constructor ()
      ensures members == {}
    {
      members := {};
    }
  }

  class AppLogger {
    method Sanitize(heap: Heap, v: Value, seen: WeakSet) returns (t: Tree)
      requires Closed(heap) && Points(heap, v)
      modifies seen
      ensures Outcome(t, seen.members) == Sanitized(heap, v, old(seen.members))
      decreases |heap.Keys - seen.members|, 0
    {
      if !v.Ref? {
        return Leaf(v);
      }
      if heap[v.to].ErrorNode? {
        return ErrorCopy(heap[v.to]);
      }
      if v.to in seen.members {
        return Circular;
      }
      seen.members := seen.members + {v.to};
      FewerUnseen(heap, old(seen.members), seen.members);
      if heap[v.to].ArrayNode? {
        var trees := SanitizeItems(heap, heap[v.to].items, seen);
        t := ArrayTree(v.to, trees);
      } else {
        var out := SanitizeEntries(heap, heap[v.to].entries, seen);
        t := ObjectTree(v.to, out);
      }
    }

    /** The `map` over an array. */
    method SanitizeItems(heap: Heap, items: seq<Value>, seen: WeakSet) returns (trees: seq<Tree>)
      requires Closed(heap) && forall v :: v in items ==> Points(heap, v)
      modifies seen
      ensures Items(trees, seen.members) == SanitizedItems(heap, items, old(seen.members))
      decreases |heap.Keys - seen.members|, 1
    {
      hide ItemsSoFar, Sanitized, SanitizedItems, Closed;
      trees := [];
      ghost var start := seen.members;
      ItemsEnds(heap, items, start, [], start);
      for i := 0 to |items|
        invariant start <= seen.members && ItemsSoFar(heap, items, start, i, trees, seen.members)
      {
        FewerUnseen(heap, start, seen.members);
        ItemsTurn(heap, items, start, i, trees, seen.members);
        var tree := Sanitize(heap, items[i], seen);
        trees := trees + [tree];
      }
      ItemsEnds(heap, items, start, trees, seen.members);
    }

    /** The loop over an object's entries. */
    method SanitizeEntries(heap: Heap, entries: seq<Entry>, seen: WeakSet) returns (out: seq<Field>)
      requires Closed(heap) && forall e :: e in entries ==> Points(heap, e.value)
      modifies seen
      ensures Fields(out, seen.members) == SanitizedFields(heap, entries, old(seen.members))
      decreases |heap.Keys - seen.members|, 1
    {
      hide FieldsSoFar, Sanitized, SanitizedFields, Closed;
      out := [];
      ghost var start := seen.members;
      FieldsEnds(heap, entries, start, [], start);
      for i := 0 to |entries|
        invariant start <= seen.members && FieldsSoFar(heap, entries, start, i, out, seen.members)
      {
        FewerUnseen(heap, start, seen.members);
        FieldsTurn(heap, entries, start, i, out, seen.members);
        var tree := REDACTED;
        if entries[i].key !in REDACTED_KEYS {
          tree := Sanitize(heap, entries[i].value, seen);
        }
        out := out + [Field(entries[i].key, tree)];
      }
      FieldsEnds(heap, entries, start, out, seen.members);
    }

    /** A call with the default, fresh `seen`. */
    method SanitizeFresh(heap: Heap, v: Value) returns (t: Tree)
      requires Closed(heap) && Points(heap, v)
      ensures t == Copy(heap, v)
    {
      var seen := new WeakSet();
      t := Sanitize(heap, v, seen);
    }
  }
}
