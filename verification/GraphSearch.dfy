/** The depth-first search that decides whether a reference adapter still holds
    the default page-state transport somewhere in its object graph. */
module GraphSearch {
  import opened Wrappers

  /** Object identities. */
  type Id = nat

  /** What the search looks at in one object.  A partial exposes its function
      and arguments only; any other object its attributes, its class unless it
      is a function or bound method, and for functions the closure cells and
      the globals its code names.  An empty closure cell has no content. */
  datatype PyObject =
    | Partial(func: Id, args: seq<Id>, keywords: seq<Id>)
    | Plain(
        attributes: seq<Id>,
        classAttributes: seq<(string, Id)>,
        wrapped: Option<Id>,
        boundFunction: Option<Id>,
        closure: seq<Option<Id>>,
        codeNames: Option<seq<string>>,
        globals: map<string, Id>)

  type Heap = map<Id, PyObject>

  const SKIPPED_CLASS_NAMES: set<string> := {"__dict__", "__doc__", "__module__", "__weakref__"}

  function ClassChildren(items: seq<(string, Id)>): seq<Id> {
    if items == [] then []
    else (if items[0].0 in SKIPPED_CLASS_NAMES then [] else [items[0].1]) + ClassChildren(items[1..])
  }

  function CellChildren(cells: seq<Option<Id>>): seq<Id> {
    if cells == [] then []
    else (if cells[0].None? then [] else [cells[0].value]) + CellChildren(cells[1..])
  }

  function GlobalChildren(names: seq<string>, globals: map<string, Id>): seq<Id> {
    if names == [] then []
    else (if names[0] in globals then [globals[names[0]]] else []) + GlobalChildren(names[1..], globals)
  }

  function OptionalChild(o: Option<Id>): seq<Id> {
    if o.None? then [] else [o.value]
  }

  /** The objects the search follows from one object, in the order it does. */
  function Children(o: PyObject): seq<Id> {
    match o
    case Partial(func, args, keywords) => [func] + args + keywords
    case Plain(attributes, classAttributes, wrapped, bound, closure, code, globals) =>
      attributes
      + (if code.None? && bound.None? then ClassChildren(classAttributes) else [])
      + OptionalChild(wrapped)
      + OptionalChild(bound)
      + CellChildren(closure)
      + if code.None? then [] else GlobalChildren(code.value, globals)
  }

  /** Every object mentioned in the heap is in the heap. */
  ghost predicate Closed(heap: Heap) {
    forall x, y :: x in heap && y in Children(heap[x]) ==> y in heap
  }

  // --------------------------------------------------------------- reachability

  ghost predicate Path(heap: Heap, p: seq<Id>) {
    && p != []
    && (forall i :: 0 <= i < |p| ==> p[i] in heap)
    && (forall i :: 0 <= i < |p| - 1 ==> p[i + 1] in Children(heap[p[i]]))
  }

  ghost predicate Reaches(heap: Heap, x: Id, y: Id) {
    exists p :: Path(heap, p) && p[0] == x && p[|p| - 1] == y
  }

  lemma ReachesItself(heap: Heap, x: Id)
    requires x in heap
    ensures Reaches(heap, x, x)
  {
    assert Path(heap, [x]);
  }

  lemma ReachesThrough(heap: Heap, x: Id, child: Id, y: Id)
    requires x in heap && child in Children(heap[x]) && Reaches(heap, child, y)
    ensures Reaches(heap, x, y)
  {
    var p :| Path(heap, p) && p[0] == child && p[|p| - 1] == y;
    assert Path(heap, [x] + p);
  }

  /** Every child of a member of `inner` is in `outer`. */
  ghost predicate Covers(heap: Heap, inner: set<Id>, outer: set<Id>) {
    forall x, y :: x in inner && x in heap && y in Children(heap[x]) ==> y in outer
  }

  /** A path cannot leave a set of objects that holds all their children. */
  lemma {:induction false} PathStaysInside(heap: Heap, inside: set<Id>, p: seq<Id>)
    requires Covers(heap, inside, inside) && Path(heap, p) && p[0] in inside
    ensures p[|p| - 1] in inside
    decreases |p|
  {
    if |p| > 1 {
      assert p[1] in Children(heap[p[0]]);
      assert Path(heap, p[1..]);
      PathStaysInside(heap, inside, p[1..]);
    }
  }

  // --------------------------------------------------------------------- search

  /** One search: the objects seen so far are shared by all its recursive
      visits, also by those that return early. */
  class Search {
    const heap: Heap
    const transport: Id
    var seen: set<Id>

    constructor (heap: Heap, transport: Id)
      ensures this.heap == heap && this.transport == transport && seen == {}
    {
      this.heap, this.transport, seen := heap, transport, {};
    }

    /** Either the transport is found and reachable, or everything newly seen is
        not the transport and has all its children seen. */
    method Visit(value: Id) returns (found: bool)
      requires Closed(heap) && value in heap && seen <= heap.Keys && transport !in seen
      modifies this
      ensures old(seen) <= seen <= heap.Keys && transport !in seen
      ensures found ==> Reaches(heap, value, transport)
      ensures !found ==> value in seen && Covers(heap, seen - old(seen), seen)
      decreases heap.Keys - seen, 0
    {
      if value == transport {
        ReachesItself(heap, value);
        return true;
      }
      if value in seen {
        return false;
      }
      seen := seen + {value};
      found := VisitAll(value, Children(heap[value]));
    }

    method VisitAll(parent: Id, children: seq<Id>) returns (found: bool)
      requires Closed(heap) && parent in seen && seen <= heap.Keys && transport !in seen
      requires children == Children(heap[parent])
      modifies this
      ensures old(seen) <= seen <= heap.Keys && transport !in seen
      ensures found ==> Reaches(heap, parent, transport)
      ensures !found ==> (forall c :: c in children ==> c in seen) && Covers(heap, seen - old(seen), seen)
      decreases heap.Keys - seen, 1
    {
      for i := 0 to |children|
        invariant old(seen) <= seen <= heap.Keys && transport !in seen
        invariant forall j :: 0 <= j < i ==> children[j] in seen
        invariant Covers(heap, seen - old(seen), seen)
      {
        ghost var before := seen;
        found := Visit(children[i]);
        if found {
          ReachesThrough(heap, parent, children[i], transport);
          return;
        }
        assert seen - old(seen) == (before - old(seen)) + (seen - before);
      }
      found := false;
    }
  }

  /** Started with nothing seen, the search answers whether the transport is
      reachable in the object graph. */
  method ReferencesTransport(heap: Heap, transport: Id, value: Id) returns (found: bool)
    requires Closed(heap) && value in heap
    ensures found <==> Reaches(heap, value, transport)
  {
    var search := new Search(heap, transport);
    found := search.Visit(value);
    if !found {
      if Reaches(heap, value, transport) {
        ghost var p :| Path(heap, p) && p[0] == value && p[|p| - 1] == transport;
        assert search.seen - {} == search.seen;
        PathStaysInside(heap, search.seen, p);
      }
    }
  }
}
