/**
 * The ordering in the endpoint tree (frontend/src/components/EndpointTree.jsx): the
 * operations of a path item by method preference and name, and the paths by name.
 * String.prototype.localeCompare is the parameter `collate`, assumed consistent (Collation).
 */
module EndpointTree {
  import opened Wrappers
  import opened Text
  import opened Json
  import opened Sorting
  import opened Endpoint

  /** One button of a path: the lower-cased method name and the operation object. */
  datatype Operation = Operation(verb: string, operation: Json)

  /** localeCompare as the sort reads it: any two strings compare, and "not after" chains. */
  ghost predicate Collation(collate: (string, string) -> int)
  {
    && (forall a, b :: collate(a, b) <= 0 || collate(b, a) <= 0)
    && (forall a, b, c :: collate(a, b) <= 0 && collate(b, c) <= 0 ==> collate(a, c) <= 0)
  }

  /** The entries of a path item with lower-cased method names (lines 5-9). */
  function Normalized(methods: Methods): (r: seq<Operation>)
    ensures |r| == |methods|
    ensures forall i :: 0 <= i < |r| ==> r[i] == Operation(Lower(methods[i].0), methods[i].1)
  {
    seq(|methods|, i requires 0 <= i < |methods| => Operation(Lower(methods[i].0), methods[i].1))
  }

  /** The comparator of lines 10-19. */
  function Compare(a: Operation, b: Operation, collate: (string, string) -> int): int
  {
    var aIndex := PriorityIndex(a.verb);
    var bIndex := PriorityIndex(b.verb);
    if aIndex == bIndex then collate(a.verb, b.verb)
    else if aIndex == -1 then 1
    else if bIndex == -1 then -1
    else aIndex - bIndex
  }

  /** "The comparator does not put b before a". */
  function Precedes(collate: (string, string) -> int): (Operation, Operation) -> bool
  {
    (a: Operation, b: Operation) => Compare(a, b, collate) <= 0
  }

  /** The preference of a method: its priority index, with unlisted methods after all listed ones. */
  function Rank(verb: string): (r: nat)
    ensures r <= |MethodPriority|
    ensures r == |MethodPriority| <==> PriorityIndex(verb) == -1
    ensures r < |MethodPriority| ==> r == PriorityIndex(verb)
  {
    if PriorityIndex(verb) == -1 then |MethodPriority| else PriorityIndex(verb)
  }

  /** The comparator orders by rank, and by name within a rank. */
  lemma CompareByRank(a: Operation, b: Operation, collate: (string, string) -> int)
    ensures Compare(a, b, collate) <= 0 <==>
      Rank(a.verb) < Rank(b.verb) || (Rank(a.verb) == Rank(b.verb) && collate(a.verb, b.verb) <= 0)
  {
  }

  /** With a consistent localeCompare the comparator is consistent, so the sort is well defined. */
  lemma ComparatorIsConsistent(collate: (string, string) -> int)
    requires Collation(collate)
    ensures TotalPreorder(Precedes(collate))
  {
    var le := Precedes(collate);
    forall a, b ensures le(a, b) || le(b, a) {
      CompareByRank(a, b, collate);
      CompareByRank(b, a, collate);
    }
    forall a, b, c | le(a, b) && le(b, c) ensures le(a, c) {
      CompareByRank(a, b, collate);
      CompareByRank(b, c, collate);
      CompareByRank(a, c, collate);
    }
  }

  /** normalizeOperations (lines 4-20); a missing path item has no entries. */
  function NormalizeOperations(methods: Option<Methods>, collate: (string, string) -> int): seq<Operation>
  {
    SortBy(Normalized(if methods.Some? then methods.value else []), Precedes(collate))
  }

  /**
   * The operations are the path item's entries with lower-cased names, rearranged: every
   * listed method comes before every unlisted one, listed methods come in priority order,
   * and methods of the same priority (the unlisted ones, or names that lower-case alike)
   * in localeCompare order.
   */
  lemma NormalizeOperationsOrder(methods: Option<Methods>, collate: (string, string) -> int)
    requires Collation(collate)
    ensures var r := NormalizeOperations(methods, collate);
      multiset(r) == multiset(Normalized(if methods.Some? then methods.value else []))
    ensures var r := NormalizeOperations(methods, collate);
      forall i :: 0 <= i < |r| ==> Lower(r[i].verb) == r[i].verb
    ensures var r := NormalizeOperations(methods, collate);
      forall i, j :: 0 <= i < j < |r| && PriorityIndex(r[i].verb) == -1 ==> PriorityIndex(r[j].verb) == -1
    ensures var r := NormalizeOperations(methods, collate);
      forall i, j :: 0 <= i < j < |r| && PriorityIndex(r[j].verb) != -1 ==>
        0 <= PriorityIndex(r[i].verb) <= PriorityIndex(r[j].verb)
    ensures var r := NormalizeOperations(methods, collate);
      forall i, j :: 0 <= i < j < |r| && PriorityIndex(r[i].verb) == PriorityIndex(r[j].verb) ==>
        collate(r[i].verb, r[j].verb) <= 0
  {
    var input := Normalized(if methods.Some? then methods.value else []);
    var r := NormalizeOperations(methods, collate);
    ComparatorIsConsistent(collate);
    SortBySorted(input, Precedes(collate));
    forall i | 0 <= i < |r| ensures Lower(r[i].verb) == r[i].verb {
      assert r[i] in multiset(input);
      var k :| 0 <= k < |input| && input[k] == r[i];
      LowerIdempotent(if methods.Some? then methods.value[k].0 else []);
    }
    forall i, j | 0 <= i < j < |r|
      ensures PriorityIndex(r[i].verb) == -1 ==> PriorityIndex(r[j].verb) == -1
      ensures PriorityIndex(r[j].verb) != -1 ==> 0 <= PriorityIndex(r[i].verb) <= PriorityIndex(r[j].verb)
      ensures PriorityIndex(r[i].verb) == PriorityIndex(r[j].verb) ==> collate(r[i].verb, r[j].verb) <= 0
    {
      assert Precedes(collate)(r[i], r[j]);
      CompareByRank(r[i], r[j], collate);
    }
  }

  /** The order of the path entries (line 27): by path, with localeCompare. */
  function PathOrder(collate: (string, string) -> int): ((string, Methods), (string, Methods)) -> bool
  {
    (x: (string, Methods), y: (string, Methods)) => collate(x.0, y.0) <= 0
  }

  /**
   * The entries the tree lists (lines 23-27): none while the document or its `paths` is
   * missing (the waiting message), otherwise the path entries sorted by path.
   */
  function SortedPaths(paths: Option<seq<(string, Methods)>>, collate: (string, string) -> int): Option<seq<(string, Methods)>>
  {
    if paths.None? then None else Some(SortBy(paths.value, PathOrder(collate)))
  }

  /** The listed entries are exactly the document's, each path no later than the ones after it. */
  lemma SortedPathsOrder(paths: Option<seq<(string, Methods)>>, collate: (string, string) -> int)
    requires Collation(collate)
    ensures SortedPaths(paths, collate).Some? <==> paths.Some?
    ensures paths.Some? ==> multiset(SortedPaths(paths, collate).value) == multiset(paths.value)
    ensures paths.Some? ==> var r := SortedPaths(paths, collate).value;
      forall i, j :: 0 <= i < j < |r| ==> collate(r[i].0, r[j].0) <= 0
  {
    if paths.Some? {
      var le := PathOrder(collate);
      forall x, y ensures le(x, y) || le(y, x) {
        assert collate(x.0, y.0) <= 0 || collate(y.0, x.0) <= 0;
      }
      forall x, y, z | le(x, y) && le(y, z) ensures le(x, z) {
        assert collate(x.0, y.0) <= 0 && collate(y.0, z.0) <= 0;
      }
      SortBySorted(paths.value, le);
      var r := SortedPaths(paths, collate).value;
      forall i, j | 0 <= i < j < |r| ensures collate(r[i].0, r[j].0) <= 0 {
        assert le(r[i], r[j]);
      }
    }
  }
}
