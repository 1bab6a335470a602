/**
 * The edge-list graph of the trip planner: a list of vertices and a list of
 * edges, every query a scan over the edge list, and the undirected variant's
 * adjacency rules. Vertices and edges are objects compared by identity.
 */
module Graphs {
  import opened Wrappers

  /** A vertex: an object with an immutable label (`label` is a reserved word, hence `tag`). */
  class Vertex<VL> {
    const tag: VL

    constructor (tag: VL)
      ensures this.tag == tag
    {
      this.tag := tag;
    }
  }

  /** Raised where the source throws IllegalArgumentException, NullPointerException or ConcurrentModificationException. */
  datatype GraphError = NotIncident | NullLabel | ConcurrentModification

  /** An edge (v0, v1); `tag` is None where the source stores a null label. */
  class Edge<VL, EL> {
    const v0: Vertex<VL>
    const v1: Vertex<VL>
    const tag: Option<EL>

    constructor (v0: Vertex<VL>, v1: Vertex<VL>, tag: Option<EL>)
      ensures this.v0 == v0 && this.v1 == v1 && this.tag == tag
    {
      this.v0 := v0;
      this.v1 := v1;
      this.tag := tag;
    }

    /** The endpoint at the other end from `v`; an error when `v` is not an endpoint. */
    function GetV(v: Vertex<VL>): (r: Result<Vertex<VL>, GraphError>)
      ensures r.Success? <==> v == v0 || v == v1
      ensures r.Success? ==> multiset{v, r.value} == multiset{v0, v1}
      ensures r.Failure? ==> r.error == NotIncident
    {
      if v == v0 then Success(v1)
      else if v == v1 then Success(v0)
      else Failure(NotIncident)
    }
  }

  /** Following `GetV` twice from an endpoint comes back to that endpoint. */
  lemma GetVReturns<VL, EL>(e: Edge<VL, EL>, v: Vertex<VL>)
    requires v == e.v0 || v == e.v1
    ensures e.GetV(v).Success? && e.GetV(e.GetV(v).value) == Success(v)
  {
  }

  /** `GetV` at the exit gives the entry and at the entry gives the exit. */
  lemma GetVEnds<VL, EL>(e: Edge<VL, EL>)
    ensures e.GetV(e.v0) == Success(e.v1) && e.GetV(e.v1) == Success(e.v0)
  {
  }

  /*===== Selecting edges from an edge list =====*/

  /** The conditions the source's scans test an edge against. */
  datatype EdgeTest<VL, EL> =
    | Leaves(v: Vertex<VL>)                     // getV0() == v
    | Enters(v: Vertex<VL>)                     // getV1() == v
    | Touches(v: Vertex<VL>)                    // v is an endpoint and the edge is not a self-loop at v
    | Joins(a: Vertex<VL>, b: Vertex<VL>)       // the edge is (a, b)
    | Between(a: Vertex<VL>, b: Vertex<VL>)     // each of a and b is an endpoint
    | Links(a: Vertex<VL>, b: Vertex<VL>)       // Between(a, b) and a != b
    | Not(t: EdgeTest<VL, EL>)
    | Outside(es: seq<Edge<VL, EL>>)            // the edge is not in es

  predicate Passes<VL, EL>(e: Edge<VL, EL>, t: EdgeTest<VL, EL>)
  {
    match t
    case Leaves(v) => e.v0 == v
    case Enters(v) => e.v1 == v
    case Touches(v) => (e.v0 == v || e.v1 == v) && !(e.v0 == v && e.v1 == v)
    case Joins(a, b) => e.v0 == a && e.v1 == b
    case Between(a, b) => (e.v0 == a || e.v1 == a) && (e.v0 == b || e.v1 == b)
    case Links(a, b) => (e.v0 == a || e.v1 == a) && (e.v1 == b || e.v0 == b) && a != b
    case Not(t') => !Passes(e, t')
    case Outside(es) => e !in es
  }

  /** The edges of `es` that pass `t`, in the order of `es`. */
  function Select<VL, EL>(es: seq<Edge<VL, EL>>, t: EdgeTest<VL, EL>): (r: seq<Edge<VL, EL>>)
    ensures |r| <= |es|
    ensures forall i :: 0 <= i < |r| ==> Passes(r[i], t)
  {
    if es == [] then []
    else Select(es[..|es| - 1], t) + (if Passes(es[|es| - 1], t) then [es[|es| - 1]] else [])
  }

  /** An edge is selected exactly when it is in the list and passes the test. */
  lemma {:induction false} SelectMembers<VL, EL>(es: seq<Edge<VL, EL>>, t: EdgeTest<VL, EL>)
    ensures forall e :: e in Select(es, t) <==> e in es && Passes(e, t)
  {
    if es != [] {
      var init := es[..|es| - 1];
      SelectMembers(init, t);
      assert es == init + [es[|es| - 1]];
    }
  }

  /** The exit vertex of each edge, in order. */
  function Tails<VL, EL>(es: seq<Edge<VL, EL>>): (r: seq<Vertex<VL>>)
    ensures |r| == |es| && forall i :: 0 <= i < |es| ==> r[i] == es[i].v0
  {
    if es == [] then [] else Tails(es[..|es| - 1]) + [es[|es| - 1].v0]
  }

  /** The entry vertex of each edge, in order. */
  function Heads<VL, EL>(es: seq<Edge<VL, EL>>): (r: seq<Vertex<VL>>)
    ensures |r| == |es| && forall i :: 0 <= i < |es| ==> r[i] == es[i].v1
  {
    if es == [] then [] else Heads(es[..|es| - 1]) + [es[|es| - 1].v1]
  }

  ghost predicate Distinct<T>(s: seq<T>)
  {
    forall i, j :: 0 <= i < j < |s| ==> s[i] != s[j]
  }

  /** ArrayList.remove(Object): drop the first occurrence of x, if any. */
  function RemoveFirst<T(==)>(s: seq<T>, x: T): (r: seq<T>)
    ensures x !in s ==> r == s
    ensures x in s ==> |r| == |s| - 1
  {
    if s == [] then []
    else if s[0] == x then s[1..]
    else [s[0]] + RemoveFirst(s[1..], x)
  }

  /** Selecting keeps each edge as many times as it occurs, and no other edge. */
  lemma {:induction false} SelectCounts<VL, EL>(es: seq<Edge<VL, EL>>, t: EdgeTest<VL, EL>, e: Edge<VL, EL>)
    ensures multiset(Select(es, t))[e] == if Passes(e, t) then multiset(es)[e] else 0
  {
    if es != [] {
      var init := es[..|es| - 1];
      SelectCounts(init, t, e);
      assert es == init + [es[|es| - 1]];
    }
  }

  /** Selecting distributes over concatenation, so the edge-list order is kept. */
  lemma {:induction false} SelectAppend<VL, EL>(a: seq<Edge<VL, EL>>, b: seq<Edge<VL, EL>>, t: EdgeTest<VL, EL>)
    ensures Select(a + b, t) == Select(a, t) + Select(b, t)
  {
    if b == [] {
      assert a + b == a;
    } else {
      var init, last := b[..|b| - 1], b[|b| - 1];
      assert (a + b)[..|a + b| - 1] == a + init;
      assert (a + b)[|a + b| - 1] == last;
      SelectAppend(a, init, t);
    }
  }

  lemma {:induction false} SelectDistinct<VL, EL>(es: seq<Edge<VL, EL>>, t: EdgeTest<VL, EL>)
    requires Distinct(es)
    ensures Distinct(Select(es, t))
  {
    if es != [] {
      var init := es[..|es| - 1];
      SelectDistinct(init, t);
      SelectMembers(init, t);
      assert es[|es| - 1] !in init;
    }
  }

  /** Filtering out the edges of `a`, then those of `b`, filters out the edges of a + b in one pass. */
  lemma {:induction false} SelectOutside<VL, EL>(es: seq<Edge<VL, EL>>, a: seq<Edge<VL, EL>>, b: seq<Edge<VL, EL>>)
    ensures Select(Select(es, Outside(a)), Outside(b)) == Select(es, Outside(a + b))
  {
    if es != [] {
      var init, last := es[..|es| - 1], es[|es| - 1];
      SelectOutside(init, a, b);
      var s1 := Select(init, Outside(a));
      if last !in a {
        SelectSnoc(s1, last, Outside(b));
      } else {
        assert s1 + [] == s1;
      }
    }
  }

  /** Tests that agree on every edge of a list select the same edges from it. */
  lemma {:induction false} SelectCongruent<VL, EL>(es: seq<Edge<VL, EL>>, t1: EdgeTest<VL, EL>, t2: EdgeTest<VL, EL>)
    requires forall i :: 0 <= i < |es| ==> (Passes(es[i], t1) <==> Passes(es[i], t2))
    ensures Select(es, t1) == Select(es, t2)
  {
    if es != [] {
      SelectCongruent(es[..|es| - 1], t1, t2);
    }
  }

  /** Selecting from a list with one more edge at the end. */
  lemma SelectSnoc<VL, EL>(es: seq<Edge<VL, EL>>, x: Edge<VL, EL>, t: EdgeTest<VL, EL>)
    ensures Select(es + [x], t) == Select(es, t) + if Passes(x, t) then [x] else []
  {
    assert (es + [x])[..|es|] == es;
  }

  /** A selection by a test every edge passes keeps the whole list. */
  lemma {:induction false} SelectAll<VL, EL>(es: seq<Edge<VL, EL>>, t: EdgeTest<VL, EL>)
    requires forall i :: 0 <= i < |es| ==> Passes(es[i], t)
    ensures Select(es, t) == es
  {
    if es != [] {
      var init := es[..|es| - 1];
      forall i | 0 <= i < |init| ensures Passes(init[i], t) {
        assert init[i] == es[i];
      }
      SelectAll(init, t);
      assert es == init + [es[|es| - 1]];
    }
  }

  /** Removing the first occurrence from a list without repeats removes the element outright. */
  lemma {:induction false} RemoveFirstDistinct<VL, EL>(es: seq<Edge<VL, EL>>, x: Edge<VL, EL>)
    requires Distinct(es)
    ensures RemoveFirst(es, x) == Select(es, Outside([x]))
  {
    if es != [] {
      var first, rest := es[0], es[1..];
      DistinctTail(es);
      SelectCons(es, Outside([x]));
      if first == x {
        forall i | 0 <= i < |rest| ensures Passes(rest[i], Outside([x])) {
          assert rest[i] in rest;
        }
        SelectAll(rest, Outside([x]));
      } else {
        RemoveFirstDistinct(rest, x);
      }
    }
  }

  /** Selecting from a non-empty list: its first edge if it passes, then the selection from the rest. */
  lemma SelectCons<VL, EL>(es: seq<Edge<VL, EL>>, t: EdgeTest<VL, EL>)
    requires es != []
    ensures Select(es, t) == (if Passes(es[0], t) then [es[0]] else []) + Select(es[1..], t)
  {
    var head, rest := [es[0]], es[1..];
    assert es == head + rest;
    SelectAppend(head, rest, t);
    assert head[..0] == [];
    assert Select(head, t) == if Passes(es[0], t) then head else [];
  }

  /** In a list without repeats, RemoveFirst drops exactly x when present. */
  lemma {:induction false} RemoveFirstFacts<T>(s: seq<T>, x: T)
    requires Distinct(s)
    ensures Distinct(RemoveFirst(s, x))
    ensures x !in RemoveFirst(s, x)
    ensures forall y :: y in RemoveFirst(s, x) <==> y in s && y != x
    ensures |RemoveFirst(s, x)| == if x in s then |s| - 1 else |s|
  {
    if s != [] {
      var rest := s[1..];
      DistinctTail(s);
      RemoveFirstFacts(rest, x);
      assert s == [s[0]] + rest;
      if s[0] != x {
        var r := RemoveFirst(rest, x);
        assert s[0] !in rest;
        forall i, j | 0 <= i < j < |[s[0]] + r| ensures ([s[0]] + r)[i] != ([s[0]] + r)[j] {
          if i > 0 {
            assert ([s[0]] + r)[i] == r[i - 1];
          }
        }
      }
    }
  }

  /** One more removal from a list without repeats extends the set of edges filtered out. */
  lemma RemoveStep<VL, EL>(start: seq<Edge<VL, EL>>, gone: seq<Edge<VL, EL>>, i: nat)
    requires Distinct(start) && i < |gone|
    ensures RemoveFirst(Select(start, Outside(gone[..i])), gone[i]) == Select(start, Outside(gone[..i + 1]))
    ensures Distinct(Select(start, Outside(gone[..i + 1])))
  {
    assert gone[..i + 1] == gone[..i] + [gone[i]];
    RemoveOne(start, gone[..i], gone[i]);
  }

  /** Removing x from the edges outside g is keeping the edges outside g + [x]. */
  lemma RemoveOne<VL, EL>(start: seq<Edge<VL, EL>>, g: seq<Edge<VL, EL>>, x: Edge<VL, EL>)
    requires Distinct(start)
    ensures RemoveFirst(Select(start, Outside(g)), x) == Select(start, Outside(g + [x]))
    ensures Distinct(Select(start, Outside(g + [x])))
  {
    var es := Select(start, Outside(g));
    SelectDistinct(start, Outside(g));
    RemoveFirstDistinct(es, x);
    SelectOutside(start, g, [x]);
    SelectDistinct(start, Outside(g + [x]));
  }

  lemma DistinctTail<T>(s: seq<T>)
    requires Distinct(s) && s != []
    ensures Distinct(s[1..]) && s[0] !in s[1..]
  {
    forall i, j | 0 <= i < j < |s| - 1 ensures s[1..][i] != s[1..][j] {
      assert s[1..][i] == s[i + 1] && s[1..][j] == s[j + 1];
    }
  }

  /** cmp is a total preorder on the labels ls, as the Comparator contract (sign of compare) requires. */
  ghost predicate IsComparator<L>(cmp: (L, L) -> int, ls: set<L>)
  {
    && (forall a, b :: a in ls && b in ls ==> cmp(a, b) <= 0 || cmp(b, a) <= 0)
    && (forall a, b, c {:trigger Chains(cmp, a, b, c)} :: a in ls && b in ls && c in ls ==> Chains(cmp, a, b, c))
  }

  /** Transitivity of cmp at one triple (instantiated on demand in proofs). */
  ghost predicate Chains<L>(cmp: (L, L) -> int, a: L, b: L, c: L)
  {
    cmp(a, b) <= 0 && cmp(b, c) <= 0 ==> cmp(a, c) <= 0
  }

  /** The labels of the edges in es. */
  ghost function Labels<VL, EL>(es: seq<Edge<VL, EL>>): set<Option<EL>>
  {
    set e | e in es :: e.tag
  }

  /** Labels appear in non-decreasing order under cmp. */
  ghost predicate SortedBy<VL, EL>(es: seq<Edge<VL, EL>>, cmp: (Option<EL>, Option<EL>) -> int)
  {
    forall i, j :: 0 <= i < j < |es| ==> cmp(es[i].tag, es[j].tag) <= 0
  }

  /** Inserts e into a list after every edge whose label is not above e's (a stable insertion). */
  function Insert<VL, EL>(es: seq<Edge<VL, EL>>, e: Edge<VL, EL>, cmp: (Option<EL>, Option<EL>) -> int): (r: seq<Edge<VL, EL>>)
    ensures |r| == |es| + 1
  {
    if es == [] then [e]
    else if cmp(es[0].tag, e.tag) > 0 then [e] + es
    else [es[0]] + Insert(es[1..], e, cmp)
  }

  /** Inserting into a sorted list keeps it sorted and adds exactly e. */
  lemma {:induction false} InsertSorted<VL, EL>(es: seq<Edge<VL, EL>>, e: Edge<VL, EL>, cmp: (Option<EL>, Option<EL>) -> int)
    requires IsComparator(cmp, Labels(es + [e])) && SortedBy(es, cmp)
    ensures SortedBy(Insert(es, e, cmp), cmp)
  {
    if es == [] {
    } else if cmp(es[0].tag, e.tag) > 0 {
      InsertFront(es, e, cmp);
    } else {
      TailSorted(es, e, cmp);
      InsertSorted(es[1..], e, cmp);
      ConsSorted(es, e, cmp);
    }
  }

  /** The tail of a sorted list is sorted, and cmp is still a comparator on its labels and e's. */
  lemma TailSorted<VL, EL>(es: seq<Edge<VL, EL>>, e: Edge<VL, EL>, cmp: (Option<EL>, Option<EL>) -> int)
    requires es != [] && IsComparator(cmp, Labels(es + [e])) && SortedBy(es, cmp)
    ensures IsComparator(cmp, Labels(es[1..] + [e])) && SortedBy(es[1..], cmp)
  {
    var rest := es[1..];
    LabelsOfTail(es, e);
    ComparatorSubset(cmp, Labels(es + [e]), Labels(rest + [e]));
    forall i, j | 0 <= i < j < |rest| ensures cmp(rest[i].tag, rest[j].tag) <= 0 {
      assert rest[i] == es[i + 1] && rest[j] == es[j + 1];
    }
  }

  /** The head of a sorted list, not above e, in front of the sorted insertion into its tail. */
  lemma ConsSorted<VL, EL>(es: seq<Edge<VL, EL>>, e: Edge<VL, EL>, cmp: (Option<EL>, Option<EL>) -> int)
    requires es != [] && SortedBy(es, cmp) && cmp(es[0].tag, e.tag) <= 0
    requires SortedBy(Insert(es[1..], e, cmp), cmp)
    ensures SortedBy([es[0]] + Insert(es[1..], e, cmp), cmp)
  {
    BelowInserted(es, e, cmp);
    ConsBelow(es[0], Insert(es[1..], e, cmp), cmp);
  }

  /** An edge not above any edge of a sorted list, put in front of it, keeps it sorted. */
  lemma ConsBelow<VL, EL>(h: Edge<VL, EL>, es: seq<Edge<VL, EL>>, cmp: (Option<EL>, Option<EL>) -> int)
    requires SortedBy(es, cmp) && forall i :: 0 <= i < |es| ==> cmp(h.tag, es[i].tag) <= 0
    ensures SortedBy([h] + es, cmp)
  {
    var r := [h] + es;
    forall i, j | 0 <= i < j < |r| ensures cmp(r[i].tag, r[j].tag) <= 0 {
      assert r[j] == es[j - 1];
      if i > 0 {
        assert r[i] == es[i - 1];
      }
    }
  }

  /** Inserting adds exactly e. */
  lemma {:induction false} InsertPermutes<VL, EL>(es: seq<Edge<VL, EL>>, e: Edge<VL, EL>, cmp: (Option<EL>, Option<EL>) -> int)
    ensures multiset(Insert(es, e, cmp)) == multiset(es) + multiset{e}
  {
    if es != [] && cmp(es[0].tag, e.tag) <= 0 {
      InsertPermutes(es[1..], e, cmp);
      assert es == [es[0]] + es[1..];
    }
  }

  /** An edge whose label is below the head of a sorted list may go in front of it. */
  lemma InsertFront<VL, EL>(es: seq<Edge<VL, EL>>, e: Edge<VL, EL>, cmp: (Option<EL>, Option<EL>) -> int)
    requires IsComparator(cmp, Labels(es + [e])) && SortedBy(es, cmp)
    requires es != [] && cmp(es[0].tag, e.tag) > 0
    ensures SortedBy([e] + es, cmp)
  {
    BelowAll(es, e, cmp);
    ConsBelow(e, es, cmp);
  }

  /** Below the head of a sorted list is below all of it. */
  lemma BelowAll<VL, EL>(es: seq<Edge<VL, EL>>, e: Edge<VL, EL>, cmp: (Option<EL>, Option<EL>) -> int)
    requires IsComparator(cmp, Labels(es + [e])) && SortedBy(es, cmp)
    requires es != [] && cmp(es[0].tag, e.tag) > 0
    ensures forall i :: 0 <= i < |es| ==> cmp(e.tag, es[i].tag) <= 0
  {
    assert e in es + [e] && es[0] in es + [e];
    assert cmp(e.tag, es[0].tag) <= 0;
    forall i | 0 < i < |es| ensures cmp(e.tag, es[i].tag) <= 0 {
      assert es[i] in es + [e];
      assert Chains(cmp, e.tag, es[0].tag, es[i].tag);
    }
  }

  lemma LabelsOfTail<VL, EL>(es: seq<Edge<VL, EL>>, e: Edge<VL, EL>)
    requires es != []
    ensures Labels(es[1..] + [e]) <= Labels(es + [e])
  {
    forall x | x in es[1..] + [e] ensures x in es + [e] {
    }
  }

  lemma ComparatorSubset<L>(cmp: (L, L) -> int, big: set<L>, small: set<L>)
    requires IsComparator(cmp, big) && small <= big
    ensures IsComparator(cmp, small)
  {
  }

  /** The head of a sorted list is not above anything inserting into its tail gives. */
  lemma BelowInserted<VL, EL>(es: seq<Edge<VL, EL>>, e: Edge<VL, EL>, cmp: (Option<EL>, Option<EL>) -> int)
    requires es != [] && SortedBy(es, cmp) && cmp(es[0].tag, e.tag) <= 0
    ensures forall i :: 0 <= i < |Insert(es[1..], e, cmp)| ==> cmp(es[0].tag, Insert(es[1..], e, cmp)[i].tag) <= 0
  {
    var rest := es[1..];
    var ins := Insert(rest, e, cmp);
    InsertElems(rest, e, cmp);
    forall i | 0 <= i < |ins| ensures cmp(es[0].tag, ins[i].tag) <= 0 {
      if ins[i] != e {
        var k :| 0 <= k < |rest| && rest[k] == ins[i];
        assert es[k + 1] == ins[i];
      }
    }
  }

  lemma {:induction false} InsertElems<VL, EL>(es: seq<Edge<VL, EL>>, e: Edge<VL, EL>, cmp: (Option<EL>, Option<EL>) -> int)
    ensures forall i :: 0 <= i < |Insert(es, e, cmp)| ==> Insert(es, e, cmp)[i] in es || Insert(es, e, cmp)[i] == e
  {
    if es != [] && cmp(es[0].tag, e.tag) <= 0 {
      InsertElems(es[1..], e, cmp);
      var ins := Insert(es, e, cmp);
      forall i | 0 <= i < |ins| ensures ins[i] in es || ins[i] == e {
        if i > 0 {
          assert ins[i] == Insert(es[1..], e, cmp)[i - 1];
        }
      }
    }
  }

  /*===== The graph =====*/

  /**
   * A graph holding its vertices and edges in two lists. `directed` selects the
   * adjacency rules: the base class's for a directed graph, the overrides of
   * UndirectedGraph otherwise.
   */
  class Graph<VL, EL(==)> {
    const directed: bool
    var vertices: seq<Vertex<VL>>
    var edges: seq<Edge<VL, EL>>

    /** Every vertex and every edge is held once: each was a fresh object when added. */
    ghost predicate Valid()
      reads this
    {
      Distinct(vertices) && Distinct(edges)
    }

    /** An empty directed graph. */
    constructor Directed()
      ensures Valid() && directed && vertices == [] && edges == []
    {
      directed := true;
      vertices := [];
      edges := [];
    }

    /** An empty undirected graph; `isDirected()` is false for it. */
    constructor Undirected()
      ensures Valid() && !directed && vertices == [] && edges == []
    {
      directed := false;
      vertices := [];
      edges := [];
    }

    /** Adds a new isolated vertex labelled `tag`. */
    method AddVertex(tag: VL) returns (v: Vertex<VL>)
      requires Valid()
      modifies this
      ensures Valid() && fresh(v) && v.tag == tag
      ensures vertices == old(vertices) + [v] && edges == old(edges)
    {
      v := new Vertex(tag);
      vertices := vertices + [v];
    }

    /** Adds a new edge (from, to) labelled `tag` at the end of the edge list. */
    method AddEdge(from: Vertex<VL>, to: Vertex<VL>, tag: EL) returns (e: Edge<VL, EL>)
      requires Valid()
      modifies this
      ensures Valid() && fresh(e) && e.v0 == from && e.v1 == to && e.tag == Some(tag)
      ensures edges == old(edges) + [e] && vertices == old(vertices)
    {
      e := new Edge(from, to, Some(tag));
      edges := edges + [e];
    }

    /** Adds a new edge (from, to) with a null label at the end of the edge list. */
    method AddUnlabelledEdge(from: Vertex<VL>, to: Vertex<VL>) returns (e: Edge<VL, EL>)
      requires Valid()
      modifies this
      ensures Valid() && fresh(e) && e.v0 == from && e.v1 == to && e.tag == None
      ensures edges == old(edges) + [e] && vertices == old(vertices)
    {
      e := new Edge(from, to, None);
      edges := edges + [e];
    }

    /** The test an out-edge of v passes under this graph's adjacency rules. */
    function OutTest(v: Vertex<VL>): EdgeTest<VL, EL>
    {
      if directed then Leaves(v) else Touches(v)
    }

    /** The test an in-edge of v passes under this graph's adjacency rules. */
    function InTest(v: Vertex<VL>): EdgeTest<VL, EL>
    {
      if directed then Enters(v) else Touches(v)
    }

    /** The test `contains(u, v)` looks for. */
    function ContainsTest(u: Vertex<VL>, v: Vertex<VL>): EdgeTest<VL, EL>
    {
      if directed then Joins(u, v) else Links(u, v)
    }

    /** Scans the edge list and keeps the edges passing t, in order. */
    method Scan(t: EdgeTest<VL, EL>) returns (r: seq<Edge<VL, EL>>)
      ensures r == Select(edges, t)
    {
      r := [];
      var i := 0;
      while i < |edges|
        invariant 0 <= i <= |edges|
        invariant r == Select(edges[..i], t)
      {
        assert edges[..i + 1][..i] == edges[..i];
        if Passes(edges[i], t) {
          r := r + [edges[i]];
        }
        i := i + 1;
      }
      assert edges[..i] == edges;
    }

    /** outEdges(v): the edges leaving v (directed), or incident to v and not a self-loop at v (undirected). */
    method OutEdges(v: Vertex<VL>) returns (r: seq<Edge<VL, EL>>)
      ensures r == Select(edges, OutTest(v))
    {
      r := Scan(OutTest(v));
    }

    /** inEdges(v): the edges entering v (directed), or the same list as outEdges(v) (undirected). */
    method InEdges(v: Vertex<VL>) returns (r: seq<Edge<VL, EL>>)
      ensures r == Select(edges, InTest(v))
    {
      if directed {
        r := Scan(Enters(v));
      } else {
        r := OutEdges(v);
      }
    }

    /** outDegree(v): the number of out-edges of v. */
    method OutDegree(v: Vertex<VL>) returns (n: nat)
      ensures n == |Select(edges, OutTest(v))|
    {
      n := 0;
      if directed {
        var i := 0;
        while i < |edges|
          invariant 0 <= i <= |edges|
          invariant n == |Select(edges[..i], Leaves(v))|
        {
          assert edges[..i + 1][..i] == edges[..i];
          if edges[i].v0 == v {
            n := n + 1;
          }
          i := i + 1;
        }
        assert edges[..i] == edges;
      } else {
        var es := OutEdges(v);
        SelectMembers(edges, Touches(v));
        var i := 0;
        while i < |es|
          invariant 0 <= i <= |es|
          invariant n == i
        {
          assert es[i] in Select(edges, Touches(v));
          if es[i].v0 == v || es[i].v1 == v {
            n := n + 1;
          }
          i := i + 1;
        }
      }
    }

    /** inDegree(v): the number of in-edges of v; outDegree(v) when undirected. */
    method InDegree(v: Vertex<VL>) returns (n: nat)
      ensures n == |Select(edges, InTest(v))|
    {
      if directed {
        n := 0;
        var i := 0;
        while i < |edges|
          invariant 0 <= i <= |edges|
          invariant n == |Select(edges[..i], Enters(v))|
        {
          assert edges[..i + 1][..i] == edges[..i];
          if edges[i].v1 == v {
            n := n + 1;
          }
          i := i + 1;
        }
        assert edges[..i] == edges;
      } else {
        n := OutDegree(v);
      }
    }

    /** degree(v): a synonym of outDegree(v). */
    method Degree(v: Vertex<VL>) returns (n: nat)
      ensures n == |Select(edges, OutTest(v))|
    {
      n := OutDegree(v);
    }

    /** contains(u, v): whether some edge is (u, v); undirected, whether some edge joins u and v in either orientation and u != v. */
    method Contains(u: Vertex<VL>, v: Vertex<VL>) returns (r: bool)
      ensures r <==> exists i :: 0 <= i < |edges| && Passes(edges[i], ContainsTest(u, v))
    {
      var t := ContainsTest(u, v);
      var i := 0;
      while i < |edges|
        invariant 0 <= i <= |edges|
        invariant forall k :: 0 <= k < i ==> !Passes(edges[k], t)
      {
        var e := edges[i];
        if (directed && e.v0 == u && e.v1 == v)
          || (!directed && (e.v0 == u || e.v1 == u) && (e.v1 == v || e.v0 == v) && u != v)
        {
          return true;
        }
        i := i + 1;
      }
      return false;
    }

    /**
     * contains(u, v, label): scans for the first edge that passes `contains(u, v)`'s test
     * and either carries `tag` (true) or carries a null label, on which the source's
     * `getLabel().equals(label)` throws (NullLabel).
     */
    method ContainsLabelled(u: Vertex<VL>, v: Vertex<VL>, tag: EL) returns (r: Result<bool, GraphError>)
      ensures r == LabelScan(edges, ContainsTest(u, v), tag)
    {
      var t := ContainsTest(u, v);
      var i := 0;
      while i < |edges|
        invariant 0 <= i <= |edges|
        invariant LabelScan(edges, t, tag) == LabelScan(edges[i..], t, tag)
      {
        var e := edges[i];
        assert edges[i..] == [e] + edges[i + 1..];
        if Passes(e, t) {
          if e.tag.None? {
            return Failure(NullLabel);
          } else if e.tag.value == tag {
            return Success(true);
          }
        }
        i := i + 1;
      }
      return Success(false);
    }

    /** successors(v): the entry vertex of each out-edge, in edge-list order. */
    method Successors(v: Vertex<VL>) returns (r: seq<Vertex<VL>>)
      ensures r == Heads(Select(edges, OutTest(v)))
    {
      var es := OutEdges(v);
      r := [];
      var i := 0;
      while i < |es|
        invariant 0 <= i <= |es|
        invariant r == Heads(es[..i])
      {
        assert es[..i + 1][..i] == es[..i];
        r := r + [es[i].v1];
        i := i + 1;
      }
      assert es[..i] == es;
    }

    /** predecessors(v): the exit vertex of each in-edge (directed); successors(v) (undirected). */
    method Predecessors(v: Vertex<VL>) returns (r: seq<Vertex<VL>>)
      ensures r == if directed then Tails(Select(edges, Enters(v))) else Heads(Select(edges, Touches(v)))
    {
      if directed {
        var es := InEdges(v);
        r := [];
        var i := 0;
        while i < |es|
          invariant 0 <= i <= |es|
          invariant r == Tails(es[..i])
        {
          assert es[..i + 1][..i] == es[..i];
          r := r + [es[i].v0];
          i := i + 1;
        }
        assert es[..i] == es;
      } else {
        r := Successors(v);
      }
    }

    /** Removes each edge of `gone` (a selection from the edge list) with ArrayList.remove. */
    method RemoveEach(gone: seq<Edge<VL, EL>>, ghost t: EdgeTest<VL, EL>)
      requires Valid() && gone == Select(edges, t)
      modifies this
      ensures Valid() && vertices == old(vertices)
      ensures edges == Select(old(edges), Not(t))
    {
      ghost var start := edges;
      SelectAll(start, Outside([]));
      var i := 0;
      while i < |gone|
        invariant 0 <= i <= |gone| && Valid() && vertices == old(vertices)
        invariant edges == Select(start, Outside(gone[..i]))
      {
        RemoveStep(start, gone, i);
        edges := RemoveFirst(edges, gone[i]);
        i := i + 1;
      }
      assert gone[..i] == gone;
      SelectMembers(start, t);
      SelectCongruent(start, Outside(gone), Not(t));
    }

    /** remove(v): drops v and, through outEdges(v) (then inEdges(v) when directed), its edges. */
    method RemoveVertex(v: Vertex<VL>)
      requires Valid()
      modifies this
      ensures Valid()
      ensures vertices == RemoveFirst(old(vertices), v)
      ensures directed ==> edges == Select(Select(old(edges), Not(Leaves(v))), Not(Enters(v)))
      ensures !directed ==> edges == Select(old(edges), Not(Touches(v)))
      ensures |vertices| == if v in old(vertices) then |old(vertices)| - 1 else |old(vertices)|
      ensures v !in vertices
      ensures directed ==> forall e :: e in edges ==> e.v0 != v && e.v1 != v
      ensures !directed ==> forall e :: e in edges && (e.v0 == v || e.v1 == v) ==> e.v0 == e.v1
      ensures forall e :: e in old(edges) && e.v0 != v && e.v1 != v ==> e in edges
    {
      ghost var es := edges;
      RemoveFirstFacts(vertices, v);
      vertices := RemoveFirst(vertices, v);
      if directed {
        var outs := OutEdges(v);
        RemoveEach(outs, Leaves(v));
        var ins := InEdges(v);
        RemoveEach(ins, Enters(v));
        assert edges == Select(Select(es, Not(Leaves(v))), Not(Enters(v)));
        DirectedRemoval(es, v);
      } else {
        var outs := OutEdges(v);
        RemoveEach(outs, Touches(v));
        assert edges == Select(es, Not(Touches(v)));
        UndirectedRemoval(es, v);
      }
    }

    /** remove(e): removes e only when both of its endpoints are vertices of the graph. */
    method RemoveEdge(e: Edge<VL, EL>)
      requires Valid()
      modifies this
      ensures Valid() && vertices == old(vertices)
      ensures edges == if e.v0 in vertices && e.v1 in vertices then RemoveFirst(old(edges), e) else old(edges)
      ensures e.v0 in vertices && e.v1 in vertices ==> e !in edges && forall x :: x in edges <==> x in old(edges) && x != e
    {
      var v0 := e.v0;
      var other := e.GetV(v0);
      var v1 := other.value;
      if v0 in vertices && v1 in vertices {
        RemoveFirstFacts(edges, e);
        edges := RemoveFirst(edges, e);
      }
    }

    /**
     * remove(v1, v2): removes every edge (v1, v2) (directed), or every edge with both
     * v1 and v2 as endpoints (undirected); the other edges keep their order.
     */
    method RemoveBetween(v1: Vertex<VL>, v2: Vertex<VL>)
      requires Valid()
      modifies this
      ensures Valid() && vertices == old(vertices)
      ensures edges == Select(old(edges), Not(if directed then Joins(v1, v2) else Between(v1, v2)))
      ensures forall e :: e in edges ==> !Passes(e, ContainsTest(v1, v2))
    {
      var t: EdgeTest<VL, EL> := if directed then Joins(v1, v2) else Between(v1, v2);
      var kept := Scan(Not(t));
      SelectDistinct(edges, Not(t));
      SelectMembers(edges, Not(t));
      edges := kept;
      forall e | e in edges ensures !Passes(e, ContainsTest(v1, v2)) {
        assert !Passes(e, t);
      }
    }

    /** orderEdges(cmp): sorts the edge list by label under cmp, keeping the same edges. */
    method OrderEdges(cmp: (Option<EL>, Option<EL>) -> int)
      requires Valid() && IsComparator(cmp, Labels(edges))
      modifies this
      ensures Valid() && vertices == old(vertices)
      ensures SortedBy(edges, cmp) && multiset(edges) == multiset(old(edges))
    {
      var es := edges;
      var sorted := [];
      var i := 0;
      while i < |es|
        invariant 0 <= i <= |es|
        invariant SortedBy(sorted, cmp) && multiset(sorted) == multiset(es[..i])
        invariant Valid() && vertices == old(vertices) && edges == es
      {
        assert es[..i + 1] == es[..i] + [es[i]];
        assert Labels(sorted + [es[i]]) <= Labels(es) by {
          forall x | x in sorted + [es[i]] ensures x in es {
            if x in sorted {
              assert x in multiset(es[..i]);
            }
          }
        }
        ComparatorSubset(cmp, Labels(es), Labels(sorted + [es[i]]));
        InsertSorted(sorted, es[i], cmp);
        InsertPermutes(sorted, es[i], cmp);
        sorted := Insert(sorted, es[i], cmp);
        i := i + 1;
      }
      assert es[..i] == es;
      DistinctByMultiset(es, sorted);
      edges := sorted;
    }
  }

  /** The result of contains(u, v, label) on the edge list es, with t the test for (u, v). */
  function LabelScan<VL, EL(==)>(es: seq<Edge<VL, EL>>, t: EdgeTest<VL, EL>, tag: EL): (r: Result<bool, GraphError>)
    ensures r == Success(true) ==> exists e :: e in es && Passes(e, t) && e.tag == Some(tag)
    ensures r.Failure? ==> exists e :: e in es && Passes(e, t) && e.tag.None?
  {
    if es == [] then Success(false)
    else if Passes(es[0], t) && es[0].tag.None? then Failure(NullLabel)
    else if Passes(es[0], t) && es[0].tag == Some(tag) then Success(true)
    else LabelScan(es[1..], t, tag)
  }

  /** The labelled scan succeeds only on an edge that passes the test and carries the label. */
  lemma {:induction false} LabelScanFound<VL, EL>(es: seq<Edge<VL, EL>>, t: EdgeTest<VL, EL>, tag: EL)
    ensures LabelScan(es, t, tag) == Success(true) ==> exists i :: 0 <= i < |es| && Passes(es[i], t) && es[i].tag == Some(tag)
    ensures LabelScan(es, t, tag) == Failure(NullLabel) ==> exists i :: 0 <= i < |es| && Passes(es[i], t) && es[i].tag == None
  {
    if es != [] && !(Passes(es[0], t) && (es[0].tag.None? || es[0].tag == Some(tag))) {
      LabelScanFound(es[1..], t, tag);
      if LabelScan(es[1..], t, tag) == Success(true) {
        var i :| 0 <= i < |es[1..]| && Passes(es[1..][i], t) && es[1..][i].tag == Some(tag);
        assert es[i + 1] == es[1..][i];
      }
      if LabelScan(es[1..], t, tag) == Failure(NullLabel) {
        var i :| 0 <= i < |es[1..]| && Passes(es[1..][i], t) && es[1..][i].tag == None;
        assert es[i + 1] == es[1..][i];
      }
    }
  }

  /**
   * When every edge passing the test carries a label, contains(u, v, label) is
   * plain existence of a passing edge with that label.
   */
  lemma {:induction false} LabelScanNoNulls<VL, EL>(es: seq<Edge<VL, EL>>, t: EdgeTest<VL, EL>, tag: EL)
    requires forall i :: 0 <= i < |es| && Passes(es[i], t) ==> es[i].tag.Some?
    ensures LabelScan(es, t, tag) == Success(exists i :: 0 <= i < |es| && Passes(es[i], t) && es[i].tag == Some(tag))
  {
    if es != [] {
      var rest := es[1..];
      assert forall i :: 0 <= i < |rest| ==> rest[i] == es[i + 1];
      LabelScanNoNulls(rest, t, tag);
      if !(Passes(es[0], t) && es[0].tag == Some(tag)) {
        if exists i :: 0 <= i < |es| && Passes(es[i], t) && es[i].tag == Some(tag) {
          var i :| 0 <= i < |es| && Passes(es[i], t) && es[i].tag == Some(tag);
          assert rest[i - 1] == es[i];
        }
      }
    }
  }

  /** The undirected labelled contains is symmetric in its two vertices. */
  lemma {:induction false} LinksSymmetric<VL, EL>(es: seq<Edge<VL, EL>>, u: Vertex<VL>, v: Vertex<VL>, tag: EL)
    ensures LabelScan(es, Links(u, v), tag) == LabelScan(es, Links(v, u), tag)
    ensures forall i :: 0 <= i < |es| ==> (Passes(es[i], Links(u, v)) <==> Passes(es[i], Links(v, u)))
  {
    if es != [] {
      LinksSymmetric(es[1..], u, v, tag);
    }
  }

  /** The undirected contains(u, u), labelled or not, is false even when u has a self-loop. */
  lemma {:induction false} NoLinkToSelf<VL, EL>(es: seq<Edge<VL, EL>>, u: Vertex<VL>, tag: EL)
    ensures LabelScan(es, Links(u, u), tag) == Success(false)
    ensures forall i :: 0 <= i < |es| ==> !Passes(es[i], Links(u, u))
  {
    if es != [] {
      NoLinkToSelf(es[1..], u, tag);
    }
  }

  /** successors(v) (directed) lists w exactly when some edge is (v, w); predecessors(w) lists v likewise. */
  lemma DirectedNeighbours<VL, EL>(es: seq<Edge<VL, EL>>, v: Vertex<VL>, w: Vertex<VL>)
    ensures w in Heads(Select(es, Leaves(v))) <==> exists i :: 0 <= i < |es| && es[i].v0 == v && es[i].v1 == w
    ensures v in Tails(Select(es, Enters(w))) <==> exists i :: 0 <= i < |es| && es[i].v0 == v && es[i].v1 == w
  {
    HeadsOfLeaving(es, v, w);
    TailsOfEntering(es, v, w);
  }

  lemma HeadsOfLeaving<VL, EL>(es: seq<Edge<VL, EL>>, v: Vertex<VL>, w: Vertex<VL>)
    ensures w in Heads(Select(es, Leaves(v))) <==> exists i :: 0 <= i < |es| && es[i].v0 == v && es[i].v1 == w
  {
    var outs := Select(es, Leaves(v));
    SelectMembers(es, Leaves(v));
    if exists i :: 0 <= i < |es| && es[i].v0 == v && es[i].v1 == w {
      var i :| 0 <= i < |es| && es[i].v0 == v && es[i].v1 == w;
      assert es[i] in outs;
      var k :| 0 <= k < |outs| && outs[k] == es[i];
      assert Heads(outs)[k] == w;
    }
    if w in Heads(outs) {
      var k :| 0 <= k < |outs| && Heads(outs)[k] == w;
      assert outs[k] in es;
    }
  }

  lemma TailsOfEntering<VL, EL>(es: seq<Edge<VL, EL>>, v: Vertex<VL>, w: Vertex<VL>)
    ensures v in Tails(Select(es, Enters(w))) <==> exists i :: 0 <= i < |es| && es[i].v0 == v && es[i].v1 == w
  {
    var ins := Select(es, Enters(w));
    SelectMembers(es, Enters(w));
    if exists i :: 0 <= i < |es| && es[i].v0 == v && es[i].v1 == w {
      var i :| 0 <= i < |es| && es[i].v0 == v && es[i].v1 == w;
      assert es[i] in ins;
      var m :| 0 <= m < |ins| && ins[m] == es[i];
      assert Tails(ins)[m] == v;
    }
    if v in Tails(ins) {
      var m :| 0 <= m < |ins| && Tails(ins)[m] == v;
      assert ins[m] in es;
    }
  }

  /**
   * The undirected successors(v) takes the entry vertex of each incident edge, so
   * an edge (w, v) with w != v makes v a successor of itself.
   */
  lemma UndirectedSelfSuccessor<VL, EL>(es: seq<Edge<VL, EL>>, v: Vertex<VL>, i: nat)
    requires i < |es| && es[i].v1 == v && es[i].v0 != v
    ensures v in Heads(Select(es, Touches(v)))
  {
    var outs := Select(es, Touches(v));
    SelectMembers(es, Touches(v));
    assert es[i] in outs;
    var k :| 0 <= k < |outs| && outs[k] == es[i];
    assert Heads(outs)[k] == v;
  }

  /**
   * So the undirected neighbour relation is one-sided: with the single edge (u, v),
   * u != v, v is a successor of u but u is not a successor of v.
   */
  lemma UndirectedOneSided<VL, EL>(es: seq<Edge<VL, EL>>, u: Vertex<VL>, v: Vertex<VL>)
    requires |es| == 1 && es[0].v0 == u && es[0].v1 == v && u != v
    ensures v in Heads(Select(es, Touches(u)))
    ensures u !in Heads(Select(es, Touches(v)))
  {
    SelectCons(es, Touches(u));
    SelectCons(es, Touches(v));
    assert es[1..] == [];
    assert Heads(Select(es, Touches(v))) == [v];
  }

  /** Directed remove(v) keeps exactly the edges with neither end at v. */
  lemma DirectedRemoval<VL, EL>(es: seq<Edge<VL, EL>>, v: Vertex<VL>)
    ensures forall e :: e in Select(Select(es, Not(Leaves(v))), Not(Enters(v))) <==> e in es && e.v0 != v && e.v1 != v
  {
    var kept := Select(es, Not(Leaves(v)));
    SelectMembers(es, Not(Leaves(v)));
    SelectMembers(kept, Not(Enters(v)));
    forall e
      ensures e in Select(kept, Not(Enters(v))) <==> e in es && e.v0 != v && e.v1 != v
    {
      assert Passes(e, Not(Leaves(v))) <==> e.v0 != v;
      assert Passes(e, Not(Enters(v))) <==> e.v1 != v;
    }
  }

  /** Undirected remove(v) keeps exactly the edges not at v, and the self-loops at v. */
  lemma UndirectedRemoval<VL, EL>(es: seq<Edge<VL, EL>>, v: Vertex<VL>)
    ensures forall e :: e in Select(es, Not(Touches(v))) <==> e in es && (e.v0 == v || e.v1 == v ==> e.v0 == e.v1)
  {
    SelectMembers(es, Not(Touches(v)));
    forall e
      ensures e in Select(es, Not(Touches(v))) <==> e in es && (e.v0 == v || e.v1 == v ==> e.v0 == e.v1)
    {
      assert Passes(e, Not(Touches(v))) <==> !((e.v0 == v || e.v1 == v) && !(e.v0 == v && e.v1 == v));
    }
  }

  /** Removal by a test splits the edge list: the edges removed plus the edges kept make up the whole. */
  lemma {:induction false} SelectSplits<VL, EL>(es: seq<Edge<VL, EL>>, t: EdgeTest<VL, EL>)
    ensures |Select(es, t)| + |Select(es, Not(t))| == |es|
  {
    if es != [] {
      SelectSplits(es[..|es| - 1], t);
    }
  }

  /** In an undirected graph remove(v) drops exactly degree(v) edges. */
  lemma UndirectedRemoveCount<VL, EL>(es: seq<Edge<VL, EL>>, v: Vertex<VL>)
    ensures |Select(es, Not(Touches(v)))| == |es| - |Select(es, Touches(v))|
  {
    SelectSplits(es, Touches(v));
  }

  /*===== remove(v1, v2) as written: removing from the list being iterated =====*/

  /**
   * The loop `for (Edge e : edges()) if (test) edges.remove(e);` over the edge
   * list itself, from the iterator's cursor on. ArrayList's iterator answers
   * hasNext() with cursor != size, and its next() fails with
   * ConcurrentModificationException once the list has been changed. So after the
   * first removal the loop either ends at once (the cursor, one past the removed
   * edge, equals the new size) or throws on the next next().
   */
  function RemoveWhileIterating<VL, EL>(es: seq<Edge<VL, EL>>, t: EdgeTest<VL, EL>, cursor: nat): (r: Result<seq<Edge<VL, EL>>, GraphError>)
    requires cursor <= |es|
    ensures r.Success? ==> |es| - 1 <= |r.value| <= |es|
    ensures r.Failure? ==> r.error == ConcurrentModification
    decreases |es| - cursor
  {
    if cursor == |es| then Success(es)
    else if !Passes(es[cursor], t) then RemoveWhileIterating(es, t, cursor + 1)
    else
      var rest := RemoveFirst(es, es[cursor]);
      if cursor + 1 == |rest| then Success(rest) else Failure(ConcurrentModification)
  }

  /** With no matching edge from the cursor on, the loop removes nothing, which is also the intended result. */
  lemma {:induction false} NoMatchKeepsAll<VL, EL>(es: seq<Edge<VL, EL>>, t: EdgeTest<VL, EL>, cursor: nat)
    requires cursor <= |es| && forall i :: cursor <= i < |es| ==> !Passes(es[i], t)
    ensures RemoveWhileIterating(es, t, cursor) == Success(es)
    ensures cursor == 0 ==> RemoveWhileIterating(es, t, cursor) == Success(Select(es, Not(t)))
    decreases |es| - cursor
  {
    if cursor < |es| {
      NoMatchKeepsAll(es, t, cursor + 1);
    }
    if cursor == 0 {
      SelectAll(es, Not(t));
    }
  }

  /**
   * The first matching edge decides the outcome: the loop ends normally only when
   * that edge is the last but one, and then it has removed that edge alone;
   * otherwise it throws.
   */
  lemma {:induction false} FirstMatchDecides<VL, EL>(es: seq<Edge<VL, EL>>, t: EdgeTest<VL, EL>, cursor: nat, k: nat)
    requires cursor <= k < |es| && Passes(es[k], t)
    requires forall i :: 0 <= i < k ==> !Passes(es[i], t)
    ensures RemoveWhileIterating(es, t, cursor) ==
      if k + 2 == |es| then Success(es[..k] + es[k + 1..]) else Failure(ConcurrentModification)
    decreases k - cursor
  {
    if cursor < k {
      FirstMatchDecides(es, t, cursor + 1, k);
    } else {
      RemoveFirstAt(es, k);
    }
  }

  /** Removing the first occurrence of s[k], when no earlier element equals it, drops index k. */
  lemma {:induction false} RemoveFirstAt<T>(s: seq<T>, k: nat)
    requires k < |s| && forall i :: 0 <= i < k ==> s[i] != s[k]
    ensures RemoveFirst(s, s[k]) == s[..k] + s[k + 1..]
  {
    if k > 0 {
      var rest := s[1..];
      assert rest[k - 1] == s[k];
      forall i | 0 <= i < k - 1 ensures rest[i] != rest[k - 1] {
        assert rest[i] == s[i + 1];
      }
      RemoveFirstAt(rest, k - 1);
      assert s[..k] == [s[0]] + rest[..k - 1];
      assert s[k + 1..] == rest[k..];
    }
  }

  /** A matching first edge followed by two others: the loop throws where every match should go. */
  lemma IteratorThrows<VL, EL>(t: EdgeTest<VL, EL>, a: Edge<VL, EL>, b: Edge<VL, EL>, c: Edge<VL, EL>)
    requires Passes(a, t) && !Passes(b, t) && !Passes(c, t)
    ensures RemoveWhileIterating([a, b, c], t, 0) == Failure(ConcurrentModification)
    ensures Select([a, b, c], Not(t)) == [b, c]
  {
    FirstMatchDecides([a, b, c], t, 0, 0);
    SelectCons([a, b, c], Not(t));
    SelectAll([b, c], Not(t));
  }

  /** Two matching edges: the loop stops after the first removal and the second stays. */
  lemma IteratorSkips<VL, EL>(t: EdgeTest<VL, EL>, a: Edge<VL, EL>, b: Edge<VL, EL>)
    requires Passes(a, t) && Passes(b, t)
    ensures RemoveWhileIterating([a, b], t, 0) == Success([b])
    ensures Select([a, b], Not(t)) == []
  {
    FirstMatchDecides([a, b], t, 0, 0);
    assert [a, b][1..] == [b];
  }

  /**
   * The edge comparator built from a label comparator answers 1 where the labels
   * tie, so on two edges with tied labels both orders answer "greater".
   */
  function EdgeCompare<VL, EL>(cmp: (Option<EL>, Option<EL>) -> int, e1: Edge<VL, EL>, e2: Edge<VL, EL>): (r: int)
    ensures r != 0
    ensures cmp(e1.tag, e2.tag) != 0 ==> r == cmp(e1.tag, e2.tag)
  {
    var c := cmp(e1.tag, e2.tag);
    if c != 0 then c else 1
  }

  function Sign(x: int): int
  {
    if x > 0 then 1 else if x < 0 then -1 else 0
  }

  /** The edge comparator breaks the Comparator contract on ties: sgn(compare(x, y)) == -sgn(compare(y, x)). */
  lemma EdgeCompareTies<VL, EL>(cmp: (Option<EL>, Option<EL>) -> int, e1: Edge<VL, EL>, e2: Edge<VL, EL>)
    requires cmp(e1.tag, e2.tag) == 0 && cmp(e2.tag, e1.tag) == 0
    ensures EdgeCompare(cmp, e1, e2) > 0 && EdgeCompare(cmp, e2, e1) > 0
    ensures Sign(EdgeCompare(cmp, e1, e2)) != -Sign(EdgeCompare(cmp, e2, e1))
  {
  }

  /** A permutation of a list without repeats has none either. */
  lemma DistinctByMultiset<T>(a: seq<T>, b: seq<T>)
    requires Distinct(a) && multiset(a) == multiset(b)
    ensures Distinct(b)
  {
    forall i, j | 0 <= i < j < |b| ensures b[i] != b[j] {
      DistinctCount(a, b[i]);
      RepeatCount(b, i, j);
    }
  }

  /** In a list without repeats every element occurs at most once. */
  lemma {:induction false} DistinctCount<T>(a: seq<T>, x: T)
    requires Distinct(a)
    ensures multiset(a)[x] <= 1
  {
    if a != [] {
      DistinctTail(a);
      DistinctCount(a[1..], x);
      assert a == [a[0]] + a[1..];
    }
  }

  /** An element at two positions occurs at least twice. */
  lemma RepeatCount<T>(b: seq<T>, i: int, j: int)
    requires 0 <= i < j < |b|
    ensures b[i] == b[j] ==> multiset(b)[b[i]] >= 2
  {
    assert b == b[..i] + [b[i]] + b[i + 1..j] + [b[j]] + b[j + 1..];
  }
}
