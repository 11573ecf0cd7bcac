/** Depth-first search for a property over a possibly cyclic error graph
    (src/agents/failover-error.ts). */
module ErrorSearch {
  import opened Common

  type ObjectId = nat

  /** A thrown value: an object with identity, or anything else (strings, numbers, null, ...). */
  datatype Candidate<P> = Primitive(payload: P) | Object(id: ObjectId)

  /** The two properties of an object that the search follows. */
  datatype Links<P> = Links(error: Candidate<P>, cause: Candidate<P>)

  type Graph<P> = map<ObjectId, Links<P>>

  predicate Known<P(==)>(g: Graph<P>, c: Candidate<P>) {
    c.Object? ==> c.id in g
  }

  /** Every object mentioned in the graph has links of its own. */
  ghost predicate Closed<P(!new)>(g: Graph<P>) {
    forall id :: id in g ==> Known(g, g[id].error) && Known(g, g[id].cause)
  }

  // ----- the search with one shared seen-set -----

  datatype Found<T> = Found(value: Option<T>, seen: set<ObjectId>)

  /** What the recursive search computes, with the seen-set threaded through. */
  ghost function Dfs<P(!new), T>(g: Graph<P>, reader: Candidate<P> -> Option<T>, c: Candidate<P>, seen: set<ObjectId>)
    : (r: Found<T>)
    requires Closed(g) && Known(g, c) && seen <= g.Keys
    ensures seen <= r.seen <= g.Keys
    decreases |g.Keys - seen|
  {
    if reader(c).Some? then Found(reader(c), seen)
    else if c.Primitive? || c.id in seen then Found(None, seen)
    else
      assert g.Keys - (seen + {c.id}) < g.Keys - seen;
      SetCardinality(g.Keys - (seen + {c.id}), g.Keys - seen);
      var viaError := Dfs(g, reader, g[c.id].error, seen + {c.id});
      SetCardinality(g.Keys - viaError.seen, g.Keys - seen);
      if viaError.value.Some? then viaError
      else Dfs(g, reader, g[c.id].cause, viaError.seen)
  }

  /** The search as written: recursion that mutates one seen-set. */
  class Search<P(!new,==), T> {
    var seen: set<ObjectId>

    constructor ()
      ensures seen == {}
    {
      seen := {};
    }

    method Find(g: Graph<P>, reader: Candidate<P> -> Option<T>, c: Candidate<P>) returns (value: Option<T>)
      requires Closed(g) && Known(g, c) && seen <= g.Keys
      modifies this
      ensures value == Dfs(g, reader, c, old(seen)).value
      ensures seen == Dfs(g, reader, c, old(seen)).seen
      decreases |g.Keys - seen|
    {
      var direct := reader(c);
      if direct.Some? {
        return direct;
      }
      if c.Primitive? {
        return None;
      }
      if c.id in seen {
        return None;
      }
      SetCardinality(g.Keys - (seen + {c.id}), g.Keys - seen);
      ghost var start := seen;
      seen := seen + {c.id};
      value := Find(g, reader, g[c.id].error);
      if value.None? {
        SetCardinality(g.Keys - seen, g.Keys - start);
        value := Find(g, reader, g[c.id].cause);
      }
    }
  }

  // ----- reachability -----

  ghost predicate Edge<P(!new)>(g: Graph<P>, a: Candidate<P>, b: Candidate<P>) {
    a.Object? && a.id in g && (b == g[a.id].error || b == g[a.id].cause)
  }

  ghost predicate IsPath<P(!new)>(g: Graph<P>, path: seq<Candidate<P>>) {
    path != [] && forall i :: 0 <= i < |path| - 1 ==> Edge(g, path[i], path[i + 1])
  }

  ghost predicate Reachable<P(!new)>(g: Graph<P>, from: Candidate<P>, to: Candidate<P>) {
    exists path :: IsPath(g, path) && path[0] == from && path[|path| - 1] == to
  }

  lemma ReachableViaEdge<P(!new)>(g: Graph<P>, a: Candidate<P>, b: Candidate<P>, c: Candidate<P>)
    requires Edge(g, a, b) && Reachable(g, b, c)
    ensures Reachable(g, a, c)
  {
    var path :| IsPath(g, path) && path[0] == b && path[|path| - 1] == c;
    var longer := [a] + path;
    assert IsPath(g, longer) && longer[0] == a && longer[|longer| - 1] == c;
  }

  /** `c` and everything one step below it has been looked at in vain. */
  ghost predicate Barren<P(!new), T>(reader: Candidate<P> -> Option<T>, seen: set<ObjectId>, c: Candidate<P>) {
    reader(c).None? && (c.Object? ==> c.id in seen)
  }

  /** Every object in `done` has no value, and its links lead only to candidates already seen in vain. */
  ghost predicate Explored<P(!new),
      T>(g: Graph<P>, reader: Candidate<P> -> Option<T>, seen: set<ObjectId>, done: set<ObjectId>) {
    forall id :: id in done ==>
      && id in g
      && reader(Object(id)).None?
      && Barren(reader, seen, g[id].error)
      && Barren(reader, seen, g[id].cause)
  }

  lemma BothLinksExplored<P(!new), T>(g: Graph<P>, reader: Candidate<P> -> Option<T>, c: Candidate<P>,
                                      seen: set<ObjectId>, between: set<ObjectId>, after: set<ObjectId>)
    requires c.Object? && c.id in g && reader(c).None? && seen + {c.id} <= between <= after
    requires Barren(reader, between, g[c.id].error) && Explored(g, reader, between, between - (seen + {c.id}))
    requires Barren(reader, after, g[c.id].cause) && Explored(g, reader, after, after - between)
    ensures Barren(reader, after, c) && Explored(g, reader, after, after - seen)
  {
  }

  lemma DfsOfValue<P(!new), T>(g: Graph<P>, reader: Candidate<P> -> Option<T>, c: Candidate<P>, seen: set<ObjectId>)
    requires Closed(g) && Known(g, c) && seen <= g.Keys
    ensures reader(c).Some? ==> Dfs(g, reader, c, seen).value == reader(c)
  {
  }

  /** A search that finds nothing has fully explored every object it newly saw. */
  lemma {:induction false} FailedSearchExplores<P(!new),
      T>(g: Graph<P>, reader: Candidate<P> -> Option<T>, c: Candidate<P>, seen: set<ObjectId>)
    requires Closed(g) && Known(g, c) && seen <= g.Keys
    requires Dfs(g, reader, c, seen).value.None?
    ensures var after := Dfs(g, reader, c, seen).seen;
            Barren(reader, after, c) && Explored(g, reader, after, after - seen)
    decreases |g.Keys - seen|
  {
    if c.Object? && c.id !in seen {
      DfsOfValue(g, reader, c, seen);
      hide Dfs, Closed, Known, Explored, Barren;
      var viaError := DfsStep(g, reader, c, seen);
      FailedSearchExplores(g, reader, g[c.id].error, seen + {c.id});
      FailedSearchExplores(g, reader, g[c.id].cause, viaError.seen);
      BothLinksExplored(g, reader, c, seen, viaError.seen, Dfs(g, reader, g[c.id].cause, viaError.seen).seen);
    }
  }

  lemma {:induction false} BarrenAlongPath<P(!new),
      T>(g: Graph<P>, reader: Candidate<P> -> Option<T>, seen: set<ObjectId>, path: seq<Candidate<P>>)
    requires IsPath(g, path) && Explored(g, reader, seen, seen) && Barren(reader, seen, path[0])
    ensures Barren(reader, seen, path[|path| - 1])
  {
    if |path| > 1 {
      assert Edge(g, path[0], path[1]);
      var rest := path[1..];
      assert forall i :: 0 <= i < |rest| - 1 ==> Edge(g, rest[i], rest[i + 1]) by {
        forall i | 0 <= i < |rest| - 1 ensures Edge(g, rest[i], rest[i + 1]) {
          assert Edge(g, path[i + 1], path[i + 2]);
        }
      }
      BarrenAlongPath(g, reader, seen, rest);
    }
  }

  lemma {:induction false} FoundIsReachable<P(!new),
      T>(g: Graph<P>, reader: Candidate<P> -> Option<T>, c: Candidate<P>, seen: set<ObjectId>)
    requires Closed(g) && Known(g, c) && seen <= g.Keys
    requires Dfs(g, reader, c, seen).value.Some?
    ensures exists n :: Reachable(g, c, n) && reader(n) == Dfs(g, reader, c, seen).value
    decreases |g.Keys - seen|
  {
    if reader(c).Some? {
      assert IsPath(g, [c]) && [c][0] == c && [c][|[c]| - 1] == c;
      assert Reachable(g, c, c);
    } else {
      SetCardinality(g.Keys - (seen + {c.id}), g.Keys - seen);
      var viaError := Dfs(g, reader, g[c.id].error, seen + {c.id});
      var next := if viaError.value.Some? then g[c.id].error else g[c.id].cause;
      if viaError.value.Some? {
        FoundIsReachable(g, reader, next, seen + {c.id});
      } else {
        SetCardinality(g.Keys - viaError.seen, g.Keys - seen);
        FoundIsReachable(g, reader, next, viaError.seen);
      }
      var n :| Reachable(g, next, n) && reader(n) == Dfs(g, reader, c, seen).value;
      ReachableViaEdge(g, c, next, n);
    }
  }

  /** Completeness on cyclic graphs: nothing is returned exactly when no reachable candidate has a value,
      and what is returned is the value of a reachable candidate. */
  lemma SearchIsComplete<P(!new), T>(g: Graph<P>, reader: Candidate<P> -> Option<T>, c: Candidate<P>)
    requires Closed(g) && Known(g, c)
    ensures Dfs(g, reader, c, {}).value.None? <==> forall n :: Reachable(g, c, n) ==> reader(n).None?
    ensures Dfs(g, reader, c, {}).value.Some? ==>
              exists n :: Reachable(g, c, n) && reader(n) == Dfs(g, reader, c, {}).value
  {
    var r := Dfs(g, reader, c, {});
    if r.value.None? {
      FailedSearchExplores(g, reader, c, {});
      assert r.seen - {} == r.seen;
      forall n | Reachable(g, c, n) ensures reader(n).None? {
        var path :| IsPath(g, path) && path[0] == c && path[|path| - 1] == n;
        BarrenAlongPath(g, reader, r.seen, path);
      }
    } else {
      FoundIsReachable(g, reader, c, {});
    }
  }

  // ----- sharing the seen-set does not change the answer -----

  /** Reference: try every path that does not revisit one of its own ancestors, `error` before `cause`. */
  ghost function FirstOnSimplePaths<P(!new),
      T>(g: Graph<P>, reader: Candidate<P> -> Option<T>, c: Candidate<P>, ancestors: set<ObjectId>)
    : Option<T>
    requires Closed(g) && Known(g, c) && ancestors <= g.Keys
    decreases |g.Keys - ancestors|
  {
    if reader(c).Some? then reader(c)
    else if c.Primitive? || c.id in ancestors then None
    else
      SetCardinality(g.Keys - (ancestors + {c.id}), g.Keys - ancestors);
      var viaError := FirstOnSimplePaths(g, reader, g[c.id].error, ancestors + {c.id});
      if viaError.Some? then viaError
      else FirstOnSimplePaths(g, reader, g[c.id].cause, ancestors + {c.id})
  }

  /** Going back into an explored region never yields a value. */
  lemma {:induction false} ExploredYieldsNothing<P(!new),
      T>(g: Graph<P>, reader: Candidate<P> -> Option<T>, c: Candidate<P>, ancestors: set<ObjectId>, seen: set<ObjectId>)
    requires Closed(g) && Known(g, c) && ancestors <= seen <= g.Keys
    requires Explored(g, reader, seen, seen - ancestors) && Barren(reader, seen, c)
    ensures FirstOnSimplePaths(g, reader, c, ancestors).None?
    decreases |g.Keys - ancestors|
  {
    if c.Object? && c.id !in ancestors {
      SetCardinality(g.Keys - (ancestors + {c.id}), g.Keys - ancestors);
      ExploredYieldsNothing(g, reader, g[c.id].error, ancestors + {c.id}, seen);
      ExploredYieldsNothing(g, reader, g[c.id].cause, ancestors + {c.id}, seen);
    }
  }

  lemma {:induction false} SharedSetAgrees<P(!new),
      T>(g: Graph<P>, reader: Candidate<P> -> Option<T>, c: Candidate<P>, ancestors: set<ObjectId>, seen: set<ObjectId>)
    requires Closed(g) && Known(g, c) && ancestors <= seen <= g.Keys
    requires Explored(g, reader, seen, seen - ancestors)
    ensures Dfs(g, reader, c, seen).value == FirstOnSimplePaths(g, reader, c, ancestors)
    decreases |g.Keys - seen|
  {
    if reader(c).Some? || c.Primitive? || c.id in ancestors {
    } else if c.id in seen {
      ExploredYieldsNothing(g, reader, c, ancestors, seen);
    } else {
      hide Dfs, FirstOnSimplePaths, Explored, Closed, Known;
      var viaError := DfsStep(g, reader, c, seen);
      SimplePathsStep(g, reader, c, ancestors);
      ExploredGrows(g, reader, seen, seen + {c.id}, seen - ancestors);
      SplitNewlySeen(seen, ancestors, c.id, viaError.seen);
      SharedSetAgrees(g, reader, g[c.id].error, ancestors + {c.id}, seen + {c.id});
      if viaError.value.None? {
        FailedSearchExplores(g, reader, g[c.id].error, seen + {c.id});
        ExploredGrows(g, reader, seen + {c.id}, viaError.seen, seen - ancestors);
        ExploredTogether(g, reader, viaError.seen, seen - ancestors, viaError.seen - (seen + {c.id}));
        SharedSetAgrees(g, reader, g[c.id].cause, ancestors + {c.id}, viaError.seen);
      }
    }
  }

  lemma SplitNewlySeen(seen: set<ObjectId>, ancestors: set<ObjectId>, id: ObjectId, after: set<ObjectId>)
    requires ancestors <= seen && seen + {id} <= after && id !in seen
    ensures (seen + {id}) - (ancestors + {id}) == seen - ancestors
    ensures (seen - ancestors) + (after - (seen + {id})) == after - (ancestors + {id})
  {
  }

  /** The search of an object that is new and has no value itself. */
  lemma DfsStep<P(!new), T>(g: Graph<P>, reader: Candidate<P> -> Option<T>, c: Candidate<P>, seen: set<ObjectId>)
    returns (viaError: Found<T>)
    requires Closed(g) && Known(g, c) && seen <= g.Keys
    requires reader(c).None? && c.Object? && c.id !in seen
    ensures Known(g, g[c.id].error) && Known(g, g[c.id].cause) && seen + {c.id} <= g.Keys
    ensures viaError == Dfs(g, reader, g[c.id].error, seen + {c.id}) && seen + {c.id} <= viaError.seen <= g.Keys
    ensures |g.Keys - (seen + {c.id})| < |g.Keys - seen| && |g.Keys - viaError.seen| < |g.Keys - seen|
    ensures Dfs(g, reader, c, seen) == if viaError.value.Some? then viaError
            else Dfs(g, reader, g[c.id].cause, viaError.seen)
  {
    viaError := Dfs(g, reader, g[c.id].error, seen + {c.id});
    SetCardinality(g.Keys - (seen + {c.id}), g.Keys - seen);
    SetCardinality(g.Keys - viaError.seen, g.Keys - seen);
  }

  lemma SimplePathsStep<P(!new),
      T>(g: Graph<P>, reader: Candidate<P> -> Option<T>, c: Candidate<P>, ancestors: set<ObjectId>)
    requires Closed(g) && Known(g, c) && ancestors <= g.Keys
    requires reader(c).None? && c.Object? && c.id !in ancestors
    ensures Known(g, g[c.id].error) && Known(g, g[c.id].cause) && ancestors + {c.id} <= g.Keys
    ensures var viaError := FirstOnSimplePaths(g, reader, g[c.id].error, ancestors + {c.id});
            FirstOnSimplePaths(g, reader, c, ancestors) ==
            if viaError.Some? then viaError else FirstOnSimplePaths(g, reader, g[c.id].cause, ancestors + {c.id})
  {
  }

  lemma ExploredGrows<P(!new),
      T>(g: Graph<P>, reader: Candidate<P> -> Option<T>, seen: set<ObjectId>, more: set<ObjectId>, done: set<ObjectId>)
    requires Explored(g, reader, seen, done) && seen <= more
    ensures Explored(g, reader, more, done)
  {
  }

  lemma ExploredTogether<P(!new),
      T>(g: Graph<P>, reader: Candidate<P> -> Option<T>, seen: set<ObjectId>, a: set<ObjectId>, b: set<ObjectId>)
    requires Explored(g, reader, seen, a) && Explored(g, reader, seen, b)
    ensures Explored(g, reader, seen, a + b)
  {
  }

  /** The shared seen-set is only an optimisation: the answer is the one of the exhaustive
      simple-path search, on every graph. */
  lemma SharedSetIsOnlyAnOptimisation<P(!new), T>(g: Graph<P>, reader: Candidate<P> -> Option<T>, c: Candidate<P>)
    requires Closed(g) && Known(g, c)
    ensures Dfs(g, reader, c, {}).value == FirstOnSimplePaths(g, reader, c, {})
  {
    SharedSetAgrees(g, reader, c, {}, {});
  }
}
