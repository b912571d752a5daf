/**
 Which classes an app image may contain: a memoised depth-first search over class references that
 has to cope with cycles, and the set of classes it keeps.
 */
module ImagePrune {
  import opened Wrappers

  type Id = nat

  // The value of a static reference field.
  datatype StaticValue = Null | ClassValue(id: Id) | Instance(type_: Id)

  datatype Class = Class(
    inBootImage: bool,
    bootLoader: bool,
    imageClass: bool,
    erroneous: bool,
    interfaces: seq<Id>,
    component: Option<Id>,
    resolved: bool,
    statics: seq<StaticValue>,
    super: Option<Id>,
    dexFileKnown: bool)
  {
    // What makes a class unfit on its own.
    predicate Bad() { bootLoader || !imageClass || erroneous || !dexFileKnown }
  }

  function StaticClass(v: StaticValue): Option<Id> {
    match v
    case Null => None
    case ClassValue(id) => Some(id)
    case Instance(t) => Some(t)
  }

  type Graph = map<Id, Class>

  /** The classes a class refers to: interfaces, component type, classes of static values, superclass. */
  ghost predicate Edge(g: Graph, k: Id, e: Id)
    requires k in g
  {
    || e in g[k].interfaces
    || g[k].component == Some(e)
    || (g[k].resolved && exists v :: v in g[k].statics && StaticClass(v) == Some(e))
    || g[k].super == Some(e)
  }

  ghost predicate WellFormed(g: Graph) {
    forall k, e :: k in g && Edge(g, k, e) ==> e in g
  }

  // ---------- reachability ----------

  ghost predicate BadPath(g: Graph, k: Id, p: seq<Id>, avoid: set<Id>) {
    && p != [] && p[0] == k
    && (forall i :: 0 <= i < |p| ==> p[i] in g && !g[p[i]].inBootImage && p[i] !in avoid)
    && (forall i :: 0 <= i < |p| - 1 ==> Edge(g, p[i], p[i + 1]))
    && g[p[|p| - 1]].Bad()
  }

  /** A bad class is reachable without entering the boot image or `avoid`. */
  ghost predicate ReachesBad(g: Graph, k: Id, avoid: set<Id>) {
    exists p :: BadPath(g, k, p, avoid)
  }

  ghost predicate Unfit(g: Graph, k: Option<Id>) {
    k.Some? && ReachesBad(g, k.value, {})
  }

  lemma BadItself(g: Graph, k: Id, avoid: set<Id>)
    requires k in g && !g[k].inBootImage && k !in avoid && g[k].Bad()
    ensures ReachesBad(g, k, avoid)
  {
    assert BadPath(g, k, [k], avoid);
  }

  lemma ThroughEdge(g: Graph, k: Id, e: Id)
    requires k in g && !g[k].inBootImage && Edge(g, k, e) && ReachesBad(g, e, {})
    ensures ReachesBad(g, k, {})
  {
    var p :| BadPath(g, e, p, {});
    var q := [k] + p;
    assert forall i :: 0 <= i < |q| - 1 ==> Edge(g, q[i], q[i + 1]);
    assert BadPath(g, k, q, {});
  }

  lemma AvoidLess(g: Graph, k: Id, avoid: set<Id>, less: set<Id>)
    requires ReachesBad(g, k, avoid) && less <= avoid
    ensures ReachesBad(g, k, less)
  {
    var p :| BadPath(g, k, p, avoid);
    assert BadPath(g, k, p, less);
  }

  /** A path that returns to its start can be shortened until it does not. */
  lemma LeaveForGood(g: Graph, k: Id, p: seq<Id>, avoid: set<Id>) returns (e: Id)
    requires BadPath(g, k, p, avoid) && !g[k].Bad()
    ensures Edge(g, k, e) && ReachesBad(g, e, avoid + {k})
    decreases |p|
  {
    if i :| 1 <= i < |p| && p[i] == k {
      e := LeaveForGood(g, k, p[i..], avoid);
    } else {
      e := p[1];
      assert Edge(g, p[0], p[0 + 1]);
      assert BadPath(g, e, p[1..], avoid + {k});
    }
  }

  /** When no reference leads to a bad class outside `avoid + {k}`, none leads there from `k`. */
  lemma NothingBadBelow(g: Graph, k: Id, avoid: set<Id>)
    requires k in g && !g[k].Bad()
    requires forall e :: Edge(g, k, e) ==> !ReachesBad(g, e, avoid + {k})
    ensures !ReachesBad(g, k, avoid)
  {
    if p :| BadPath(g, k, p, avoid) {
      var e := LeaveForGood(g, k, p, avoid);
      assert false;
    }
  }

  // ---------- the search ----------

  // What is known once the references in `done` have been followed from `k`.
  ghost predicate Explored(g: Graph, k: Id, done: set<Id>, result: bool, earlyExit: bool, avoid: set<Id>) {
    && (result ==> ReachesBad(g, k, {}))
    && (!result ==> forall e :: e in done ==> !ReachesBad(g, e, avoid))
    && (!result && !earlyExit ==> forall e :: e in done ==> !ReachesBad(g, e, {}))
  }

  ghost predicate AllDone(g: Graph, k: Id, done: set<Id>)
    requires k in g
  {
    forall e :: Edge(g, k, e) ==> e in done
  }

  lemma SearchIsRight(g: Graph, k: Id, done: set<Id>, earlyExit: bool, visited: set<Id>)
    requires k in g && !g[k].Bad() && AllDone(g, k, done) && Explored(g, k, done, false, earlyExit, visited + {k})
    ensures !ReachesBad(g, k, visited)
    ensures !earlyExit ==> !ReachesBad(g, k, {})
  {
    NothingBadBelow(g, k, visited);
    if !earlyExit {
      forall e | Edge(g, k, e)
        ensures !ReachesBad(g, e, {} + {k})
      {
        if ReachesBad(g, e, {} + {k}) {
          AvoidLess(g, e, {} + {k}, {});
        }
      }
      NothingBadBelow(g, k, {});
    }
  }

  ghost predicate StaticsIn(c: Class, done: set<Id>, n: nat)
    requires n <= |c.statics|
  {
    forall j :: 0 <= j < n && StaticClass(c.statics[j]).Some? ==> StaticClass(c.statics[j]).value in done
  }

  lemma StaticsStay(c: Class, done: set<Id>, more: set<Id>)
    requires StaticsIn(c, done, |c.statics|) && done <= more
    ensures StaticsIn(c, more, |c.statics|)
  {
  }

  // In a boot image compilation nothing is in the boot image and nothing is searched.
  ghost predicate Kept(g: Graph, appImage: bool, k: Option<Id>) {
    && k.Some? && k.value in g
    && ((appImage && g[k.value].inBootImage) || (g[k.value].imageClass && (appImage ==> !Unfit(g, k))))
  }

  /** Whatever a kept class refers to is kept, so an app image has no dangling class reference. */
  lemma KeptIsClosed(g: Graph, k: Id, e: Id)
    requires WellFormed(g) && Kept(g, true, Some(k)) && !g[k].inBootImage && Edge(g, k, e)
    ensures Kept(g, true, Some(e))
  {
    if !g[e].inBootImage {
      if ReachesBad(g, e, {}) {
        ThroughEdge(g, k, e);
      } else if g[e].Bad() {
        BadItself(g, e, {});
      }
    }
  }

  class Pruner {
    const g: Graph
    const appImage: bool
    var memo: map<Id, bool>

    constructor (g: Graph, appImage: bool)
      requires WellFormed(g)
      ensures this.g == g && this.appImage == appImage && Valid()
    {
      this.g, this.appImage, memo := g, appImage, map[];
    }

    /** Every remembered answer is the exact one. */
    ghost predicate Valid()
      reads this
    {
      WellFormed(g) && forall k :: k in memo ==> k in g && memo[k] == ReachesBad(g, k, {})
    }

    /**
     The recursive search. `visited` is the path from the root; a reference back into it is cut and
     reported through `earlyExit`, and then a negative answer is remembered only at the root.
     */
    method PruneAppImageClassInternal(klass: Option<Id>, earlyExit0: bool, visited0: set<Id>)
      returns (result: bool, earlyExit: bool, visited: set<Id>)
      requires Valid() && visited0 <= g.Keys && (klass.Some? ==> klass.value in g)
      modifies this`memo
      ensures Valid() && visited == visited0 && (earlyExit0 ==> earlyExit)
      ensures result ==> Unfit(g, klass)
      ensures !result && klass.Some? ==> !ReachesBad(g, klass.value, visited0)
      ensures !result && !earlyExit ==> !Unfit(g, klass)
      decreases |g.Keys - visited0|, 0
    {
      hide ReachesBad, WellFormed;
      earlyExit, visited := earlyExit0, visited0;
      if klass.None? || g[klass.value].inBootImage {
        BootIsFine(g, klass);
        return false, earlyExit, visited;
      }
      var k := klass.value;
      if k in memo {
        if !memo[k] { FitAnyway(g, k, visited0); }
        return memo[k], earlyExit, visited;
      }
      if k in visited {
        OnPath(g, k, visited0);
        return false, true, visited;
      }
      visited := visited + {k};
      Fewer(g, visited0, k);
      var myEarlyExit;
      result, myEarlyExit, visited := Search(k, visited0, visited);
      visited := visited - {k};
      assert visited == visited0;
      if result || !myEarlyExit || visited == {} {
        memo := memo[k := result];
      }
      earlyExit := earlyExit || myEarlyExit;
    }

    // The class itself and then its references, until one of them is found bad.
    method Search(k: Id, ghost path: set<Id>, visited0: set<Id>)
      returns (result: bool, earlyExit: bool, visited: set<Id>)
      requires Valid() && k in g && !g[k].inBootImage && visited0 == path + {k} && visited0 <= g.Keys
      modifies this`memo
      ensures Valid() && visited == visited0
      ensures result ==> ReachesBad(g, k, {})
      ensures !result ==> !ReachesBad(g, k, path)
      ensures !result && !earlyExit ==> !ReachesBad(g, k, {})
      decreases |g.Keys - visited0|, 3
    {
      hide Edge, ReachesBad, WellFormed, Explored, StaticsIn, StaticClass;
      var c := g[k];
      result, earlyExit, visited := c.bootLoader || !c.imageClass, false, visited0;
      if c.erroneous {
        result := true;
      }
      ghost var done: set<Id> := {};
      StartSearch(g, k, result, visited);
      if !result {
        result, earlyExit, visited, done := FollowInterfaces(k, visited);
      }
      if c.component.Some? {
        HasComponent(g, k);
        result, earlyExit, visited := Follow(k, c.component, done, result, earlyExit, visited);
        done := done + {c.component.value};
      }
      if c.resolved {
        result, earlyExit, visited, done := FollowStatics(k, done, result, earlyExit, visited);
      }
      if c.super.Some? {
        HasSuper(g, k);
        result, earlyExit, visited := Follow(k, c.super, done, result, earlyExit, visited);
        if c.resolved { StaticsStay(c, done, done + {c.super.value}); }
        done := done + {c.super.value};
      }
      if result {
        FoundBad(g, k, done, earlyExit, visited);
      }
      if !c.dexFileKnown {
        BadItself(g, k, {});
        result := true;
      }
      if !result {
        Covered(g, k, done);
        SearchIsRight(g, k, done, earlyExit, path);
      }
    }

    method FollowInterfaces(k: Id, visited0: set<Id>)
      returns (result: bool, earlyExit: bool, visited: set<Id>, ghost done: set<Id>)
      requires Valid() && visited0 <= g.Keys && k in g && !g[k].inBootImage
      modifies this`memo
      ensures Valid() && visited == visited0
      ensures Explored(g, k, done, result, earlyExit, visited)
      ensures forall j :: 0 <= j < |g[k].interfaces| ==> g[k].interfaces[j] in done
      decreases |g.Keys - visited0|, 2
    {
      hide Edge, ReachesBad, WellFormed;
      var c := g[k];
      result, earlyExit, visited, done := false, false, visited0, {};
      for i := 0 to |c.interfaces|
        invariant Valid() && visited == visited0
        invariant Explored(g, k, done, result, earlyExit, visited)
        invariant forall j :: 0 <= j < i ==> c.interfaces[j] in done
      {
        HasInterface(g, k, i);
        result, earlyExit, visited := Follow(k, Some(c.interfaces[i]), done, result, earlyExit, visited);
        done := done + {c.interfaces[i]};
      }
    }

    method FollowStatics(k: Id, ghost done0: set<Id>, result0: bool, earlyExit0: bool, visited0: set<Id>)
      returns (result: bool, earlyExit: bool, visited: set<Id>, ghost done: set<Id>)
      requires Valid() && visited0 <= g.Keys && k in g && !g[k].inBootImage && g[k].resolved
      requires Explored(g, k, done0, result0, earlyExit0, visited0)
      modifies this`memo
      ensures Valid() && visited == visited0 && done0 <= done && (result0 ==> result)
      ensures Explored(g, k, done, result, earlyExit, visited)
      ensures StaticsIn(g[k], done, |g[k].statics|)
      decreases |g.Keys - visited0|, 2
    {
      hide Edge, ReachesBad, WellFormed;
      var c := g[k];
      result, earlyExit, visited, done := result0, earlyExit0, visited0, done0;
      for i := 0 to |c.statics|
        invariant Valid() && visited == visited0 && done0 <= done && (result0 ==> result)
        invariant Explored(g, k, done, result, earlyExit, visited)
        invariant StaticsIn(c, done, i)
      {
        var type_ := StaticClass(c.statics[i]);
        if type_.Some? {
          HasStatic(g, k, i);
          result, earlyExit, visited := Follow(k, type_, done, result, earlyExit, visited);
          done := done + {type_.value};
        }
      }
    }

    // One short-circuited recursive call.
    method Follow(k: Id, e: Option<Id>, ghost done: set<Id>, result0: bool, earlyExit0: bool, visited0: set<Id>)
      returns (result: bool, earlyExit: bool, visited: set<Id>)
      requires Valid() && visited0 <= g.Keys && k in g && !g[k].inBootImage
      requires e.Some? && Edge(g, k, e.value)
      requires Explored(g, k, done, result0, earlyExit0, visited0)
      modifies this`memo
      ensures Valid() && visited == visited0
      ensures Explored(g, k, done + {e.value}, result, earlyExit, visited)
      ensures result0 ==> result
      decreases |g.Keys - visited0|, 1
    {
      hide Edge, BadPath;
      EdgeStaysInside(g, k, e.value);
      result, earlyExit, visited := result0, earlyExit0, visited0;
      if !result {
        result, earlyExit, visited := PruneAppImageClassInternal(e, earlyExit, visited);
        if result {
          ThroughEdge(g, k, e.value);
        }
      }
    }

    method PruneAppImageClass(klass: Option<Id>) returns (result: bool)
      requires Valid() && (klass.Some? ==> klass.value in g)
      modifies this`memo
      ensures Valid() && (result <==> Unfit(g, klass))
    {
      var earlyExit, visited;
      result, earlyExit, visited := PruneAppImageClassInternal(klass, false, {});
    }

    method KeepClass(klass: Option<Id>) returns (keep: bool)
      requires Valid() && (klass.Some? ==> klass.value in g)
      modifies this`memo
      ensures Valid() && (keep <==> Kept(g, appImage, klass))
    {
      if klass.None? {
        return false;
      }
      if appImage && g[klass.value].inBootImage {
        return true;
      }
      if !g[klass.value].imageClass {
        return false;
      }
      if appImage {
        var prune := PruneAppImageClass(klass);
        return !prune;
      }
      return true;
    }

    /** Queries every class of a class table, in whatever order the table is visited. */
    method ClassesToPrune(table: seq<Id>) returns (toPrune: set<Id>)
      requires Valid() && forall k :: k in table ==> k in g
      modifies this`memo
      ensures Valid() && toPrune == set k | k in table && !Kept(g, appImage, Some(k))
    {
      hide Kept, WellFormed, ReachesBad;
      toPrune := {};
      for i := 0 to |table|
        invariant Valid()
        invariant toPrune == set k | k in table[..i] && !Kept(g, appImage, Some(k))
      {
        var keep := KeepClass(Some(table[i]));
        assert table[..i + 1] == table[..i] + [table[i]];
        if !keep {
          toPrune := toPrune + {table[i]};
        }
      }
      assert table[..|table|] == table;
    }
  }

  lemma StartSearch(g: Graph, k: Id, result: bool, avoid: set<Id>)
    requires k in g && !g[k].inBootImage && (result ==> g[k].Bad())
    ensures Explored(g, k, {}, result, false, avoid)
  {
    if result { BadItself(g, k, {}); }
  }

  lemma FoundBad(g: Graph, k: Id, done: set<Id>, earlyExit: bool, avoid: set<Id>)
    requires Explored(g, k, done, true, earlyExit, avoid)
    ensures ReachesBad(g, k, {})
  {
  }

  lemma BootIsFine(g: Graph, k: Option<Id>)
    requires k.None? || (k.value in g && g[k.value].inBootImage)
    ensures k.Some? ==> forall avoid :: !ReachesBad(g, k.value, avoid)
  {
  }

  lemma FitAnyway(g: Graph, k: Id, avoid: set<Id>)
    requires !ReachesBad(g, k, {})
    ensures !ReachesBad(g, k, avoid)
  {
    if ReachesBad(g, k, avoid) {
      AvoidLess(g, k, avoid, {});
      assert false;
    }
  }

  lemma OnPath(g: Graph, k: Id, avoid: set<Id>)
    requires k in avoid
    ensures !ReachesBad(g, k, avoid)
  {
  }

  lemma Fewer(g: Graph, visited: set<Id>, k: Id)
    requires visited <= g.Keys && k in g && k !in visited
    ensures visited + {k} <= g.Keys && |g.Keys - (visited + {k})| < |g.Keys - visited|
  {
    assert g.Keys - visited == (g.Keys - (visited + {k})) + {k};
  }

  lemma HasInterface(g: Graph, k: Id, i: nat)
    requires k in g && i < |g[k].interfaces|
    ensures Edge(g, k, g[k].interfaces[i])
  {
  }

  lemma HasComponent(g: Graph, k: Id)
    requires k in g && g[k].component.Some?
    ensures Edge(g, k, g[k].component.value)
  {
  }

  lemma HasStatic(g: Graph, k: Id, i: nat)
    requires k in g && g[k].resolved && i < |g[k].statics| && StaticClass(g[k].statics[i]).Some?
    ensures Edge(g, k, StaticClass(g[k].statics[i]).value)
  {
    assert g[k].statics[i] in g[k].statics;
  }

  lemma HasSuper(g: Graph, k: Id)
    requires k in g && g[k].super.Some?
    ensures Edge(g, k, g[k].super.value)
  {
  }

  lemma EdgeStaysInside(g: Graph, k: Id, e: Id)
    requires WellFormed(g) && k in g && Edge(g, k, e)
    ensures e in g
  {
  }

  lemma Covered(g: Graph, k: Id, done: set<Id>)
    requires k in g
    requires forall j :: 0 <= j < |g[k].interfaces| ==> g[k].interfaces[j] in done
    requires g[k].component.Some? ==> g[k].component.value in done
    requires g[k].resolved ==> StaticsIn(g[k], done, |g[k].statics|)
    requires g[k].super.Some? ==> g[k].super.value in done
    ensures AllDone(g, k, done)
  {
    forall e | Edge(g, k, e)
      ensures e in done
    {
    }
  }
}