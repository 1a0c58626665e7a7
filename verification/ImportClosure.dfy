/** The egress check: which forbidden transports can the driver reach through first-party
    imports? */
module ImportClosure {
  import opened Basics

  type Name = int
  type Path = int

  /** A repository: what each readable, parsable file imports, which file a dotted name
      resolves to, which names are first-party and which are forbidden. */
  datatype Repository = Repository(
    imports: map<Path, set<Name>>, modules: map<Name, Path>, firstParty: set<Name>, forbidden: set<Name>)

  /** The names a file imports; one that cannot be read or parsed imports nothing. */
  function ImportsOf(repo: Repository, p: Path): (names: set<Name>)
    ensures forall n :: n in names <==> p in repo.imports && n in repo.imports[p]
  {
    if p in repo.imports then repo.imports[p] else {}
  }

  /** `p` imports a first-party name that resolves to `q`. */
  ghost predicate Edge(repo: Repository, p: Path, q: Path) {
    exists n :: n in ImportsOf(repo, p) && n in repo.firstParty && n in repo.modules && repo.modules[n] == q
  }

  ghost predicate Walk(repo: Repository, path: seq<Path>) {
    path != [] && forall i :: 0 <= i < |path| - 1 ==> Edge(repo, path[i], path[i + 1])
  }

  ghost predicate Reachable(repo: Repository, entry: Path, p: Path) {
    exists path :: Walk(repo, path) && path[0] == entry && path[|path| - 1] == p
  }

  lemma {:induction false} ReachableEntry(repo: Repository, entry: Path)
    ensures Reachable(repo, entry, entry)
  {
    assert Walk(repo, [entry]);
  }

  lemma {:induction false} ReachableStep(repo: Repository, entry: Path, p: Path, q: Path)
    requires Reachable(repo, entry, p) && Edge(repo, p, q)
    ensures Reachable(repo, entry, q)
  {
    hide Edge;
    var path :| Walk(repo, path) && path[0] == entry && path[|path| - 1] == p;
    assert Walk(repo, path + [q]);
    assert (path + [q])[0] == entry && (path + [q])[|path|] == q;
  }

  /** A set that holds the entry and is closed under edges holds everything reachable. */
  lemma {:induction false} ClosedHoldsWalk(repo: Repository, closed: set<Path>, path: seq<Path>)
    requires Walk(repo, path) && path[0] in closed
    requires forall p, q :: p in closed && Edge(repo, p, q) ==> q in closed
    ensures path[|path| - 1] in closed
    decreases |path|
  {
    hide Edge;
    if |path| > 1 {
      ClosedHoldsWalk(repo, closed, path[..|path| - 1]);
      assert Edge(repo, path[|path| - 2], path[|path| - 1]);
    }
  }

  /** Every first-party import of `p` that resolves has been queued. */
  ghost predicate Expanded(repo: Repository, p: Path, seen: set<Path>) {
    forall n :: n in ImportsOf(repo, p) && n in repo.firstParty && n in repo.modules ==> repo.modules[n] in seen
  }

  /** The forbidden names a set of files imports. */
  ghost function HitsOf(repo: Repository, done: set<Path>): set<Name> {
    set p, n | p in done && n in ImportsOf(repo, p) && n in repo.forbidden :: n
  }

  /** The inner loop: the imports of one file, in any order. */
  method Expand(repo: Repository, entry: Path, current: Path, seen0: set<Path>, stack0: seq<Path>, hits0: set<Name>)
    returns (seen: set<Path>, stack: seq<Path>, hits: set<Name>)
    requires Reachable(repo, entry, current)
    requires seen0 <= repo.modules.Values && (forall p :: p in seen0 ==> Reachable(repo, entry, p))
    requires forall p :: p in stack0 ==> Reachable(repo, entry, p)
    ensures seen0 <= seen <= repo.modules.Values && Expanded(repo, current, seen)
    ensures forall p :: p in seen || p in stack ==> Reachable(repo, entry, p)
    ensures forall p :: p in seen && p !in seen0 ==> p in stack
    ensures stack0 <= stack && (seen == seen0 ==> stack == stack0)
    ensures hits == hits0 + (ImportsOf(repo, current) * repo.forbidden)
  {
    seen, stack, hits := seen0, stack0, hits0;
    var todo := ImportsOf(repo, current);
    while todo != {}
      invariant todo <= ImportsOf(repo, current)
      invariant seen0 <= seen <= repo.modules.Values && stack0 <= stack && (seen == seen0 ==> stack == stack0)
      invariant forall p :: p in seen || p in stack ==> Reachable(repo, entry, p)
      invariant forall p :: p in seen && p !in seen0 ==> p in stack
      invariant hits == hits0 + ((ImportsOf(repo, current) - todo) * repo.forbidden)
      invariant forall n :: n in ImportsOf(repo, current) - todo && n in repo.firstParty && n in repo.modules ==>
        repo.modules[n] in seen
      decreases |todo|
    {
      hide Reachable, Edge;
      var name := Pick(todo);
      if name in repo.forbidden {
        hits := hits + {name};
      }
      if name in repo.firstParty && name in repo.modules {
        var resolved := repo.modules[name];
        if resolved !in seen {
          EdgeOf(repo, current, name);
          ReachableStep(repo, entry, current, resolved);
          seen := seen + {resolved};
          stack := stack + [resolved];
        }
      }
      todo := todo - {name};
    }
  }

  lemma {:induction false} EdgeOf(repo: Repository, p: Path, n: Name)
    requires n in ImportsOf(repo, p) && n in repo.firstParty && n in repo.modules
    ensures Edge(repo, p, repo.modules[n])
  {}

  lemma {:induction false} PopFacts(stack: seq<Path>)
    requires stack != []
    ensures forall p :: p in stack <==> p in stack[..|stack| - 1] || p == stack[|stack| - 1]
  {}

  /** `transport_modules_reachable`: terminates on every import graph, cycles included, and
      returns exactly the forbidden names imported by some reachable file. */
  method TransportModulesReachable(repo: Repository, entry: Path) returns (hits: set<Name>)
    ensures forall n :: n in hits <==>
      n in repo.forbidden && exists p :: Reachable(repo, entry, p) && n in ImportsOf(repo, p)
  {
    var seen: set<Path> := {};
    var stack := [entry];
    hits := {};
    ghost var done: set<Path> := {};
    ReachableEntry(repo, entry);
    hide Reachable, Expanded;
    while stack != []
      invariant seen <= repo.modules.Values
      invariant forall p :: p in seen || p in stack || p in done ==> Reachable(repo, entry, p)
      invariant entry in done || entry in stack
      invariant forall p :: p in seen ==> p in done || p in stack
      invariant forall p :: p in done ==> Expanded(repo, p, seen)
      invariant hits == HitsOf(repo, done)
      decreases |repo.modules.Values - seen|, |stack|
    {
      PopFacts(stack);
      var current := stack[|stack| - 1];
      var rest := stack[..|stack| - 1];
      ghost var before := seen;
      var seen', stack', hits' := Expand(repo, entry, current, seen, rest, hits);
      forall p | p in done
        ensures Expanded(repo, p, seen')
      {
        StillExpanded(repo, p, seen, seen');
      }
      HitsGrow(repo, done, current);
      done := done + {current};
      MeasureDrops(repo.modules.Values, seen, seen');
      seen, stack, hits := seen', stack', hits';
    }
    assert forall p :: p in seen ==> p in done;
    AllReachableDone(repo, entry, seen, done);
  }

  lemma {:induction false} StillExpanded(repo: Repository, p: Path, seen: set<Path>, more: set<Path>)
    requires Expanded(repo, p, seen) && seen <= more
    ensures Expanded(repo, p, more)
  {}

  lemma {:induction false} HitsGrow(repo: Repository, done: set<Path>, p: Path)
    ensures HitsOf(repo, done + {p}) == HitsOf(repo, done) + (ImportsOf(repo, p) * repo.forbidden)
  {
    assert p in done + {p};
    forall n | n in ImportsOf(repo, p) * repo.forbidden
      ensures n in HitsOf(repo, done + {p})
    {}
    forall n | n in HitsOf(repo, done)
      ensures n in HitsOf(repo, done + {p})
    {
      var q :| q in done && n in ImportsOf(repo, q);
      assert q in done + {p};
    }
  }

  lemma {:induction false} MeasureDrops<T>(all: set<T>, seen: set<T>, more: set<T>)
    requires seen <= more <= all
    ensures |all - more| <= |all - seen|
    ensures more != seen ==> |all - more| < |all - seen|
  {
    var gone := more - seen;
    assert all - seen == (all - more) + gone;
    assert |all - seen| == |all - more| + |gone|;
    if gone == {} {
      assert more == seen;
    }
  }

  lemma {:induction false} AllReachableDone(repo: Repository, entry: Path, seen: set<Path>, done: set<Path>)
    requires entry in done && (forall p :: p in seen ==> p in done)
    requires forall p :: p in done ==> Expanded(repo, p, seen) && Reachable(repo, entry, p)
    ensures forall n :: n in HitsOf(repo, done) <==>
      n in repo.forbidden && exists p :: Reachable(repo, entry, p) && n in ImportsOf(repo, p)
  {
    forall p | Reachable(repo, entry, p)
      ensures p in done
    {
      var path :| Walk(repo, path) && path[0] == entry && path[|path| - 1] == p;
      ClosedHoldsWalk(repo, done, path);
    }
  }
}
