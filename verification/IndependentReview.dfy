/** Independent-reviewer matching: the augmenting-path search that counts how many
    route identities can sit in one review with pairwise distinct model families and
    pairwise distinct trust domains. */
module IndependentReview {
  import opened Counting

  datatype Identity = Identity(model: string, family: string, domain: string)

  /** No two members share a model family or a trust domain. */
  predicate Independent(s: set<Identity>) {
    forall a, b | a in s && b in s && a != b :: a.family != b.family && a.domain != b.domain
  }

  ghost predicate Attained(n: nat, ids: set<Identity>) {
    exists s: set<Identity> :: s <= ids && Independent(s) && |s| == n
  }

  ghost predicate Bounded(n: nat, ids: set<Identity>) {
    forall s: set<Identity> :: s <= ids && Independent(s) ==> |s| <= n
  }

  /** `n` is the size of a largest independent subset of `ids`. */
  ghost predicate IsLargest(n: nat, ids: set<Identity>) {
    Attained(n, ids) && Bounded(n, ids)
  }

  type Graph = map<string, set<string>>

  function Neighbours(graph: Graph, family: string): set<string> {
    if family in graph then graph[family] else {}
  }

  function AllDomains(graph: Graph): set<string> {
    set f, d | f in graph && d in graph[f] :: d
  }

  /** The edges are exactly the (family, domain) pairs of the identities. */
  ghost predicate Represents(graph: Graph, ids: set<Identity>) {
    && (forall id | id in ids :: id.family in graph && id.domain in graph[id.family])
    && (forall f, d | f in graph && d in graph[f] ::
          exists m :: Identity(m, f, d) in ids)
  }

  predicate Injective(owner: map<string, string>) {
    forall d, e | d in owner && e in owner && d != e :: owner[d] != owner[e]
  }

  /** Every ownership entry runs along an edge of the graph. */
  predicate AlongEdges(owner: map<string, string>, graph: Graph) {
    forall d | d in owner :: d in Neighbours(graph, owner[d])
  }

  predicate IsMatching(owner: map<string, string>, graph: Graph) {
    Injective(owner) && AlongEdges(owner, graph)
  }

  /** A set of owned domains that no owner can leave: the residue of failed searches. */
  predicate Closed(dead: set<string>, owner: map<string, string>, graph: Graph) {
    dead <= owner.Keys && forall d | d in dead :: Neighbours(graph, owner[d]) <= dead
  }

  /** `after` gives `family` one further domain `e`, taken over from nobody or by moving
      earlier owners along; domains in `kept` are untouched. */
  ghost predicate Augmented(before: map<string, string>, after: map<string, string>,
                            family: string, e: string, kept: set<string>)
  {
    && e !in kept && e in after && after[e] == family
    && Injective(after - {e})
    && (after - {e}).Values <= before.Values
    && before.Values <= after.Values
    && before.Keys <= after.Keys && |after| == |before| + 1
    && (forall d | d in kept :: (d in after <==> d in before) && (d in before ==> after[d] == before[d]))
  }

  /** Rerouting a domain `d` to `family` after its old owner has found a domain of its own. */
  lemma Reroute(before: map<string, string>, mid: map<string, string>, family: string, d: string,
                e: string, kept: set<string>)
    requires Injective(before) && d in before && d !in kept
    requires Augmented(before, mid, before[d], e, kept + {d})
    ensures Augmented(before, mid[d := family], family, d, kept)
  {
    var after := mid[d := family];
    var g := before[d];
    assert mid[d] == g;
    assert after - {d} == mid - {d};
    assert Injective(after - {d}) by {
      forall x, y | x in after - {d} && y in after - {d} && x != y ensures after[x] != after[y] {
        if x != e && y != e {
          assert x in mid - {e} && y in mid - {e};
        } else {
          var o := if x == e then y else x;
          assert o in mid - {e} && d in mid - {e};
        }
      }
    }
    forall v | v in (after - {d}).Values ensures v in before.Values {
      var x :| x in after - {d} && after[x] == v;
      if x != e { assert (mid - {e})[x] == v; }
    }
    forall v | v in before.Values ensures v in after.Values {
      var x :| x in mid && mid[x] == v;
      if x == d { assert after[e] == v; } else { assert after[x] == v; }
    }
    assert after.Keys == mid.Keys;
    assert |after.Keys| == |after| && |mid.Keys| == |mid|;
  }

  /** Claiming a domain nobody owns. */
  lemma ClaimFree(before: map<string, string>, family: string, d: string, kept: set<string>)
    requires Injective(before) && d !in before && d !in kept
    ensures Augmented(before, before[d := family], family, d, kept)
  {
    var after := before[d := family];
    assert after - {d} == before;
    forall v | v in before.Values ensures v in after.Values {
      var x :| x in before && before[x] == v;
      assert after[x] == v;
    }
    assert after.Keys == before.Keys + {d};
    assert |after.Keys| == |after| && |before.Keys| == |before|;
  }

  /** The mutable search state shared by one run of the recursive `claim`. */
  class AugmentingSearch {
    const graph: Graph
    var domainOwner: map<string, string>
    var visited: set<string>

    constructor (graph: Graph)
      ensures this.graph == graph && domainOwner == map[] && visited == {}
    {
      this.graph := graph;
      domainOwner := map[];
      visited := {};
    }

    /** Give `family` a domain, moving earlier owners along if needed.

        `dead` is the residue of earlier failed searches: a search that enters it fails, so
        success leaves it alone.  On failure the newly visited domains are themselves a
        residue: owned, and closed under their owners' edges. */
    method Claim(family: string, ghost dead: set<string>) returns (ok: bool)
      requires IsMatching(domainOwner, graph)
      requires Closed(dead, domainOwner, graph)
      modifies this`domainOwner, this`visited
      ensures AlongEdges(domainOwner, graph)
      ensures old(visited) <= visited
      ensures ok ==> exists e :: Augmented(old(domainOwner), domainOwner, family, e, old(visited) + dead)
      ensures !ok ==> domainOwner == old(domainOwner)
      ensures !ok ==> Neighbours(graph, family) <= visited
      ensures !ok ==> forall d | d in visited && d !in old(visited) ::
                        d in domainOwner && Neighbours(graph, domainOwner[d]) <= visited
      ensures !ok ==> visited <= old(visited) + AllDomains(graph)
      ensures Neighbours(graph, family) <= dead ==> !ok
      decreases AllDomains(graph) - visited
    {
      var remaining := Neighbours(graph, family);
      while remaining != {}
        invariant remaining <= Neighbours(graph, family)
        invariant domainOwner == old(domainOwner)
        invariant old(visited) <= visited <= old(visited) + AllDomains(graph)
        invariant Neighbours(graph, family) - remaining <= visited
        invariant forall d | d in visited && d !in old(visited) ::
                    d in domainOwner && Neighbours(graph, domainOwner[d]) <= visited
        decreases |remaining|
      {
        var domain :| domain in remaining;
        remaining := remaining - {domain};
        assert domain in AllDomains(graph);
        if domain in visited {
          continue;
        }
        ghost var before := visited;
        visited := visited + {domain};
        assert AllDomains(graph) - visited < AllDomains(graph) - old(visited) by {
          assert domain in AllDomains(graph) - old(visited);
          assert domain !in AllDomains(graph) - visited;
        }
        if domain !in domainOwner {
          ClaimFree(domainOwner, family, domain, old(visited) + dead);
          domainOwner := domainOwner[domain := family];
          return true;
        }
        var owner := domainOwner[domain];
        label recurse:
        ok := Claim(owner, dead);
        if ok {
          ghost var e :| Augmented(old(domainOwner), domainOwner, owner, e, before + {domain} + dead);
          assert domain !in dead;
          WeakenKept(old(domainOwner), domainOwner, owner, e, before + {domain} + dead,
                     old(visited) + dead + {domain});
          Reroute(old(domainOwner), domainOwner, family, domain, e, old(visited) + dead);
          domainOwner := domainOwner[domain := family];
          return true;
        }
        forall d | d in visited && d !in old(visited)
          ensures d in domainOwner && Neighbours(graph, domainOwner[d]) <= visited
        {
          if d in before {
            assert Neighbours(graph, domainOwner[d]) <= before;
          } else if d != domain {
            assert d !in old@recurse(visited);
          }
        }
      }
      return false;
    }

    /** A top-level claim, with a fresh visited set. */
    method ClaimFromScratch(family: string, ghost dead: set<string>, ghost tried: set<string>)
      returns (ok: bool, ghost residue: set<string>)
      requires Progress(domainOwner, dead, graph, tried) && family !in tried
      modifies this`domainOwner, this`visited
      ensures Progress(domainOwner, residue, graph, tried + {family})
      ensures |domainOwner| == |old(domainOwner)| + if ok then 1 else 0
    {
      visited := {};
      ghost var before := domainOwner;
      ok := Claim(family, dead);
      if ok {
        ghost var e :| Augmented(before, domainOwner, family, e, {} + dead);
        assert {} + dead == dead;
        ProgressAugmented(before, domainOwner, dead, graph, tried, family, e);
        residue := dead;
      } else {
        assert Closed(visited, before, graph);
        ProgressFailed(before, dead, visited, graph, tried, family);
        residue := dead + visited;
      }
    }
  }

  lemma WeakenKept(before: map<string, string>, after: map<string, string>, family: string, e: string,
                   kept: set<string>, fewer: set<string>)
    requires Augmented(before, after, family, e, kept) && fewer <= kept
    ensures Augmented(before, after, family, e, fewer)
  {
  }

  // ---------------------------------------------------------------------------
  // Maximality: the residue and the matched families form a vertex cover
  // ---------------------------------------------------------------------------

  function Domains(s: set<Identity>): set<string> {
    set id | id in s :: id.domain
  }

  function Families(s: set<Identity>): set<string> {
    set id | id in s :: id.family
  }

  lemma {:induction false} DistinctCounts(s: set<Identity>)
    requires Independent(s)
    ensures |Domains(s)| == |s| && |Families(s)| == |s|
    decreases |s|
  {
    if s != {} {
      var id :| id in s;
      DistinctCounts(s - {id});
      assert Domains(s) == Domains(s - {id}) + {id.domain};
      assert Families(s) == Families(s - {id}) + {id.family};
      assert id.domain !in Domains(s - {id});
      assert id.family !in Families(s - {id});
    }
  }

  lemma {:induction false} ImageCounts(owner: map<string, string>)
    ensures |owner.Values| <= |owner|
    decreases |owner|
  {
    if owner != map[] {
      var d :| d in owner;
      var rest := owner - {d};
      assert owner.Keys == rest.Keys + {d} && |owner.Keys| == |owner| && |rest.Keys| == |rest|;
      ImageCounts(rest);
      forall v | v in owner.Values ensures v in rest.Values + {owner[d]} {
        var x :| x in owner && owner[x] == v;
        if x != d { assert rest[x] == v; }
      }
      SubsetCounts(owner.Values, rest.Values + {owner[d]});
    }
  }

  /** Every edge ends in the residue or starts at a family that owns a live domain. */
  ghost predicate Covered(dead: set<string>, owner: map<string, string>, ids: set<Identity>) {
    forall id | id in ids :: id.domain in dead || id.family in (owner - dead).Values
  }

  /** A vertex cover of the size of the matching bounds every independent set. */
  lemma CoverBounds(dead: set<string>, owner: map<string, string>, ids: set<Identity>)
    requires dead <= owner.Keys && Covered(dead, owner, ids)
    ensures Bounded(|owner|, ids)
  {
    var live := owner - dead;
    CoverSize(dead, owner);
    forall s: set<Identity> | s <= ids && Independent(s) ensures |s| <= |owner| {
      var low := set id | id in s && id.domain in dead;
      var high := s - low;
      assert s == low + high;
      DistinctCounts(low);
      DistinctCounts(high);
      SubsetCounts(Domains(low), dead);
      SubsetCounts(Families(high), live.Values);
    }
  }

  lemma CoverSize(dead: set<string>, owner: map<string, string>)
    requires dead <= owner.Keys
    ensures |dead| + |(owner - dead).Values| <= |owner|
  {
    var live := owner - dead;
    ImageCounts(live);
    assert live.Keys == owner.Keys - dead;
    assert |live.Keys| == |live| && |owner.Keys| == |owner|;
    assert owner.Keys == live.Keys + dead;
  }

  lemma DropEntry(owner: map<string, string>, graph: Graph, d: string)
    requires IsMatching(owner, graph) && d in owner
    ensures IsMatching(owner - {d}, graph) && |owner - {d}| == |owner| - 1
    ensures owner[d] !in (owner - {d}).Values
  {
    var rest := owner - {d};
    assert owner.Keys == rest.Keys + {d} && |owner.Keys| == |owner| && |rest.Keys| == |rest|;
    assert forall x | x in rest :: x in owner && rest[x] == owner[x] && x != d;
  }

  /** `s` uses only family-domain pairs of the matching. */
  ghost predicate Within(s: set<Identity>, owner: map<string, string>) {
    forall id | id in s :: id.domain in owner && owner[id.domain] == id.family
  }

  lemma ExtendIndependent(s: set<Identity>, owner: map<string, string>, id: Identity)
    requires Independent(s) && Within(s, owner - {id.domain})
    requires id.family !in (owner - {id.domain}).Values
    ensures Independent(s + {id}) && |s + {id}| == |s| + 1
  {
    var rest := owner - {id.domain};
    forall other | other in s ensures other.domain != id.domain && other.family != id.family {
      assert other.domain in rest && rest[other.domain] in rest.Values;
    }
    assert id !in s;
  }

  /** A matching along the edges of `ids` is itself an independent set of identities. */
  lemma {:induction false} MatchingRealised(owner: map<string, string>, graph: Graph, ids: set<Identity>)
    returns (s: set<Identity>)
    requires IsMatching(owner, graph) && Represents(graph, ids)
    ensures s <= ids && Independent(s) && |s| == |owner| && Within(s, owner)
    decreases |owner|
  {
    if owner == map[] {
      s := {};
    } else {
      var d :| d in owner;
      DropEntry(owner, graph, d);
      var smaller := MatchingRealised(owner - {d}, graph, ids);
      var id := EdgeIdentity(owner, graph, ids, d);
      ExtendIndependent(smaller, owner, id);
      s := smaller + {id};
      assert Within(s, owner);
    }
  }

  lemma EdgeIdentity(owner: map<string, string>, graph: Graph, ids: set<Identity>, d: string) returns (id: Identity)
    requires AlongEdges(owner, graph) && Represents(graph, ids) && d in owner
    ensures id in ids && id.domain == d && id.family == owner[d]
  {
    assert d in Neighbours(graph, owner[d]);
    var m :| Identity(m, owner[d], d) in ids;
    id := Identity(m, owner[d], d);
  }

  function Elements(identities: seq<Identity>): set<Identity> {
    set id | id in identities
  }

  lemma ElementsAppend(identities: seq<Identity>, i: nat)
    requires i < |identities|
    ensures Elements(identities[..i + 1]) == Elements(identities[..i]) + {identities[i]}
  {
    assert identities[..i + 1] == identities[..i] + [identities[i]];
  }

  lemma EdgeAdded(graph: Graph, ids: set<Identity>, id: Identity)
    requires Represents(graph, ids)
    ensures Represents(graph[id.family := Neighbours(graph, id.family) + {id.domain}], ids + {id})
  {
    var bigger := graph[id.family := Neighbours(graph, id.family) + {id.domain}];
    forall f, d | f in bigger && d in bigger[f] ensures exists m :: Identity(m, f, d) in ids + {id} {
      if f == id.family && d == id.domain {
        assert Identity(id.model, f, d) in ids + {id};
      } else {
        assert f in graph && d in graph[f];
        var m :| Identity(m, f, d) in ids;
        assert Identity(m, f, d) in ids + {id};
      }
    }
  }

  method BuildGraph(identities: seq<Identity>) returns (graph: Graph)
    ensures Represents(graph, Elements(identities))
  {
    graph := map[];
    for i := 0 to |identities|
      invariant Represents(graph, Elements(identities[..i]))
    {
      ElementsAppend(identities, i);
      EdgeAdded(graph, Elements(identities[..i]), identities[i]);
      var Identity(_, family, domain) := identities[i];
      graph := graph[family := Neighbours(graph, family) + {domain}];
    }
    assert identities[..|identities|] == identities;
  }

  /** What holds between two top-level claims: a matching of the families tried so far,
      and a residue that holds every edge of the families that failed. */
  ghost predicate Progress(owner: map<string, string>, dead: set<string>, graph: Graph, tried: set<string>) {
    && IsMatching(owner, graph) && Closed(dead, owner, graph)
    && owner.Values <= tried
    && forall f | f in tried :: f in owner.Values || Neighbours(graph, f) <= dead
  }

  lemma ProgressComplete(owner: map<string, string>, dead: set<string>, graph: Graph, ids: set<Identity>)
    requires Progress(owner, dead, graph, graph.Keys) && Represents(graph, ids)
    ensures IsLargest(|owner|, ids)
  {
    forall id | id in ids ensures id.domain in dead || id.family in (owner - dead).Values {
      EdgeCovered(id, dead, owner, graph);
    }
    CoverBounds(dead, owner, ids);
    var s := MatchingRealised(owner, graph, ids);
  }

  lemma ProgressAugmented(before: map<string, string>, after: map<string, string>, dead: set<string>,
                          graph: Graph, tried: set<string>, family: string, e: string)
    requires Progress(before, dead, graph, tried) && family !in tried
    requires Augmented(before, after, family, e, dead) && AlongEdges(after, graph)
    ensures Progress(after, dead, graph, tried + {family})
  {
    AugmentedMatching(before, after, family, e, dead);
  }

  lemma ProgressFailed(owner: map<string, string>, dead: set<string>, visited: set<string>,
                       graph: Graph, tried: set<string>, family: string)
    requires Progress(owner, dead, graph, tried)
    requires Closed(visited, owner, graph) && Neighbours(graph, family) <= visited
    ensures Progress(owner, dead + visited, graph, tried + {family})
  {
  }

  /** The size of a largest set of identities with pairwise distinct families and domains. */
  method MaximumIndependentIdentityCount(identities: seq<Identity>) returns (matched: nat)
    ensures IsLargest(matched, Elements(identities))
  {
    var graph := BuildGraph(identities);
    var search := new AugmentingSearch(graph);
    ghost var dead: set<string> := {};
    var families := graph.Keys;
    matched := 0;
    while families != {}
      invariant families <= graph.Keys
      invariant search.graph == graph && fresh(search)
      invariant matched == |search.domainOwner|
      invariant Progress(search.domainOwner, dead, graph, graph.Keys - families)
      decreases |families|
    {
      var family :| family in families;
      ghost var tried := graph.Keys - families;
      families := families - {family};
      assert graph.Keys - families == tried + {family};
      assert family !in tried;
      var claimed: bool;
      claimed, dead := search.ClaimFromScratch(family, dead, tried);
      if claimed {
        matched := matched + 1;
      }
    }
    assert graph.Keys - families == graph.Keys;
    ProgressComplete(search.domainOwner, dead, graph, Elements(identities));
  }

  lemma AugmentedMatching(before: map<string, string>, after: map<string, string>, family: string,
                          e: string, kept: set<string>)
    requires family !in before.Values
    requires Augmented(before, after, family, e, kept)
    ensures Injective(after)
    ensures after.Values == before.Values + {family}
  {
    var rest := after - {e};
    assert forall x | x in after && x != e :: x in rest && rest[x] == after[x];
    forall x | x in after && x != e ensures after[x] in before.Values {
      assert rest[x] in rest.Values;
    }
    forall v | v in after.Values ensures v in before.Values + {family} {
      var x :| x in after && after[x] == v;
    }
    assert after[e] in after.Values;
  }

  lemma EdgeCovered(id: Identity, dead: set<string>, owner: map<string, string>, graph: Graph)
    requires Closed(dead, owner, graph)
    requires id.domain in Neighbours(graph, id.family)
    requires id.family in owner.Values || Neighbours(graph, id.family) <= dead
    ensures id.domain in dead || id.family in (owner - dead).Values
  {
    if id.domain !in dead {
      var d :| d in owner && owner[d] == id.family;
      assert d !in dead;
      assert (owner - dead)[d] == id.family;
    }
  }

  lemma LargestUnique(m: nat, n: nat, ids: set<Identity>)
    requires IsLargest(m, ids) && IsLargest(n, ids)
    ensures m == n
  {
    var s: set<Identity> :| s <= ids && Independent(s) && |s| == m;
    var t: set<Identity> :| t <= ids && Independent(t) && |t| == n;
  }

  // ---------------------------------------------------------------------------
  // Scheduling one initiator plus k reviewers
  // ---------------------------------------------------------------------------

  /** A reviewer may sit beside the initiator: other model, family and domain. */
  predicate Eligible(initiator: Identity, reviewer: Identity) {
    && reviewer.model != initiator.model
    && reviewer.family != initiator.family
    && reviewer.domain != initiator.domain
  }

  /** `k` reviewers with pairwise distinct families and domains, all eligible. */
  ghost predicate Panel(initiator: Identity, panel: set<Identity>, reviewers: set<Identity>, k: nat) {
    && panel <= reviewers && Independent(panel) && |panel| == k
    && forall r | r in panel :: Eligible(initiator, r)
  }

  ghost predicate Schedulable(initiators: set<Identity>, reviewers: set<Identity>, k: nat) {
    exists initiator, panel :: initiator in initiators && Panel(initiator, panel, reviewers, k)
  }

  /** A panel is a choice of that many reviewers that stays pairwise distinct in family and domain together with the
      initiator, and in which nobody runs the initiator's model. */
  lemma PanelIsIndependent(initiator: Identity, panel: set<Identity>, reviewers: set<Identity>, k: nat)
    ensures Panel(initiator, panel, reviewers, k) <==>
            && initiator !in panel && panel <= reviewers && |panel| == k
            && Independent(panel + {initiator}) && forall r | r in panel :: r.model != initiator.model
  {
    if initiator !in panel && Independent(panel + {initiator}) {
      forall a, b | a in panel && b in panel && a != b ensures a.family != b.family && a.domain != b.domain {
        assert a in panel + {initiator} && b in panel + {initiator};
      }
      forall r | r in panel ensures r.family != initiator.family && r.domain != initiator.domain {
        assert r in panel + {initiator} && initiator in panel + {initiator};
      }
    }
  }

  lemma {:induction false} Shrink(s: set<Identity>, k: nat) returns (t: set<Identity>)
    requires Independent(s) && k <= |s|
    ensures t <= s && Independent(t) && |t| == k
    decreases |s|
  {
    if k == |s| {
      t := s;
    } else {
      var id :| id in s;
      t := Shrink(s - {id}, k);
    }
  }

  /** Readiness for more reviewers implies readiness for fewer. */
  lemma SchedulableMonotone(initiators: set<Identity>, reviewers: set<Identity>, j: nat, k: nat)
    requires j <= k && Schedulable(initiators, reviewers, k)
    ensures Schedulable(initiators, reviewers, j)
  {
    var initiator, panel :| initiator in initiators && Panel(initiator, panel, reviewers, k);
    var smaller := Shrink(panel, j);
    assert Panel(initiator, smaller, reviewers, j);
  }

  method EligibleReviewers(initiator: Identity, reviewers: seq<Identity>) returns (eligible: seq<Identity>)
    ensures forall r :: r in eligible <==> r in reviewers && Eligible(initiator, r)
  {
    eligible := [];
    for j := 0 to |reviewers|
      invariant forall r :: r in eligible <==> r in reviewers[..j] && Eligible(initiator, r)
    {
      assert reviewers[..j + 1] == reviewers[..j] + [reviewers[j]];
      if Eligible(initiator, reviewers[j]) {
        eligible := eligible + [reviewers[j]];
      }
    }
    assert reviewers[..|reviewers|] == reviewers;
  }

  lemma TooFew(initiator: Identity, pool: set<Identity>, allowed: set<Identity>, size: nat, k: nat)
    requires forall r :: r in allowed <==> r in pool && Eligible(initiator, r)
    requires Bounded(size, allowed) && size < k
    ensures !Schedulable({initiator}, pool, k)
  {
    forall panel: set<Identity> | panel <= pool && forall r | r in panel :: Eligible(initiator, r)
      ensures panel <= allowed
    {
    }
  }

  method CanScheduleIndependentReviews(initiators: seq<Identity>, reviewers: seq<Identity>, reviewerCount: nat)
    returns (ready: bool)
    ensures ready <==> Schedulable(Elements(initiators), Elements(reviewers), reviewerCount)
  {
    ghost var pool := Elements(reviewers);
    for i := 0 to |initiators|
      invariant forall j | 0 <= j < i :: !Schedulable({initiators[j]}, pool, reviewerCount)
    {
      var initiator := initiators[i];
      var eligible := EligibleReviewers(initiator, reviewers);
      ghost var allowed := Elements(eligible);
      var size := MaximumIndependentIdentityCount(eligible);
      if size >= reviewerCount {
        ghost var s: set<Identity> :| s <= allowed && Independent(s) && |s| == size;
        ghost var panel := Shrink(s, reviewerCount);
        assert Panel(initiator, panel, pool, reviewerCount);
        return true;
      }
      TooFew(initiator, pool, allowed, size, reviewerCount);
    }
    if Schedulable(Elements(initiators), pool, reviewerCount) {
      ghost var initiator, panel :| initiator in initiators && Panel(initiator, panel, pool, reviewerCount);
      assert Schedulable({initiator}, pool, reviewerCount);
    }
    return false;
  }
}
