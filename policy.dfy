/**
  What the four link passes guarantee, stated on the graph: which hub each truthy
  grouping links an entry to, which links leave each node, and that every link joins
  a node of `allNodes` to a hub node.
 */
module Policy {

  import opened Wrappers
  import opened Seqs
  import opened Records
  import opened Hubs
  import opened Links

  // ---------------------------------------------------------------------------
  // A pass appended to a list is that list followed by the pass on its own
  // ---------------------------------------------------------------------------

  /** Running a fold from `acc` is `acc` followed by the same fold run from the empty list. */
  lemma {:induction false} AppendedAppend(steps: seq<seq<Link>>, i: nat, acc: seq<Link>)
    ensures Appended(steps, i, acc) == acc + Appended(steps, i, [])
    decreases |steps| - i
  {
    if i < |steps| {
      var l, rest := steps[i], Appended(steps, i + 1, []);
      AppendedAppend(steps, i + 1, acc + l);
      AppendedAppend(steps, i + 1, [] + l);
      assert (acc + l) + rest == acc + (([] + l) + rest);
    }
  }

  /** The pass from step `i` on is step `i`'s links followed by the pass from `i + 1` on. */
  lemma AppendedStep(steps: seq<seq<Link>>, i: nat)
    requires i < |steps|
    ensures Appended(steps, i, []) == steps[i] + Appended(steps, i + 1, [])
  {
    AppendedAppend(steps, i + 1, steps[i]);
    assert [] + steps[i] == steps[i];
  }

  /** The adventure pass from continent hub `k` on adds one link per remaining continent hub, in order. */
  lemma {:induction false} AdventureFromShape(n: nat, h: HubLists, a: nat, k: nat, acc: seq<Link>)
    requires k <= |h.continent|
    ensures var r := AdventureFrom(n, h, a, k, acc);
            |r| == |acc| + |h.continent| - k && r[..|acc|] == acc
            && forall j :: |acc| <= j < |r| ==>
                 r[j] == Link(HubIndex(n, h, ContinentHub, k + j - |acc|), HubIndex(n, h, CategoryHub, a))
    decreases |h.continent| - k
  {
    if k < |h.continent| {
      var l := Link(HubIndex(n, h, ContinentHub, k), HubIndex(n, h, CategoryHub, a));
      AdventureFromShape(n, h, a, k + 1, acc + [l]);
      var r := AdventureFrom(n, h, a, k, acc);
      assert r[..|acc| + 1] == acc + [l];
      assert r[..|acc|] == (acc + [l])[..|acc|];
      assert r[|acc|] == (acc + [l])[|acc|];
    }
  }

  /** `links` is the adventure pass, then the first entry pass, the category pass and the country pass. */
  lemma LinksDecomposed(entries: seq<Entry>)
    ensures var h, n := MakeHubLists(entries), |entries|;
            LinkList(entries) == AdventureLinks(n, h, []) + Appended(EntrySteps(entries, h), 0, [])
                              + Appended(CategorySteps(entries, h), 0, [])
                              + Appended(CountrySteps(entries, h), 0, [])
  {
    var h, n := MakeHubLists(entries), |entries|;
    var a := AdventureLinks(n, h, []);
    AppendedAppend(EntrySteps(entries, h), 0, a);
    var e := Appended(EntrySteps(entries, h), 0, a);
    AppendedAppend(CategorySteps(entries, h), 0, e);
    AppendedAppend(CountrySteps(entries, h), 0, Appended(CategorySteps(entries, h), 0, e));
  }

  // ---------------------------------------------------------------------------
  // Each pass, stated on truthy groupings and hub nodes
  // ---------------------------------------------------------------------------

  /** Looking up an entry's grouping and linking to the result links it to its own hub iff the grouping is truthy. */
  lemma LinkToHub(entries: seq<Entry>, i: nat, t: HubType)
    requires i < |entries|
    ensures var h, g := MakeHubLists(entries), Grouping(entries[i], t);
            LinkTo(|entries|, h, i, t, FindHub(ListOf(h, t), g))
            == if Present(g) then [Link(i, EntryHub(entries, i, t))] else []
  {
    EntryFindsHub(entries, t, i);
    FindHubInList(entries, t, Grouping(entries[i], t));
    assert ListOf(MakeHubLists(entries), t) == HubList(entries, t);
  }

  /**
    The first pass links an entry, in this order, to its topic hub iff its topics are
    truthy, to its country hub iff its country is truthy, to its continent hub iff its
    continent is truthy and not both country and topics are, and to its category hub
    only when its category is truthy and none of the other three is.
   */
  lemma EntryRule(entries: seq<Entry>, i: nat)
    requires i < |entries|
    ensures var e, h := entries[i], MakeHubLists(entries);
            EntryLinks(entries, h, i) ==
              (if Present(e.topics) then [Link(i, EntryHub(entries, i, TopicsHub))] else [])
              + (if Present(e.country) then [Link(i, EntryHub(entries, i, CountryHub))] else [])
              + (if Present(e.continent) && !(Present(e.country) && Present(e.topics))
                 then [Link(i, EntryHub(entries, i, ContinentHub))] else [])
              + (if !Present(e.topics) && !Present(e.country) && !Present(e.continent) && Present(e.category)
                 then [Link(i, EntryHub(entries, i, CategoryHub))] else [])
  {
    LinkToHub(entries, i, TopicsHub);
    LinkToHub(entries, i, CountryHub);
    LinkToHub(entries, i, ContinentHub);
    LinkToHub(entries, i, CategoryHub);
    EntryFindsHub(entries, TopicsHub, i);
    EntryFindsHub(entries, CountryHub, i);
    EntryFindsHub(entries, ContinentHub, i);
  }

  /** The second pass links an entry to its category hub iff its category is "project", "skill" or "experience". */
  lemma CategoryRule(entries: seq<Entry>, i: nat)
    requires i < |entries|
    ensures var c := entries[i].category;
            CategoryLinks(entries, MakeHubLists(entries), i) ==
              if Present(c) && c.value in SpecificCategories
              then [Link(i, EntryHub(entries, i, CategoryHub))] else []
  {
    LinkToHub(entries, i, CategoryHub);
  }

  /** The `k`-th country hub sits at the node of its value. */
  lemma CountryHubNode(entries: seq<Entry>, k: nat)
    requires k < |HubList(entries, CountryHub)|
    ensures var v := HubList(entries, CountryHub)[k].value;
            v in HubValues(entries, CountryHub)
            && HubIndex(|entries|, MakeHubLists(entries), CountryHub, k) == NodeOf(entries, CountryHub, v)
  {
    var vs := HubValues(entries, CountryHub);
    HubValuesProperties(entries, CountryHub);
    assert HubList(entries, CountryHub)[k].value == vs[k];
    assert FirstIndex(vs, vs[k]) == k;
  }

  /**
    The country pass gives a country hub at most one link: to the continent hub of the
    first entry with that country and a truthy continent, and none when there is no such entry.
   */
  lemma CountryRule(entries: seq<Entry>, k: nat)
    requires k < |HubList(entries, CountryHub)|
    ensures var h := MakeHubLists(entries);
            var v := h.country[k].value;
            var c := CountryLinks(entries, h, k);
            var example := FindExample(entries, v);
            v in HubValues(entries, CountryHub)
            && (c != [] <==> exists j :: 0 <= j < |entries| && IsExample(entries[j], v))
            && (example.None? ==> c == [])
            && (example.Some? ==>
                  c == [Link(NodeOf(entries, CountryHub, v), EntryHub(entries, example.value, ContinentHub))])
  {
    var h := MakeHubLists(entries);
    var v := h.country[k].value;
    CountryHubNode(entries, k);
    var example := FindExample(entries, v);
    FindExampleFirst(entries, v);
    if example.Some? {
      var j := example.value;
      EntryFindsHub(entries, ContinentHub, j);
      FindHubInList(entries, ContinentHub, entries[j].continent);
    }
  }

  /**
    The adventure pass exists iff some entry has category exactly "adventure"; it then
    links every continent hub, in continent-hub order, to the "adventure" hub, and
    otherwise adds nothing.
   */
  lemma AdventureRule(entries: seq<Entry>)
    ensures var h, n := MakeHubLists(entries), |entries|;
            var a := AdventureLinks(n, h, []);
            (AdventureCategory in HubValues(entries, CategoryHub) <==>
               exists i :: 0 <= i < n && entries[i].category == Some(AdventureCategory))
            && (AdventureCategory !in HubValues(entries, CategoryHub) ==> a == [])
            && (AdventureCategory in HubValues(entries, CategoryHub) ==>
                  |a| == |h.continent|
                  && forall k :: 0 <= k < |a| ==>
                       a[k] == Link(HubIndex(n, h, ContinentHub, k), NodeOf(entries, CategoryHub, AdventureCategory)))
  {
    var h, n := MakeHubLists(entries), |entries|;
    HubValuesProperties(entries, CategoryHub);
    FindHubInList(entries, CategoryHub, Some(AdventureCategory));
    var r := AdventureHub(h);
    if r.Some? {
      AdventureFromShape(n, h, r.value, 0, []);
    }
  }

  /** `links` starts with the adventure pass. */
  lemma LinksStartWithAdventure(entries: seq<Entry>)
    ensures var a := AdventureLinks(|entries|, MakeHubLists(entries), []);
            |a| <= |LinkList(entries)| && LinkList(entries)[..|a|] == a
  {
    LinksDecomposed(entries);
  }

  // ---------------------------------------------------------------------------
  // The links that leave a node
  // ---------------------------------------------------------------------------

  /** The links of `links` that leave node `x`, in list order. */
  function Outgoing(links: seq<Link>, x: nat): seq<Link>
  {
    if |links| == 0 then []
    else (if links[0].source == x then [links[0]] else []) + Outgoing(links[1..], x)
  }

  /** `Outgoing` keeps exactly the links whose source is `x`. */
  lemma {:induction false} OutgoingMembers(links: seq<Link>, x: nat)
    ensures forall l :: l in Outgoing(links, x) <==> l in links && l.source == x
  {
    if |links| > 0 {
      assert links == [links[0]] + links[1..];
      OutgoingMembers(links[1..], x);
    }
  }

  /** The links leaving `x` in `a + b` are those in `a`, then those in `b`. */
  lemma {:induction false} OutgoingConcat(a: seq<Link>, b: seq<Link>, x: nat)
    ensures Outgoing(a + b, x) == Outgoing(a, x) + Outgoing(b, x)
  {
    if |a| == 0 {
      assert a + b == b;
    } else {
      assert (a + b)[0] == a[0];
      assert (a + b)[1..] == a[1..] + b;
      OutgoingConcat(a[1..], b, x);
    }
  }

  /** When every link leaves `x`, the links leaving `x` are all of them, in order. */
  lemma {:induction false} OutgoingOfOneSource(links: seq<Link>, x: nat)
    requires forall l :: l in links ==> l.source == x
    ensures Outgoing(links, x) == links
  {
    if |links| > 0 {
      assert links == [links[0]] + links[1..];
      OutgoingOfOneSource(links[1..], x);
    }
  }

  /** When no link leaves `x`, none of them is among the links leaving `x`. */
  lemma {:induction false} OutgoingOfOtherSources(links: seq<Link>, x: nat)
    requires forall l :: l in links ==> l.source != x
    ensures Outgoing(links, x) == []
  {
    if |links| > 0 {
      assert links == [links[0]] + links[1..];
      OutgoingOfOtherSources(links[1..], x);
    }
  }

  /** Links that all leave another node than `x` add nothing to the links leaving `x`. */
  lemma OutgoingSkip(l: seq<Link>, rest: seq<Link>, x: nat, s: nat, r: seq<Link>)
    requires x != s && (forall k :: k in l ==> k.source == s)
    requires Outgoing(rest, x) == r
    ensures Outgoing(l + rest, x) == r
  {
    OutgoingConcat(l, rest, x);
    OutgoingOfOtherSources(l, x);
  }

  /** Links that all leave `x`, followed by links none of which does. */
  lemma OutgoingOwn(l: seq<Link>, rest: seq<Link>, x: nat)
    requires forall k :: k in l ==> k.source == x
    requires Outgoing(rest, x) == []
    ensures Outgoing(l + rest, x) == l
  {
    OutgoingConcat(l, rest, x);
    OutgoingOfOneSource(l, x);
  }

  /** Step `j` of `steps` pushes only links leaving node `base + j`. */
  predicate LeavesFrom(steps: seq<seq<Link>>, base: nat)
  {
    forall j, l :: 0 <= j < |steps| && l in steps[j] ==> l.source == base + j
  }

  /** One step adds nothing to the links leaving a node other than its own. */
  lemma AppendedSkip(steps: seq<seq<Link>>, base: nat, i: nat, x: nat)
    requires LeavesFrom(steps, base) && i < |steps| && x != base + i
    ensures Outgoing(Appended(steps, i, []), x) == Outgoing(Appended(steps, i + 1, []), x)
  {
    AppendedStep(steps, i);
    OutgoingSkip(steps[i], Appended(steps, i + 1, []), x, base + i, Outgoing(Appended(steps, i + 1, []), x));
  }

  /** No link of the pass from step `i` on leaves a node that none of those steps owns. */
  lemma {:induction false} AppendedElsewhere(steps: seq<seq<Link>>, base: nat, i: nat, x: nat)
    requires LeavesFrom(steps, base) && i <= |steps| && (x < base + i || x >= base + |steps|)
    ensures Outgoing(Appended(steps, i, []), x) == []
    decreases |steps| - i
  {
    if i < |steps| {
      AppendedElsewhere(steps, base, i + 1, x);
      AppendedSkip(steps, base, i, x);
    }
  }

  /** The steps before step `k` add no link leaving its node. */
  lemma {:induction false} AppendedUpTo(steps: seq<seq<Link>>, base: nat, i: nat, k: nat)
    requires LeavesFrom(steps, base) && i <= k < |steps|
    ensures Outgoing(Appended(steps, i, []), base + k) == Outgoing(Appended(steps, k, []), base + k)
    decreases k - i
  {
    if i < k {
      AppendedUpTo(steps, base, i + 1, k);
      AppendedSkip(steps, base, i, base + k);
    }
  }

  /** Of the whole pass, exactly step `k`'s links leave node `base + k`. */
  lemma AppendedAt(steps: seq<seq<Link>>, base: nat, k: nat)
    requires LeavesFrom(steps, base) && k < |steps|
    ensures Outgoing(Appended(steps, 0, []), base + k) == steps[k]
  {
    AppendedUpTo(steps, base, 0, k);
    AppendedStep(steps, k);
    AppendedElsewhere(steps, base, k + 1, base + k);
    OutgoingOwn(steps[k], Appended(steps, k + 1, []), base + k);
  }

  /** Appending a pass to `acc` adds, as links leaving node `base + k`, exactly step `k`'s links. */
  lemma PassAdds(steps: seq<seq<Link>>, base: nat, acc: seq<Link>, k: nat)
    requires LeavesFrom(steps, base) && k < |steps|
    ensures Outgoing(Appended(steps, 0, acc), base + k) == Outgoing(acc, base + k) + steps[k]
  {
    AppendedAppend(steps, 0, acc);
    OutgoingConcat(acc, Appended(steps, 0, []), base + k);
    AppendedAt(steps, base, k);
  }

  /** Appending a pass to `acc` adds no link leaving a node that none of its steps owns. */
  lemma PassKeeps(steps: seq<seq<Link>>, base: nat, acc: seq<Link>, x: nat)
    requires LeavesFrom(steps, base) && (x < base || x >= base + |steps|)
    ensures Outgoing(Appended(steps, 0, acc), x) == Outgoing(acc, x)
  {
    AppendedAppend(steps, 0, acc);
    OutgoingConcat(acc, Appended(steps, 0, []), x);
    AppendedElsewhere(steps, base, 0, x);
    assert Outgoing(acc, x) + [] == Outgoing(acc, x);
  }

  /** Step `i` of the first pass pushes only links leaving entry `i`. */
  lemma EntryStepsLeave(entries: seq<Entry>, h: HubLists)
    ensures LeavesFrom(EntrySteps(entries, h), 0)
  {
    var steps := EntrySteps(entries, h);
    forall j | 0 <= j < |steps| ensures forall l: Link :: l in steps[j] ==> l.source == 0 + j {
      assert steps[j] == EntryLinks(entries, h, j);
    }
  }

  /** Step `i` of the second pass pushes only links leaving entry `i`. */
  lemma CategoryStepsLeave(entries: seq<Entry>, h: HubLists)
    ensures LeavesFrom(CategorySteps(entries, h), 0)
  {
    var steps := CategorySteps(entries, h);
    forall j | 0 <= j < |steps| ensures forall l: Link :: l in steps[j] ==> l.source == 0 + j {
      assert steps[j] == CategoryLinks(entries, h, j);
    }
  }

  /** Step `k` of the country pass pushes only links leaving the `k`-th country hub. */
  lemma CountryStepsLeave(entries: seq<Entry>, h: HubLists)
    ensures LeavesFrom(CountrySteps(entries, h), HubIndex(|entries|, h, CountryHub, 0))
  {
    var steps, base := CountrySteps(entries, h), HubIndex(|entries|, h, CountryHub, 0);
    forall j | 0 <= j < |steps| ensures forall l: Link :: l in steps[j] ==> l.source == base + j {
      assert steps[j] == CountryLinks(entries, h, j);
    }
  }

  /** Appending the first pass to `acc` adds, as links leaving entry `x`, exactly that entry's links. */
  lemma EntryPassAdds(entries: seq<Entry>, h: HubLists, acc: seq<Link>, x: nat)
    requires x < |entries|
    ensures Outgoing(Appended(EntrySteps(entries, h), 0, acc), x) == Outgoing(acc, x) + EntryLinks(entries, h, x)
  {
    EntryStepsLeave(entries, h);
    PassAdds(EntrySteps(entries, h), 0, acc, x);
  }

  /** Appending the first pass to `acc` adds no link leaving a hub. */
  lemma EntryPassKeeps(entries: seq<Entry>, h: HubLists, acc: seq<Link>, x: nat)
    requires x >= |entries|
    ensures Outgoing(Appended(EntrySteps(entries, h), 0, acc), x) == Outgoing(acc, x)
  {
    EntryStepsLeave(entries, h);
    PassKeeps(EntrySteps(entries, h), 0, acc, x);
  }

  /** Appending the second pass to `acc` adds, as links leaving entry `x`, exactly that entry's link. */
  lemma CategoryPassAdds(entries: seq<Entry>, h: HubLists, acc: seq<Link>, x: nat)
    requires x < |entries|
    ensures Outgoing(Appended(CategorySteps(entries, h), 0, acc), x) == Outgoing(acc, x) + CategoryLinks(entries, h, x)
  {
    CategoryStepsLeave(entries, h);
    PassAdds(CategorySteps(entries, h), 0, acc, x);
  }

  /** Appending the second pass to `acc` adds no link leaving a hub. */
  lemma CategoryPassKeeps(entries: seq<Entry>, h: HubLists, acc: seq<Link>, x: nat)
    requires x >= |entries|
    ensures Outgoing(Appended(CategorySteps(entries, h), 0, acc), x) == Outgoing(acc, x)
  {
    CategoryStepsLeave(entries, h);
    PassKeeps(CategorySteps(entries, h), 0, acc, x);
  }

  /** Appending the country pass to `acc` adds, as links leaving country hub `k`, exactly its link. */
  lemma CountryPassAdds(entries: seq<Entry>, h: HubLists, acc: seq<Link>, k: nat)
    requires k < |h.country|
    ensures var x := HubIndex(|entries|, h, CountryHub, k);
            Outgoing(Appended(CountrySteps(entries, h), 0, acc), x) == Outgoing(acc, x) + CountryLinks(entries, h, k)
  {
    CountryStepsLeave(entries, h);
    PassAdds(CountrySteps(entries, h), HubIndex(|entries|, h, CountryHub, 0), acc, k);
  }

  /** Appending the country pass to `acc` adds no link leaving a node before the country hubs. */
  lemma CountryPassKeeps(entries: seq<Entry>, h: HubLists, acc: seq<Link>, x: nat)
    requires x < HubIndex(|entries|, h, CountryHub, 0)
    ensures Outgoing(Appended(CountrySteps(entries, h), 0, acc), x) == Outgoing(acc, x)
  {
    CountryStepsLeave(entries, h);
    PassKeeps(CountrySteps(entries, h), HubIndex(|entries|, h, CountryHub, 0), acc, x);
  }

  /** Every link of the adventure pass leaves a continent hub. */
  lemma AdventurePassSources(n: nat, h: HubLists)
    ensures forall l :: l in AdventureLinks(n, h, []) ==>
              n + Offset(h, ContinentHub) <= l.source < n + Offset(h, TopicsHub)
  {
    var r := AdventureHub(h);
    if r.Some? {
      AdventureFromShape(n, h, r.value, 0, []);
      var a := AdventureLinks(n, h, []);
      forall l | l in a ensures n + Offset(h, ContinentHub) <= l.source < n + Offset(h, TopicsHub) {
        var j :| 0 <= j < |a| && a[j] == l;
      }
    }
  }

  /** No link of the adventure pass leaves a node that is not a continent hub. */
  lemma AdventurePassElsewhere(n: nat, h: HubLists, x: nat)
    requires x < n + Offset(h, ContinentHub) || x >= n + Offset(h, TopicsHub)
    ensures Outgoing(AdventureLinks(n, h, []), x) == []
  {
    AdventurePassSources(n, h);
    OutgoingOfOtherSources(AdventureLinks(n, h, []), x);
  }

  /** The links leaving entry `i` are its first-pass links followed by its category-pass link. */
  lemma EntryOutgoing(entries: seq<Entry>, i: nat)
    requires i < |entries|
    ensures var h := MakeHubLists(entries);
            Outgoing(LinkList(entries), i) == EntryLinks(entries, h, i) + CategoryLinks(entries, h, i)
  {
    var h, n := MakeHubLists(entries), |entries|;
    var a := AdventureLinks(n, h, []);
    var e := Appended(EntrySteps(entries, h), 0, a);
    var c := Appended(CategorySteps(entries, h), 0, e);
    CountryPassKeeps(entries, h, c, i);
    CategoryPassAdds(entries, h, e, i);
    EntryPassAdds(entries, h, a, i);
    AdventurePassElsewhere(n, h, i);
    assert [] + EntryLinks(entries, h, i) == EntryLinks(entries, h, i);
  }

  /** The links leaving the `k`-th country hub are exactly its country-pass link, if any. */
  lemma CountryHubOutgoing(entries: seq<Entry>, k: nat)
    requires k < |HubList(entries, CountryHub)|
    ensures var h := MakeHubLists(entries);
            Outgoing(LinkList(entries), HubIndex(|entries|, h, CountryHub, k)) == CountryLinks(entries, h, k)
  {
    var h, n := MakeHubLists(entries), |entries|;
    var c := Appended(CategorySteps(entries, h), 0, Appended(EntrySteps(entries, h), 0, AdventureLinks(n, h, [])));
    HubSilentBeforeCountryPass(entries, h, HubIndex(n, h, CountryHub, k));
    CountryPassAdds(entries, h, c, k);
    assert [] + CountryLinks(entries, h, k) == CountryLinks(entries, h, k);
  }

  /** A hub that is not a continent hub is the source of no link before the country pass. */
  lemma HubSilentBeforeCountryPass(entries: seq<Entry>, h: HubLists, x: nat)
    requires var n := |entries|; n <= x && (x < n + Offset(h, ContinentHub) || x >= n + Offset(h, TopicsHub))
    ensures var a := AdventureLinks(|entries|, h, []);
            Outgoing(Appended(CategorySteps(entries, h), 0, Appended(EntrySteps(entries, h), 0, a)), x) == []
  {
    var a := AdventureLinks(|entries|, h, []);
    var e := Appended(EntrySteps(entries, h), 0, a);
    CategoryPassKeeps(entries, h, e, x);
    EntryPassKeeps(entries, h, a, x);
    AdventurePassElsewhere(|entries|, h, x);
  }

  // ---------------------------------------------------------------------------
  // Every link joins a node of `allNodes` to a hub node
  // ---------------------------------------------------------------------------

  /** The length of `allNodes` for `n` entries and the hub lists `h`. */
  function Total(n: nat, h: HubLists): nat
  {
    n + |h.category| + |h.continent| + |h.topics| + |h.country|
  }

  /** Every link leaves a node below `total` and enters a node of index at least `n` and below `total`. */
  predicate Within(n: nat, total: nat, links: seq<Link>)
  {
    forall l :: l in links ==> l.source < total && n <= l.target < total
  }

  /** A link pushed after a successful lookup leaves a node of `allNodes` and enters one past the entries. */
  lemma LinkToWithin(n: nat, h: HubLists, i: nat, t: HubType, hub: Option<nat>)
    requires i < Total(n, h)
    requires hub.Some? ==> hub.value < |ListOf(h, t)|
    ensures Within(n, Total(n, h), LinkTo(n, h, i, t, hub))
  {
  }

  /** The first-pass links of entry `i` leave a node of `allNodes` and enter one past the entries. */
  lemma EntryLinksWithin(entries: seq<Entry>, h: HubLists, i: nat)
    requires i < |entries|
    ensures Within(|entries|, Total(|entries|, h), EntryLinks(entries, h, i))
  {
    var n, d := |entries|, entries[i];
    LinkToWithin(n, h, i, TopicsHub, FindHub(h.topics, d.topics));
    LinkToWithin(n, h, i, CountryHub, FindHub(h.country, d.country));
    LinkToWithin(n, h, i, ContinentHub, FindHub(h.continent, d.continent));
    LinkToWithin(n, h, i, CategoryHub, FindHub(h.category, d.category));
  }

  /** A pass whose every step stays within the bounds stays within them. */
  lemma {:induction false} AppendedWithin(n: nat, total: nat, steps: seq<seq<Link>>, i: nat)
    requires forall j :: 0 <= j < |steps| ==> Within(n, total, steps[j])
    ensures Within(n, total, Appended(steps, i, []))
    decreases |steps| - i
  {
    if i < |steps| {
      AppendedStep(steps, i);
      AppendedWithin(n, total, steps, i + 1);
    }
  }

  /** Every link of the first entry pass leaves a node of `allNodes` and enters one past the entries. */
  lemma EntryStepsWithin(entries: seq<Entry>, h: HubLists)
    ensures forall j :: 0 <= j < |EntrySteps(entries, h)| ==>
              Within(|entries|, Total(|entries|, h), EntrySteps(entries, h)[j])
  {
    forall j | 0 <= j < |entries| ensures Within(|entries|, Total(|entries|, h), EntrySteps(entries, h)[j]) {
      EntryLinksWithin(entries, h, j);
    }
  }

  /** Every link of the category pass leaves a node of `allNodes` and enters one past the entries. */
  lemma CategoryStepsWithin(entries: seq<Entry>, h: HubLists)
    ensures forall j :: 0 <= j < |CategorySteps(entries, h)| ==>
              Within(|entries|, Total(|entries|, h), CategorySteps(entries, h)[j])
  {
    forall j | 0 <= j < |entries| ensures Within(|entries|, Total(|entries|, h), CategorySteps(entries, h)[j]) {
      LinkToWithin(|entries|, h, j, CategoryHub, FindHub(h.category, entries[j].category));
    }
  }

  /** Every link of the country pass leaves a node of `allNodes` and enters one past the entries. */
  lemma CountryStepsWithin(entries: seq<Entry>, h: HubLists)
    ensures forall k :: 0 <= k < |CountrySteps(entries, h)| ==>
              Within(|entries|, Total(|entries|, h), CountrySteps(entries, h)[k])
  {
    forall k | 0 <= k < |h.country| ensures Within(|entries|, Total(|entries|, h), CountrySteps(entries, h)[k]) {
      assert CountrySteps(entries, h)[k] == CountryLinks(entries, h, k);
    }
  }

  /** Every adventure link leaves a node of `allNodes` and enters one past the entries. */
  lemma AdventurePassWithin(n: nat, h: HubLists)
    ensures Within(n, Total(n, h), AdventureLinks(n, h, []))
  {
    var r := AdventureHub(h);
    if r.Some? {
      AdventureFromShape(n, h, r.value, 0, []);
      var a := AdventureLinks(n, h, []);
      forall l | l in a ensures l.source < Total(n, h) && n <= l.target < Total(n, h) {
        var j :| 0 <= j < |a| && a[j] == l;
      }
    }
  }

  /** Every link leaves a node of `allNodes` and enters a node after the entries. */
  lemma LinksEnterHubs(entries: seq<Entry>)
    ensures forall l :: l in LinkList(entries) ==>
              l.source < |AllNodes(entries)| && |entries| <= l.target < |AllNodes(entries)|
  {
    var h, n := MakeHubLists(entries), |entries|;
    LinksDecomposed(entries);
    AdventurePassWithin(n, h);
    EntryStepsWithin(entries, h);
    AppendedWithin(n, Total(n, h), EntrySteps(entries, h), 0);
    CategoryStepsWithin(entries, h);
    AppendedWithin(n, Total(n, h), CategorySteps(entries, h), 0);
    CountryStepsWithin(entries, h);
    AppendedWithin(n, Total(n, h), CountrySteps(entries, h), 0);
    assert |AllNodes(entries)| == Total(n, h);
  }

  /** Every link leaves a node of `allNodes` and enters a hub node of `allNodes`. */
  lemma LinksWellFormed(entries: seq<Entry>)
    ensures var nodes := AllNodes(entries);
            forall l :: l in LinkList(entries) ==>
              l.source < |nodes| && |entries| <= l.target < |nodes| && nodes[l.target].HubNode?
  {
    var n, nodes := |entries|, AllNodes(entries);
    LinksEnterHubs(entries);
    forall l | l in LinkList(entries) ensures nodes[l.target].HubNode? {
      assert nodes[n + (l.target - n)] == HubNode(AllHubs(entries)[l.target - n]);
    }
  }

  // ---------------------------------------------------------------------------
  // Consequences
  // ---------------------------------------------------------------------------

  /** An entry with no truthy grouping is the source of no link. */
  lemma UngroupedEntryUnlinked(entries: seq<Entry>, i: nat)
    requires i < |entries|
    requires var e := entries[i];
             !Present(e.topics) && !Present(e.country) && !Present(e.continent) && !Present(e.category)
    ensures Outgoing(LinkList(entries), i) == []
  {
    EntryRule(entries, i);
    CategoryRule(entries, i);
    EntryOutgoing(entries, i);
  }

  /** An entry with no truthy grouping is the source and the target of no link. */
  lemma IsolatedEntry(entries: seq<Entry>, i: nat)
    requires i < |entries|
    requires var e := entries[i];
             !Present(e.topics) && !Present(e.country) && !Present(e.continent) && !Present(e.category)
    ensures forall l :: l in LinkList(entries) ==> l.source != i && l.target != i
  {
    UngroupedEntryUnlinked(entries, i);
    OutgoingMembers(LinkList(entries), i);
    LinksEnterHubs(entries);
  }

  /** An entry with a truthy grouping is the source of at least one link. */
  lemma GroupedEntryLinked(entries: seq<Entry>, i: nat)
    requires i < |entries|
    requires var e := entries[i];
             Present(e.topics) || Present(e.country) || Present(e.continent) || Present(e.category)
    ensures Outgoing(LinkList(entries), i) != []
  {
    EntryRule(entries, i);
    EntryOutgoing(entries, i);
  }

  /**
    An entry with truthy topics and a truthy country is linked to its topic hub and its
    country hub and, in the second pass, possibly to its category hub; never to its continent hub.
   */
  lemma ContinentSuppressedLinks(entries: seq<Entry>, i: nat)
    requires i < |entries| && Present(entries[i].topics) && Present(entries[i].country)
    ensures Outgoing(LinkList(entries), i) ==
            [Link(i, EntryHub(entries, i, TopicsHub)), Link(i, EntryHub(entries, i, CountryHub))]
            + CategoryLinks(entries, MakeHubLists(entries), i)
  {
    SuppressedEntryLinks(entries, i);
    EntryOutgoing(entries, i);
  }

  /** The first pass gives such an entry exactly its topic link and its country link. */
  lemma SuppressedEntryLinks(entries: seq<Entry>, i: nat)
    requires i < |entries| && Present(entries[i].topics) && Present(entries[i].country)
    ensures EntryLinks(entries, MakeHubLists(entries), i) ==
            [Link(i, EntryHub(entries, i, TopicsHub)), Link(i, EntryHub(entries, i, CountryHub))]
  {
    var a, b := EntryHub(entries, i, TopicsHub), EntryHub(entries, i, CountryHub);
    EntryRule(entries, i);
    assert EntryLinks(entries, MakeHubLists(entries), i) == [Link(i, a)] + [Link(i, b)] + [] + [];
  }

  /** An entry with truthy topics and a truthy country is not linked to any continent hub. */
  lemma ContinentSuppressed(entries: seq<Entry>, i: nat)
    requires i < |entries| && Present(entries[i].topics) && Present(entries[i].country)
    ensures TargetsAvoid(AllNodes(entries), Outgoing(LinkList(entries), i), ContinentHub)
  {
    var h := MakeHubLists(entries);
    EntryOutgoing(entries, i);
    SuppressedEntryLinksAvoid(entries, i);
    CategoryLinksAvoid(entries, i, ContinentHub);
    TargetsOfParts(AllNodes(entries), Outgoing(LinkList(entries), i),
                   EntryLinks(entries, h, i), CategoryLinks(entries, h, i), ContinentHub);
  }

  /** The first-pass links of such an entry avoid the continent hubs. */
  lemma SuppressedEntryLinksAvoid(entries: seq<Entry>, i: nat)
    requires i < |entries| && Present(entries[i].topics) && Present(entries[i].country)
    ensures TargetsAvoid(AllNodes(entries), EntryLinks(entries, MakeHubLists(entries), i), ContinentHub)
  {
    SuppressedEntryLinks(entries, i);
    EntryHubAvoids(entries, i, TopicsHub, ContinentHub);
    EntryHubAvoids(entries, i, CountryHub, ContinentHub);
    TargetsOfPair(AllNodes(entries), EntryLinks(entries, MakeHubLists(entries), i), i,
                  EntryHub(entries, i, TopicsHub), EntryHub(entries, i, CountryHub), ContinentHub);
  }

  /** The node at index `x` is a hub, and not one of grouping `t`. */
  predicate HubNotOf(nodes: seq<Node>, x: nat, t: HubType)
  {
    x < |nodes| && nodes[x].HubNode? && nodes[x].hub.hubType != t
  }

  /** Every target of `out` is a hub node that is not of grouping `t`. */
  predicate TargetsAvoid(nodes: seq<Node>, out: seq<Link>, t: HubType)
  {
    forall l :: l in out ==> HubNotOf(nodes, l.target, t)
  }

  /** The hub an entry is linked to for grouping `t` is not a hub of any other grouping `u`. */
  lemma EntryHubAvoids(entries: seq<Entry>, i: nat, t: HubType, u: HubType)
    requires i < |entries| && Present(Grouping(entries[i], t)) && t != u
    ensures HubNotOf(AllNodes(entries), EntryHub(entries, i, t), u)
  {
    EntryHubType(entries, i, t);
  }

  /** The second-pass link of an entry targets its category hub, which is of no other grouping. */
  lemma CategoryLinksAvoid(entries: seq<Entry>, i: nat, u: HubType)
    requires i < |entries| && u != CategoryHub
    ensures TargetsAvoid(AllNodes(entries), CategoryLinks(entries, MakeHubLists(entries), i), u)
  {
    CategoryRule(entries, i);
    var c := entries[i].category;
    if Present(c) && c.value in SpecificCategories {
      EntryHubAvoids(entries, i, CategoryHub, u);
    }
  }

  /** Two links whose targets are no hub of grouping `t` enter no hub of grouping `t`. */
  lemma TargetsOfPair(nodes: seq<Node>, out: seq<Link>, i: nat, a: nat, b: nat, t: HubType)
    requires out == [Link(i, a), Link(i, b)]
    requires HubNotOf(nodes, a, t) && HubNotOf(nodes, b, t)
    ensures TargetsAvoid(nodes, out, t)
  {
  }

  /** A list made of two parts that enter no hub of grouping `t` enters none either. */
  lemma TargetsOfParts(nodes: seq<Node>, out: seq<Link>, first: seq<Link>, rest: seq<Link>, t: HubType)
    requires out == first + rest
    requires TargetsAvoid(nodes, first, t) && TargetsAvoid(nodes, rest, t)
    ensures TargetsAvoid(nodes, out, t)
  {
  }

  /**
    An entry of category "project", "skill" or "experience" with no other truthy grouping
    is linked to its category hub twice: links are not deduplicated.
   */
  lemma CategoryLinkedTwice(entries: seq<Entry>, i: nat)
    requires i < |entries|
    requires var e := entries[i];
             !Present(e.topics) && !Present(e.country) && !Present(e.continent)
             && e.category.Some? && e.category.value in SpecificCategories
    ensures var x := EntryHub(entries, i, CategoryHub);
            Outgoing(LinkList(entries), i) == [Link(i, x), Link(i, x)]
  {
    var x := EntryHub(entries, i, CategoryHub);
    EntryRule(entries, i);
    assert EntryLinks(entries, MakeHubLists(entries), i) == [] + [] + [] + [Link(i, x)];
    CategoryRule(entries, i);
    EntryOutgoing(entries, i);
  }

  /** An entry of category "project", "skill" or "experience" is linked to its category hub. */
  lemma SpecificCategoryLinked(entries: seq<Entry>, i: nat)
    requires i < |entries|
    requires entries[i].category.Some? && entries[i].category.value in SpecificCategories
    ensures Link(i, EntryHub(entries, i, CategoryHub)) in LinkList(entries)
  {
    CategoryRule(entries, i);
    EntryOutgoing(entries, i);
    OutgoingMembers(LinkList(entries), i);
    var l := Link(i, EntryHub(entries, i, CategoryHub));
    assert l in Outgoing(LinkList(entries), i);
  }

}
