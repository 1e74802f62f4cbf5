/**
  The link policy: the ordered `links` list of script.js, built by four passes that
  append to it. Nodes are referred to by their index in `allNodes`.
 */
module Links {

  import opened Wrappers
  import opened Records
  import opened Hubs

  /** A link from the node at index `source` of `allNodes` to the node at index `target`. */
  datatype Link = Link(source: nat, target: nat)

  /** The category value whose hub every continent hub is linked to (compared case-sensitively). */
  const AdventureCategory: string := "adventure"

  /** `specificCategories`: entries of these categories get an extra category link. */
  const SpecificCategories: seq<string> := ["project", "skill", "experience"]

  // ---------------------------------------------------------------------------
  // The four passes, as the script runs them (every hub lookup is a `find`)
  // ---------------------------------------------------------------------------

  /**
    A `forEach` that pushes, for each position from `i` on, the links of that step:
    `steps[i..]` appended one after another to `acc`.
   */
  function Appended(steps: seq<seq<Link>>, i: nat, acc: seq<Link>): seq<Link>
    decreases |steps| - i
  {
    if i >= |steps| then acc else Appended(steps, i + 1, acc + steps[i])
  }

  /** `categoryHubs.find(h => h.category === "adventure")`. */
  function AdventureHub(h: HubLists): Option<nat>
  {
    FindHub(h.category, Some(AdventureCategory))
  }

  /**
    The adventure pass from continent hub `k` on, appending to `acc`: one link from each
    continent hub to the category hub at `adventure`.
   */
  function AdventureFrom(n: nat, h: HubLists, adventure: nat, k: nat, acc: seq<Link>): seq<Link>
    decreases |h.continent| - k
  {
    if k >= |h.continent| then acc
    else AdventureFrom(n, h, adventure, k + 1,
                       acc + [Link(HubIndex(n, h, ContinentHub, k), HubIndex(n, h, CategoryHub, adventure))])
  }

  /** The adventure pass appended to `acc`; nothing is added when there is no "adventure" hub. */
  function AdventureLinks(n: nat, h: HubLists, acc: seq<Link>): seq<Link>
  {
    match AdventureHub(h)
    case None => acc
    case Some(adventure) => AdventureFrom(n, h, adventure, 0, acc)
  }

  /** `if (hub) links.push({ source: entry i, target: hub })` for a lookup result in the list of `t`. */
  function LinkTo(n: nat, h: HubLists, i: nat, t: HubType, hub: Option<nat>): seq<Link>
  {
    if hub.Some? then [Link(i, HubIndex(n, h, t, hub.value))] else []
  }

  /** The links the first `nodes.forEach` adds for entry `i`: topic, country, continent, category. */
  function EntryLinks(entries: seq<Entry>, h: HubLists, i: nat): seq<Link>
    requires i < |entries|
  {
    var d, n := entries[i], |entries|;
    var topicHub := FindHub(h.topics, d.topics);
    var continentHub := FindHub(h.continent, d.continent);
    var countryHub := FindHub(h.country, d.country);
    var categoryHub := FindHub(h.category, d.category);
    LinkTo(n, h, i, TopicsHub, topicHub)
    + LinkTo(n, h, i, CountryHub, countryHub)
    + (if !(countryHub.Some? && topicHub.Some?) then LinkTo(n, h, i, ContinentHub, continentHub) else [])
    + (if topicHub.None? && countryHub.None? && continentHub.None?
       then LinkTo(n, h, i, CategoryHub, categoryHub) else [])
  }

  /** The steps of the first entry pass: the links of each entry, in entry order. */
  function EntrySteps(entries: seq<Entry>, h: HubLists): seq<seq<Link>>
  {
    seq(|entries|, i requires 0 <= i < |entries| => EntryLinks(entries, h, i))
  }

  /**
    The link the second `nodes.forEach` adds for entry `i`. Entries are never hubs, so
    `!node.isHub` always holds; `includes(null)` is false.
   */
  function CategoryLinks(entries: seq<Entry>, h: HubLists, i: nat): seq<Link>
    requires i < |entries|
  {
    var category := entries[i].category;
    if category.Some? && category.value in SpecificCategories
    then LinkTo(|entries|, h, i, CategoryHub, FindHub(h.category, category))
    else []
  }

  /** The steps of the second entry pass, in entry order. */
  function CategorySteps(entries: seq<Entry>, h: HubLists): seq<seq<Link>>
  {
    seq(|entries|, i requires 0 <= i < |entries| => CategoryLinks(entries, h, i))
  }

  /** `n.country === country && n.continent`. */
  predicate IsExample(e: Entry, country: string)
  {
    e.country == Some(country) && Present(e.continent)
  }

  /** `nodes.find(n => n.country === country && n.continent)`: the first such entry. */
  function FindExample(entries: seq<Entry>, country: string): (r: Option<nat>)
    ensures r.Some? ==> r.value < |entries| && IsExample(entries[r.value], country)
  {
    if |entries| == 0 then None
    else if IsExample(entries[0], country) then Some(0)
    else
      var r := FindExample(entries[1..], country);
      if r.Some? then Some(1 + r.value) else None
  }

  /** `FindExample` finds the first example entry, and finds none only when there is none. */
  lemma {:induction false} FindExampleFirst(entries: seq<Entry>, country: string)
    ensures var r := FindExample(entries, country);
            (r.Some? ==> r.value < |entries| && IsExample(entries[r.value], country)
                         && forall j :: 0 <= j < r.value ==> !IsExample(entries[j], country))
            && (r.None? ==> forall j :: 0 <= j < |entries| ==> !IsExample(entries[j], country))
  {
    if |entries| > 0 && !IsExample(entries[0], country) {
      FindExampleFirst(entries[1..], country);
      assert forall j :: 1 <= j < |entries| ==> entries[1..][j - 1] == entries[j];
    }
  }

  /** The link the `countryHubs.forEach` adds for country hub `k`. */
  function CountryLinks(entries: seq<Entry>, h: HubLists, k: nat): seq<Link>
    requires k < |h.country|
  {
    var n := |entries|;
    var example := FindExample(entries, h.country[k].value);
    if example.None? then []
    else
      var continentHub := FindHub(h.continent, entries[example.value].continent);
      if continentHub.Some?
      then [Link(HubIndex(n, h, CountryHub, k), HubIndex(n, h, ContinentHub, continentHub.value))]
      else []
  }

  /** The steps of the country pass, in country-hub order. */
  function CountrySteps(entries: seq<Entry>, h: HubLists): seq<seq<Link>>
  {
    seq(|h.country|, k requires 0 <= k < |h.country| => CountryLinks(entries, h, k))
  }

  /** The complete `links` list: the four passes in order, starting from the empty list. */
  function LinkList(entries: seq<Entry>): seq<Link>
  {
    var h := MakeHubLists(entries);
    var a := AdventureLinks(|entries|, h, []);
    Appended(CountrySteps(entries, h), 0, Appended(CategorySteps(entries, h), 0, Appended(EntrySteps(entries, h), 0, a)))
  }

  /** The link-building code of script.js: four loops appending to `links`. */
  method BuildLinks(entries: seq<Entry>) returns (links: seq<Link>)
    ensures links == LinkList(entries)
  {
    var h := MakeHubLists(entries);
    links := AddAdventureLinks(|entries|, h, []);
    links := AddEntryLinks(entries, h, links);
    links := AddCategoryLinks(entries, h, links);
    links := AddCountryLinks(entries, h, links);
  }

  /** `continentHubs.forEach(...)` when the adventure hub exists; otherwise only a warning is logged. */
  method AddAdventureLinks(n: nat, h: HubLists, links0: seq<Link>) returns (links: seq<Link>)
    ensures links == AdventureLinks(n, h, links0)
  {
    links := links0;
    var adventureHub := AdventureHub(h);
    if adventureHub.Some? {
      var k := 0;
      while k < |h.continent|
        invariant k <= |h.continent|
        invariant AdventureFrom(n, h, adventureHub.value, k, links) == AdventureFrom(n, h, adventureHub.value, 0, links0)
      {
        links := links + [Link(HubIndex(n, h, ContinentHub, k), HubIndex(n, h, CategoryHub, adventureHub.value))];
        k := k + 1;
      }
    }
  }

  /** The first `nodes.forEach(...)`: per entry a topic, country, continent and fallback category link. */
  method AddEntryLinks(entries: seq<Entry>, h: HubLists, links0: seq<Link>) returns (links: seq<Link>)
    ensures links == Appended(EntrySteps(entries, h), 0, links0)
  {
    links := links0;
    var i := 0;
    while i < |entries|
      invariant i <= |entries|
      invariant Appended(EntrySteps(entries, h), i, links) == Appended(EntrySteps(entries, h), 0, links0)
    {
      var added := LinksOfEntry(entries, h, i);
      links := links + added;
      i := i + 1;
    }
  }

  /** The body of the first `nodes.forEach(d => ...)` for entry `i`: its links in push order. */
  method LinksOfEntry(entries: seq<Entry>, h: HubLists, i: nat) returns (added: seq<Link>)
    requires i < |entries|
    ensures added == EntryLinks(entries, h, i)
  {
    var n := |entries|;
    var d := entries[i];
    var topicHub := FindHub(h.topics, d.topics);
    var continentHub := FindHub(h.continent, d.continent);
    var countryHub := FindHub(h.country, d.country);
    var categoryHub := FindHub(h.category, d.category);
    added := [];
    if topicHub.Some? {
      added := added + [Link(i, HubIndex(n, h, TopicsHub, topicHub.value))];
    }
    if countryHub.Some? {
      added := added + [Link(i, HubIndex(n, h, CountryHub, countryHub.value))];
    }
    if continentHub.Some? && !(countryHub.Some? && topicHub.Some?) {
      added := added + [Link(i, HubIndex(n, h, ContinentHub, continentHub.value))];
    }
    if topicHub.None? && countryHub.None? && continentHub.None? && categoryHub.Some? {
      added := added + [Link(i, HubIndex(n, h, CategoryHub, categoryHub.value))];
    }
  }

  /** The second `nodes.forEach(...)`: the extra link of entries in `specificCategories`. */
  method AddCategoryLinks(entries: seq<Entry>, h: HubLists, links0: seq<Link>) returns (links: seq<Link>)
    ensures links == Appended(CategorySteps(entries, h), 0, links0)
  {
    links := links0;
    var i := 0;
    while i < |entries|
      invariant i <= |entries|
      invariant Appended(CategorySteps(entries, h), i, links) == Appended(CategorySteps(entries, h), 0, links0)
    {
      ghost var before := links;
      var category := entries[i].category;
      if category.Some? && category.value in SpecificCategories {
        var catHub := FindHub(h.category, category);
        if catHub.Some? {
          links := links + [Link(i, HubIndex(|entries|, h, CategoryHub, catHub.value))];
        }
      }
      assert links == before + CategoryLinks(entries, h, i);
      i := i + 1;
    }
  }

  /** `countryHubs.forEach(...)`: each country hub to the continent hub of its first example entry. */
  method AddCountryLinks(entries: seq<Entry>, h: HubLists, links0: seq<Link>) returns (links: seq<Link>)
    ensures links == Appended(CountrySteps(entries, h), 0, links0)
  {
    var n := |entries|;
    links := links0;
    var k := 0;
    while k < |h.country|
      invariant k <= |h.country|
      invariant Appended(CountrySteps(entries, h), k, links) == Appended(CountrySteps(entries, h), 0, links0)
    {
      ghost var before := links;
      var countryHub := h.country[k];
      var exampleNode := FindExample(entries, countryHub.value);
      if exampleNode.Some? {
        var continentHub := FindHub(h.continent, entries[exampleNode.value].continent);
        if continentHub.Some? {
          links := links + [Link(HubIndex(n, h, CountryHub, k), HubIndex(n, h, ContinentHub, continentHub.value))];
        }
      }
      assert links == before + CountryLinks(entries, h, k);
      k := k + 1;
    }
  }

}
