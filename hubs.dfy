/**
  The hub synthesizer: one hub node per distinct truthy value of each grouping
  (category, continent, topics, country), in first-occurrence order, and the node
  table `allNodes` that the links index into.
 */
module Hubs {

  import opened Wrappers
  import opened Seqs
  import opened Records

  /** The four groupings; `TypeName` is the `hubType` string the script stores. */
  datatype HubType = CategoryHub | ContinentHub | TopicsHub | CountryHub

  function TypeName(t: HubType): string
  {
    match t
    case CategoryHub => "category"
    case ContinentHub => "continent"
    case TopicsHub => "topics"
    case CountryHub => "country"
  }

  /**
    A hub node. The script also stores the value under `name` and under the
    grouping's own property (`category`, `continent`, ...); both equal `value`.
   */
  datatype Hub = Hub(id: string, hubType: HubType, value: string)

  /** The template `hub-${type}-${value}`. */
  function HubId(t: HubType, v: string): string
  {
    "hub-" + TypeName(t) + "-" + v
  }

  /** The grouping field of an entry that hubs of type `t` are built from. */
  function Grouping(e: Entry, t: HubType): Option<string>
  {
    match t
    case CategoryHub => e.category
    case ContinentHub => e.continent
    case TopicsHub => e.topics
    case CountryHub => e.country
  }

  /** `nodes.map(d => d[t]).filter(Boolean)`: the truthy grouping values, in entry order. */
  function GroupingValues(entries: seq<Entry>, t: HubType): seq<string>
  {
    if |entries| == 0 then []
    else
      var p := entries[..|entries| - 1];
      var g := Grouping(entries[|entries| - 1], t);
      if Present(g) then GroupingValues(p, t) + [g.value] else GroupingValues(p, t)
  }

  /** The grouping values are the truthy values of grouping `t` among the entries. */
  lemma {:induction false} GroupingValuesMembers(entries: seq<Entry>, t: HubType)
    ensures forall v :: v in GroupingValues(entries, t) <==>
      exists i :: 0 <= i < |entries| && Grouping(entries[i], t) == Some(v) && v != ""
  {
    if |entries| > 0 {
      var p := entries[..|entries| - 1];
      GroupingValuesMembers(p, t);
      assert forall i :: 0 <= i < |p| ==> p[i] == entries[i];
    }
  }

  /** `[...new Set(values)]`: the distinct values that get a hub. */
  function HubValues(entries: seq<Entry>, t: HubType): seq<string>
  {
    Dedup(GroupingValues(entries, t))
  }

  /** The hub values are the distinct truthy values of grouping `t` among the entries. */
  lemma HubValuesProperties(entries: seq<Entry>, t: HubType)
    ensures NoDuplicates(HubValues(entries, t))
    ensures forall v :: v in HubValues(entries, t) <==> v in GroupingValues(entries, t)
    ensures forall v :: v in GroupingValues(entries, t) <==>
      exists i :: 0 <= i < |entries| && Grouping(entries[i], t) == Some(v) && v != ""
  {
    DedupProperties(GroupingValues(entries, t));
    GroupingValuesMembers(entries, t);
  }

  /** The hub list of grouping `t`: the `.map(v => ({ id: `hub-<type>-${v}`, ... }))` over its values. */
  function HubList(entries: seq<Entry>, t: HubType): (hubs: seq<Hub>)
  {
    var vs := HubValues(entries, t);
    seq(|vs|, k requires 0 <= k < |vs| => Hub(HubId(t, vs[k]), t, vs[k]))
  }

  /**
    The hub list of grouping `t` has one hub per distinct truthy value some entry has
    and no value twice; every hub has type `t` and the id `hub-<type>-<value>`.
   */
  lemma HubListProperties(entries: seq<Entry>, t: HubType)
    ensures var hubs := HubList(entries, t);
            (forall k :: 0 <= k < |hubs| ==> hubs[k].hubType == t && hubs[k].id == HubId(t, hubs[k].value))
            && (forall v :: v in HubValues(entries, t) <==>
                  exists i :: 0 <= i < |entries| && Grouping(entries[i], t) == Some(v) && v != "")
            && (forall k :: 0 <= k < |hubs| ==> hubs[k].value in HubValues(entries, t))
            && (forall v :: v in HubValues(entries, t) ==> exists k :: 0 <= k < |hubs| && hubs[k].value == v)
            && (forall j, k :: 0 <= j < k < |hubs| ==> hubs[j].value != hubs[k].value)
  {
    var hubs, vs := HubList(entries, t), HubValues(entries, t);
    HubValuesProperties(entries, t);
    forall v | v in vs ensures exists k :: 0 <= k < |hubs| && hubs[k].value == v {
      var k := FirstIndex(vs, v);
      assert hubs[k].value == v;
    }
  }

  /** The first entry whose grouping `t` is the truthy value `v`. */
  function FirstEntryWith(entries: seq<Entry>, t: HubType, v: string): (i: nat)
    requires v in GroupingValues(entries, t)
    ensures i < |entries| && Grouping(entries[i], t) == Some(v)
    ensures forall j :: 0 <= j < i ==> Grouping(entries[j], t) != Some(v)
  {
    if Grouping(entries[0], t) == Some(v) then 0
    else
      assert v in GroupingValues(entries[1..], t) by {
        GroupingValuesMembers(entries, t);
        GroupingValuesMembers(entries[1..], t);
        var i :| 0 <= i < |entries| && Grouping(entries[i], t) == Some(v) && v != "";
        assert entries[1..][i - 1] == entries[i];
      }
      1 + FirstEntryWith(entries[1..], t, v)
  }

  /** Hubs appear in the order in which their value first occurs among the entries. */
  lemma {:induction false} HubListFirstOccurrence(entries: seq<Entry>, t: HubType, j: nat, k: nat)
    requires j < k < |HubList(entries, t)|
    ensures var hubs := HubList(entries, t);
            hubs[j].value in GroupingValues(entries, t) && hubs[k].value in GroupingValues(entries, t)
            && FirstEntryWith(entries, t, hubs[j].value) < FirstEntryWith(entries, t, hubs[k].value)
  {
    var gv := GroupingValues(entries, t);
    var vs := HubValues(entries, t);
    DedupProperties(gv);
    DedupFirstOccurrenceOrder(gv, j, k);
    GroupingOrder(entries, t, vs[j], vs[k]);
  }

  /** The order of first occurrences among the grouping values is that among the entries. */
  lemma {:induction false} GroupingOrder(entries: seq<Entry>, t: HubType, v: string, w: string)
    requires v in GroupingValues(entries, t) && w in GroupingValues(entries, t)
    requires FirstIndex(GroupingValues(entries, t), v) < FirstIndex(GroupingValues(entries, t), w)
    ensures FirstEntryWith(entries, t, v) < FirstEntryWith(entries, t, w)
  {
    var n := |entries|;
    var p := entries[..n - 1];
    var g := Grouping(entries[n - 1], t);
    var gp := GroupingValues(p, t);
    var gv := GroupingValues(entries, t);
    assert forall i :: 0 <= i < |p| ==> p[i] == entries[i];
    if Present(g) {
      assert gv == gp + [g.value];
    } else {
      assert gv == gp;
    }
    if w in gp {
      if Present(g) {
        FirstIndexOfPrefix(gp, g.value, v);
        FirstIndexOfPrefix(gp, g.value, w);
      }
      GroupingOrder(p, t, v, w);
      FirstEntryOfPrefix(entries, t, v);
      FirstEntryOfPrefix(entries, t, w);
    } else {
      GroupingValuesMembers(p, t);
      assert Present(g) && w == g.value;
      assert v != w;
      assert v in gp;
      FirstEntryOfPrefix(entries, t, v);
    }
  }

  /** The first entry with a value that already occurs before the last entry is found before it. */
  lemma FirstEntryOfPrefix(entries: seq<Entry>, t: HubType, v: string)
    requires |entries| > 0 && v in GroupingValues(entries[..|entries| - 1], t)
    ensures v in GroupingValues(entries, t)
    ensures FirstEntryWith(entries, t, v) == FirstEntryWith(entries[..|entries| - 1], t, v)
  {
    var p := entries[..|entries| - 1];
    var i := FirstEntryWith(p, t, v);
    assert p[i] == entries[i];
    assert forall j :: 0 <= j < |p| ==> p[j] == entries[j];
  }

  /** The four hub lists `categoryHubs`, `continentHubs`, `topicHubs`, `countryHubs`. */
  datatype HubLists = HubLists(category: seq<Hub>, continent: seq<Hub>, topics: seq<Hub>, country: seq<Hub>)

  function MakeHubLists(entries: seq<Entry>): HubLists
  {
    HubLists(HubList(entries, CategoryHub), HubList(entries, ContinentHub),
             HubList(entries, TopicsHub), HubList(entries, CountryHub))
  }

  /** The list of grouping `t`. */
  function ListOf(h: HubLists, t: HubType): seq<Hub>
  {
    match t
    case CategoryHub => h.category
    case ContinentHub => h.continent
    case TopicsHub => h.topics
    case CountryHub => h.country
  }

  /** Where the list of grouping `t` starts inside `allHubs`. */
  function Offset(h: HubLists, t: HubType): nat
  {
    match t
    case CategoryHub => 0
    case ContinentHub => |h.category|
    case TopicsHub => |h.category| + |h.continent|
    case CountryHub => |h.category| + |h.continent| + |h.topics|
  }

  /** The four lists concatenated in the order category, continent, topics, country. */
  function Concat(h: HubLists): seq<Hub>
  {
    h.category + h.continent + h.topics + h.country
  }

  /** The `k`-th hub of the list of `t` sits in `Concat(h)` at `Offset(h, t) + k`. */
  lemma ListAt(h: HubLists, t: HubType, k: nat)
    requires k < |ListOf(h, t)|
    ensures Offset(h, t) + k < |Concat(h)| && Concat(h)[Offset(h, t) + k] == ListOf(h, t)[k]
  {
    var c, o, p, q := h.category, h.continent, h.topics, h.country;
    assert Concat(h) == ((c + o) + p) + q;
  }

  /** Each position of `Concat(h)` falls inside exactly one list, at its offset within that list. */
  lemma PositionIn(h: HubLists, z: nat) returns (t: HubType, k: nat)
    requires z < |Concat(h)|
    ensures k < |ListOf(h, t)| && z == Offset(h, t) + k
    ensures forall u :: Offset(h, u) <= z < Offset(h, u) + |ListOf(h, u)| ==> u == t
  {
    var c, o, p := h.category, h.continent, h.topics;
    if z < |c| {
      t, k := CategoryHub, z;
    } else if z < |c| + |o| {
      t, k := ContinentHub, z - |c|;
    } else if z < |c| + |o| + |p| {
      t, k := TopicsHub, z - |c| - |o|;
    } else {
      t, k := CountryHub, z - |c| - |o| - |p|;
    }
  }

  /** The list of grouping `t` in `MakeHubLists(entries)` is `HubList(entries, t)`. */
  lemma ListOfHubLists(entries: seq<Entry>, t: HubType)
    ensures ListOf(MakeHubLists(entries), t) == HubList(entries, t)
  {
  }

  /** `allHubs`: the four lists concatenated in the order category, continent, topics, country. */
  function AllHubs(entries: seq<Entry>): seq<Hub>
  {
    Concat(MakeHubLists(entries))
  }

  /** The index in `allNodes` of the `k`-th hub of grouping `t`, when `allNodes` starts with `n` entries. */
  function HubIndex(n: nat, h: HubLists, t: HubType, k: nat): nat
  {
    n + Offset(h, t) + k
  }

  /** A graph node: an entry or a hub. */
  datatype Node = EntryNode(entry: Entry) | HubNode(hub: Hub)

  /** `allNodes`: the entries in input order, then the hubs in `allHubs` order. */
  function AllNodes(entries: seq<Entry>): (nodes: seq<Node>)
    ensures |nodes| == |entries| + |AllHubs(entries)|
    ensures forall i :: 0 <= i < |entries| ==> nodes[i] == EntryNode(entries[i])
    ensures forall k :: 0 <= k < |AllHubs(entries)| ==> nodes[|entries| + k] == HubNode(AllHubs(entries)[k])
  {
    var hubs := AllHubs(entries);
    seq(|entries|, i requires 0 <= i < |entries| => EntryNode(entries[i]))
    + seq(|hubs|, k requires 0 <= k < |hubs| => HubNode(hubs[k]))
  }

  /** The `k`-th hub of grouping `t` sits in `allNodes` at `HubIndex`, after all entries. */
  lemma HubIndexNode(entries: seq<Entry>, t: HubType, k: nat)
    requires k < |HubList(entries, t)|
    ensures var x := HubIndex(|entries|, MakeHubLists(entries), t, k);
            |entries| <= x < |AllNodes(entries)| && AllNodes(entries)[x] == HubNode(HubList(entries, t)[k])
  {
    var h := MakeHubLists(entries);
    ListOfHubLists(entries, t);
    ListAt(h, t, k);
  }

  /** The index in `allNodes` of the hub of grouping `t` with value `v`. */
  function NodeOf(entries: seq<Entry>, t: HubType, v: string): nat
    requires v in HubValues(entries, t)
  {
    HubIndex(|entries|, MakeHubLists(entries), t, FirstIndex(HubValues(entries, t), v))
  }

  /**
    The node at `NodeOf` is the hub `hub-<type>-<value>`, and no other node of
    `allNodes` is a hub of that grouping and value.
   */
  lemma NodeOfHub(entries: seq<Entry>, t: HubType, v: string)
    requires v in HubValues(entries, t)
    ensures var x := NodeOf(entries, t, v);
            x < |AllNodes(entries)| && AllNodes(entries)[x] == HubNode(Hub(HubId(t, v), t, v))
    ensures forall y :: 0 <= y < |AllNodes(entries)| && AllNodes(entries)[y].HubNode?
                        && AllNodes(entries)[y].hub.hubType == t && AllNodes(entries)[y].hub.value == v
                        ==> y == NodeOf(entries, t, v)
  {
    var k := FirstIndex(HubValues(entries, t), v);
    NodeOfUnique(entries, t, v, k);
    HubIndexNode(entries, t, k);
  }

  /** Each position of `allHubs` falls inside exactly one hub list, and holds the hub at its offset within that list. */
  lemma HubAt(entries: seq<Entry>, z: nat) returns (t: HubType, k: nat)
    requires z < |AllHubs(entries)|
    ensures k < |HubList(entries, t)| && z == Offset(MakeHubLists(entries), t) + k
    ensures AllHubs(entries)[z] == HubList(entries, t)[k]
    ensures forall u :: Offset(MakeHubLists(entries), u) <= z < Offset(MakeHubLists(entries), u) + |HubList(entries, u)|
                        ==> u == t
  {
    var h := MakeHubLists(entries);
    t, k := PositionIn(h, z);
    forall u: HubType
      ensures ListOf(h, u) == HubList(entries, u)
    {
      ListOfHubLists(entries, u);
    }
    ListAt(h, t, k);
  }

  /** The node of the hub that the truthy grouping `t` of entry `i` belongs to. */
  function EntryHub(entries: seq<Entry>, i: nat, t: HubType): nat
    requires i < |entries| && Present(Grouping(entries[i], t))
  {
    GroupingHasHub(entries, i, t);
    NodeOf(entries, t, Grouping(entries[i], t).value)
  }

  /** The node an entry's truthy grouping links to is a hub of that grouping. */
  lemma EntryHubType(entries: seq<Entry>, i: nat, t: HubType)
    requires i < |entries| && Present(Grouping(entries[i], t))
    ensures var x := EntryHub(entries, i, t);
            x < |AllNodes(entries)| && AllNodes(entries)[x].HubNode? && AllNodes(entries)[x].hub.hubType == t
  {
    EntryHubNode(entries, i, t);
  }

  /** Every truthy grouping value of an entry has a hub. */
  lemma GroupingHasHub(entries: seq<Entry>, i: nat, t: HubType)
    requires i < |entries| && Present(Grouping(entries[i], t))
    ensures Grouping(entries[i], t).value in HubValues(entries, t)
  {
    HubListProperties(entries, t);
  }

  /** The node an entry's truthy grouping links to is the hub of that grouping and value. */
  lemma EntryHubNode(entries: seq<Entry>, i: nat, t: HubType)
    requires i < |entries| && Present(Grouping(entries[i], t))
    ensures var v, x := Grouping(entries[i], t).value, EntryHub(entries, i, t);
            v in HubValues(entries, t)
            && x < |AllNodes(entries)| && AllNodes(entries)[x] == HubNode(Hub(HubId(t, v), t, v))
  {
    GroupingHasHub(entries, i, t);
    NodeOfHub(entries, t, Grouping(entries[i], t).value);
  }

  /** Only position `k` of the hub list of `t` holds a hub of type `t` and value `v`. */
  lemma NodeOfUnique(entries: seq<Entry>, t: HubType, v: string, k: nat)
    requires k < |HubList(entries, t)| && HubList(entries, t)[k].value == v
    ensures forall y :: 0 <= y < |AllNodes(entries)| && AllNodes(entries)[y].HubNode?
                        && AllNodes(entries)[y].hub.hubType == t && AllNodes(entries)[y].hub.value == v
                        ==> y == HubIndex(|entries|, MakeHubLists(entries), t, k)
  {
    var nodes, n := AllNodes(entries), |entries|;
    forall y | 0 <= y < |nodes| && nodes[y].HubNode? && nodes[y].hub.hubType == t && nodes[y].hub.value == v
      ensures y == HubIndex(n, MakeHubLists(entries), t, k)
    {
      var u, m := HubAt(entries, y - n);
      assert nodes[y] == HubNode(AllHubs(entries)[y - n]);
      assert u == t;
      var vs := HubValues(entries, t);
      DedupProperties(GroupingValues(entries, t));
      assert vs[m] == v && vs[k] == v;
    }
  }

  /**
    `list.find(h => h[type] === v)`: the first hub whose value is `v`; a `null` `v`
    matches no hub.
   */
  function FindHub(hubs: seq<Hub>, v: Option<string>): (r: Option<nat>)
    ensures r.Some? ==> r.value < |hubs| && Some(hubs[r.value].value) == v
  {
    FindHubFrom(hubs, v, 0)
  }

  /** `find` from position `j` on. */
  function FindHubFrom(hubs: seq<Hub>, v: Option<string>, j: nat): (r: Option<nat>)
    ensures r.Some? ==> j <= r.value < |hubs| && Some(hubs[r.value].value) == v
    decreases |hubs| - j
  {
    if j >= |hubs| then None
    else if Some(hubs[j].value) == v then Some(j)
    else FindHubFrom(hubs, v, j + 1)
  }

  /** `find` returns the first match, and nothing only when no hub matches. */
  lemma {:induction false} FindHubFirst(hubs: seq<Hub>, v: Option<string>, j: nat)
    ensures var r := FindHubFrom(hubs, v, j);
            (r.Some? ==> forall m :: j <= m < r.value ==> Some(hubs[m].value) != v)
            && (r.None? ==> forall m :: j <= m < |hubs| ==> Some(hubs[m].value) != v)
    decreases |hubs| - j
  {
    if j < |hubs| && Some(hubs[j].value) != v {
      FindHubFirst(hubs, v, j + 1);
    }
  }

  /**
    Looking a value up in the hub list of its grouping succeeds exactly when the value
    is truthy and some entry has it, and then finds that value's only hub.
   */
  lemma FindHubInList(entries: seq<Entry>, t: HubType, v: Option<string>)
    ensures var r := FindHub(HubList(entries, t), v);
            (r.Some? <==> Present(v) && v.value in HubValues(entries, t))
            && (r.Some? ==> r.value == FirstIndex(HubValues(entries, t), v.value))
  {
    var hubs, vs := HubList(entries, t), HubValues(entries, t);
    var r := FindHub(hubs, v);
    FindHubFirst(hubs, v, 0);
    HubValuesProperties(entries, t);
    if Present(v) && v.value in vs {
      var k := FirstIndex(vs, v.value);
      assert Some(hubs[k].value) == v;
    }
    if r.Some? {
      assert hubs[r.value].value in GroupingValues(entries, t);
    }
  }

  /** An entry's grouping value finds a hub exactly when it is truthy. */
  lemma EntryFindsHub(entries: seq<Entry>, t: HubType, i: nat)
    requires i < |entries|
    ensures var g := Grouping(entries[i], t);
            FindHub(HubList(entries, t), g).Some? <==> Present(g)
  {
    if Present(Grouping(entries[i], t)) {
      GroupingHasHub(entries, i, t);
    }
    FindHubInList(entries, t, Grouping(entries[i], t));
  }

  /** Ids determine the hub: the type names are such that no two ids of different groupings coincide. */
  lemma HubIdInjective(t: HubType, v: string, u: HubType, w: string)
    requires HubId(t, v) == HubId(u, w)
    ensures t == u && v == w
  {
    var a, b := HubId(t, v), HubId(u, w);
    assert a[4] == b[4] && a[5] == b[5] && a[6] == b[6];
    assert t == u;
    var m := |"hub-" + TypeName(t) + "-"|;
    assert v == a[m..] && w == b[m..];
  }

  /** All hub ids in `allHubs` are distinct. */
  lemma HubIdsUnique(entries: seq<Entry>, a: nat, b: nat)
    requires a < b < |AllHubs(entries)|
    ensures AllHubs(entries)[a].id != AllHubs(entries)[b].id
  {
    var t, j := HubAt(entries, a);
    var u, k := HubAt(entries, b);
    var x, y := AllHubs(entries)[a], AllHubs(entries)[b];
    if x.id == y.id {
      HubIdInjective(t, x.value, u, y.value);
      HubListProperties(entries, t);
      assert false;
    }
  }

}
