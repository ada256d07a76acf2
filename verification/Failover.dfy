/** The provider registry and the selector that rotates over its healthy nodes. */
module Failovers {
  import opened Sequences
  import opened Ordering
  import opened Text

  datatype Kind = VLLM | SGLang

  datatype Health = Healthy | Unhealthy | UnknownHealth | Stale

  datatype Node = Node(id: string, kind: Kind, baseUrl: string, weight: int, status: Health,
                       failureCount: nat, successCount: nat, lastError: string,
                       lastHeartbeat: Option<real>, lastCheck: Option<real>)

  datatype Event = Event(kind: Kind, fromNode: string, toNode: Option<string>, reason: string)

  datatype RegistryError = UnknownNode(id: string) | NodeExists(id: string) | EmptyUrl | BadWeight

  datatype Outcome<+T> = Ok(value: T) | Error(error: RegistryError)

  /* ---- candidates ---- */

  function KindName(k: Kind): string {
    if k == VLLM then "vllm" else "sglang"
  }

  predicate NodeLeq(a: Node, b: Node) {
    (KindName(a.kind) != KindName(b.kind) && LexLeq(KindName(a.kind), KindName(b.kind)))
    || (a.kind == b.kind && LexLeq(a.id, b.id))
  }

  predicate Fits(n: Node, kind: Option<Kind>, healthyOnly: bool) {
    (kind == None || kind == Some(n.kind)) && (!healthyOnly || n.status == Healthy)
  }

  function FitTest(kind: Option<Kind>, healthyOnly: bool): Node -> bool {
    (n: Node) => Fits(n, kind, healthyOnly)
  }

  /** The registry as a value: nodes by id, in insertion order. */
  datatype Registry = Registry(order: seq<string>, nodes: map<string, Node>)

  ghost predicate WellFormed(r: Registry) {
    && NoDup(r.order) && Elems(r.order) == r.nodes.Keys
    && forall id :: id in r.nodes ==> r.nodes[id].id == id
  }

  function NodesOf(r: Registry, ids: seq<string>): seq<Node>
    requires forall id :: id in ids ==> id in r.nodes
  {
    seq(|ids|, i requires 0 <= i < |ids| => r.nodes[ids[i]])
  }

  function ListOf(r: Registry, kind: Option<Kind>, healthyOnly: bool): seq<Node>
    requires forall id :: id in r.order ==> id in r.nodes
  {
    Sort(Filter(NodesOf(r, r.order), FitTest(kind, healthyOnly)), NodeLeq)
  }

  lemma NodeLeqIsTotalPreorder()
    ensures TotalPreorder(NodeLeq)
  {
    assert "sglang"[0] == 's' && "vllm"[0] == 'v';
    assert LexLeq("sglang", "vllm") && !LexLeq("vllm", "sglang");
    forall a: Node, b: Node ensures NodeLeq(a, b) || NodeLeq(b, a) {
      LexTotal(a.id, b.id);
    }
    forall a: Node, b: Node, c: Node | NodeLeq(a, b) && NodeLeq(b, c) ensures NodeLeq(a, c) {
      if a.kind == b.kind == c.kind { LexTransitive(a.id, b.id, c.id); }
    }
  }

  lemma OrderKnown(r: Registry)
    requires WellFormed(r)
    ensures forall id :: id in r.order <==> id in r.nodes
  {
    assert forall id :: id in r.order <==> id in Elems(r.order);
  }

  /** The list holds exactly the nodes of the kind, if one is asked for, that are healthy, if that is asked for;
      each once, those of the first kind by name first, and nodes of a kind by id. */
  lemma ListMeaning(r: Registry, kind: Option<Kind>, healthyOnly: bool)
    requires WellFormed(r)
    ensures forall id :: id in r.order ==> id in r.nodes
    ensures var l := ListOf(r, kind, healthyOnly);
            && NoDup(l)
            && (forall i, j :: 0 <= i < j < |l| ==>
                  if l[i].kind == l[j].kind then LexLeq(l[i].id, l[j].id) else l[i].kind == SGLang)
            && forall n :: n in l <==>
                 && n.id in r.nodes && r.nodes[n.id] == n
                 && (kind == None || n.kind == kind.value) && (healthyOnly ==> n.status == Healthy)
  {
    var all := AllNodes(r);
    var kept := Filter(all, FitTest(kind, healthyOnly));
    OrderKnown(r);
    hide WellFormed, NodesOf, Filter, NodeLeq, NoDup;
    FilterNoDup(all, FitTest(kind, healthyOnly));
    SortNoDup(kept, NodeLeq);
    NodeLeqIsTotalPreorder();
    SortSorted(kept, NodeLeq);
    SortedMeaning(Sort(kept, NodeLeq));
  }

  /** Every node of the registry is listed once. */
  lemma AllNodes(r: Registry) returns (all: seq<Node>)
    requires WellFormed(r)
    ensures (forall id :: id in r.order ==> id in r.nodes) && all == NodesOf(r, r.order)
    ensures NoDup(all) && forall n :: n in all <==> n.id in r.nodes && r.nodes[n.id] == n
  {
    OrderKnown(r);
    all := NodesOf(r, r.order);
    forall i, j | 0 <= i < j < |all| ensures all[i] != all[j] {
      assert r.order[i] in r.nodes && r.order[j] in r.nodes;
    }
    forall n ensures n in all <==> n.id in r.nodes && r.nodes[n.id] == n {
      if n.id in r.nodes && r.nodes[n.id] == n {
        var i :| 0 <= i < |r.order| && r.order[i] == n.id;
        assert all[i] == n;
      }
    }
  }

  lemma SortedMeaning(l: seq<Node>)
    requires Sorted(l, NodeLeq)
    ensures forall i, j :: 0 <= i < j < |l| ==>
              if l[i].kind == l[j].kind then LexLeq(l[i].id, l[j].id) else l[i].kind == SGLang
  {
    assert "sglang"[0] == 's' && "vllm"[0] == 'v';
    assert LexLeq("sglang", "vllm") && !LexLeq("vllm", "sglang");
    forall i, j | 0 <= i < j < |l|
      ensures if l[i].kind == l[j].kind then LexLeq(l[i].id, l[j].id) else l[i].kind == SGLang
    {
      assert NodeLeq(l[i], l[j]);
    }
  }

  /* ---- health ---- */

  function Marked(n: Node, healthy: bool, error: string, now: real): Node {
    var checked := n.(lastCheck := Some(now));
    if healthy then checked.(status := Healthy, successCount := n.successCount + 1, failureCount := 0, lastError := "")
    else checked.(status := Unhealthy, failureCount := n.failureCount + 1, lastError := error)
  }

  function MarkedIn(r: Registry, id: string, healthy: bool, error: string, now: real): Registry {
    if id in r.nodes then r.(nodes := r.nodes[id := Marked(r.nodes[id], healthy, error, now)]) else r
  }

  function Touched(n: Node, now: real): Node {
    n.(lastHeartbeat := Some(now), status := if n.status in {UnknownHealth, Stale} then Healthy else n.status)
  }

  /** A check sets the time and the status; a good one counts and clears failures, a bad one counts and keeps its
      reason, and the rest of the node stays. */
  lemma MarkMeaning(n: Node, healthy: bool, error: string, now: real)
    ensures var m := Marked(n, healthy, error, now);
            && m.id == n.id && m.kind == n.kind && m.baseUrl == n.baseUrl && m.weight == n.weight
            && m.lastHeartbeat == n.lastHeartbeat && m.lastCheck == Some(now)
            && (healthy ==> m.status == Healthy && m.successCount == n.successCount + 1
                            && m.failureCount == 0 && m.lastError == "")
            && (!healthy ==> m.status == Unhealthy && m.successCount == n.successCount
                             && m.failureCount == n.failureCount + 1 && m.lastError == error)
  {
  }

  /** A heartbeat sets its time and makes nodes of unknown or stale health healthy; unhealthy ones stay so, and
      the rest of the node stays. */
  lemma TouchMeaning(n: Node, now: real)
    ensures var m := Touched(n, now);
            && m.id == n.id && m.kind == n.kind && m.baseUrl == n.baseUrl && m.weight == n.weight
            && m.failureCount == n.failureCount && m.successCount == n.successCount
            && m.lastError == n.lastError && m.lastCheck == n.lastCheck && m.lastHeartbeat == Some(now)
            && (n.status == Unhealthy ==> m.status == Unhealthy)
            && (n.status != Unhealthy ==> m.status == Healthy)
  {
  }

  /* ---- base URLs ---- */

  function DropSlashes(s: string): (r: string)
    ensures r <= s
    ensures r != "" ==> r[|r| - 1] != '/'
  {
    if s != "" && s[|s| - 1] == '/' then DropSlashes(s[..|s| - 1]) else s
  }

  predicate EndsWithV1(s: string) {
    |s| >= 3 && s[|s| - 3..] == "/v1"
  }

  /** The URL without blanks and slashes at its end, with "/v1" behind it; an empty one is an error. */
  function NormalizeUrl(url: string): Outcome<string> {
    var cleaned := DropSlashes(Strip(url));
    if cleaned == "" then Error(EmptyUrl)
    else if EndsWithV1(cleaned) then Ok(cleaned)
    else Ok(cleaned + "/v1")
  }

  /** A stored URL ends with "/v1", and registering it once more would store the same. */
  lemma NormalizedUrl(url: string)
    requires NormalizeUrl(url).Ok?
    ensures EndsWithV1(NormalizeUrl(url).value)
    ensures NormalizeUrl(NormalizeUrl(url).value) == NormalizeUrl(url)
  {
    var cleaned := DropSlashes(Strip(url));
    var stored := NormalizeUrl(url).value;
    StripStarts(url);
    assert cleaned[0] == Strip(url)[0];
    assert stored[|stored| - 3..] == "/v1" && stored[|stored| - 1] == "/v1"[2];
    NotBlank(stored);
  }

  lemma {:induction false} SlashesDropped(s: string) returns (slashes: string)
    ensures s == DropSlashes(s) + slashes && forall i :: 0 <= i < |slashes| ==> slashes[i] == '/'
  {
    slashes := "";
    if s != "" && s[|s| - 1] == '/' {
      var rest := SlashesDropped(s[..|s| - 1]);
      slashes := rest + "/";
      assert s == s[..|s| - 1] + "/";
      assert DropSlashes(s) + rest + "/" == DropSlashes(s) + (rest + "/");
    }
  }

  /** What is stored: the stripped URL without the slashes at its end, with "/v1" behind it unless it is there
      already; if nothing is left without them, the URL is refused. */
  lemma UrlMeaning(url: string) returns (base: string, slashes: string)
    ensures Strip(url) == base + slashes && (forall i :: 0 <= i < |slashes| ==> slashes[i] == '/')
    ensures base != "" ==> base[|base| - 1] != '/'
    ensures NormalizeUrl(url) ==
            if base == "" then Error(EmptyUrl)
            else if |base| >= 3 && base[|base| - 3..] == "/v1" then Ok(base) else Ok(base + "/v1")
  {
    base := DropSlashes(Strip(url));
    slashes := SlashesDropped(Strip(url));
  }

  lemma StripStarts(s: string)
    ensures Strip(s) != "" ==> !IsSpace(Strip(s)[0])
  {
    var l := StripLeft(s);
    assert StripRight(l) != "" ==> StripRight(l)[0] == l[0];
  }

  lemma NotBlank(s: string)
    requires s != "" && !IsSpace(s[0]) && s[|s| - 1] == '1'
    ensures Strip(s) == s && DropSlashes(s) == s
  {
    assert !IsSpace('1');
    hide *;
    LeftIsWhole(s);
    RightIsWhole(s);
    assert Strip(s) == StripRight(StripLeft(s)) by { StripMeaning(s); }
    NoSlashes(s);
  }

  lemma StripMeaning(s: string)
    ensures Strip(s) == StripRight(StripLeft(s))
  {
  }

  lemma LeftIsWhole(s: string)
    requires s != "" && !IsSpace(s[0])
    ensures StripLeft(s) == s
  {
    hide IsSpace;
  }

  lemma RightIsWhole(s: string)
    requires s != "" && !IsSpace(s[|s| - 1])
    ensures StripRight(s) == s
  {
    hide IsSpace;
  }

  lemma NoSlashes(s: string)
    requires s != "" && s[|s| - 1] != '/'
    ensures DropSlashes(s) == s
  {
  }

  class ProviderRegistry {
    var order: seq<string>
    var nodes: map<string, Node>

    ghost function View(): Registry
      reads this
    {
      Registry(order, nodes)
    }

    ghost predicate Valid()
      reads this
    {
      WellFormed(View())
    }

    constructor ()
      ensures Valid() && View() == Registry([], map[])
    {
      order, nodes := [], map[];
    }

    /** The id is the requested one, or the given new one; a new registration starts with unknown health. */
    method Register(requested: Option<string>, newId: string, kind: Kind, baseUrl: string, weight: int,
                    overwrite: bool)
      returns (r: Outcome<Node>)
      requires Valid()
      modifies this
      ensures Valid()
      ensures var id := if requested == None || requested == Some("") then newId else requested.value;
              && r == (if id in old(nodes) && !overwrite then Error(NodeExists(id))
                       else if NormalizeUrl(baseUrl).Error? then Error(EmptyUrl)
                       else if weight < 1 then Error(BadWeight)
                       else Ok(Node(id, kind, NormalizeUrl(baseUrl).value, weight, UnknownHealth, 0, 0, "",
                                    None, None)))
              && (r.Ok? ==> nodes == old(nodes)[id := r.value])
              && (r.Ok? ==> order == if id in old(nodes) then old(order) else old(order) + [id])
      ensures r.Error? ==> View() == old(View())
    {
      hide Strip, DropSlashes;
      var id := if requested.Some? && requested.value != "" then requested.value else newId;
      if id in nodes && !overwrite {
        return Error(NodeExists(id));
      }
      var url := NormalizeUrl(baseUrl);
      if url.Error? {
        return Error(url.error);
      }
      if weight < 1 {
        return Error(BadWeight);
      }
      OrderKnown(View());
      var node := Node(id, kind, url.value, weight, UnknownHealth, 0, 0, "", None, None);
      if id !in nodes {
        NoDupAppend(order, id);
        order := order + [id];
      }
      nodes := nodes[id := node];
      return Ok(node);
    }

    method Get(id: string) returns (r: Outcome<Node>)
      ensures r == if id in nodes then Ok(nodes[id]) else Error(UnknownNode(id))
    {
      r := if id in nodes then Ok(nodes[id]) else Error(UnknownNode(id));
    }

    method ListNodes(kind: Option<Kind>, healthyOnly: bool) returns (r: seq<Node>)
      requires Valid()
      ensures (forall id :: id in order ==> id in nodes) && r == ListOf(View(), kind, healthyOnly)
    {
      OrderKnown(View());
      var items := NodesOf(Registry(order, nodes), order);
      r := Sort(Filter(items, FitTest(kind, healthyOnly)), NodeLeq);
    }

    method MarkHealth(id: string, healthy: bool, error: string, now: real)
      requires Valid()
      modifies this
      ensures Valid() && View() == MarkedIn(old(View()), id, healthy, error, now)
    {
      if id !in nodes {
        return;
      }
      nodes := nodes[id := nodes[id].(lastCheck := Some(now))];
      if healthy {
        nodes := nodes[id := nodes[id].(status := Healthy, successCount := nodes[id].successCount + 1,
                                        failureCount := 0, lastError := "")];
      } else {
        nodes := nodes[id := nodes[id].(status := Unhealthy, failureCount := nodes[id].failureCount + 1,
                                        lastError := error)];
      }
    }

    method MarkStale(id: string)
      requires Valid()
      modifies this
      ensures Valid() && order == old(order)
      ensures nodes == if id !in old(nodes) then old(nodes)
                       else old(nodes)[id := old(nodes)[id].(status := Stale, lastError := "heartbeat stale")]
    {
      if id in nodes {
        nodes := nodes[id := nodes[id].(status := Stale, lastError := "heartbeat stale")];
      }
    }

    /** A heartbeat revives nodes of unknown or stale health, but not unhealthy ones. */
    method TouchHeartbeat(id: string, now: real) returns (r: Outcome<Node>)
      requires Valid()
      modifies this
      ensures Valid() && order == old(order)
      ensures id !in old(nodes) ==> r == Error(UnknownNode(id)) && nodes == old(nodes)
      ensures id in old(nodes) ==>
                nodes == old(nodes)[id := Touched(old(nodes)[id], now)] && r == Ok(nodes[id])
    {
      if id !in nodes {
        return Error(UnknownNode(id));
      }
      nodes := nodes[id := nodes[id].(lastHeartbeat := Some(now))];
      if nodes[id].status in {UnknownHealth, Stale} {
        nodes := nodes[id := nodes[id].(status := Healthy)];
      }
      return Ok(nodes[id]);
    }
  }

  /* ---- rotation ---- */

  /** The index that a selection takes, and the counter that it leaves. */
  function Pick(counter: nat, n: nat): nat
    requires n > 0
  {
    counter % n
  }

  /** The counter after a number of selections from a list of n candidates. */
  function CounterAfter(counter: nat, n: nat, selections: nat): nat
    requires n > 0
  {
    if selections == 0 then counter else Pick(CounterAfter(counter, n, selections - 1), n) + 1
  }

  /** The index that the i-th of a series of selections takes. */
  function Turn(counter: nat, n: nat, i: nat): nat
    requires n > 0
  {
    Pick(CounterAfter(counter, n, i), n)
  }

  lemma {:induction false} TurnIsRotation(counter: nat, n: nat, i: nat)
    requires n > 0 && i < n
    ensures Turn(counter, n, i) == if counter % n + i < n then counter % n + i else counter % n + i - n
  {
    if i > 0 {
      TurnIsRotation(counter, n, i - 1);
      var previous := Turn(counter, n, i - 1);
      assert CounterAfter(counter, n, i) == previous + 1;
      if previous + 1 < n {
        SmallRemainder(previous + 1, n);
      } else {
        assert previous + 1 == n;
        assert n % n == 0;
      }
    }
  }

  lemma SmallRemainder(x: nat, n: nat)
    requires x < n
    ensures x % n == x
  {
  }

  /** While the candidates stay the same, any n selections in a row return each of the n candidates exactly
      once, from any state of the counter. */
  lemma EveryCandidateOnce(counter: nat, n: nat, j: nat)
    requires j < n
    ensures exists i :: 0 <= i < n && Turn(counter, n, i) == j
    ensures forall i, k :: 0 <= i < n && 0 <= k < n && Turn(counter, n, i) == Turn(counter, n, k) ==> i == k
  {
    var start := counter % n;
    var i := if j >= start then j - start else j + n - start;
    TurnIsRotation(counter, n, i);
    forall i: nat | i < n ensures Turn(counter, n, i) == if start + i < n then start + i else start + i - n {
      TurnIsRotation(counter, n, i);
    }
  }

  /* ---- the selector object ---- */

  function Last100(events: seq<Event>): seq<Event> {
    if |events| > 100 then events[|events| - 100..] else events
  }

  /** The log is the end of the history, as long as that is or a hundred events. */
  lemma NewestHundred(events: seq<Event>)
    ensures |Last100(events)| == (if |events| < 100 then |events| else 100)
    ensures forall i :: 0 <= i < |Last100(events)| ==> Last100(events)[i] == events[|events| - |Last100(events)| + i]
  {
  }

  lemma LogKeepsNewest(events: seq<Event>, event: Event)
    ensures var log := Last100(events) + [event];
            Last100(events + [event]) == if |log| > 100 then log[|log| - 100..] else log
  {
  }

  class FailoverSelector {
    const registry: ProviderRegistry
    var roundRobin: map<Kind, nat>
    var active: map<Kind, Option<string>>
    var failoverLog: seq<Event>
    /** Every event so far. */
    ghost var history: seq<Event>

    ghost predicate Valid()
      reads this, registry
    {
      registry.Valid() && failoverLog == Last100(history)
    }

    constructor (registry: ProviderRegistry)
      requires registry.Valid()
      ensures this.registry == registry && Valid() && history == [] && roundRobin == map[]
      ensures active == map[VLLM := None, SGLang := None]
    {
      this.registry := registry;
      roundRobin, active := map[], map[VLLM := None, SGLang := None];
      failoverLog, history := [], [];
    }

    function Counter(kind: Kind): nat
      reads this
    {
      if kind in roundRobin then roundRobin[kind] else 0
    }

    ghost function Candidates(kind: Kind): seq<Node>
      requires registry.Valid()
      reads registry
    {
      ListMeaning(registry.View(), Some(kind), true);
      ListOf(registry.View(), Some(kind), true)
    }

    /** The candidate whose turn it is at a state of the counter. */
    ghost function InTurn(kind: Kind, counter: nat): Option<Node>
      requires registry.Valid()
      reads registry
    {
      if Candidates(kind) == [] then None else Some(Candidates(kind)[Pick(counter, |Candidates(kind)|)])
    }

    /** The counters after a selection; one that finds no candidate moves none. */
    ghost function Counters(before: map<Kind, nat>, kind: Kind, counter: nat): map<Kind, nat>
      requires registry.Valid()
      reads registry
    {
      if Candidates(kind) == [] then before else before[kind := CounterAfter(counter, |Candidates(kind)|, 1)]
    }

    /** The next healthy node of the kind in rotation. */
    method Select(kind: Kind) returns (chosen: Option<Node>)
      requires Valid()
      modifies this
      ensures Valid() && history == old(history)
      ensures chosen == InTurn(kind, old(Counter(kind)))
      ensures roundRobin == Counters(old(roundRobin), kind, old(Counter(kind)))
      ensures active == if chosen.None? then old(active) else old(active)[kind := Some(chosen.value.id)]
      ensures chosen.Some? ==> chosen.value.kind == kind && chosen.value.status == Healthy
                               && chosen.value.id in registry.nodes && registry.nodes[chosen.value.id] == chosen.value
    {
      hide ListOf, WellFormed, Last100, Pick;
      CandidatesFit(registry.View(), kind);
      var candidates := registry.ListNodes(Some(kind), true);
      if candidates == [] {
        return None;
      }
      PickInRange(Counter(kind), |candidates|);
      var counter := if kind in roundRobin then roundRobin[kind] else 0;
      var index := counter % |candidates|;
      roundRobin := roundRobin[kind := index + 1];
      active := active[kind := Some(candidates[index].id)];
      return Some(candidates[index]);
    }

    /** Marks the node unhealthy, logs the event and returns a replacement: a healthy node of the same kind
        other than the failed one, or none if there is none. */
    method ReportFailure(id: string, reason: string, now: real) returns (r: Outcome<Option<Node>>)
      requires Valid()
      modifies this, registry
      ensures Valid()
      ensures id !in old(registry.nodes) ==>
                r == Error(UnknownNode(id)) && history == old(history) && registry.View() == old(registry.View())
      ensures id in old(registry.nodes) ==>
                var kind := old(registry.nodes)[id].kind;
                && registry.View() == MarkedIn(old(registry.View()), id, false, reason, now)
                && r == Ok(InTurn(kind, old(Counter(kind))))
                && roundRobin == Counters(old(roundRobin), kind, old(Counter(kind)))
                && active == (if r.value.None? then old(active) else old(active)[kind := Some(r.value.value.id)])
                && (r.value == None <==> forall n :: n in registry.nodes ==>
                      !(registry.nodes[n].kind == kind && registry.nodes[n].status == Healthy))
                && (r.value.Some? ==>
                      && r.value.value.kind == kind && r.value.value.status == Healthy
                      && r.value.value.id != id && r.value.value.id in registry.nodes)
                && var to := if r.value.Some? then Some(r.value.value.id) else None;
                   history == old(history) + [Event(kind, id, to, reason)]
    {
      hide ListOf, WellFormed, Pick, CounterAfter, Counters, Last100;
      var node := registry.Get(id);
      if node.Error? {
        return Error(node.error);
      }
      registry.MarkHealth(id, false, reason, now);
      var kind := node.value.kind;
      var replacement := Select(kind);
      NoneFits(registry.View(), kind);
      var event := Event(kind, id, if replacement.Some? then Some(replacement.value.id) else None, reason);
      failoverLog := failoverLog + [event];
      if |failoverLog| > 100 {
        failoverLog := failoverLog[|failoverLog| - 100..];
      }
      LogKeepsNewest(history, event);
      history := history + [event];
      return Ok(replacement);
    }

    /** The active node while it is healthy, and otherwise the next one in rotation; an active node that has
        left the registry is an error. */
    method EnsureActive(kind: Kind) returns (r: Outcome<Option<Node>>)
      requires Valid()
      modifies this
      ensures Valid() && history == old(history)
      ensures r.Ok? && r.value.Some? ==> r.value.value.status == Healthy && r.value.value.id in registry.nodes
                                         && registry.nodes[r.value.value.id] == r.value.value
      ensures var id := old(if kind in active then active[kind] else None);
              if id == None || id == Some("")
                 || (id.value in registry.nodes && registry.nodes[id.value].status != Healthy)
              then && r == Ok(InTurn(kind, old(Counter(kind))))
                   && roundRobin == Counters(old(roundRobin), kind, old(Counter(kind)))
                   && active == (if r.value.None? then old(active) else old(active)[kind := Some(r.value.value.id)])
              else && r == (if id.value !in registry.nodes then Error(UnknownNode(id.value))
                            else Ok(Some(registry.nodes[id.value])))
                   && roundRobin == old(roundRobin) && active == old(active)
    {
      var activeId := if kind in active then active[kind] else None;
      if activeId.Some? && activeId.value != "" {
        var stored := registry.Get(activeId.value);
        if stored.Error? {
          return Error(stored.error);
        }
        if stored.value.status == Healthy {
          return Ok(Some(stored.value));
        }
      }
      var chosen := Select(kind);
      return Ok(chosen);
    }
  }

  lemma TurnMoves(counter: nat, n: nat, i: nat)
    requires n > 0
    ensures Turn(counter, n, i) == Pick(CounterAfter(counter, n, i), n) < n
    ensures CounterAfter(counter, n, i + 1) == CounterAfter(CounterAfter(counter, n, i), n, 1)
  {
    var c := CounterAfter(counter, n, i);
    assert CounterAfter(c, n, 0) == c;
  }

  /** A client that selects as often as there are candidates gets every candidate, and each of them once. */
  method SelectRound(selector: FailoverSelector, kind: Kind) returns (chosen: seq<Node>)
    requires selector.Valid()
    modifies selector
    ensures selector.Valid()
    ensures |chosen| == |old(selector.Candidates(kind))| && NoDup(chosen)
    ensures Elems(chosen) == Elems(old(selector.Candidates(kind)))
  {
    hide ListOf, WellFormed, Last100, Pick, Turn, CounterAfter;
    chosen := [];
    ghost var start := selector.Counter(kind);
    var candidates := selector.registry.ListNodes(Some(kind), true);
    if candidates == [] {
      return;
    }
    CounterStart(start, |candidates|);
    for i := 0 to |candidates|
      invariant selector.Valid() && |chosen| == i
      invariant selector.Counter(kind) == CounterAfter(start, |candidates|, i)
      invariant forall k :: 0 <= k < i ==> Turn(start, |candidates|, k) < |candidates|
      invariant forall k :: 0 <= k < i ==> chosen[k] == candidates[Turn(start, |candidates|, k)]
    {
      var next := selector.Select(kind);
      TurnMoves(start, |candidates|, i);
      chosen := chosen + [next.value];
    }
    ListMeaning(selector.registry.View(), Some(kind), true);
    AllChosen(start, candidates, chosen);
  }

  lemma CounterStart(counter: nat, n: nat)
    requires n > 0
    ensures CounterAfter(counter, n, 0) == counter
  {
  }

  lemma AllChosen(start: nat, candidates: seq<Node>, chosen: seq<Node>)
    requires NoDup(candidates) && |chosen| == |candidates| > 0
    requires forall k :: 0 <= k < |chosen| ==> Turn(start, |candidates|, k) < |candidates|
    requires forall k :: 0 <= k < |chosen| ==> chosen[k] == candidates[Turn(start, |candidates|, k)]
    ensures NoDup(chosen) && Elems(chosen) == Elems(candidates)
  {
    hide Turn;
    var n := |candidates|;
    forall i, k | 0 <= i < k < n ensures chosen[i] != chosen[k] {
      EveryCandidateOnce(start, n, Turn(start, n, i));
    }
    forall x | x in candidates ensures x in chosen {
      var j :| 0 <= j < n && candidates[j] == x;
      EveryCandidateOnce(start, n, j);
      var i :| 0 <= i < n && Turn(start, n, i) == j;
      assert chosen[i] == x;
    }
  }

  lemma CandidatesFit(r: Registry, kind: Kind)
    requires WellFormed(r)
    ensures forall id :: id in r.order ==> id in r.nodes
    ensures var l := ListOf(r, Some(kind), true);
            forall i :: 0 <= i < |l| ==>
              l[i].kind == kind && l[i].status == Healthy && l[i].id in r.nodes && r.nodes[l[i].id] == l[i]
  {
    ListMeaning(r, Some(kind), true);
    var l := ListOf(r, Some(kind), true);
    assert forall i :: 0 <= i < |l| ==> l[i] in l;
  }

  lemma PickInRange(counter: nat, n: nat)
    requires n > 0
    ensures Pick(counter, n) == counter % n < n
    ensures CounterAfter(counter, n, 1) == counter % n + 1
  {
    assert CounterAfter(counter, n, 0) == counter;
  }

  lemma NoneFits(r: Registry, kind: Kind)
    requires WellFormed(r)
    ensures forall id :: id in r.order ==> id in r.nodes
    ensures ListOf(r, Some(kind), true) == [] <==>
            forall n :: n in r.nodes ==> !(r.nodes[n].kind == kind && r.nodes[n].status == Healthy)
  {
    ListMeaning(r, Some(kind), true);
    var l := ListOf(r, Some(kind), true);
    if l == [] {
      forall n | n in r.nodes ensures !(r.nodes[n].kind == kind && r.nodes[n].status == Healthy) {
        assert r.nodes[n] !in l;
      }
    } else {
      assert l[0] in l;
    }
  }
}
