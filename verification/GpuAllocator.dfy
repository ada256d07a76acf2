/** The GPU allocator: greedy choice of devices with rollback, over a ledger of allocation records. */
module GpuAllocators {
  import opened Sequences
  import opened Ordering

  type AllocationId = string

  /** A device as the monitor reports it; missing readings are None. Quantities are exact reals. */
  datatype Device = Device(
    index: int, usedMib: Option<real>, totalMib: Option<real>, freeMib: Option<real>,
    utilization: Option<real>, temperature: Option<real>, allocatedMib: real, allocationCount: int)

  datatype Request = Request(memoryMib: real, gpuCount: int, owner: string, preferred: seq<int>)

  datatype Allocation = Allocation(id: AllocationId, gpuIndex: int, memoryMib: real, owner: string)

  datatype Answer = Granted(ids: seq<AllocationId>, gpus: seq<int>) | NoDevices | Insufficient

  function OrZero(x: Option<real>): real {
    if x.Some? then x.value else 0.0
  }

  function EffectiveFree(d: Device): real {
    var free := if d.freeMib.Some? then d.freeMib.value
                else if d.totalMib.Some? && d.usedMib.Some? then d.totalMib.value - d.usedMib.value
                else 0.0;
    if free - d.allocatedMib > 0.0 then free - d.allocatedMib else 0.0
  }

  datatype Candidate = Candidate(score: real, free: real, index: int)

  /** Lower score first, then more free memory. */
  predicate Better(a: Candidate, b: Candidate) {
    a.score < b.score || (a.score == b.score && a.free >= b.free)
  }

  function Rate(d: Device, request: Request): Candidate {
    var penalty := if request.preferred != [] then 10.0 else 0.0;
    Candidate(OrZero(d.utilization) + OrZero(d.temperature) * 0.05 - penalty, EffectiveFree(d), d.index)
  }

  predicate Eligible(d: Device, request: Request) {
    (request.preferred == [] || d.index in request.preferred) && EffectiveFree(d) >= request.memoryMib
  }

  /** The candidates in device order, without the excluded indices. */
  function Candidates(devices: seq<Device>, request: Request, exclude: set<int>): (r: seq<Candidate>)
    ensures forall c :: c in r ==> c.index !in exclude
  {
    if devices == [] then []
    else (if devices[0].index !in exclude && Eligible(devices[0], request) then [Rate(devices[0], request)] else [])
         + Candidates(devices[1..], request, exclude)
  }

  /** All eligible devices of a scan, best first, by one stable sort. */
  function Ranking(devices: seq<Device>, request: Request): seq<Candidate> {
    Sort(Candidates(devices, request, {}), Better)
  }

  /** The indices in a list of candidates, each at its first occurrence. */
  function Distinct(cs: seq<Candidate>, seen: set<int>): (r: seq<int>)
    ensures forall i :: i in r ==> i !in seen
    ensures forall i :: i in r <==> i !in seen && exists c :: c in cs && c.index == i
    ensures NoDup(r)
  {
    if cs == [] then []
    else if cs[0].index in seen then Distinct(cs[1..], seen)
    else
      assert forall c :: c in cs <==> c == cs[0] || c in cs[1..];
      [cs[0].index] + Distinct(cs[1..], seen + {cs[0].index})
  }

  /** The declarative answer: the best distinct devices of the scan, in order. */
  function Choice(devices: seq<Device>, request: Request): seq<int> {
    Distinct(Ranking(devices, request), {})
  }

  lemma BetterIsTotalPreorder()
    ensures TotalPreorder(Better)
  {
  }

  /* ---- greedy picking against the one sort ---- */

  function Unseen(seen: set<int>): Candidate -> bool {
    (c: Candidate) => c.index !in seen
  }

  lemma {:induction false} CandidatesFilter(devices: seq<Device>, request: Request, exclude: set<int>)
    ensures Candidates(devices, request, exclude) == Filter(Candidates(devices, request, {}), Unseen(exclude))
  {
    if devices != [] {
      CandidatesFilter(devices[1..], request, exclude);
      if Eligible(devices[0], request) {
        var rest := Candidates(devices[1..], request, {});
        var all := [Rate(devices[0], request)] + rest;
        assert Candidates(devices, request, {}) == all && all[1..] == rest;
      } else {
        assert Candidates(devices, request, {}) == Candidates(devices[1..], request, {});
      }
    }
  }

  /** Devices that differ only at excluded indices give the same candidates. */
  lemma {:induction false} CandidatesAgree(a: seq<Device>, b: seq<Device>, request: Request, exclude: set<int>)
    requires |a| == |b|
    requires forall i :: 0 <= i < |a| ==> a[i].index == b[i].index && (a[i].index !in exclude ==> a[i] == b[i])
    ensures Candidates(a, request, exclude) == Candidates(b, request, exclude)
  {
    if a != [] { CandidatesAgree(a[1..], b[1..], request, exclude); }
  }

  lemma {:induction false} FilterDistinct(cs: seq<Candidate>, seen: set<int>)
    ensures var f := Filter(cs, Unseen(seen));
            var d := Distinct(cs, seen);
            (f == [] <==> d == []) && (f != [] ==> d[0] == f[0].index)
  {
    if cs != [] && cs[0].index in seen { FilterDistinct(cs[1..], seen); }
  }

  lemma {:induction false} DistinctStep(cs: seq<Candidate>, seen: set<int>)
    requires Distinct(cs, seen) != []
    ensures Distinct(cs, seen)[1..] == Distinct(cs, seen + {Distinct(cs, seen)[0]})
  {
    if cs[0].index in seen {
      DistinctStep(cs[1..], seen);
    } else {
      var first := cs[0].index;
      DistinctMember(cs[1..], seen, first);
    }
  }

  lemma DistinctMember(cs: seq<Candidate>, seen: set<int>, i: int)
    ensures Distinct(cs, seen + {i}) == Distinct(cs, seen + {i} + {i})
  {
    assert seen + {i} + {i} == seen + {i};
  }

  /** Best of the candidates left after some choices is the next distinct index of the ranking. */
  lemma PickIsNext(devices: seq<Device>, request: Request, now: seq<Device>, seen: set<int>)
    requires |now| == |devices|
    requires forall i :: 0 <= i < |now| ==>
               now[i].index == devices[i].index && (now[i].index !in seen ==> now[i] == devices[i])
    ensures var left := Candidates(now, request, seen);
            var rest := Distinct(Ranking(devices, request), seen);
            (left == [] <==> rest == []) && (left != [] ==> Sort(left, Better)[0].index == rest[0])
  {
    CandidatesAgree(now, devices, request, seen);
    CandidatesFilter(devices, request, seen);
    BetterIsTotalPreorder();
    SortFilter(Candidates(devices, request, {}), Better, Unseen(seen));
    FilterDistinct(Ranking(devices, request), seen);
  }

  function EligibleIndices(devices: seq<Device>, request: Request): set<int> {
    set d | d in devices && Eligible(d, request) :: d.index
  }

  /** The choice has every eligible index of the scan, once. */
  lemma ChoiceMembers(devices: seq<Device>, request: Request)
    ensures NoDup(Choice(devices, request))
    ensures Elems(Choice(devices, request)) == EligibleIndices(devices, request)
    ensures |Choice(devices, request)| == |EligibleIndices(devices, request)|
  {
    NoDupCard(Choice(devices, request));
    var cs := Candidates(devices, request, {});
    CandidateOf(devices, request);
    assert forall c :: c in Ranking(devices, request) <==> c in cs;
    forall i
      ensures i in Choice(devices, request) <==> exists d :: d in devices && Eligible(d, request) && d.index == i {
      if c :| c in cs && c.index == i {
        var d :| d in devices && Eligible(d, request) && Rate(d, request) == c;
      }
      if d :| d in devices && Eligible(d, request) && d.index == i {
        assert Rate(d, request) in cs;
      }
    }
  }

  lemma {:induction false} CandidateOf(devices: seq<Device>, request: Request)
    ensures forall c :: c in Candidates(devices, request, {}) <==>
                        exists d :: d in devices && Eligible(d, request) && Rate(d, request) == c
  {
    if devices != [] {
      CandidateOf(devices[1..], request);
      assert forall d :: d in devices <==> d == devices[0] || d in devices[1..];
    }
  }

  /** With distinct indices no candidate is dropped: the choice is the ranking itself. */
  lemma ChoiceIsRanking(devices: seq<Device>, request: Request)
    requires forall i, j :: 0 <= i < j < |devices| ==> devices[i].index != devices[j].index
    ensures |Choice(devices, request)| == |Ranking(devices, request)|
    ensures forall k :: 0 <= k < |Ranking(devices, request)| ==>
              Choice(devices, request)[k] == Ranking(devices, request)[k].index
  {
    CandidatesDistinct(devices, request);
    SortIndices(Candidates(devices, request, {}));
    DistinctIndices(Ranking(devices, request), {});
  }

  function TiedWith(c: Candidate): Candidate -> bool {
    (x: Candidate) => x.score == c.score && x.free == c.free
  }

  lemma {:induction false} SortOfTies(cs: seq<Candidate>)
    requires forall a, b :: a in cs && b in cs ==> Better(a, b)
    ensures Sort(cs, Better) == cs
  {
    if cs != [] {
      SortOfTies(cs[1..]);
      assert cs == [cs[0]] + cs[1..];
    }
  }

  /** The ranking permutes the candidates, is ordered, and keeps tied candidates in device order. */
  lemma RankingIsStable(devices: seq<Device>, request: Request, c: Candidate)
    ensures var cs := Candidates(devices, request, {});
            && multiset(Ranking(devices, request)) == multiset(cs)
            && Sorted(Ranking(devices, request), Better)
            && Filter(Ranking(devices, request), TiedWith(c)) == Filter(cs, TiedWith(c))
  {
    var cs := Candidates(devices, request, {});
    BetterIsTotalPreorder();
    SortMultiset(cs, Better);
    SortSorted(cs, Better);
    SortFilter(cs, Better, TiedWith(c));
    SortOfTies(Filter(cs, TiedWith(c)));
  }

  ghost predicate IndexDistinct(cs: seq<Candidate>) {
    forall i, j :: 0 <= i < j < |cs| ==> cs[i].index != cs[j].index
  }

  lemma {:induction false} CandidatesDistinct(devices: seq<Device>, request: Request)
    requires forall i, j :: 0 <= i < j < |devices| ==> devices[i].index != devices[j].index
    ensures IndexDistinct(Candidates(devices, request, {}))
  {
    if devices != [] {
      CandidatesDistinct(devices[1..], request);
      CandidateOf(devices[1..], request);
      var rest := Candidates(devices[1..], request, {});
      forall j | 0 <= j < |rest| ensures rest[j].index != devices[0].index {
        assert rest[j] in rest;
      }
    }
  }

  lemma {:induction false} InsertIndices(c: Candidate, cs: seq<Candidate>)
    requires IndexDistinct(cs) && forall x :: x in cs ==> x.index != c.index
    ensures IndexDistinct(Insert(c, cs, Better))
  {
    if cs == [] || Better(c, cs[0]) {
      forall j | 0 <= j < |cs| ensures cs[j].index != c.index { assert cs[j] in cs; }
    } else {
      InsertIndices(c, cs[1..]);
      var r := Insert(c, cs[1..], Better);
      forall j | 0 <= j < |r| ensures r[j].index != cs[0].index {
        assert r[j] in r && (r[j] == c || r[j] in cs[1..]);
        assert cs[0] in cs;
      }
    }
  }

  lemma {:induction false} SortIndices(cs: seq<Candidate>)
    requires IndexDistinct(cs)
    ensures IndexDistinct(Sort(cs, Better))
  {
    if cs != [] {
      SortIndices(cs[1..]);
      InsertIndices(cs[0], Sort(cs[1..], Better));
    }
  }

  lemma {:induction false} DistinctIndices(cs: seq<Candidate>, seen: set<int>)
    requires IndexDistinct(cs) && forall j :: 0 <= j < |cs| ==> cs[j].index !in seen
    ensures |Distinct(cs, seen)| == |cs|
    ensures forall k :: 0 <= k < |cs| ==> Distinct(cs, seen)[k] == cs[k].index
  {
    if cs != [] { DistinctIndices(cs[1..], seen + {cs[0].index}); }
  }

  /* ---- the ledger ---- */

  predicate InLedger(ledger: seq<Allocation>, id: AllocationId) {
    exists a :: a in ledger && a.id == id
  }

  /** The ledger without the record of one id. */
  function Drop(ledger: seq<Allocation>, id: AllocationId): seq<Allocation> {
    if ledger == [] then [] else (if ledger[0].id == id then [] else [ledger[0]]) + Drop(ledger[1..], id)
  }

  function Grants(request: Request, ids: seq<AllocationId>, gpus: seq<int>): (r: seq<Allocation>)
    requires |ids| == |gpus|
    ensures |r| == |ids|
  {
    seq(|ids|, i requires 0 <= i < |ids| => Allocation(ids[i], gpus[i], request.memoryMib, request.owner))
  }

  function MemoryOn(ledger: seq<Allocation>, gpu: int): real {
    if ledger == [] then 0.0
    else MemoryOn(ledger[..|ledger| - 1], gpu)
         + (if ledger[|ledger| - 1].gpuIndex == gpu then ledger[|ledger| - 1].memoryMib else 0.0)
  }

  function CountOn(ledger: seq<Allocation>, gpu: int): nat {
    if ledger == [] then 0
    else CountOn(ledger[..|ledger| - 1], gpu) + (if ledger[|ledger| - 1].gpuIndex == gpu then 1 else 0)
  }

  lemma {:induction false} DropAbsent(ledger: seq<Allocation>, id: AllocationId)
    requires !InLedger(ledger, id)
    ensures Drop(ledger, id) == ledger
  {
    if ledger != [] {
      assert ledger[0] in ledger;
      DropAbsent(ledger[1..], id);
    }
  }

  lemma {:induction false} DropMiddle(before: seq<Allocation>, a: Allocation, behind: seq<Allocation>)
    requires !InLedger(before, a.id) && !InLedger(behind, a.id)
    ensures Drop(before + [a] + behind, a.id) == before + behind
  {
    if before == [] {
      assert (before + [a] + behind)[1..] == behind;
      DropAbsent(behind, a.id);
      assert before + behind == behind;
    } else {
      assert before[0] in before;
      assert (before + [a] + behind)[1..] == before[1..] + [a] + behind;
      DropMiddle(before[1..], a, behind);
      assert before + behind == [before[0]] + (before[1..] + behind);
    }
  }

  /** Ids that the ledger does not know and that differ from each other, as uuid4 supplies them. */
  ghost predicate FreshIds(ledger: seq<Allocation>, ids: seq<AllocationId>) {
    NoDup(ids) && forall id :: id in ids ==> !InLedger(ledger, id)
  }

  /** Dropping the first grant of a suffix. */
  lemma DropGrant(ledger: seq<Allocation>, request: Request, ids: seq<AllocationId>, gpus: seq<int>)
    requires |ids| == |gpus| > 0 && FreshIds(ledger, ids)
    ensures Drop(ledger + Grants(request, ids, gpus), ids[0]) == ledger + Grants(request, ids[1..], gpus[1..])
    ensures FreshIds(ledger, ids[1..])
  {
    var all := Grants(request, ids, gpus);
    var rest := Grants(request, ids[1..], gpus[1..]);
    assert all == [all[0]] + rest;
    forall a | a in rest ensures a.id != ids[0] {
      var k :| 0 <= k < |rest| && rest[k] == a;
    }
    DropMiddle(ledger, all[0], rest);
    assert ledger + all == ledger + [all[0]] + rest;
  }

  lemma {:induction false} MemoryAppend(ledger: seq<Allocation>, more: seq<Allocation>, gpu: int)
    ensures MemoryOn(ledger + more, gpu) == MemoryOn(ledger, gpu) + MemoryOn(more, gpu)
    ensures CountOn(ledger + more, gpu) == CountOn(ledger, gpu) + CountOn(more, gpu)
  {
    if more == [] {
      assert ledger + more == ledger;
    } else {
      assert (ledger + more)[..|ledger + more| - 1] == ledger + more[..|more| - 1];
      MemoryAppend(ledger, more[..|more| - 1], gpu);
    }
  }

  lemma {:induction false} GrantsOn(request: Request, ids: seq<AllocationId>, gpus: seq<int>, gpu: int)
    requires |ids| == |gpus| && NoDup(gpus)
    ensures MemoryOn(Grants(request, ids, gpus), gpu) == if gpu in gpus then request.memoryMib else 0.0
    ensures CountOn(Grants(request, ids, gpus), gpu) == if gpu in gpus then 1 else 0
  {
    if ids != [] {
      var n := |ids| - 1;
      GrantsOn(request, ids[..n], gpus[..n], gpu);
      var g := Grants(request, ids, gpus);
      assert g[..n] == Grants(request, ids[..n], gpus[..n]);
      assert gpus == gpus[..n] + [gpus[n]];
      assert gpus[n] !in gpus[..n];
    }
  }

  /** Between before and after a granted request, every device gains the requested memory and one record if
      it was chosen, and nothing otherwise. */
  lemma GrantedMemory(ledger: seq<Allocation>, request: Request, ids: seq<AllocationId>, gpus: seq<int>, gpu: int)
    requires |ids| == |gpus| && NoDup(gpus)
    ensures var l := ledger + Grants(request, ids, gpus);
            && MemoryOn(l, gpu) == MemoryOn(ledger, gpu) + (if gpu in gpus then request.memoryMib else 0.0)
            && CountOn(l, gpu) == CountOn(ledger, gpu) + (if gpu in gpus then 1 else 0)
  {
    MemoryAppend(ledger, Grants(request, ids, gpus), gpu);
    GrantsOn(request, ids, gpus, gpu);
  }

  /** Releasing what a grant handed out restores the ledger. */
  lemma {:induction false} ReleaseUndoesAllocate(ledger: seq<Allocation>, request: Request, ids: seq<AllocationId>,
                                                 gpus: seq<int>)
    requires |ids| == |gpus| && FreshIds(ledger, ids)
    ensures DropAll(ledger + Grants(request, ids, gpus), ids) == ledger
  {
    if ids == [] {
      assert ledger + Grants(request, ids, gpus) == ledger;
    } else {
      DropGrant(ledger, request, ids, gpus);
      ReleaseUndoesAllocate(ledger, request, ids[1..], gpus[1..]);
    }
  }

  function DropAll(ledger: seq<Allocation>, ids: seq<AllocationId>): seq<Allocation>
    decreases |ids|
  {
    if ids == [] then ledger else DropAll(Drop(ledger, ids[0]), ids[1..])
  }

  function OwnedBy(owner: string): Allocation -> bool {
    (a: Allocation) => a.owner == owner
  }

  function NotOwnedBy(owner: string): Allocation -> bool {
    (a: Allocation) => a.owner != owner
  }

  /* ---- one request ---- */

  /** After k picks: the first k of the choice are booked, and only their devices differ from the scan. */
  ghost predicate Partway(request: Request, scan: seq<Device>, uuids: seq<AllocationId>, before: seq<Allocation>,
                          ledger: seq<Allocation>, devices: seq<Device>, chosen: seq<int>, ids: seq<AllocationId>,
                          k: nat) {
    && |ids| == |chosen| == k <= |Choice(scan, request)| && k <= |uuids|
    && ids == uuids[..k] && chosen == Choice(scan, request)[..k]
    && ledger == before + Grants(request, ids, chosen)
    && |devices| == |scan|
    && (forall i :: 0 <= i < |devices| ==>
          devices[i].index == scan[i].index && (devices[i].index !in Elems(chosen) ==> devices[i] == scan[i]))
    && Distinct(Ranking(scan, request), Elems(chosen)) == Choice(scan, request)[k..]
  }

  lemma PartwayStart(request: Request, scan: seq<Device>, uuids: seq<AllocationId>, before: seq<Allocation>)
    ensures Partway(request, scan, uuids, before, before, scan, [], [], 0)
  {
    assert Elems<int>([]) == {};
    assert before == before + Grants(request, [], []);
  }

  lemma PartwayStep(request: Request, scan: seq<Device>, uuids: seq<AllocationId>, before: seq<Allocation>,
                    ledger: seq<Allocation>, devices: seq<Device>, next: seq<Device>, chosen: seq<int>,
                    ids: seq<AllocationId>, k: nat)
    requires Partway(request, scan, uuids, before, ledger, devices, chosen, ids, k) && k < |uuids|
    requires Candidates(devices, request, Elems(chosen)) != []
    requires |next| == |devices|
    requires var gpu := Sort(Candidates(devices, request, Elems(chosen)), Better)[0].index;
             forall i :: 0 <= i < |next| ==>
               next[i].index == devices[i].index && (next[i].index != gpu ==> next[i] == devices[i])
    ensures var gpu := Sort(Candidates(devices, request, Elems(chosen)), Better)[0].index;
            Partway(request, scan, uuids, before,
                    ledger + [Allocation(uuids[k], gpu, request.memoryMib, request.owner)],
                    next, chosen + [gpu], ids + [uuids[k]], k + 1)
  {
    hide Ranking, Choice, Distinct, Candidates, Rate, Eligible, Better, Sort;
    NextChoice(request, scan, devices, chosen, k);
    var gpu := Sort(Candidates(devices, request, Elems(chosen)), Better)[0].index;
    GrantsAppend(request, ids, chosen, uuids[k], gpu);
    assert uuids[..k + 1] == uuids[..k] + [uuids[k]];
    assert ledger + [Allocation(uuids[k], gpu, request.memoryMib, request.owner)]
        == before + Grants(request, ids + [uuids[k]], chosen + [gpu]);
  }

  lemma NextChoice(request: Request, scan: seq<Device>, devices: seq<Device>, chosen: seq<int>, k: nat)
    requires k <= |Choice(scan, request)| && chosen == Choice(scan, request)[..k]
    requires |devices| == |scan|
    requires forall i :: 0 <= i < |devices| ==>
               devices[i].index == scan[i].index && (devices[i].index !in Elems(chosen) ==> devices[i] == scan[i])
    requires Distinct(Ranking(scan, request), Elems(chosen)) == Choice(scan, request)[k..]
    requires Candidates(devices, request, Elems(chosen)) != []
    ensures var gpu := Sort(Candidates(devices, request, Elems(chosen)), Better)[0].index;
            && k < |Choice(scan, request)|
            && Choice(scan, request)[..k + 1] == chosen + [gpu]
            && Elems(chosen + [gpu]) == Elems(chosen) + {gpu}
            && Distinct(Ranking(scan, request), Elems(chosen + [gpu])) == Choice(scan, request)[k + 1..]
  {
    var gpu := Sort(Candidates(devices, request, Elems(chosen)), Better)[0].index;
    var choice := Choice(scan, request);
    hide Ranking, Choice, Distinct, Candidates, Rate, Eligible, Better, Sort;
    PickIsNext(scan, request, devices, Elems(chosen));
    DistinctStep(Ranking(scan, request), Elems(chosen));
    assert choice[k..][0] == choice[k] == gpu;
    assert choice[k..][1..] == choice[k + 1..];
    assert choice[..k + 1] == choice[..k] + [gpu];
    assert Elems(chosen + [gpu]) == Elems(chosen) + {gpu};
  }

  lemma PartwayStuck(request: Request, scan: seq<Device>, uuids: seq<AllocationId>, before: seq<Allocation>,
                     ledger: seq<Allocation>, devices: seq<Device>, chosen: seq<int>, ids: seq<AllocationId>, k: nat)
    requires Partway(request, scan, uuids, before, ledger, devices, chosen, ids, k) && FreshIds(before, uuids)
    requires Candidates(devices, request, Elems(chosen)) == []
    ensures |Choice(scan, request)| == k
    ensures DropAll(ledger, ids) == before
  {
    PickIsNext(scan, request, devices, Elems(chosen));
    FreshPrefix(before, uuids, k);
    ReleaseUndoesAllocate(before, request, ids, chosen);
  }

  lemma PartwayEnd(request: Request, scan: seq<Device>, uuids: seq<AllocationId>, before: seq<Allocation>,
                   ledger: seq<Allocation>, devices: seq<Device>, chosen: seq<int>, ids: seq<AllocationId>)
    requires request.gpuCount >= 0
    requires Partway(request, scan, uuids, before, ledger, devices, chosen, ids, request.gpuCount)
    ensures |Choice(scan, request)| >= request.gpuCount
    ensures ids == uuids[..request.gpuCount] && chosen == Choice(scan, request)[..request.gpuCount]
    ensures |ids| == |chosen| && ledger == before + Grants(request, ids, chosen)
  {
  }

  lemma NextCandidate(devices: seq<Device>, request: Request, exclude: set<int>, i: nat, before: seq<Candidate>)
    requires i < |devices|
    ensures before + Candidates(devices[i..], request, exclude)
         == (if devices[i].index !in exclude && Eligible(devices[i], request)
             then before + [Rate(devices[i], request)] else before)
            + Candidates(devices[i + 1..], request, exclude)
  {
    assert devices[i..][1..] == devices[i + 1..];
  }

  lemma NoMoreCandidates(devices: seq<Device>, request: Request, exclude: set<int>)
    ensures Candidates(devices[|devices|..], request, exclude) == []
  {
  }

  predicate IsFirst(devices: seq<Device>, gpu: int, i: nat) {
    && i < |devices| && devices[i].index == gpu
    && forall k :: 0 <= k < i ==> devices[k].index != gpu
  }

  /* ---- what is granted, in terms of the devices ---- */

  /** Load of a device: its utilization and a twentieth of its temperature; missing readings count as zero. */
  ghost function Load(d: Device): real {
    (if d.utilization == None then 0.0 else d.utilization.value)
    + (if d.temperature == None then 0.0 else d.temperature.value) / 20.0
  }

  /** Memory that is left: what is reported free, or else the total less what is used, less earlier bookings. */
  ghost function Spare(d: Device): real {
    var reported := if d.freeMib != None then d.freeMib.value
                    else if d.totalMib == None || d.usedMib == None then 0.0
                    else d.totalMib.value - d.usedMib.value;
    if reported < d.allocatedMib then 0.0 else reported - d.allocatedMib
  }

  /** Enough memory is left, and the device is among the preferred ones if there are any. */
  ghost predicate Usable(d: Device, request: Request) {
    Spare(d) >= request.memoryMib && (|request.preferred| > 0 ==> d.index in request.preferred)
  }

  /** Device i goes before device j: less load, at equal load more memory, and at equal memory earlier in the scan. */
  ghost predicate GoesBefore(scan: seq<Device>, i: int, j: int)
    requires 0 <= i < |scan| && 0 <= j < |scan|
  {
    || Load(scan[i]) < Load(scan[j])
    || (Load(scan[i]) == Load(scan[j]) && Spare(scan[i]) > Spare(scan[j]))
    || (Load(scan[i]) == Load(scan[j]) && Spare(scan[i]) == Spare(scan[j]) && i <= j)
  }

  /** A usable device with the index gpu that goes before all usable devices of other indices, but for those that
      were granted before. */
  ghost predicate IsNextBest(scan: seq<Device>, request: Request, granted: seq<int>, gpu: int, i: int) {
    && 0 <= i < |scan| && scan[i].index == gpu && gpu !in granted && Usable(scan[i], request)
    && forall j :: 0 <= j < |scan| && Usable(scan[j], request) && scan[j].index !in granted ==> GoesBefore(scan, i, j)
  }

  ghost predicate TakesTheBest(scan: seq<Device>, request: Request, gpus: seq<int>) {
    forall k :: 0 <= k < |gpus| ==> TakesNextBest(scan, request, gpus, k)
  }

  ghost predicate TakesNextBest(scan: seq<Device>, request: Request, gpus: seq<int>, k: nat)
    requires k < |gpus|
  {
    exists i :: IsNextBest(scan, request, gpus[..k], gpus[k], i)
  }

  ghost function UsableIndices(scan: seq<Device>, request: Request): set<int> {
    set d | d in scan && Usable(d, request) :: d.index
  }

  lemma UsableIsEligible(d: Device, request: Request)
    ensures Usable(d, request) <==> Eligible(d, request)
    ensures EffectiveFree(d) == Spare(d)
  {
    assert |request.preferred| == 0 <==> request.preferred == [];
  }

  /** The first of the sorted candidates is the best of them, and the first of those that are as good. */
  lemma {:induction false} PickPosition(devices: seq<Device>, request: Request, exclude: set<int>) returns (i: int)
    requires Candidates(devices, request, exclude) != []
    ensures 0 <= i < |devices| && devices[i].index !in exclude && Eligible(devices[i], request)
    ensures Sort(Candidates(devices, request, exclude), Better)[0] == Rate(devices[i], request)
    ensures forall j :: 0 <= j < |devices| && devices[j].index !in exclude && Eligible(devices[j], request) ==>
              && Better(Rate(devices[i], request), Rate(devices[j], request))
              && (j < i ==> !Better(Rate(devices[j], request), Rate(devices[i], request)))
  {
    hide Eligible, Rate;
    var rest := Candidates(devices[1..], request, exclude);
    if devices[0].index in exclude || !Eligible(devices[0], request) {
      assert Candidates(devices, request, exclude) == rest;
      var k := PickPosition(devices[1..], request, exclude);
      i := k + 1;
    } else {
      var first := Rate(devices[0], request);
      assert Candidates(devices, request, exclude) == [first] + rest;
      assert ([first] + rest)[1..] == rest;
      assert Sort([first] + rest, Better) == Insert(first, Sort(rest, Better), Better);
      if rest == [] {
        NoCandidates(devices[1..], request, exclude);
        i := 0;
      } else {
        var k := PickPosition(devices[1..], request, exclude);
        i := if Better(first, Rate(devices[1..][k], request)) then 0 else k + 1;
      }
    }
    forall j | 1 <= j < |devices| ensures devices[j] == devices[1..][j - 1] {}
  }

  lemma {:induction false} NoCandidates(devices: seq<Device>, request: Request, exclude: set<int>)
    requires Candidates(devices, request, exclude) == []
    ensures forall j :: 0 <= j < |devices| ==> devices[j].index in exclude || !Eligible(devices[j], request)
  {
    hide Eligible;
    if devices != [] {
      NoCandidates(devices[1..], request, exclude);
      forall j | 1 <= j < |devices| ensures devices[j] == devices[1..][j - 1] {}
    }
  }

  lemma RateMeaning(scan: seq<Device>, request: Request, i: int, j: int)
    requires 0 <= i < |scan| && 0 <= j < |scan|
    requires Better(Rate(scan[i], request), Rate(scan[j], request))
    requires j < i ==> !Better(Rate(scan[j], request), Rate(scan[i], request))
    ensures GoesBefore(scan, i, j)
  {
    UsableIsEligible(scan[i], request);
    UsableIsEligible(scan[j], request);
    hide EffectiveFree, Spare;
  }

  /** The k-th of the choice is the next best of the scan. */
  lemma NextIsBest(scan: seq<Device>, request: Request, k: nat) returns (i: int)
    requires k < |Choice(scan, request)|
    ensures IsNextBest(scan, request, Choice(scan, request)[..k], Choice(scan, request)[k], i)
  {
    var choice := Choice(scan, request);
    var seen := Elems(choice[..k]);
    ChoiceSuffix(scan, request, k);
    hide Choice, Ranking, Distinct, Candidates, Rate, Eligible, Better, Sort, Usable, GoesBefore;
    PickIsNext(scan, request, scan, seen);
    assert choice[k..] != [] && choice[k..][0] == choice[k];
    i := PickPosition(scan, request, seen);
    RateIndex(scan[i], request);
    UsableIsEligible(scan[i], request);
    forall j | 0 <= j < |scan| && Usable(scan[j], request) && scan[j].index !in choice[..k]
      ensures GoesBefore(scan, i, j)
    {
      UsableIsEligible(scan[j], request);
      RateMeaning(scan, request, i, j);
    }
  }

  lemma RateIndex(d: Device, request: Request)
    ensures Rate(d, request).index == d.index
  {
  }

  lemma {:induction false} ChoiceSuffix(scan: seq<Device>, request: Request, k: nat)
    requires k <= |Choice(scan, request)|
    ensures Distinct(Ranking(scan, request), Elems(Choice(scan, request)[..k])) == Choice(scan, request)[k..]
  {
    var choice, ranking := Choice(scan, request), Ranking(scan, request);
    if k == 0 {
      assert Elems(choice[..0]) == {};
    } else {
      ChoiceSuffix(scan, request, k - 1);
      hide Ranking, Distinct;
      var seen := Elems(choice[..k - 1]);
      DistinctStep(ranking, seen);
      assert choice[k - 1..][0] == choice[k - 1] && choice[k - 1..][1..] == choice[k..];
      assert choice[..k] == choice[..k - 1] + [choice[k - 1]];
      assert Elems(choice[..k]) == seen + {choice[k - 1]};
    }
  }

  lemma PrefixIsBest(scan: seq<Device>, request: Request, n: nat)
    requires n <= |Choice(scan, request)|
    ensures TakesTheBest(scan, request, Choice(scan, request)[..n])
  {
    hide Choice, IsNextBest;
    var gpus := Choice(scan, request)[..n];
    forall k | 0 <= k < |gpus| ensures TakesNextBest(scan, request, gpus, k) {
      var i := NextIsBest(scan, request, k);
      assert gpus[..k] == Choice(scan, request)[..k] && gpus[k] == Choice(scan, request)[k];
      assert IsNextBest(scan, request, gpus[..k], gpus[k], i);
    }
  }

  /** Any first part of the choice takes the best, and a choice that is too short is all that can be used. */
  lemma ChoiceIsBest(scan: seq<Device>, request: Request)
    ensures forall n :: 0 <= n <= |Choice(scan, request)| ==> TakesTheBest(scan, request, Choice(scan, request)[..n])
    ensures |Choice(scan, request)| == |UsableIndices(scan, request)|
  {
    forall n | 0 <= n <= |Choice(scan, request)| ensures TakesTheBest(scan, request, Choice(scan, request)[..n]) {
      PrefixIsBest(scan, request, n);
    }
    hide Choice, Eligible, Usable;
    ChoiceMembers(scan, request);
    forall d | d in scan ensures Usable(d, request) <==> Eligible(d, request) { UsableIsEligible(d, request); }
    assert UsableIndices(scan, request) == EligibleIndices(scan, request);
  }

  lemma GrantsAt(request: Request, ids: seq<AllocationId>, gpus: seq<int>)
    requires |ids| == |gpus|
    ensures Grants(request, ids, gpus)
         == seq(|ids|, k requires 0 <= k < |ids| => Allocation(ids[k], gpus[k], request.memoryMib, request.owner))
  {
    if ids != [] { GrantsAt(request, ids[1..], gpus[1..]); }
  }

  /* ---- the allocator object ---- */

  class GPUAllocator {
    /** The records in the order in which they were made. */
    var ledger: seq<Allocation>

    constructor ()
      ensures ledger == []
    {
      ledger := [];
    }

    /** The best candidate outside the excluded indices. */
    method PickGpuIndex(devices: seq<Device>, request: Request, exclude: set<int>) returns (r: Option<int>)
      ensures var left := Candidates(devices, request, exclude);
              r == if left == [] then None else Some(Sort(left, Better)[0].index)
    {
      hide Candidates, Sort, Better;
      var candidates: seq<Candidate> := [];
      ghost var all := Candidates(devices, request, exclude);
      assert devices[0..] == devices;
      for i := 0 to |devices|
        invariant candidates + Candidates(devices[i..], request, exclude) == all
      {
        var device := devices[i];
        NextCandidate(devices, request, exclude, i, candidates);
        if device.index in exclude {
          continue;
        }
        if request.preferred != [] && device.index !in request.preferred {
          continue;
        }
        var freeMib := EffectiveFree(device);
        if freeMib < request.memoryMib {
          continue;
        }
        var score := OrZero(device.utilization) + OrZero(device.temperature) * 0.05;
        if request.preferred != [] {
          score := score - 10.0;
        }
        candidates := candidates + [Candidate(score, freeMib, device.index)];
      }
      NoMoreCandidates(devices, request, exclude);
      assert candidates == all;
      if candidates == [] {
        return None;
      }
      return Some(Sort(candidates, Better)[0].index);
    }

    /** Books the memory and one record on the first device with the index, and nothing anywhere else; the
        devices are the caller's own copy. */
    method ApplyToDevice(devices: seq<Device>, gpu: int, memoryMib: real) returns (r: seq<Device>)
      ensures |r| == |devices|
      ensures forall i :: 0 <= i < |r| ==> r[i].index == devices[i].index
      ensures forall i :: 0 <= i < |r| && r[i].index != gpu ==> r[i] == devices[i]
      ensures (forall i :: 0 <= i < |devices| ==> devices[i].index != gpu) ==> r == devices
      ensures forall i :: 0 <= i < |devices| && IsFirst(devices, gpu, i) ==>
                r == devices[i := devices[i].(allocatedMib := devices[i].allocatedMib + memoryMib,
                                              allocationCount := devices[i].allocationCount + 1)]
    {
      for i := 0 to |devices|
        invariant forall k :: 0 <= k < i ==> devices[k].index != gpu
      {
        if devices[i].index == gpu {
          var d := devices[i];
          return devices[i := d.(allocatedMib := d.allocatedMib + memoryMib,
                                 allocationCount := d.allocationCount + 1)];
        }
      }
      return devices;
    }

    method Rollback(ids: seq<AllocationId>)
      modifies this
      ensures ledger == DropAll(old(ledger), ids)
    {
      for i := 0 to |ids|
        invariant DropAll(ledger, ids[i..]) == DropAll(old(ledger), ids)
      {
        ledger := Drop(ledger, ids[i]);
        assert ids[i..][1..] == ids[i + 1..];
      }
    }

    /** All or nothing: the request is granted exactly when the scan has enough distinct eligible devices;
        then the best of them are booked, and otherwise the ledger is as before. */
    method Allocate(request: Request, scan: seq<Device>, uuids: seq<AllocationId>) returns (r: Answer)
      requires request.gpuCount >= 0 && |uuids| >= request.gpuCount && FreshIds(ledger, uuids)
      modifies this
      ensures scan == [] ==> r == NoDevices
      ensures scan != [] ==>
                r == if |Choice(scan, request)| >= request.gpuCount
                     then Granted(uuids[..request.gpuCount], Choice(scan, request)[..request.gpuCount])
                     else Insufficient
      ensures ledger == if r.Granted? then old(ledger) + Grants(request, r.ids, r.gpus) else old(ledger)
      ensures r.Granted? ==> |r.ids| == |r.gpus| == request.gpuCount && TakesTheBest(scan, request, r.gpus)
      ensures r.Granted? ==> forall k :: 0 <= k < request.gpuCount ==>
                ledger[|old(ledger)| + k] == Allocation(r.ids[k], r.gpus[k], request.memoryMib, request.owner)
      ensures scan != [] ==> (r.Granted? <==> |UsableIndices(scan, request)| >= request.gpuCount)
    {
      if scan == [] {
        return NoDevices;
      }
      hide *;
      ChoiceIsBest(scan, request);
      var devices := scan;
      var chosen: seq<int> := [];
      var ids: seq<AllocationId> := [];
      PartwayStart(request, scan, uuids, ledger);
      for k := 0 to request.gpuCount
        invariant Partway(request, scan, uuids, old(ledger), ledger, devices, chosen, ids, k)
      {
        var pick := PickGpuIndex(devices, request, Elems(chosen));
        if pick == None {
          PartwayStuck(request, scan, uuids, old(ledger), ledger, devices, chosen, ids, k);
          Rollback(ids);
          return Insufficient;
        }
        var gpu := pick.value;
        ghost var l, d := ledger, devices;
        ledger := ledger + [Allocation(uuids[k], gpu, request.memoryMib, request.owner)];
        devices := ApplyToDevice(devices, gpu, request.memoryMib);
        PartwayStep(request, scan, uuids, old(ledger), l, d, devices, chosen, ids, k);
        ids := ids + [uuids[k]];
        chosen := chosen + [gpu];
      }
      PartwayEnd(request, scan, uuids, old(ledger), ledger, devices, chosen, ids);
      GrantsAt(request, ids, chosen);
      return Granted(ids, chosen);
    }

    method Release(id: AllocationId) returns (found: bool)
      modifies this
      ensures found == InLedger(old(ledger), id) && ledger == Drop(old(ledger), id)
    {
      found := exists a :: a in ledger && a.id == id;
      ledger := Drop(ledger, id);
    }

    /** Removes the records of one owner, or all of them for an empty owner. */
    method ReleaseAll(owner: string) returns (count: nat)
      modifies this
      ensures ledger == if owner == "" then [] else Filter(old(ledger), NotOwnedBy(owner))
      ensures forall a :: a in ledger <==> a in old(ledger) && owner != "" && a.owner != owner
      ensures count == |old(ledger)| - |ledger|
    {
      if owner == "" {
        count := |ledger|;
        ledger := [];
        return;
      }
      ghost var before := ledger;
      count := |Filter(ledger, OwnedBy(owner))|;
      ledger := Filter(ledger, NotOwnedBy(owner));
      FilterSplit(before, owner);
    }

    /** The device view with the ledger's bookings added up per device. */
    method MergeDeviceAllocations(devices: seq<Device>) returns (merged: seq<Device>)
      ensures |merged| == |devices|
      ensures forall i :: 0 <= i < |devices| ==>
                merged[i] == devices[i].(allocatedMib := MemoryOn(ledger, devices[i].index),
                                         allocationCount := CountOn(ledger, devices[i].index))
    {
      var totals: map<int, (real, int)> := map[];
      for i := 0 to |ledger|
        invariant forall g :: g in totals ==> totals[g] == (MemoryOn(ledger[..i], g), CountOn(ledger[..i], g))
        invariant forall g :: g !in totals ==> MemoryOn(ledger[..i], g) == 0.0 && CountOn(ledger[..i], g) == 0
      {
        var record := ledger[i];
        assert ledger[..i + 1][..i] == ledger[..i];
        var (used, count) := if record.gpuIndex in totals then totals[record.gpuIndex] else (0.0, 0);
        totals := totals[record.gpuIndex := (used + record.memoryMib, count + 1)];
      }
      assert ledger[..|ledger|] == ledger;
      merged := [];
      for i := 0 to |devices|
        invariant |merged| == i
        invariant forall k :: 0 <= k < i ==>
          merged[k] == devices[k].(allocatedMib := MemoryOn(ledger, devices[k].index),
                                   allocationCount := CountOn(ledger, devices[k].index))
      {
        var (booked, count) := if devices[i].index in totals then totals[devices[i].index] else (0.0, 0);
        merged := merged + [devices[i].(allocatedMib := booked, allocationCount := count)];
      }
    }
  }

  lemma FreshPrefix(ledger: seq<Allocation>, ids: seq<AllocationId>, k: nat)
    requires FreshIds(ledger, ids) && k <= |ids|
    ensures FreshIds(ledger, ids[..k])
  {
    forall id | id in ids[..k] ensures !InLedger(ledger, id) {
      assert id in ids;
    }
  }

  lemma GrantsAppend(request: Request, ids: seq<AllocationId>, gpus: seq<int>, id: AllocationId, gpu: int)
    requires |ids| == |gpus|
    ensures Grants(request, ids + [id], gpus + [gpu])
         == Grants(request, ids, gpus) + [Allocation(id, gpu, request.memoryMib, request.owner)]
  {
  }

  lemma {:induction false} FilterSplit(ledger: seq<Allocation>, owner: string)
    ensures |Filter(ledger, OwnedBy(owner))| + |Filter(ledger, NotOwnedBy(owner))| == |ledger|
  {
    if ledger != [] { FilterSplit(ledger[1..], owner); }
  }
}
