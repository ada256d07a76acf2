/** The prompt repository: versions, and content resolved along the chain of parents. */
module Prompts {
  import opened Sequences
  import opened Text

  type PromptId = string
  type Version = string

  datatype Prompt = Prompt(id: PromptId, version: Version, content: string,
                           parentId: Option<PromptId>, parentVersion: Option<Version>)

  datatype PromptError = UnknownPrompt | UnknownVersion | AlreadyExists | InheritanceCycle

  datatype Outcome<+T> = Ok(value: T) | Error(error: PromptError)

  /** The versions of one prompt, in the order in which they were registered. */
  datatype Bucket = Bucket(order: seq<Version>, items: map<Version, Prompt>)

  type Repository = map<PromptId, Bucket>

  /** Picks the newest of a list of versions. */
  type Newest = seq<Version> -> Version

  ghost predicate ValidRepository(repo: Repository) {
    && (forall id, v :: id in repo && v in repo[id].items ==> repo[id].items[v].id == id)
    && (forall id, v :: id in repo ==> (v in repo[id].order <==> v in repo[id].items))
  }

  /** Empty strings count as absent. */
  predicate Given(s: Option<string>) {
    s.Some? && s.value != ""
  }

  predicate HasParent(p: Prompt) {
    Given(p.parentId)
  }

  function GetPrompt(repo: Repository, newest: Newest, id: PromptId, version: Option<Version>): Outcome<Prompt> {
    if id !in repo || repo[id].order == [] then Error(UnknownPrompt)
    else
      var resolved := if Given(version) then version.value else newest(repo[id].order);
      if resolved in repo[id].items then Ok(repo[id].items[resolved]) else Error(UnknownVersion)
  }

  /* ---- joining ---- */

  const SEPARATOR := "\n\n---\n\n"

  function Join(parts: seq<string>): string {
    if parts == [] then ""
    else if |parts| == 1 then parts[0]
    else Join(parts[..|parts| - 1]) + SEPARATOR + parts[|parts| - 1]
  }

  /** Parts are joined in their order, with a rule between blank lines between them. */
  lemma {:induction false} JoinMeaning(a: seq<string>, b: seq<string>)
    requires a != [] && b != []
    ensures Join(a + b) == Join(a) + "\n\n---\n\n" + Join(b)
    decreases |b|
  {
    var c := b[|b| - 1];
    var before := b[..|b| - 1];
    assert b == before + [c];
    if before == [] {
      assert a + b == a + [c];
      JoinSnoc(a, c);
    } else {
      assert a + b == (a + before) + [c];
      JoinMeaning(a, before);
      JoinSnoc(a + before, c);
      JoinSnoc(before, c);
    }
  }

  function NonEmpty(): string -> bool {
    (s: string) => s != ""
  }

  function JoinNonEmpty(parts: seq<string>): string {
    Join(Filter(parts, NonEmpty()))
  }

  lemma JoinEmptyIff(parts: seq<string>)
    requires forall p :: p in parts ==> p != ""
    ensures Join(parts) == "" <==> parts == []
  {
    if |parts| == 1 {
      assert parts[0] in parts;
    }
  }

  lemma FilterTwo(s: string, t: string)
    ensures Filter([s], NonEmpty()) == if s == "" then [] else [s]
    ensures Filter([s, t], NonEmpty()) == (if s == "" then [] else [s]) + (if t == "" then [] else [t])
  {
    assert [s][1..] == [] && [s, t][1..] == [t] && [t][1..] == [];
    assert Filter([t], NonEmpty()) == if t == "" then [] else [t];
  }

  lemma JoinSnoc(parts: seq<string>, c: string)
    requires parts != []
    ensures Join(parts + [c]) == Join(parts) + SEPARATOR + c
  {
    assert (parts + [c])[..|parts + [c]| - 1] == parts;
  }

  lemma JoinOne(c: string)
    ensures Join([c]) == c && Join([]) == ""
  {
  }

  /** Joining step by step is joining at once. */
  lemma JoinNested(parts: seq<string>, c: string)
    ensures JoinNonEmpty([JoinNonEmpty(parts), c]) == JoinNonEmpty(parts + [c])
  {
    hide Join, Filter;
    var kept := Filter(parts, NonEmpty());
    var text := Join(kept);
    JoinEmptyIff(kept);
    FilterTwo(c, c);
    FilterTwo(text, c);
    FilterAppend(parts, [c], NonEmpty());
    JoinOne(c);
    JoinOne(text);
    if c == "" {
      assert kept + [] == kept;
      assert [text] + [] == [text];
      var none: seq<string> := [];
      assert none + [] == none;
    } else if kept == [] {
      assert [] + [c] == [c];
    } else {
      JoinSnoc(kept, c);
      JoinSnoc([text], c);
    }
  }

  /* ---- resolving ---- */

  /** The recursion of the source, with the ids that are being resolved on a stack. */
  function Resolve(repo: Repository, newest: Newest, id: PromptId, version: Option<Version>,
                   stack: set<PromptId>): Outcome<string>
    decreases repo.Keys - stack
  {
    if id in stack then Error(InheritanceCycle)
    else
      match GetPrompt(repo, newest, id, version)
      case Error(e) => Error(e)
      case Ok(item) =>
        if !HasParent(item) then Ok(JoinNonEmpty([Strip(item.content)]))
        else
          assert id in repo.Keys - stack;
          match Resolve(repo, newest, item.parentId.value, item.parentVersion, stack + {id})
          case Error(e) => Error(e)
          case Ok(text) => Ok(JoinNonEmpty([text, Strip(item.content)]))
  }

  /* ---- the meaning of resolving ---- */

  /** The prompt names a parent; an empty name is none. */
  ghost predicate NamesParent(p: Prompt) {
    p.parentId != None && |p.parentId.value| > 0
  }

  /** Each prompt is the parent of the one before it, as the repository has it. */
  ghost predicate Follows(repo: Repository, newest: Newest, items: seq<Prompt>, i: int)
    requires 0 <= i < |items| - 1
  {
    && NamesParent(items[i])
    && GetPrompt(repo, newest, items[i].parentId.value, items[i].parentVersion) == Ok(items[i + 1])
  }

  /** A walk along parents from a requested prompt. */
  ghost predicate IsWalk(repo: Repository, newest: Newest, id: PromptId, version: Option<Version>, items: seq<Prompt>) {
    && (items != [] ==> GetPrompt(repo, newest, id, version) == Ok(items[0]))
    && forall i :: 0 <= i < |items| - 1 ==> Follows(repo, newest, items, i)
  }

  ghost predicate DistinctIds(items: seq<Prompt>, stack: set<PromptId>) {
    && (forall i, j :: 0 <= i < j < |items| ==> items[i].id != items[j].id)
    && (forall i :: 0 <= i < |items| ==> items[i].id !in stack)
  }

  /** A finite chain of distinct prompts that ends at one without a parent. */
  ghost predicate IsChain(repo: Repository, newest: Newest, id: PromptId, version: Option<Version>,
                          items: seq<Prompt>, stack: set<PromptId>) {
    && items != [] && IsWalk(repo, newest, id, version, items) && DistinctIds(items, stack)
    && !NamesParent(items[|items| - 1])
  }

  /** The stripped contents from the root of a chain to its first prompt. */
  function RootFirst(items: seq<Prompt>): seq<string> {
    if items == [] then [] else RootFirst(items[1..]) + [Strip(items[0].content)]
  }

  /** The contents stand from the last prompt of the chain to the first. */
  lemma {:induction false} RootFirstAt(items: seq<Prompt>, k: nat)
    requires k < |items|
    ensures |RootFirst(items)| == |items| && RootFirst(items)[k] == Strip(items[|items| - 1 - k].content)
  {
    hide Strip;
    if |items| > 1 { RootFirstAt(items[1..], if k < |items| - 1 then k else 0); }
  }

  lemma WalkTail(repo: Repository, newest: Newest, id: PromptId, version: Option<Version>, items: seq<Prompt>)
    requires |items| >= 2 && IsWalk(repo, newest, id, version, items)
    ensures HasParent(items[0])
    ensures IsWalk(repo, newest, items[0].parentId.value, items[0].parentVersion, items[1..])
  {
    assert Follows(repo, newest, items, 0);
    forall i | 0 <= i < |items[1..]| - 1 ensures Follows(repo, newest, items[1..], i) {
      assert Follows(repo, newest, items, i + 1);
    }
  }

  lemma WalkCons(repo: Repository, newest: Newest, id: PromptId, version: Option<Version>, item: Prompt,
                 rest: seq<Prompt>)
    requires GetPrompt(repo, newest, id, version) == Ok(item) && HasParent(item)
    requires IsWalk(repo, newest, item.parentId.value, item.parentVersion, rest)
    ensures IsWalk(repo, newest, id, version, [item] + rest)
  {
    var items := [item] + rest;
    forall i | 0 <= i < |items| - 1 ensures Follows(repo, newest, items, i) {
      assert i > 0 ==> Follows(repo, newest, rest, i - 1);
    }
  }

  lemma DistinctCons(item: Prompt, rest: seq<Prompt>, stack: set<PromptId>)
    requires DistinctIds(rest, stack + {item.id}) && item.id !in stack
    ensures DistinctIds([item] + rest, stack)
  {
    var items := [item] + rest;
    assert forall i :: 1 <= i < |items| ==> items[i] == rest[i - 1];
  }

  /** Along a chain of distinct ids resolving succeeds and joins the non-empty contents, root first. */
  lemma {:induction false} ChainResolves(repo: Repository, newest: Newest, id: PromptId, version: Option<Version>,
                                         items: seq<Prompt>, stack: set<PromptId>)
    requires ValidRepository(repo) && IsChain(repo, newest, id, version, items, stack)
    ensures Resolve(repo, newest, id, version, stack) == Ok(JoinNonEmpty(RootFirst(items)))
    decreases |items|
  {
    hide JoinNonEmpty, Strip;
    var item := items[0];
    var content := Strip(item.content);
    if |items| == 1 {
      assert RootFirst(items) == [] + [content] == [content];
    } else {
      WalkTail(repo, newest, id, version, items);
      ChainResolves(repo, newest, item.parentId.value, item.parentVersion, items[1..], stack + {id});
      JoinNested(RootFirst(items[1..]), content);
    }
  }

  /** Success comes from such a chain. */
  lemma {:induction false} ResolvedHasChain(repo: Repository, newest: Newest, id: PromptId, version: Option<Version>,
                                            stack: set<PromptId>) returns (items: seq<Prompt>)
    requires ValidRepository(repo) && Resolve(repo, newest, id, version, stack).Ok?
    ensures IsChain(repo, newest, id, version, items, stack)
    decreases repo.Keys - stack
  {
    hide JoinNonEmpty, Strip;
    var item := GetPrompt(repo, newest, id, version).value;
    if !HasParent(item) {
      items := [item];
    } else {
      assert id in repo.Keys - stack;
      var rest := ResolvedHasChain(repo, newest, item.parentId.value, item.parentVersion, stack + {id});
      WalkCons(repo, newest, id, version, item, rest);
      DistinctCons(item, rest, stack);
      items := [item] + rest;
    }
  }

  /** Resolving terminates on every repository, and returns exactly when the chain of parents is finite,
      present and free of repetitions; then it is the separator-join of the non-empty contents. */
  lemma ResolveMeaning(repo: Repository, newest: Newest, id: PromptId, version: Option<Version>)
    requires ValidRepository(repo)
    ensures Resolve(repo, newest, id, version, {}).Ok?
       <==> exists items :: IsChain(repo, newest, id, version, items, {})
    ensures forall items :: IsChain(repo, newest, id, version, items, {}) ==>
              Resolve(repo, newest, id, version, {}) == Ok(JoinNonEmpty(RootFirst(items)))
  {
    hide *;
    forall items | IsChain(repo, newest, id, version, items, {})
      ensures Resolve(repo, newest, id, version, {}) == Ok(JoinNonEmpty(RootFirst(items)))
    {
      ChainResolves(repo, newest, id, version, items, {});
    }
    if Resolve(repo, newest, id, version, {}).Ok? {
      var items := ResolvedHasChain(repo, newest, id, version, {});
    }
  }

  /** What is asked for after a walk. */
  ghost function NextRequest(id: PromptId, version: Option<Version>, items: seq<Prompt>): (PromptId, Option<Version>)
    requires items != [] ==> NamesParent(items[|items| - 1])
  {
    if items == [] then (id, version)
    else (items[|items| - 1].parentId.value, items[|items| - 1].parentVersion)
  }

  /** The walk that explains a failure: distinct prompts with parents, and then an id that repeats, or a
      prompt or version that is missing. */
  ghost predicate Explains(repo: Repository, newest: Newest, id: PromptId, version: Option<Version>,
                           stack: set<PromptId>, items: seq<Prompt>, error: PromptError) {
    && IsWalk(repo, newest, id, version, items) && DistinctIds(items, stack)
    && (items != [] ==> NamesParent(items[|items| - 1]))
    && var next := NextRequest(id, version, items);
       var repeats := next.0 in stack || exists i :: 0 <= i < |items| && items[i].id == next.0;
       if repeats then error == InheritanceCycle else GetPrompt(repo, newest, next.0, next.1) == Error(error)
  }

  lemma {:induction false} FailureExplained(repo: Repository, newest: Newest, id: PromptId, version: Option<Version>,
                                            stack: set<PromptId>) returns (items: seq<Prompt>)
    requires ValidRepository(repo) && Resolve(repo, newest, id, version, stack).Error?
    ensures Explains(repo, newest, id, version, stack, items, Resolve(repo, newest, id, version, stack).error)
    decreases repo.Keys - stack
  {
    hide JoinNonEmpty, Strip;
    if id in stack || GetPrompt(repo, newest, id, version).Error? {
      items := [];
    } else {
      var item := GetPrompt(repo, newest, id, version).value;
      assert id in repo.Keys - stack;
      var error := Resolve(repo, newest, id, version, stack).error;
      var rest := FailureExplained(repo, newest, item.parentId.value, item.parentVersion, stack + {id});
      items := [item] + rest;
      ExplainsCons(repo, newest, id, version, stack, item, rest, error);
    }
  }

  lemma ExplainsCons(repo: Repository, newest: Newest, id: PromptId, version: Option<Version>, stack: set<PromptId>,
                     item: Prompt, rest: seq<Prompt>, error: PromptError)
    requires GetPrompt(repo, newest, id, version) == Ok(item) && HasParent(item) && item.id == id && id !in stack
    requires Explains(repo, newest, item.parentId.value, item.parentVersion, stack + {id}, rest, error)
    ensures Explains(repo, newest, id, version, stack, [item] + rest, error)
  {
    hide GetPrompt;
    WalkCons(repo, newest, id, version, item, rest);
    DistinctCons(item, rest, stack);
    var items := [item] + rest;
    assert forall i :: 1 <= i < |items| ==> items[i] == rest[i - 1];
    var next := NextRequest(item.parentId.value, item.parentVersion, rest);
    assert NextRequest(id, version, items) == next;
    if i :| 0 <= i < |rest| && rest[i].id == next.0 {
      assert items[i + 1].id == next.0;
    }
    assert items[0].id == id;
  }

  /** Such a walk leads to the failure. */
  lemma {:induction false} ExplainedFails(repo: Repository, newest: Newest, id: PromptId, version: Option<Version>,
                                          stack: set<PromptId>, items: seq<Prompt>, error: PromptError)
    requires ValidRepository(repo) && Explains(repo, newest, id, version, stack, items, error)
    ensures Resolve(repo, newest, id, version, stack) == Error(error)
    decreases |items|
  {
    hide JoinNonEmpty, Strip;
    if items != [] {
      var item, rest := items[0], items[1..];
      assert item.id == id;
      if |items| >= 2 {
        WalkTail(repo, newest, id, version, items);
      }
      var next := NextRequest(id, version, items);
      assert next == NextRequest(item.parentId.value, item.parentVersion, rest);
      if i :| 0 <= i < |items| && items[i].id == next.0 {
        assert i > 0 ==> rest[i - 1].id == next.0;
      } else {
        assert items[0].id != next.0;
      }
      ExplainedFails(repo, newest, item.parentId.value, item.parentVersion, stack + {id}, rest, error);
    }
  }

  /** Exactly which error comes out: a cycle when the walk along parents comes back to one of its own
      prompts, and otherwise what is missing where the walk breaks off. */
  lemma FailureMeaning(repo: Repository, newest: Newest, id: PromptId, version: Option<Version>, error: PromptError)
    requires ValidRepository(repo)
    ensures Resolve(repo, newest, id, version, {}) == Error(error) <==>
            exists items :: Explains(repo, newest, id, version, {}, items, error)
  {
    hide *;
    if Resolve(repo, newest, id, version, {}) == Error(error) {
      var items := FailureExplained(repo, newest, id, version, {});
    }
    forall items | Explains(repo, newest, id, version, {}, items, error)
      ensures Resolve(repo, newest, id, version, {}) == Error(error)
    {
      ExplainedFails(repo, newest, id, version, {}, items, error);
    }
  }

  /* ---- registering ---- */

  function Registered(repo: Repository, p: Prompt): Repository {
    var bucket := if p.id in repo then repo[p.id] else Bucket([], map[]);
    repo[p.id := Bucket(if p.version in bucket.items then bucket.order else bucket.order + [p.version],
                        bucket.items[p.version := p])]
  }

  predicate Refused(repo: Repository, p: Prompt, overwrite: bool) {
    p.id in repo && p.version in repo[p.id].items && !overwrite
  }

  /** What a lookup finds: without a version, or with an empty one, the newest; an unknown prompt, or a version
      that it does not have, is an error. */
  lemma GetMeaning(repo: Repository, newest: Newest, id: PromptId, version: Option<Version>)
    ensures GetPrompt(repo, newest, id, version) ==
            if id !in repo || |repo[id].order| == 0 then Error(UnknownPrompt)
            else var asked := if version == None || version.value == "" then newest(repo[id].order) else version.value;
                 if asked !in repo[id].items then Error(UnknownVersion) else Ok(repo[id].items[asked])
  {
  }

  /** An accepted registration is found under its version, and no other prompt or version is touched; it is refused
      exactly if the version is there already and may not be overwritten. */
  lemma RegisterMeaning(repo: Repository, newest: Newest, p: Prompt, overwrite: bool)
    requires ValidRepository(repo)
    ensures Refused(repo, p, overwrite) <==> !overwrite && p.id in repo && p.version in repo[p.id].items
    ensures var r := Registered(repo, p);
            && (p.version != "" ==> p.id in r && GetPrompt(r, newest, p.id, Some(p.version)) == Ok(p))
            && (forall id :: id != p.id ==> (id in r <==> id in repo) && (id in r ==> r[id] == repo[id]))
            && (forall v :: v != p.version ==>
                  (v in r[p.id].items <==> p.id in repo && v in repo[p.id].items)
                  && (v in r[p.id].items ==> r[p.id].items[v] == repo[p.id].items[v]))
            && r[p.id].order == (if p.id !in repo then [p.version]
                                 else if p.version in repo[p.id].items then repo[p.id].order
                                 else repo[p.id].order + [p.version])
  {
  }

  /** Registering a prompt that is not on a chain leaves the chain and its content alone. */
  lemma RegisterElsewhere(repo: Repository, newest: Newest, id: PromptId, version: Option<Version>,
                          items: seq<Prompt>, p: Prompt)
    requires ValidRepository(repo) && IsChain(repo, newest, id, version, items, {})
    requires forall i :: 0 <= i < |items| ==> items[i].id != p.id
    ensures ValidRepository(Registered(repo, p))
    ensures Resolve(Registered(repo, p), newest, id, version, {}) == Resolve(repo, newest, id, version, {})
  {
    hide Resolve, JoinNonEmpty, RootFirst;
    ChainElsewhere(repo, newest, id, version, items, p);
    ChainResolves(repo, newest, id, version, items, {});
    ChainResolves(Registered(repo, p), newest, id, version, items, {});
  }

  lemma ChainElsewhere(repo: Repository, newest: Newest, id: PromptId, version: Option<Version>,
                       items: seq<Prompt>, p: Prompt)
    requires ValidRepository(repo) && IsChain(repo, newest, id, version, items, {})
    requires forall i :: 0 <= i < |items| ==> items[i].id != p.id
    ensures ValidRepository(Registered(repo, p))
    ensures IsChain(Registered(repo, p), newest, id, version, items, {})
  {
    var r := Registered(repo, p);
    forall i | 0 <= i < |items| - 1 ensures Follows(r, newest, items, i) {
      assert Follows(repo, newest, items, i);
      OtherBucket(repo, newest, items[i].parentId.value, items[i].parentVersion, items[i + 1], p);
    }
    OtherBucket(repo, newest, id, version, items[0], p);
  }

  lemma OtherBucket(repo: Repository, newest: Newest, id: PromptId, version: Option<Version>, item: Prompt, p: Prompt)
    requires ValidRepository(repo) && GetPrompt(repo, newest, id, version) == Ok(item) && item.id != p.id
    ensures GetPrompt(Registered(repo, p), newest, id, version) == Ok(item)
  {
  }

  class PromptRepository {
    const newest: Newest
    var versions: Repository

    ghost predicate Valid()
      reads this
    {
      ValidRepository(versions)
    }

    constructor (newest: Newest)
      ensures this.newest == newest && Valid() && versions == map[]
    {
      this.newest := newest;
      versions := map[];
    }

    method Register(prompt: Prompt, overwrite: bool) returns (error: Option<PromptError>)
      requires Valid()
      modifies this
      ensures Valid()
      ensures error == if Refused(old(versions), prompt, overwrite) then Some(AlreadyExists) else None
      ensures versions == if error.Some? then old(versions) else Registered(old(versions), prompt)
    {
      var bucket := if prompt.id in versions then versions[prompt.id] else Bucket([], map[]);
      if prompt.version in bucket.items && !overwrite {
        return Some(AlreadyExists);
      }
      var order := if prompt.version in bucket.items then bucket.order else bucket.order + [prompt.version];
      versions := versions[prompt.id := Bucket(order, bucket.items[prompt.version := prompt])];
      error := None;
    }

    method Get(id: PromptId, version: Option<Version>) returns (r: Outcome<Prompt>)
      ensures r == GetPrompt(versions, newest, id, version)
    {
      if id !in versions || versions[id].order == [] {
        return Error(UnknownPrompt);
      }
      var bucket := versions[id];
      var resolved := if version.Some? && version.value != "" then version.value else newest(bucket.order);
      if resolved !in bucket.items {
        return Error(UnknownVersion);
      }
      return Ok(bucket.items[resolved]);
    }

    method ResolveContent(id: PromptId, version: Option<Version>, stack: set<PromptId>) returns (r: Outcome<string>)
      ensures r == Resolve(versions, newest, id, version, stack)
      decreases versions.Keys - stack
    {
      if id in stack {
        return Error(InheritanceCycle);
      }
      var item := Get(id, version);
      if item.Error? {
        return Error(item.error);
      }
      assert id in versions.Keys - stack;
      var parts: seq<string> := [];
      if item.value.parentId.Some? && item.value.parentId.value != "" {
        var parent := ResolveContent(item.value.parentId.value, item.value.parentVersion, stack + {id});
        if parent.Error? {
          return parent;
        }
        parts := [parent.value];
      }
      parts := parts + [Strip(item.value.content)];
      return Ok(JoinNonEmpty(parts));
    }
  }
}
