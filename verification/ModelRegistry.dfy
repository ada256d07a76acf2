/** The model registry: one table of models and two indexes into it. */
module ModelRegistries {
  import opened Sequences
  import opened Ordering
  import opened Text

  /** Names and model ids are not empty, as the source's validators guarantee. */
  datatype Model = Model(name: string, modelId: string, aliases: seq<string>)

  /** How lookup keys are normalised (case, blanks, underscores). */
  type Normalize = string -> string

  datatype Index = Index(byName: map<string, Model>, aliases: map<string, string>, byModelId: map<string, string>)

  const EMPTY := Index(map[], map[], map[])

  datatype RegistryError = AlreadyRegistered | AliasTaken(alias: string)

  /* ---- the keys of a model ---- */

  function Dedupe(s: seq<string>): (r: seq<string>)
    ensures forall x :: x in r <==> x in s
  {
    if s == [] then [] else if s[0] in s[1..] then Dedupe(s[1..]) else [s[0]] + Dedupe(s[1..])
  }

  function NormalizeAll(norm: Normalize, s: seq<string>): (r: seq<string>)
    ensures |r| == |s|
  {
    if s == [] then [] else [norm(s[0])] + NormalizeAll(norm, s[1..])
  }

  /** The normalised aliases, each once, in sorted order. */
  function NormalizedAliases(norm: Normalize, m: Model): (r: seq<string>)
    ensures forall k :: k in r <==> k in NormalizeAll(norm, m.aliases)
  {
    Sort(Dedupe(NormalizeAll(norm, m.aliases)), LexLeq)
  }

  predicate OwnsKey(norm: Normalize, m: Model, key: string) {
    key == norm(m.name) || key == norm(m.modelId) || key in NormalizedAliases(norm, m)
  }

  /* ---- operations as functions ---- */

  /** Files the aliases one by one; without `overwrite` it stops at the first that another model has. */
  function FileAliases(ix: Index, name: string, aliases: seq<string>, overwrite: bool): (Index, Option<RegistryError>)
    decreases |aliases|
  {
    if aliases == [] then (ix, None)
    else if aliases[0] in ix.aliases && ix.aliases[aliases[0]] != name && !overwrite
    then (ix, Some(AliasTaken(aliases[0])))
    else FileAliases(ix.(aliases := ix.aliases[aliases[0] := name]), name, aliases[1..], overwrite)
  }

  function Refused(ix: Index, m: Model, overwrite: bool): bool {
    m.name in ix.byName && !overwrite
  }

  function FileModel(norm: Normalize, ix: Index, m: Model): Index {
    Index(ix.byName[m.name := m],
          ix.aliases[norm(m.name) := m.name][norm(m.modelId) := m.name],
          ix.byModelId[m.modelId := m.name])
  }

  /** A registration that stops at an alias keeps what it has filed so far. */
  function Registered(norm: Normalize, ix: Index, m: Model, overwrite: bool): (Index, Option<RegistryError>) {
    if Refused(ix, m, overwrite) then (ix, Some(AlreadyRegistered))
    else FileAliases(FileModel(norm, ix, m), m.name, NormalizedAliases(norm, m), overwrite)
  }

  function Unregistered(norm: Normalize, ix: Index, name: string): Index {
    if name !in ix.byName then ix
    else
      var m := ix.byName[name];
      Index(ix.byName - {name},
            map k | k in ix.aliases && !(ix.aliases[k] == name && OwnsKey(norm, m, k)) :: ix.aliases[k],
            ix.byModelId - {m.modelId})
  }

  datatype Lookup = Found(model: Model) | EmptyName | Unknown | Dangling

  function Resolve(norm: Normalize, ix: Index, nameOrAlias: string): Lookup {
    var raw := Strip(nameOrAlias);
    if raw == "" then EmptyName
    else if raw in ix.byName then Found(ix.byName[raw])
    else if norm(raw) in ix.aliases then Follow(ix, ix.aliases[norm(raw)])
    else if '/' in raw && raw in ix.byModelId then Follow(ix, ix.byModelId[raw])
    else Unknown
  }

  function Follow(ix: Index, name: string): Lookup {
    if name in ix.byName then Found(ix.byName[name]) else Dangling
  }

  /* ---- index entries point to models that own them ---- */

  ghost predicate Sound(norm: Normalize, ix: Index) {
    && (forall n :: n in ix.byName ==> ix.byName[n].name == n)
    && (forall k :: k in ix.aliases ==> ix.aliases[k] in ix.byName && OwnsKey(norm, ix.byName[ix.aliases[k]], k))
    && (forall i :: i in ix.byModelId ==> ix.byModelId[i] in ix.byName && ix.byName[ix.byModelId[i]].modelId == i)
  }

  /** All entries that lead to this name belong to the new model of that name. */
  ghost predicate Covers(norm: Normalize, ix: Index, m: Model) {
    && (forall k :: k in ix.aliases && ix.aliases[k] == m.name ==> OwnsKey(norm, m, k))
    && (forall i :: i in ix.byModelId && ix.byModelId[i] == m.name ==> i == m.modelId)
  }

  /** What filing aliases does: entries change only to this name, and only under these keys. */
  lemma {:induction false} FileAliasesFacts(ix: Index, name: string, aliases: seq<string>, overwrite: bool)
    ensures var (r, error) := FileAliases(ix, name, aliases, overwrite);
            && r.byName == ix.byName && r.byModelId == ix.byModelId && ix.aliases.Keys <= r.aliases.Keys
            && (forall k :: k in r.aliases ==>
                  (k in ix.aliases && r.aliases[k] == ix.aliases[k]) || (r.aliases[k] == name && k in aliases))
            && (forall k :: k in ix.aliases && ix.aliases[k] == name ==> r.aliases[k] == name)
            && (error == None ==> forall k :: k in aliases ==> k in r.aliases && r.aliases[k] == name)
    decreases |aliases|
  {
    if aliases != [] && !(aliases[0] in ix.aliases && ix.aliases[aliases[0]] != name && !overwrite) {
      var next := ix.(aliases := ix.aliases[aliases[0] := name]);
      FileAliasesFacts(next, name, aliases[1..], overwrite);
      assert forall k :: k in aliases <==> k == aliases[0] || k in aliases[1..];
    }
  }

  /** An accepted registration, completed or not, keeps the indexes sound exactly when the new model owns
      every key that already led to its name. */
  lemma RegisterSoundIff(norm: Normalize, ix: Index, m: Model, overwrite: bool)
    requires Sound(norm, ix) && !Refused(ix, m, overwrite)
    ensures Sound(norm, Registered(norm, ix, m, overwrite).0) <==> Covers(norm, ix, m)
  {
    hide OwnsKey;
    var filed := FileModel(norm, ix, m);
    var r := Registered(norm, ix, m, overwrite).0;
    FileAliasesFacts(filed, m.name, NormalizedAliases(norm, m), overwrite);
    OwnKeys(norm, m);
    if Covers(norm, ix, m) {
      forall k | k in r.aliases ensures r.aliases[k] in r.byName && OwnsKey(norm, r.byName[r.aliases[k]], k) {
      }
      forall i | i in r.byModelId ensures r.byModelId[i] in r.byName && r.byName[r.byModelId[i]].modelId == i {
      }
    } else if k :| k in ix.aliases && ix.aliases[k] == m.name && !OwnsKey(norm, m, k) {
      assert filed.aliases[k] == m.name;
      assert r.aliases[k] == m.name && r.byName[m.name] == m;
    } else {
      var i :| i in ix.byModelId && ix.byModelId[i] == m.name && i != m.modelId;
      assert r.byModelId[i] == m.name && r.byName[m.name] == m;
    }
  }

  lemma OwnKeys(norm: Normalize, m: Model)
    ensures OwnsKey(norm, m, norm(m.name)) && OwnsKey(norm, m, norm(m.modelId))
    ensures forall k :: k in NormalizedAliases(norm, m) ==> OwnsKey(norm, m, k)
  {
  }

  /** A model owns the keys of its name, of its model id and of its aliases. */
  lemma {:induction false} AliasKeys(norm: Normalize, aliases: seq<string>, key: string)
    ensures key in NormalizeAll(norm, aliases) <==> exists a :: a in aliases && norm(a) == key
  {
    if aliases != [] {
      AliasKeys(norm, aliases[1..], key);
      assert forall a :: a in aliases <==> a == aliases[0] || a in aliases[1..];
    }
  }

  lemma OwnsMeaning(norm: Normalize, m: Model, key: string)
    ensures OwnsKey(norm, m, key)
       <==> key == norm(m.name) || key == norm(m.modelId) || exists a :: a in m.aliases && norm(a) == key
  {
    AliasKeys(norm, m.aliases, key);
  }

  /** An alias that another model has, and that is neither name nor model id of the new one. */
  ghost predicate IsTaken(norm: Normalize, ix: Index, m: Model, key: string) {
    && key in ix.aliases && ix.aliases[key] != m.name && key != norm(m.name) && key != norm(m.modelId)
    && exists a :: a in m.aliases && norm(a) == key
  }

  lemma {:induction false} FileStops(ix: Index, name: string, aliases: seq<string>, overwrite: bool)
    ensures FileAliases(ix, name, aliases, overwrite).1 == None
       <==> overwrite || forall k :: k in aliases && k in ix.aliases ==> ix.aliases[k] == name
    ensures match FileAliases(ix, name, aliases, overwrite).1
            case Some(AliasTaken(k)) => k in aliases && k in ix.aliases && ix.aliases[k] != name
            case _ => FileAliases(ix, name, aliases, overwrite).1 == None
    decreases |aliases|
  {
    if aliases != [] && !(aliases[0] in ix.aliases && ix.aliases[aliases[0]] != name && !overwrite) {
      FileStops(ix.(aliases := ix.aliases[aliases[0] := name]), name, aliases[1..], overwrite);
      assert forall k :: k in aliases <==> k == aliases[0] || k in aliases[1..];
    }
  }

  /** Exactly when a registration succeeds: its name is free or may be overwritten, and none of its aliases
      belongs to another model or all may be overwritten; the error names what stands in the way. */
  lemma RegisterErrorMeaning(norm: Normalize, ix: Index, m: Model, overwrite: bool)
    ensures match Registered(norm, ix, m, overwrite).1
            case None => overwrite || (m.name !in ix.byName && forall k :: !IsTaken(norm, ix, m, k))
            case Some(AlreadyRegistered) => !overwrite && m.name in ix.byName
            case Some(AliasTaken(k)) => !overwrite && m.name !in ix.byName && IsTaken(norm, ix, m, k)
  {
    var filed := FileModel(norm, ix, m);
    FileStops(filed, m.name, NormalizedAliases(norm, m), overwrite);
    forall k ensures k in NormalizedAliases(norm, m) <==> exists a :: a in m.aliases && norm(a) == k {
      AliasKeys(norm, m.aliases, k);
    }
    hide NormalizedAliases;
    if Registered(norm, ix, m, overwrite).1 == None && !overwrite {
      forall k ensures !IsTaken(norm, ix, m, k) {
        assert k in NormalizedAliases(norm, m) && k in filed.aliases ==> filed.aliases[k] == m.name;
      }
    }
  }

  /** A registration changes no entry of a key that the model does not own, no entry of another model id, and no
      other model. */
  lemma RegisterKeepsOthers(norm: Normalize, ix: Index, m: Model, overwrite: bool, key: string)
    ensures var r := Registered(norm, ix, m, overwrite).0;
            && (!OwnsKey(norm, m, key) ==>
                  (key in r.aliases <==> key in ix.aliases) && (key in r.aliases ==> r.aliases[key] == ix.aliases[key]))
            && (key != m.modelId ==>
                  (key in r.byModelId <==> key in ix.byModelId)
                  && (key in r.byModelId ==> r.byModelId[key] == ix.byModelId[key]))
            && (key != m.name ==>
                  (key in r.byName <==> key in ix.byName) && (key in r.byName ==> r.byName[key] == ix.byName[key]))
  {
    FileAliasesFacts(FileModel(norm, ix, m), m.name, NormalizedAliases(norm, m), overwrite);
  }

  /** Removing a model drops it, the entry of its model id, and those of its keys that lead to it, and nothing
      else. */
  lemma UnregisterKeepsOthers(norm: Normalize, ix: Index, name: string, key: string)
    requires name in ix.byName
    ensures var m, r := ix.byName[name], Unregistered(norm, ix, name);
            && r.byName == ix.byName - {name} && r.byModelId == ix.byModelId - {m.modelId}
            && (key in r.aliases <==> key in ix.aliases && !(ix.aliases[key] == name && OwnsKey(norm, m, key)))
            && (key in r.aliases ==> r.aliases[key] == ix.aliases[key])
  {
    hide OwnsKey;
  }

  /** A name that is not in use is always covered. */
  lemma NewNameIsCovered(norm: Normalize, ix: Index, m: Model)
    requires Sound(norm, ix) && m.name !in ix.byName
    ensures Covers(norm, ix, m)
  {
  }

  lemma UnregisterSound(norm: Normalize, ix: Index, name: string)
    requires Sound(norm, ix)
    ensures Sound(norm, Unregistered(norm, ix, name))
    ensures forall k :: k in Unregistered(norm, ix, name).aliases ==> Unregistered(norm, ix, name).aliases[k] != name
  {
    hide OwnsKey;
  }

  /* ---- runs ---- */

  datatype Operation = Register(model: Model, overwrite: bool) | Unregister(name: string)

  function Perform(norm: Normalize, ix: Index, op: Operation): Index {
    match op
    case Register(m, overwrite) => Registered(norm, ix, m, overwrite).0
    case Unregister(name) => Unregistered(norm, ix, name)
  }

  function Replay(norm: Normalize, ix: Index, ops: seq<Operation>): Index
    decreases |ops|
  {
    if ops == [] then ix else Replay(norm, Perform(norm, ix, ops[0]), ops[1..])
  }

  /** Whoever is registered, under a new name or in place of a live model, owns every key that leads to it. */
  ghost predicate AlwaysCovers(norm: Normalize, ix: Index, ops: seq<Operation>)
    decreases |ops|
  {
    ops == []
    || ((ops[0].Register? && !Refused(ix, ops[0].model, ops[0].overwrite) ==> Covers(norm, ix, ops[0].model))
        && AlwaysCovers(norm, Perform(norm, ix, ops[0]), ops[1..]))
  }

  /** The indexes are sound now and after every operation. */
  ghost predicate AlwaysSound(norm: Normalize, ix: Index, ops: seq<Operation>)
    decreases |ops|
  {
    Sound(norm, ix) && (ops == [] || AlwaysSound(norm, Perform(norm, ix, ops[0]), ops[1..]))
  }

  /** A run keeps the indexes sound throughout if and only if every accepted registration covers its name. */
  lemma {:induction false} RunsAreSoundIff(norm: Normalize, ix: Index, ops: seq<Operation>)
    requires Sound(norm, ix)
    ensures AlwaysSound(norm, ix, ops) <==> AlwaysCovers(norm, ix, ops)
    ensures AlwaysSound(norm, ix, ops) ==> Sound(norm, Replay(norm, ix, ops))
    decreases |ops|
  {
    hide Sound, Registered, Unregistered, Covers;
    if ops != [] {
      var next := Perform(norm, ix, ops[0]);
      match ops[0] {
        case Register(m, overwrite) =>
          if Refused(ix, m, overwrite) {
            assert next == ix by { RefusedChangesNothing(norm, ix, m, overwrite); }
          } else {
            RegisterSoundIff(norm, ix, m, overwrite);
          }
        case Unregister(name) => UnregisterSound(norm, ix, name);
      }
      if Sound(norm, next) {
        RunsAreSoundIff(norm, next, ops[1..]);
      } else {
        NotAlwaysSound(norm, next, ops[1..]);
      }
    }
  }

  lemma NotAlwaysSound(norm: Normalize, ix: Index, ops: seq<Operation>)
    requires !Sound(norm, ix)
    ensures !AlwaysSound(norm, ix, ops)
  {
  }

  /** No operation replaces a live model. */
  ghost predicate NeverReplaces(norm: Normalize, ix: Index, ops: seq<Operation>)
    decreases |ops|
  {
    ops == []
    || ((ops[0].Register? && ops[0].model.name in ix.byName ==> !ops[0].overwrite)
        && NeverReplaces(norm, Perform(norm, ix, ops[0]), ops[1..]))
  }

  /** In particular a run that replaces no live model does, failed registrations included. */
  lemma {:induction false} NewNamesCover(norm: Normalize, ix: Index, ops: seq<Operation>)
    requires Sound(norm, ix) && NeverReplaces(norm, ix, ops)
    ensures AlwaysCovers(norm, ix, ops) && Sound(norm, Replay(norm, ix, ops))
    decreases |ops|
  {
    hide Sound, Registered, Unregistered, Covers;
    if ops != [] {
      match ops[0] {
        case Register(m, overwrite) =>
          if Refused(ix, m, overwrite) {
            RefusedChangesNothing(norm, ix, m, overwrite);
          } else {
            NewNameIsCovered(norm, ix, m);
            RegisterSoundIff(norm, ix, m, overwrite);
          }
        case Unregister(name) => UnregisterSound(norm, ix, name);
      }
      NewNamesCover(norm, Perform(norm, ix, ops[0]), ops[1..]);
    }
  }

  lemma RefusedChangesNothing(norm: Normalize, ix: Index, m: Model, overwrite: bool)
    requires Refused(ix, m, overwrite)
    ensures Registered(norm, ix, m, overwrite).0 == ix
  {
  }

  /** An index entry leads to a name that is not registered. */
  ghost predicate Dangles(ix: Index) {
    || (exists k :: k in ix.aliases && ix.aliases[k] !in ix.byName)
    || (exists i :: i in ix.byModelId && ix.byModelId[i] !in ix.byName)
  }

  /** Registering a model and removing it again leaves a dangling entry if and only if the model did not cover
      its name. */
  lemma RemovalDanglesIff(norm: Normalize, ix: Index, m: Model, overwrite: bool)
    requires Sound(norm, ix) && !Refused(ix, m, overwrite)
    ensures Dangles(Unregistered(norm, Registered(norm, ix, m, overwrite).0, m.name)) <==> !Covers(norm, ix, m)
  {
    hide OwnsKey;
    var filed := FileModel(norm, ix, m);
    var r := Registered(norm, ix, m, overwrite).0;
    var u := Unregistered(norm, r, m.name);
    RegisterSoundIff(norm, ix, m, overwrite);
    FileAliasesFacts(filed, m.name, NormalizedAliases(norm, m), overwrite);
    if Covers(norm, ix, m) {
      UnregisterSound(norm, r, m.name);
    } else if k :| k in ix.aliases && ix.aliases[k] == m.name && !OwnsKey(norm, m, k) {
      assert filed.aliases[k] == m.name;
      assert k in u.aliases && u.aliases[k] == m.name;
    } else {
      var i :| i in ix.byModelId && ix.byModelId[i] == m.name && i != m.modelId;
      assert i in u.byModelId && u.byModelId[i] == m.name;
    }
  }

  /** On sound indexes a lookup never follows a dangling name, and finds only a live model that goes by the
      text looked up: by name, by key, or by model id. */
  lemma SoundLookups(norm: Normalize, ix: Index, text: string)
    requires Sound(norm, ix)
    ensures match Resolve(norm, ix, text)
            case Dangling => false
            case Found(m) =>
              var raw := Strip(text);
              && m.name in ix.byName && ix.byName[m.name] == m
              && (m.name == raw || OwnsKey(norm, m, norm(raw)) || m.modelId == raw)
            case Unknown =>
              var raw := Strip(text);
              raw !in ix.byName && norm(raw) !in ix.aliases && ('/' in raw ==> raw !in ix.byModelId)
            case EmptyName => Strip(text) == ""
    ensures var raw := Strip(text);
            raw != "" && '/' !in raw && raw !in ix.byName && norm(raw) !in ix.aliases ==>
              Resolve(norm, ix, text) == Unknown
  {
  }

  lemma RunsNeverDangle(norm: Normalize, ops: seq<Operation>, text: string)
    requires AlwaysCovers(norm, EMPTY, ops)
    ensures Resolve(norm, Replay(norm, EMPTY, ops), text) != Dangling
  {
    RunsAreSoundIff(norm, EMPTY, ops);
    SoundLookups(norm, Replay(norm, EMPTY, ops), text);
  }

  /** After a registration without error, every key of the model leads to it, unless the text is itself the
      name of a model. */
  lemma RegisteredIsFound(norm: Normalize, ix: Index, m: Model, overwrite: bool, text: string)
    requires Registered(norm, ix, m, overwrite).1 == None
    requires Strip(text) != "" && OwnsKey(norm, m, norm(Strip(text)))
    ensures var r := Registered(norm, ix, m, overwrite).0;
            Resolve(norm, r, text) == if Strip(text) in r.byName then Found(r.byName[Strip(text)]) else Found(m)
  {
    var filed := FileModel(norm, ix, m);
    FileAliasesFacts(filed, m.name, NormalizedAliases(norm, m), overwrite);
    var r := Registered(norm, ix, m, overwrite).0;
    var key := norm(Strip(text));
    assert key in r.aliases && r.aliases[key] == m.name by {
      assert filed.aliases[norm(m.modelId)] == m.name && filed.aliases[norm(m.name)] == m.name;
    }
  }

  /** Registering a model with one alias and no other models about. */
  lemma RegisterFirst(norm: Normalize, m: Model, alias: string)
    requires m.aliases == [alias] && norm(m.name) == m.name && norm(m.modelId) == m.modelId && norm(alias) == alias
    ensures Registered(norm, EMPTY, m, false).0.aliases
         == map[m.name := m.name][m.modelId := m.name][alias := m.name]
    ensures Registered(norm, EMPTY, m, false).0.byName == map[m.name := m]
  {
    assert NormalizeAll(norm, m.aliases) == [alias] by { assert m.aliases[1..] == []; }
    assert Dedupe([alias]) == [alias] by { assert [alias][1..] == []; }
    assert Sort([alias], LexLeq) == [alias] by { assert [alias][1..] == []; }
    var filed := FileModel(norm, EMPTY, m);
    assert [alias][1..] == [];
    assert FileAliases(filed, m.name, [alias], false).0 == filed.(aliases := filed.aliases[alias := m.name]);
  }

  /** Replacing a live model by one that lacks the alias keeps the alias entry, and removing the new model
      does not drop it either. */
  lemma ReplaceAndRemove(norm: Normalize, ix: Index, m: Model, alias: string)
    requires m.aliases == [] && alias in ix.aliases && ix.aliases[alias] == m.name
    requires alias != norm(m.name) && alias != norm(m.modelId)
    ensures var r := Unregistered(norm, Registered(norm, ix, m, true).0, m.name);
            alias in r.aliases && r.aliases[alias] == m.name && r.byName == ix.byName - {m.name}
  {
    assert NormalizedAliases(norm, m) == [];
  }

  /** Replacing a live model by one with fewer aliases can leave a dangling alias behind. */
  lemma ReplacingMayDangle()
    ensures var norm: Normalize := (s: string) => s;
            var ops := [Register(Model("a", "m", ["x"]), false), Register(Model("a", "m", []), true),
                        Unregister("a")];
            Resolve(norm, Replay(norm, EMPTY, ops), "x") == Dangling
  {
    var norm: Normalize := (s: string) => s;
    var m1, m2 := Model("a", "m", ["x"]), Model("a", "m", []);
    assert "a"[0] == 'a' && "m"[0] == 'm' && "x"[0] == 'x';
    hide Registered, Unregistered, NormalizedAliases, Strip;
    RegisterFirst(norm, m1, "x");
    var i1 := Registered(norm, EMPTY, m1, false).0;
    ReplaceAndRemove(norm, i1, m2, "x");
    var ops := [Register(m1, false), Register(m2, true), Unregister("a")];
    ThreeSteps(norm, EMPTY, ops);
    StripX();
  }

  lemma ThreeSteps(norm: Normalize, ix: Index, ops: seq<Operation>)
    requires |ops| == 3
    ensures Replay(norm, ix, ops) == Perform(norm, Perform(norm, Perform(norm, ix, ops[0]), ops[1]), ops[2])
  {
    hide Perform;
    var two, one := ops[1..], ops[2..];
    assert two[1..] == one && one[1..] == [];
    var i1 := Perform(norm, ix, ops[0]);
    var i2 := Perform(norm, i1, ops[1]);
    assert Replay(norm, i2, one) == Perform(norm, i2, ops[2]);
    assert Replay(norm, i1, two) == Replay(norm, i2, one);
  }

  lemma StripX()
    ensures Strip("x") == "x"
  {
    var c := "x"[0];
    assert !IsSpace(c);
    hide IsSpace;
    assert StripLeft("x") == "x";
    assert StripRight("x") == "x";
  }

  /* ---- the registry object ---- */

  class ModelRegistryRepository {
    const norm: Normalize
    var byName: map<string, Model>
    var aliasIndex: map<string, string>
    var byModelId: map<string, string>

    ghost function View(): Index
      reads this
    {
      Index(byName, aliasIndex, byModelId)
    }

    constructor (norm: Normalize)
      ensures this.norm == norm && View() == EMPTY
    {
      this.norm := norm;
      byName, aliasIndex, byModelId := map[], map[], map[];
    }

    method RegisterModel(model: Model, overwrite: bool) returns (error: Option<RegistryError>)
      modifies this
      ensures (View(), error) == Registered(norm, old(View()), model, overwrite)
    {
      if model.name in byName && !overwrite {
        return Some(AlreadyRegistered);
      }
      byName := byName[model.name := model];
      byModelId := byModelId[model.modelId := model.name];
      aliasIndex := aliasIndex[norm(model.name) := model.name];
      aliasIndex := aliasIndex[norm(model.modelId) := model.name];
      var aliases := NormalizedAliases(norm, model);
      ghost var filed := View();
      for i := 0 to |aliases|
        invariant FileAliases(View(), model.name, aliases[i..], overwrite)
               == FileAliases(filed, model.name, aliases, overwrite)
      {
        var alias := aliases[i];
        assert aliases[i..][1..] == aliases[i + 1..];
        if alias in aliasIndex && aliasIndex[alias] != model.name && !overwrite {
          return Some(AliasTaken(alias));
        }
        aliasIndex := aliasIndex[alias := model.name];
      }
      error := None;
    }

    method UnregisterModel(name: string)
      modifies this
      ensures View() == Unregistered(norm, old(View()), name)
    {
      if name !in byName {
        return;
      }
      var model := byName[name];
      byName := byName - {name};
      byModelId := byModelId - {model.modelId};
      var aliases := NormalizedAliases(norm, model);
      var keysToDrop := [norm(model.name), norm(model.modelId)] + aliases;
      ghost var before := aliasIndex;
      KeysToDrop(norm, model, keysToDrop);
      hide OwnsKey, NormalizedAliases;
      for i := 0 to |keysToDrop|
        invariant byName == old(byName) - {name} && byModelId == old(byModelId) - {model.modelId}
        invariant forall k :: k in aliasIndex <==> k in before && !(before[k] == name && k in keysToDrop[..i])
        invariant forall k :: k in aliasIndex ==> aliasIndex[k] == before[k]
      {
        var key := keysToDrop[i];
        assert forall k :: k in keysToDrop[..i + 1] <==> k in keysToDrop[..i] || k == key;
        if key in aliasIndex && aliasIndex[key] == name {
          aliasIndex := aliasIndex - {key};
        }
      }
      assert keysToDrop[..|keysToDrop|] == keysToDrop;
      assert aliasIndex == map k | k in before && !(before[k] == name && OwnsKey(norm, model, k)) :: before[k];
    }

    method ResolveModel(nameOrAlias: string) returns (r: Lookup)
      ensures r == Resolve(norm, View(), nameOrAlias)
    {
      var raw := Strip(nameOrAlias);
      if raw == "" {
        return EmptyName;
      }
      if raw in byName {
        return Found(byName[raw]);
      }
      var key := norm(raw);
      if key in aliasIndex {
        var resolved := aliasIndex[key];
        return if resolved in byName then Found(byName[resolved]) else Dangling;
      }
      if '/' in raw && raw in byModelId {
        var byId := byModelId[raw];
        return if byId in byName then Found(byName[byId]) else Dangling;
      }
      return Unknown;
    }
  }

  lemma KeysToDrop(norm: Normalize, m: Model, keys: seq<string>)
    requires keys == [norm(m.name), norm(m.modelId)] + NormalizedAliases(norm, m)
    ensures forall k :: k in keys <==> OwnsKey(norm, m, k)
  {
    var aliases := NormalizedAliases(norm, m);
    assert keys[0] == norm(m.name) && keys[1] == norm(m.modelId);
    forall k | k in aliases ensures k in keys {
      var j :| 0 <= j < |aliases| && aliases[j] == k;
      assert keys[j + 2] == k;
    }
  }
}
