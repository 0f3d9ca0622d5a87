/**
 * The script model's interface registration. A model that wants to expose
 * itself to scripts sends a RegisterInterface command naming its own type, the
 * types whose script interfaces it depends on, and a callback that registers
 * its interface. The script model caches every valid command and runs a
 * cached callback only once all of its dependencies have registered.
 *
 * Type identities (std::type_index) are natural numbers. A callback is
 * represented by whether invoking it throws: what it registers with the
 * script engine is outside the model.
 */
module ScriptModel {
  import opened Wrappers
  import SafeJson

  type TypeId = nat

  /** Why a command, a callback or a deserialisation was rejected. */
  datatype Error =
    | NoModelType                        // IAm() was never chained
    | NoCallback                         // AndIWant() was never chained
    | AlreadyRegistered(id: TypeId)      // registered, or queued for registration
    | DependsOnItself(id: TypeId)
    | CallbackThrew(id: TypeId)
    | RegistrantsStillCached(count: nat) // fromJSON with unresolved registrants

  // ------------------------------------------------------------------
  // The RegisterInterface command and its builder chain
  // ------------------------------------------------------------------

  /**
   * A RegisterInterface command under construction: its model type (set by
   * IAm), its dependencies (set by IDependOn), and its callback (set by
   * AndIWant), given as whether the callback throws when invoked.
   */
  datatype Command = Command(id: Option<TypeId>, dependencies: set<TypeId>, callback: Option<bool>)

  const EMPTY_COMMAND := Command(None, {}, None)

  /** IAm<T>(): records the model type. */
  function IAm(c: Command, t: TypeId): (r: Command)
    ensures r.id == Some(t) && r.dependencies == c.dependencies && r.callback == c.callback
  {
    c.(id := Some(t))
  }

  /** IDependOn<Ds...>(): replaces the dependency set. */
  function IDependOn(c: Command, ds: set<TypeId>): (r: Command)
    ensures r.dependencies == ds && r.id == c.id && r.callback == c.callback
  {
    c.(dependencies := ds)
  }

  /** AndIWant(cb): records the callback; throws says whether it throws. */
  function AndIWant(c: Command, throws: bool): (r: Command)
    ensures r.callback == Some(throws) && r.id == c.id && r.dependencies == c.dependencies
  {
    c.(callback := Some(throws))
  }

  /** whoAreThey(): the model type, or an error when IAm() was not chained. */
  function WhoAreThey(c: Command): (r: Result<TypeId, Error>)
    ensures r.Success? <==> c.id.Some?
    ensures r.Success? ==> r.value == c.id.value
    ensures r.Failure? ==> r.error == NoModelType
  {
    match c.id
    case None => Failure(NoModelType)
    case Some(t) => Success(t)
  }

  /** whatDoTheyWant(): the callback, or an error when AndIWant() was not chained. */
  function WhatDoTheyWant(c: Command): (r: Result<bool, Error>)
    ensures r.Success? <==> c.callback.Some?
    ensures r.Success? ==> r.value == c.callback.value
    ensures r.Failure? ==> r.error == NoCallback
  {
    match c.callback
    case None => Failure(NoCallback)
    case Some(throws) => Success(throws)
  }

  /** A validated command, as it sits in the registrant cache. */
  datatype Registrant = Registrant(id: TypeId, dependencies: set<TypeId>, callbackThrows: bool)

  /**
   * validate(existing): the checks made in order -- a model type was given,
   * it is not among the existing identities, it does not depend on itself,
   * and a callback was given.
   */
  function Validate(c: Command, existing: set<TypeId>): (r: Result<Registrant, Error>)
    ensures r.Success? <==>
              c.id.Some? && c.id.value !in existing && c.id.value !in c.dependencies && c.callback.Some?
    ensures r.Success? ==> r.value == Registrant(c.id.value, c.dependencies, c.callback.value)
    ensures c.id.None? ==> r == Failure(NoModelType)
    ensures c.id.Some? && c.id.value in existing ==> r == Failure(AlreadyRegistered(c.id.value))
    ensures c.id.Some? && c.id.value !in existing && c.id.value in c.dependencies ==>
              r == Failure(DependsOnItself(c.id.value))
    ensures c.id.Some? && c.id.value !in existing && c.id.value !in c.dependencies && c.callback.None? ==>
              r == Failure(NoCallback)
  {
    match WhoAreThey(c)
    case Failure(e) => Failure(e)
    case Success(t) =>
      if t in existing then Failure(AlreadyRegistered(t))
      else if t in c.dependencies then Failure(DependsOnItself(t))
      else match WhatDoTheyWant(c)
        case Failure(e) => Failure(e)
        case Success(throws) => Success(Registrant(t, c.dependencies, throws))
  }

  /** A fully chained command, IAm<T>().IDependOn<Ds...>().AndIWant(cb), is valid exactly when T is new and not among Ds. */
  lemma ChainedCommandValidates(t: TypeId, ds: set<TypeId>, throws: bool, existing: set<TypeId>)
    ensures var c := AndIWant(IDependOn(IAm(EMPTY_COMMAND, t), ds), throws);
            Validate(c, existing).Success? <==> t !in existing && t !in ds
  {
  }

  /** A chain missing IAm() or AndIWant() is never valid, whatever else it holds. */
  lemma UnchainedCommandFails(c: Command, existing: set<TypeId>)
    requires c.id.None? || c.callback.None?
    ensures Validate(c, existing).Failure?
  {
  }

  // ------------------------------------------------------------------
  // The registrant cache and its resolution
  // ------------------------------------------------------------------

  /** The identities of the cached registrants. */
  function Ids(cache: seq<Registrant>): set<TypeId>
  {
    set r | r in cache :: r.id
  }

  /** A registrant whose every dependency has registered successfully. */
  predicate Ready(r: Registrant, successful: set<TypeId>)
  {
    r.dependencies <= successful
  }

  /** The cache with entry i erased. */
  function Erase(cache: seq<Registrant>, i: nat): (r: seq<Registrant>)
    requires i < |cache|
    ensures |r| == |cache| - 1
    ensures forall k :: 0 <= k < i ==> r[k] == cache[k]
    ensures forall k :: i <= k < |r| ==> r[k] == cache[k + 1]
    ensures multiset(cache) == multiset(r) + multiset{cache[i]}
  {
    assert cache == cache[..i] + [cache[i]] + cache[i + 1..];
    cache[..i] + cache[i + 1..]
  }

  /** The index of the first ready registrant, or the cache's length when none is ready. */
  function FirstReady(cache: seq<Registrant>, successful: set<TypeId>): (i: nat)
    ensures i <= |cache|
    ensures i < |cache| ==> Ready(cache[i], successful)
    ensures forall k :: 0 <= k < i ==> !Ready(cache[k], successful)
  {
    if |cache| == 0 then 0
    else if Ready(cache[0], successful) then 0
    else 1 + FirstReady(cache[1..], successful)
  }

  /**
   * The result of traversing the cache: what is left cached, the successful
   * set, the registrants whose callbacks ran and succeeded (in the order they
   * ran), and the registrant whose callback threw, if one did.
   */
  datatype Outcome = Outcome(cache: seq<Registrant>, successful: set<TypeId>,
                             registered: seq<Registrant>, failed: Option<Registrant>)

  /**
   * The traversal of the registrant cache: the first ready registrant (from
   * the head) has its callback run; on success its ID joins the successful
   * set, it leaves the cache and traversal restarts from the head; on a throw
   * it is erased and traversal stops.
   */
  function Resolved(cache: seq<Registrant>, successful: set<TypeId>): (o: Outcome)
    decreases |cache|
  {
    var i := FirstReady(cache, successful);
    if i == |cache| then Outcome(cache, successful, [], None)
    else if cache[i].callbackThrows then Outcome(Erase(cache, i), successful, [], Some(cache[i]))
    else
      var o := Resolved(Erase(cache, i), successful + {cache[i].id});
      o.(registered := [cache[i]] + o.registered)
  }

  /** Every callback that ran and succeeded had all its dependencies registered before it. */
  predicate RespectsDependencies(registered: seq<Registrant>, successful: set<TypeId>)
  {
    forall k :: 0 <= k < |registered| ==> registered[k].dependencies <= successful + Ids(registered[..k])
  }

  /** The cache traversal on values, returning the new cache and successful set. */
  method TraverseCache(cache0: seq<Registrant>, successful0: set<TypeId>)
    returns (cache: seq<Registrant>, successful: set<TypeId>, res: Result<(), Error>)
    ensures var o := Resolved(cache0, successful0);
            cache == o.cache && successful == o.successful &&
            (res.Success? <==> o.failed.None?) &&
            (o.failed.Some? ==> res == Failure(CallbackThrew(o.failed.value.id)))
  {
    cache, successful := cache0, successful0;
    ghost var goal := Resolved(cache, successful);
    ghost var done: seq<Registrant> := [];
    assert done + goal.registered == goal.registered;
    var i := 0;
    while i < |cache|
      invariant 0 <= i <= |cache|
      invariant forall k :: 0 <= k < i ==> !Ready(cache[k], successful)
      invariant Remaining(goal, done, cache, successful)
      decreases |cache|, |cache| - i
    {
      var r := cache[i];
      if !(r.dependencies <= successful) {
        i := i + 1;
        continue;
      }
      if r.callbackThrows {
        RemainingAfterThrow(goal, done, cache, successful, i);
        return Erase(cache, i), successful, Failure(CallbackThrew(r.id));
      }
      RemainingAfterSuccess(goal, done, cache, successful, i);
      successful := successful + {r.id};
      cache := Erase(cache, i);
      done := done + [r];
      i := 0;
    }
    RemainingAtEnd(goal, done, cache, successful);
    res := Success(());
  }

  lemma IdsConcat(a: seq<Registrant>, b: seq<Registrant>)
    ensures Ids(a + b) == Ids(a) + Ids(b)
  {
    assert forall r :: r in a + b <==> r in a || r in b;
  }

  /** One step of the traversal, at the first ready registrant i. */
  lemma ResolvedAtFirstReady(cache: seq<Registrant>, successful: set<TypeId>, i: nat)
    requires i < |cache| && Ready(cache[i], successful)
    requires forall k :: 0 <= k < i ==> !Ready(cache[k], successful)
    ensures Resolved(cache, successful) ==
              if cache[i].callbackThrows then Outcome(Erase(cache, i), successful, [], Some(cache[i]))
              else var o := Resolved(Erase(cache, i), successful + {cache[i].id});
                   o.(registered := [cache[i]] + o.registered)
  {
    assert FirstReady(cache, successful) == i;
  }

  /**
   * The traversal still to come: goal is the whole traversal's outcome, done
   * the callbacks already run, and the rest is that of the current cache.
   */
  predicate Remaining(goal: Outcome, done: seq<Registrant>, cache: seq<Registrant>, successful: set<TypeId>)
  {
    var o := Resolved(cache, successful);
    goal == o.(registered := done + o.registered)
  }

  lemma RemainingAfterSuccess(goal: Outcome, done: seq<Registrant>, cache: seq<Registrant>, successful: set<TypeId>, i: nat)
    requires i < |cache| && Ready(cache[i], successful) && !cache[i].callbackThrows
    requires forall k :: 0 <= k < i ==> !Ready(cache[k], successful)
    requires Remaining(goal, done, cache, successful)
    ensures Remaining(goal, done + [cache[i]], Erase(cache, i), successful + {cache[i].id})
  {
    ResolvedAtFirstReady(cache, successful, i);
    var o := Resolved(Erase(cache, i), successful + {cache[i].id});
    assert done + ([cache[i]] + o.registered) == (done + [cache[i]]) + o.registered;
  }

  lemma RemainingAfterThrow(goal: Outcome, done: seq<Registrant>, cache: seq<Registrant>, successful: set<TypeId>, i: nat)
    requires i < |cache| && Ready(cache[i], successful) && cache[i].callbackThrows
    requires forall k :: 0 <= k < i ==> !Ready(cache[k], successful)
    requires Remaining(goal, done, cache, successful)
    ensures goal == Outcome(Erase(cache, i), successful, done, Some(cache[i]))
  {
    ResolvedAtFirstReady(cache, successful, i);
    assert done + [] == done;
  }

  lemma RemainingAtEnd(goal: Outcome, done: seq<Registrant>, cache: seq<Registrant>, successful: set<TypeId>)
    requires forall k :: 0 <= k < |cache| ==> !Ready(cache[k], successful)
    requires Remaining(goal, done, cache, successful)
    ensures goal == Outcome(cache, successful, done, None)
  {
    ResolvedNothingReady(cache, successful);
    assert done + [] == done;
  }

  /** The traversal of a cache with nothing ready runs no callback. */
  lemma ResolvedNothingReady(cache: seq<Registrant>, successful: set<TypeId>)
    requires forall k :: 0 <= k < |cache| ==> !Ready(cache[k], successful)
    ensures Resolved(cache, successful) == Outcome(cache, successful, [], None)
  {
    assert FirstReady(cache, successful) == |cache|;
  }

  /** Resolution runs callbacks in a dependency-respecting order. */
  lemma {:induction false} ResolvedRespectsDependencies(cache: seq<Registrant>, successful: set<TypeId>)
    ensures RespectsDependencies(Resolved(cache, successful).registered, successful)
    decreases |cache|
  {
    var i := FirstReady(cache, successful);
    if i < |cache| && !cache[i].callbackThrows {
      var r := cache[i];
      ResolvedRespectsDependencies(Erase(cache, i), successful + {r.id});
      PrependRespectsDependencies(r, Resolved(Erase(cache, i), successful + {r.id}).registered, successful);
    }
  }

  /** Resolution adds exactly the IDs of the registered callbacks to the successful set. */
  lemma {:induction false} ResolvedAddsRegisteredIds(cache: seq<Registrant>, successful: set<TypeId>)
    ensures var o := Resolved(cache, successful);
            o.successful == successful + Ids(o.registered)
    decreases |cache|
  {
    var i := FirstReady(cache, successful);
    if i < |cache| && !cache[i].callbackThrows {
      var r := cache[i];
      ResolvedAddsRegisteredIds(Erase(cache, i), successful + {r.id});
      IdsConcat([r], Resolved(Erase(cache, i), successful + {r.id}).registered);
      assert Ids([r]) == {r.id};
    }
  }

  /** Resolution loses no registrant: each is left cached, registered or the one that threw. */
  lemma {:induction false} ResolvedKeepsRegistrants(cache: seq<Registrant>, successful: set<TypeId>)
    ensures var o := Resolved(cache, successful);
            multiset(cache) == multiset(o.cache) + multiset(o.registered) +
                               (if o.failed.Some? then multiset{o.failed.value} else multiset{})
    decreases |cache|
  {
    var i := FirstReady(cache, successful);
    if i < |cache| && !cache[i].callbackThrows {
      ResolvedKeepsRegistrants(Erase(cache, i), successful + {cache[i].id});
    }
  }

  /** A registrant ready on successful, run before a dependency-respecting sequence that saw its ID. */
  lemma PrependRespectsDependencies(r: Registrant, registered: seq<Registrant>, successful: set<TypeId>)
    requires r.dependencies <= successful
    requires RespectsDependencies(registered, successful + {r.id})
    ensures RespectsDependencies([r] + registered, successful)
  {
    var regs := [r] + registered;
    forall k | 0 <= k < |regs| ensures regs[k].dependencies <= successful + Ids(regs[..k]) {
      if k > 0 {
        assert regs[k] == registered[k - 1];
        assert regs[..k] == [r] + registered[..k - 1];
        IdsConcat([r], registered[..k - 1]);
        assert Ids([r]) == {r.id};
      }
    }
  }

  /** When no callback threw, nothing left in the cache is ready. */
  lemma {:induction false} ResolvedLeavesNothingReady(cache: seq<Registrant>, successful: set<TypeId>)
    ensures var o := Resolved(cache, successful);
            o.failed.None? ==> forall k :: 0 <= k < |o.cache| ==> !Ready(o.cache[k], o.successful)
    decreases |cache|
  {
    var i := FirstReady(cache, successful);
    if i < |cache| && !cache[i].callbackThrows {
      ResolvedLeavesNothingReady(Erase(cache, i), successful + {cache[i].id});
    }
  }

  /**
   * Only callbacks that did not throw are registered, and one that threw is
   * not marked successful: it had all its dependencies, yet it leaves both.
   */
  lemma {:induction false} ResolvedThrowingCallback(cache: seq<Registrant>, successful: set<TypeId>)
    requires CacheValid(cache, successful)
    ensures var o := Resolved(cache, successful);
            (forall k :: 0 <= k < |o.registered| ==> !o.registered[k].callbackThrows) &&
            (o.failed.Some? ==> o.failed.value.callbackThrows && Ready(o.failed.value, o.successful) &&
                                o.failed.value.id !in o.successful && o.failed.value.id !in Ids(o.cache))
    decreases |cache|
  {
    var i := FirstReady(cache, successful);
    if i < |cache| {
      CacheValidAfterErase(cache, successful, i);
      if !cache[i].callbackThrows {
        ResolvedThrowingCallback(Erase(cache, i), successful + {cache[i].id});
      }
    }
  }

  /**
   * The script model's invariant: cached IDs are distinct, none has
   * registered yet, and no cached registrant depends on itself.
   */
  predicate CacheValid(cache: seq<Registrant>, successful: set<TypeId>)
  {
    (forall j, k :: 0 <= j < k < |cache| ==> cache[j].id != cache[k].id) &&
    (forall k :: 0 <= k < |cache| ==> cache[k].id !in successful && cache[k].id !in cache[k].dependencies)
  }

  /** Erasing entry i and marking it successful keeps the invariant. */
  lemma CacheValidAfterErase(cache: seq<Registrant>, successful: set<TypeId>, i: nat)
    requires CacheValid(cache, successful) && i < |cache|
    ensures CacheValid(Erase(cache, i), successful + {cache[i].id})
    ensures cache[i].id !in Ids(Erase(cache, i))
  {
    var r := Erase(cache, i);
    forall j, k | 0 <= j < k < |r| ensures r[j].id != r[k].id {
      var j' := if j < i then j else j + 1;
      var k' := if k < i then k else k + 1;
      assert r[j] == cache[j'] && r[k] == cache[k'];
    }
    forall k | 0 <= k < |r| ensures r[k].id != cache[i].id {
      var k' := if k < i then k else k + 1;
      assert r[k] == cache[k'];
    }
  }

  /** Resolution keeps the invariant. */
  lemma {:induction false} ResolvedKeepsValid(cache: seq<Registrant>, successful: set<TypeId>)
    requires CacheValid(cache, successful)
    ensures var o := Resolved(cache, successful); CacheValid(o.cache, o.successful)
    decreases |cache|
  {
    var i := FirstReady(cache, successful);
    if i < |cache| {
      CacheValidAfterErase(cache, successful, i);
      var r := Erase(cache, i);
      if cache[i].callbackThrows {
        forall k | 0 <= k < |r| ensures r[k].id !in successful && r[k].id !in r[k].dependencies {
          assert r[k].id !in successful + {cache[i].id};
        }
      } else {
        ResolvedKeepsValid(r, successful + {cache[i].id});
      }
    }
  }

  /** Two registrants that depend on each other never register. */
  lemma {:induction false} MutualDependencyNeverResolves(cache: seq<Registrant>, successful: set<TypeId>, a: nat, b: nat)
    requires CacheValid(cache, successful)
    requires a < |cache| && b < |cache|
    requires cache[a].id in cache[b].dependencies && cache[b].id in cache[a].dependencies
    ensures var o := Resolved(cache, successful);
            cache[a].id !in o.successful && cache[b].id !in o.successful
    decreases |cache|
  {
    var i := FirstReady(cache, successful);
    if i < |cache| {
      assert i != a && i != b;
      CacheValidAfterErase(cache, successful, i);
      if !cache[i].callbackThrows {
        var r := Erase(cache, i);
        var a' := if a < i then a else a - 1;
        var b' := if b < i then b else b - 1;
        assert r[a'] == cache[a'] || r[a'] == cache[a' + 1];
        assert r[a'] == cache[a] && r[b'] == cache[b];
        MutualDependencyNeverResolves(r, successful + {cache[i].id}, a', b');
      }
    }
  }

  // ------------------------------------------------------------------
  // Deserialisation: the modules to load
  // ------------------------------------------------------------------

  /** The filter used when a module gives none, or an invalid one: every .as file. */
  const DEFAULT_FILTER := "^.*\\.as$"

  /** A call to the script engine's loadModule(name, true, folder, filter). */
  datatype ModuleLoad = ModuleLoad(name: string, folder: string, filter: string)

  /**
   * The filter a module is loaded with: its "filter" string when it has one
   * that is a valid regular expression, otherwise the default.
   * validRegex stands for std::regex's constructor not throwing.
   */
  function ModuleFilter(entry: SafeJson.Json, validRegex: string -> bool): (f: string)
    ensures f == DEFAULT_FILTER || (entry.JObject? && validRegex(f) &&
                                    SafeJson.Lookup(entry.members, "filter") == Some(SafeJson.JString(f)))
  {
    if entry.JObject? then
      var p := SafeJson.Lookup(entry.members, "filter");
      if p.Some? && p.value.JString? && validRegex(p.value.s) then p.value.s else DEFAULT_FILTER
    else DEFAULT_FILTER
  }

  /** The folder of a module, when it has a "folder" string. */
  function ModuleFolder(entry: SafeJson.Json): (r: Option<string>)
    ensures r.Some? <==> entry.JObject? && SafeJson.Lookup(entry.members, "folder").Some? &&
                         SafeJson.Lookup(entry.members, "folder").value.JString?
  {
    if entry.JObject? then
      var folder := SafeJson.Lookup(entry.members, "folder");
      if folder.Some? && folder.value.JString? then Some(folder.value.s) else None
    else None
  }

  /** The loads requested by the members of "modules": those with a folder, in order. */
  function ModuleLoads(modules: seq<SafeJson.Member>, validRegex: string -> bool): (r: seq<ModuleLoad>)
    ensures |r| <= |modules|
  {
    if |modules| == 0 then []
    else
      var m := modules[|modules| - 1];
      var init := ModuleLoads(modules[..|modules| - 1], validRegex);
      match ModuleFolder(m.value)
      case None => init
      case Some(folder) => init + [ModuleLoad(m.key, folder, ModuleFilter(m.value, validRegex))]
  }

  /** Every module with a folder string is loaded. */
  lemma {:induction false} ModuleLoadsComplete(modules: seq<SafeJson.Member>, validRegex: string -> bool, k: nat)
    requires k < |modules| && ModuleFolder(modules[k].value).Some?
    ensures ModuleLoad(modules[k].key, ModuleFolder(modules[k].value).value, ModuleFilter(modules[k].value, validRegex))
              in ModuleLoads(modules, validRegex)
    decreases |modules|
  {
    if k < |modules| - 1 {
      var init := modules[..|modules| - 1];
      assert init[k] == modules[k];
      ModuleLoadsComplete(init, validRegex, k);
    }
  }

  /** Only modules with a folder string are loaded, each with its own name and folder. */
  lemma {:induction false} ModuleLoadsSound(modules: seq<SafeJson.Member>, validRegex: string -> bool, l: ModuleLoad)
    requires l in ModuleLoads(modules, validRegex)
    ensures exists k :: 0 <= k < |modules| && modules[k].key == l.name && ModuleFolder(modules[k].value) == Some(l.folder)
    decreases |modules|
  {
    var init := modules[..|modules| - 1];
    if l in ModuleLoads(init, validRegex) {
      ModuleLoadsSound(init, validRegex, l);
      var k :| 0 <= k < |init| && init[k].key == l.name && ModuleFolder(init[k].value) == Some(l.folder);
      assert modules[k] == init[k];
    } else {
      assert modules[|modules| - 1].key == l.name;
    }
  }

  /** The "modules" object of the deserialised JSON; None means no module is loaded. */
  function ModulesObject(j: SafeJson.Json): (r: Option<seq<SafeJson.Member>>)
    ensures r.Some? <==> j.JObject? && SafeJson.Lookup(j.members, "modules").Some? &&
                         SafeJson.Lookup(j.members, "modules").value.JObject?
  {
    if j.JObject? then
      var ms := SafeJson.Lookup(j.members, "modules");
      if ms.Some? && ms.value.JObject? then Some(ms.value.members) else None
    else None
  }

  // ------------------------------------------------------------------
  // The script model
  // ------------------------------------------------------------------

  class Script {
    var cachedRegistrants: seq<Registrant>
    var successfulRegistrants: set<TypeId>
    var lastKnownJSON: SafeJson.Json

    predicate Valid()
      reads this
    {
      CacheValid(cachedRegistrants, successfulRegistrants)
    }

    constructor ()
      ensures Valid()
      ensures cachedRegistrants == [] && successfulRegistrants == {} && lastKnownJSON == SafeJson.JNull
    {
      cachedRegistrants := [];
      successfulRegistrants := {};
      lastKnownJSON := SafeJson.JNull;
    }

    /** _getCachedRegistrantIdentities(). */
    method CachedRegistrantIdentities() returns (ids: set<TypeId>)
      ensures ids == Ids(cachedRegistrants)
    {
      ids := {};
      var k := 0;
      while k < |cachedRegistrants|
        invariant 0 <= k <= |cachedRegistrants|
        invariant ids == Ids(cachedRegistrants[..k])
      {
        assert cachedRegistrants[..k + 1] == cachedRegistrants[..k] + [cachedRegistrants[k]];
        IdsConcat(cachedRegistrants[..k], [cachedRegistrants[k]]);
        ids := ids + {cachedRegistrants[k].id};
        k := k + 1;
      }
      assert cachedRegistrants[..k] == cachedRegistrants;
    }

    /**
     * _registerInterface: validates the command against every cached and
     * registered identity, pushes it to the front of the cache, then runs
     * the callbacks that have become ready. A throwing callback is rethrown
     * as CallbackThrew after being erased.
     */
    method RegisterInterface(command: Command) returns (res: Result<(), Error>)
      requires Valid()
      modifies this
      ensures Valid()
      ensures lastKnownJSON == old(lastKnownJSON)
      ensures var v := Validate(command, Ids(old(cachedRegistrants)) + old(successfulRegistrants));
              v.Failure? ==> res == Failure(v.error) &&
                             cachedRegistrants == old(cachedRegistrants) &&
                             successfulRegistrants == old(successfulRegistrants)
      ensures var v := Validate(command, Ids(old(cachedRegistrants)) + old(successfulRegistrants));
              v.Success? ==>
                var o := Resolved([v.value] + old(cachedRegistrants), old(successfulRegistrants));
                cachedRegistrants == o.cache && successfulRegistrants == o.successful &&
                (res.Success? <==> o.failed.None?) &&
                (o.failed.Some? ==> res == Failure(CallbackThrew(o.failed.value.id)))
    {
      var existing := CachedRegistrantIdentities();
      existing := existing + successfulRegistrants;
      var v := Validate(command, existing);
      if v.Failure? {
        return Failure(v.error);
      }
      PushKeepsValid(cachedRegistrants, successfulRegistrants, v.value);
      cachedRegistrants := [v.value] + cachedRegistrants;
      ResolvedKeepsValid(cachedRegistrants, successfulRegistrants);
      res := Traverse();
    }

    /**
     * The traversal of the registrant cache that follows every push; a
     * throwing callback ends it with CallbackThrew.
     */
    method Traverse() returns (res: Result<(), Error>)
      modifies this
      ensures lastKnownJSON == old(lastKnownJSON)
      ensures var o := Resolved(old(cachedRegistrants), old(successfulRegistrants));
              cachedRegistrants == o.cache && successfulRegistrants == o.successful &&
              (res.Success? <==> o.failed.None?) &&
              (o.failed.Some? ==> res == Failure(CallbackThrew(o.failed.value.id)))
    {
      var cache, successful;
      cache, successful, res := TraverseCache(cachedRegistrants, successfulRegistrants);
      cachedRegistrants := cache;
      successfulRegistrants := successful;
    }

    /**
     * fromJSON: remembers the JSON, refuses when registrants are still
     * cached, and otherwise names the modules to load (after discarding the
     * old ones). validRegex stands for std::regex accepting a filter.
     */
    method FromJSON(j: SafeJson.Json, validRegex: string -> bool) returns (res: Result<seq<ModuleLoad>, Error>)
      modifies this
      ensures lastKnownJSON == j
      ensures cachedRegistrants == old(cachedRegistrants) && successfulRegistrants == old(successfulRegistrants)
      ensures |old(cachedRegistrants)| > 0 <==> res.Failure?
      ensures res.Failure? ==> res.error == RegistrantsStillCached(|old(cachedRegistrants)|)
      ensures res.Success? ==>
                res.value == match ModulesObject(j) case None => [] case Some(ms) => ModuleLoads(ms, validRegex)
    {
      lastKnownJSON := j;
      if |cachedRegistrants| > 0 {
        return Failure(RegistrantsStillCached(|cachedRegistrants|));
      }
      var modules := ModulesObject(j);
      if modules.None? {
        return Success([]);
      }
      var ms := modules.value;
      var loads: seq<ModuleLoad> := [];
      var k := 0;
      while k < |ms|
        invariant 0 <= k <= |ms|
        invariant loads == ModuleLoads(ms[..k], validRegex)
      {
        assert ms[..k + 1][..k] == ms[..k];
        var folder := ModuleFolder(ms[k].value);
        if folder.None? {
          k := k + 1;
          continue;
        }
        loads := loads + [ModuleLoad(ms[k].key, folder.value, ModuleFilter(ms[k].value, validRegex))];
        k := k + 1;
      }
      assert ms[..k] == ms;
      res := Success(loads);
    }

    /** toJSON: the JSON last given to fromJSON. */
    method ToJSON() returns (j: SafeJson.Json)
      ensures j == lastKnownJSON
    {
      j := lastKnownJSON;
    }
  }

  /** Pushing a validated registrant to the front keeps the invariant. */
  lemma PushKeepsValid(cache: seq<Registrant>, successful: set<TypeId>, r: Registrant)
    requires CacheValid(cache, successful)
    requires r.id !in Ids(cache) + successful && r.id !in r.dependencies
    ensures CacheValid([r] + cache, successful)
  {
    var c := [r] + cache;
    forall j, k | 0 <= j < k < |c| ensures c[j].id != c[k].id {
      assert c[k] == cache[k - 1];
      if j > 0 {
        assert c[j] == cache[j - 1];
      }
    }
  }
}
