/**
 What the option context stack guarantees: which variables a push and its matching
 pop restore, over every balanced run of pushes, pops and settings in between.
 */
module ConfigTheorems {
  import opened Util
  import opened ConfigModel

  /** A balanced run: settings by name, and whole push ... pop blocks. */
  datatype Act =
    | SetAct(name: string, param: Option<string>)
    | Scope(body: seq<Act>)

  function Do(c: Cfg, a: Act): (r: Cfg)
    requires Valid(c) && Alive(c, c.lvl)
    ensures Valid(r) && r.lvl == c.lvl
    ensures forall b | b <= c.lvl :: Alive(c, b) ==> Alive(r, b)
    decreases a
  {
    match a
    case SetAct(name, param) =>
      SetValid(c, name, param);
      Set(c, name, param)
    case Scope(body) =>
      PushValid(c);
      assert forall b | b <= c.lvl && Alive(c, b) :: Alive(Push(c), b) by {
        forall b | b <= c.lvl && Alive(c, b) ensures Alive(Push(c), b) { PushAlive(c, b); }
      }
      AliveUp(Push(c), c.lvl, c.lvl + 1);
      var r := Run(Push(c), body);
      PopValid(r);
      assert forall b | b <= c.lvl && Alive(r, b) :: Alive(Pop(r), b) by {
        forall b | b <= c.lvl && Alive(r, b) ensures Alive(Pop(r), b) { PopAlive(r, b); }
      }
      Pop(r)
  }

  function Run(c: Cfg, acts: seq<Act>): (r: Cfg)
    requires Valid(c) && Alive(c, c.lvl)
    ensures Valid(r) && r.lvl == c.lvl
    ensures forall b | b <= c.lvl :: Alive(c, b) ==> Alive(r, b)
    decreases acts
  {
    if acts == [] then c else Run(Do(c, acts[0]), acts[1..])
  }

  // ---------------------------------------------------------------- what no run changes

  /** o' is o after a run: same names, same slot levels; only data and set flags move. */
  ghost predicate SameBones(o: Opt, o': Opt) {
    && o'.name == o.name && o'.desc == o.desc && o'.variable == o.variable
    && match o.home
       case Own(chain) =>
         && o'.home.Own? && |o'.home.chain| == |chain|
         && forall k | 0 <= k < |chain| :: o'.home.chain[k].lvl == chain[k].lvl
       case Alias(_, _) => o'.home == o.home && (o.isSet ==> o'.isSet)
  }

  ghost predicate SameSkeleton(c: Cfg, c': Cfg) {
    && c'.lvl == c.lvl && c'.mode == c.mode && |c'.opts| == |c.opts|
    && forall i | 0 <= i < |c.opts| :: SameBones(c.opts[i], c'.opts[i])
  }

  lemma SetSkeleton(c: Cfg, name: string, param: Option<string>)
    requires Valid(c) && Alive(c, c.lvl)
    ensures SameSkeleton(c, Set(c, name, param))
  {
    var f := Find(c.opts, name, |c.opts|);
    if f.Some? {
      forall j | 0 <= j < |c.opts| ensures SameBones(c.opts[j], Write(c, f.value, param).opts[j]) {
        WriteShape(c, f.value, param, j);
      }
    }
  }

  /** Popping takes an option that kept its bones since the push back to its bones before it. */
  lemma PopUndoesPushBones(c: Cfg, r: Cfg, i: nat)
    requires Valid(c) && Valid(r) && i < |c.opts| && SameSkeleton(Push(c), r)
    ensures SameBones(c.opts[i], Pop(r).opts[i])
  {
    assert SameBones(Push(c).opts[i], r.opts[i]);
    assert OptOk(c.opts, c.lvl, i) && OptOk(r.opts, r.lvl, i);
  }

  lemma {:induction false} DoSkeleton(c: Cfg, a: Act)
    requires Valid(c) && Alive(c, c.lvl)
    ensures SameSkeleton(c, Do(c, a))
    decreases a
  {
    match a
    case SetAct(name, param) => SetSkeleton(c, name, param);
    case Scope(body) =>
      PushValid(c);
      PushAlive(c, c.lvl);
      AliveUp(Push(c), c.lvl, c.lvl + 1);
      RunSkeleton(Push(c), body);
      forall i | 0 <= i < |c.opts| ensures SameBones(c.opts[i], Do(c, a).opts[i]) {
        PopUndoesPushBones(c, Run(Push(c), body), i);
      }
  }

  lemma {:induction false} RunSkeleton(c: Cfg, acts: seq<Act>)
    requires Valid(c) && Alive(c, c.lvl)
    ensures SameSkeleton(c, Run(c, acts))
    decreases acts
  {
    if acts != [] {
      DoSkeleton(c, acts[0]);
      RunSkeleton(Do(c, acts[0]), acts[1..]);
      var m, r := Do(c, acts[0]), Run(c, acts);
      forall i | 0 <= i < |c.opts| ensures SameBones(c.opts[i], r.opts[i]) {
        assert SameBones(c.opts[i], m.opts[i]) && SameBones(m.opts[i], r.opts[i]);
      }
    }
  }

  // ---------------------------------------------------------------- which slots a run leaves alone

  /** Setting name to param parses into slot k of option x through an alias of x. */
  ghost predicate Hits(c: Cfg, x: nat, k: nat, name: string, param: Option<string>) {
    var f := Find(c.opts, name, |c.opts|);
    && f.Some?
    && c.opts[f.value].home == Alias(x, k)
    && !Forbidden(c.mode, c.opts[f.value].desc)
    && Writes(c.mode, c.opts[f.value].desc, c.opts[f.value].isSet)
    && c.opts[f.value].desc.code(param) >= 0
  }

  ghost function ParsedBy(c: Cfg, name: string, param: Option<string>, v: Value): Value {
    match Find(c.opts, name, |c.opts|)
    case None => v
    case Some(a) => c.opts[a].desc.value(param, v)
  }

  /** No alias can change the value v held in slot k of option x. */
  ghost predicate Harmless(c: Cfg, x: nat, k: nat, v: Value) {
    forall name, param | Hits(c, x, k, name, param) :: ParsedBy(c, name, param, v) == v
  }

  lemma {:induction false} FindSame(c: Cfg, c': Cfg, name: string, n: nat)
    requires SameSkeleton(c, c') && n <= |c.opts|
    ensures Find(c'.opts, name, n) == Find(c.opts, name, n)
  {
    if n > 0 {
      assert SameBones(c.opts[n - 1], c'.opts[n - 1]);
      FindSame(c, c', name, n - 1);
    }
  }

  lemma HarmlessSame(c: Cfg, c': Cfg, x: nat, k: nat, v: Value)
    requires SameSkeleton(c, c') && Harmless(c, x, k, v)
    ensures Harmless(c', x, k, v)
  {
    forall name, param | Hits(c', x, k, name, param) ensures ParsedBy(c', name, param, v) == v {
      FindSame(c, c', name, |c.opts|);
      var a := Find(c.opts, name, |c.opts|).value;
      assert SameBones(c.opts[a], c'.opts[a]);
      assert Hits(c, x, k, name, param);
    }
  }

  lemma HarmlessPush(c: Cfg, x: nat, k: nat, v: Value)
    requires Valid(c) && Harmless(c, x, k, v)
    ensures Harmless(Push(c), x, k, v)
  {
    forall name, param | Hits(Push(c), x, k, name, param) ensures ParsedBy(Push(c), name, param, v) == v {
      FindPush(c, name, |c.opts|);
      assert Hits(c, x, k, name, param);
    }
  }

  lemma {:induction false} FindPush(c: Cfg, name: string, n: nat)
    requires Valid(c) && n <= |c.opts|
    ensures Find(Push(c).opts, name, n) == Find(c.opts, name, n)
  {
    if n > 0 { FindPush(c, name, n - 1); }
  }

  // ---------------------------------------------------------------- what a run does to a slot below the top

  /** What one setting makes of the value v held in slot k of option x, a slot below the top:
      only an alias that holds the slot can change it. */
  ghost function Leak(c: Cfg, name: string, param: Option<string>, x: nat, k: nat, v: Value): Value {
    if Hits(c, x, k, name, param) then ParsedBy(c, name, param, v) else v
  }

  ghost function DoLeak(c: Cfg, a: Act, x: nat, k: nat, v: Value): Value
    requires Valid(c) && Alive(c, c.lvl)
    decreases a
  {
    match a
    case SetAct(name, param) => Leak(c, name, param, x, k, v)
    case Scope(body) =>
      PushReady(c);
      RunLeak(Push(c), body, x, k, v)
  }

  /** What a whole run makes of it. */
  ghost function RunLeak(c: Cfg, acts: seq<Act>, x: nat, k: nat, v: Value): Value
    requires Valid(c) && Alive(c, c.lvl)
    decreases acts
  {
    if acts == [] then v else RunLeak(Do(c, acts[0]), acts[1..], x, k, DoLeak(c, acts[0], x, k, v))
  }

  /** Slot k of option x lies below the top and holds v. */
  ghost predicate Kept(c: Cfg, x: nat, k: nat, v: Value) {
    && x < |c.opts| && c.opts[x].home.Own?
    && k < |c.opts[x].home.chain| - 1
    && c.opts[x].home.chain[k].data == v
  }

  lemma SetKeeps(c: Cfg, name: string, param: Option<string>, x: nat, k: nat, v: Value)
    requires Valid(c) && Alive(c, c.lvl) && Kept(c, x, k, v)
    ensures Kept(Set(c, name, param), x, k, Leak(c, name, param, x, k, v))
  {
    SetSkeleton(c, name, param);
    assert SameBones(c.opts[x], Set(c, name, param).opts[x]);
  }

  lemma {:induction false} DoKeeps(c: Cfg, a: Act, x: nat, k: nat, v: Value)
    requires Valid(c) && Alive(c, c.lvl) && Kept(c, x, k, v)
    ensures Kept(Do(c, a), x, k, DoLeak(c, a, x, k, v))
    decreases a
  {
    match a
    case SetAct(name, param) => SetKeeps(c, name, param, x, k, v);
    case Scope(body) =>
      PushReady(c);
      RunKeeps(Push(c), body, x, k, v);
      DoSkeleton(c, a);
      assert SameBones(c.opts[x], Do(c, a).opts[x]);
  }

  lemma {:induction false} RunKeeps(c: Cfg, acts: seq<Act>, x: nat, k: nat, v: Value)
    requires Valid(c) && Alive(c, c.lvl) && Kept(c, x, k, v)
    ensures Kept(Run(c, acts), x, k, RunLeak(c, acts, x, k, v))
    decreases acts
  {
    if acts != [] {
      DoKeeps(c, acts[0], x, k, v);
      RunKeeps(Do(c, acts[0]), acts[1..], x, k, DoLeak(c, acts[0], x, k, v));
    }
  }

  // ---------------------------------------------------------------- what a block restores

  ghost predicate Restores(c: Cfg, body: seq<Act>, x: nat)
    requires Valid(c) && Alive(c, c.lvl) && x < |c.opts|
  {
    var v := c.opts[x].variable;
    v in Do(c, Scope(body)).vars && Do(c, Scope(body)).vars[v] == c.vars[v]
  }

  /** The slot a push saves the variable into. */
  ghost function SavedSlot(c: Cfg, x: nat): int
    requires x < |c.opts| && c.opts[x].home.Own?
  {
    |c.opts[x].home.chain| - 1
  }

  /** Popping one slot gives the variable what the slot below it holds. */
  lemma PopGives(r: Cfg, x: nat, k: nat, v: Value)
    requires Valid(r) && Kept(r, x, k, v) && Pops(r.opts[x]) && |r.opts[x].home.chain| == k + 2
    requires r.opts[x].home.chain[k].lvl < r.lvl <= r.opts[x].home.chain[k + 1].lvl
    ensures r.opts[x].variable in Pop(r).vars && Pop(r).vars[r.opts[x].variable] == v
  {
    OwnerUnique(r.opts, x, |r.opts|);
    assert OptOk(r.opts, r.lvl, x);
  }

  /** After a block a saved variable has exactly what the block's settings through aliases of its saved
      slot have made of the value it had before. */
  lemma ScopeGives(c: Cfg, body: seq<Act>, x: nat)
    requires Valid(c) && Alive(c, c.lvl) && x < |c.opts| && Saves(c.opts[x])
    ensures SavedSlot(c, x) >= 0 && c.opts[x].variable in c.vars
    ensures var v, r := c.opts[x].variable, Do(c, Scope(body));
      Valid(Push(c)) && Alive(Push(c), c.lvl + 1) && v in r.vars
      && r.vars[v] == RunLeak(Push(c), body, x, SavedSlot(c, x), c.vars[v])
  {
    assert OptOk(c.opts, c.lvl, x);
    var v, k := c.vars[c.opts[x].variable], SavedSlot(c, x);
    PushReady(c);
    var r, w := Run(Push(c), body), RunLeak(Push(c), body, x, k, v);
    RunKeeps(Push(c), body, x, k, v);
    RunSkeleton(Push(c), body);
    assert SameBones(Push(c).opts[x], r.opts[x]);
    PopGives(r, x, k, w);
  }

  // ---------------------------------------------------------------- runs that set own names only

  /** The name is not answered by an alias that holds slot k of option x. */
  ghost predicate OwnName(c: Cfg, x: nat, k: nat, name: string) {
    var f := Find(c.opts, name, |c.opts|);
    f.Some? ==> c.opts[f.value].home != Alias(x, k)
  }

  ghost predicate OwnNamesIn(c: Cfg, x: nat, k: nat, a: Act)
    decreases a
  {
    match a
    case SetAct(name, _) => OwnName(c, x, k, name)
    case Scope(body) => OwnNames(c, x, k, body)
  }

  /** No setting of the run, in nested blocks too, names such an alias. */
  ghost predicate OwnNames(c: Cfg, x: nat, k: nat, acts: seq<Act>)
    decreases acts
  {
    acts == [] || (OwnNamesIn(c, x, k, acts[0]) && OwnNames(c, x, k, acts[1..]))
  }

  /** Names mean the same options in c and c', aliases of the same slots. */
  ghost predicate SameNames(c: Cfg, c': Cfg) {
    && |c'.opts| == |c.opts|
    && (forall name :: Find(c'.opts, name, |c'.opts|) == Find(c.opts, name, |c.opts|))
    && forall i | 0 <= i < |c.opts| && c'.opts[i].home.Alias? :: c'.opts[i].home == c.opts[i].home
  }

  lemma SkeletonNames(c: Cfg, c': Cfg)
    requires SameSkeleton(c, c')
    ensures SameNames(c, c')
  {
    forall name ensures Find(c'.opts, name, |c'.opts|) == Find(c.opts, name, |c.opts|) {
      FindSame(c, c', name, |c.opts|);
    }
    forall i | 0 <= i < |c.opts| && c'.opts[i].home.Alias? ensures c'.opts[i].home == c.opts[i].home {
      assert SameBones(c.opts[i], c'.opts[i]);
    }
  }

  lemma PushNames(c: Cfg)
    requires Valid(c)
    ensures SameNames(c, Push(c))
  {
    forall name ensures Find(Push(c).opts, name, |c.opts|) == Find(c.opts, name, |c.opts|) {
      FindPush(c, name, |c.opts|);
    }
  }

  /** What is an own name stays one while names mean the same. */
  lemma {:induction false} OwnNamesInStay(c: Cfg, c': Cfg, x: nat, k: nat, a: Act)
    requires SameNames(c, c') && OwnNamesIn(c, x, k, a)
    ensures OwnNamesIn(c', x, k, a)
    decreases a
  {
    match a
    case SetAct(_, _) =>
    case Scope(body) => OwnNamesStay(c, c', x, k, body);
  }

  lemma {:induction false} OwnNamesStay(c: Cfg, c': Cfg, x: nat, k: nat, acts: seq<Act>)
    requires SameNames(c, c') && OwnNames(c, x, k, acts)
    ensures OwnNames(c', x, k, acts)
    decreases acts
  {
    if acts != [] {
      OwnNamesInStay(c, c', x, k, acts[0]);
      OwnNamesStay(c, c', x, k, acts[1..]);
    }
  }

  lemma {:induction false} OwnNamesDoNotLeakIn(c: Cfg, a: Act, x: nat, k: nat, v: Value)
    requires Valid(c) && Alive(c, c.lvl) && OwnNamesIn(c, x, k, a)
    ensures DoLeak(c, a, x, k, v) == v
    decreases a
  {
    match a
    case SetAct(_, _) =>
    case Scope(body) =>
      PushReady(c);
      PushNames(c);
      OwnNamesStay(c, Push(c), x, k, body);
      OwnNamesDoNotLeak(Push(c), body, x, k, v);
  }

  lemma {:induction false} OwnNamesDoNotLeak(c: Cfg, acts: seq<Act>, x: nat, k: nat, v: Value)
    requires Valid(c) && Alive(c, c.lvl) && OwnNames(c, x, k, acts)
    ensures RunLeak(c, acts, x, k, v) == v
    decreases acts
  {
    if acts != [] {
      OwnNamesDoNotLeakIn(c, acts[0], x, k, v);
      DoSkeleton(c, acts[0]);
      SkeletonNames(c, Do(c, acts[0]));
      OwnNamesStay(c, Do(c, acts[0]), x, k, acts[1..]);
      OwnNamesDoNotLeak(Do(c, acts[0]), acts[1..], x, k, v);
    }
  }

  /** Every balanced run of pushes, settings and pops that names no alias of the saved slot restores every
      saved variable, at any level and whatever aliases there are. */
  lemma ScopeRestores(c: Cfg, body: seq<Act>, x: nat)
    requires Valid(c) && Alive(c, c.lvl) && x < |c.opts| && Saves(c.opts[x])
    requires SavedSlot(c, x) >= 0 && OwnNames(c, x, SavedSlot(c, x), body)
    ensures Restores(c, body, x)
  {
    ScopeGives(c, body, x);
    PushNames(c);
    OwnNamesStay(c, Push(c), x, SavedSlot(c, x), body);
    OwnNamesDoNotLeak(Push(c), body, x, SavedSlot(c, x), c.vars[c.opts[x].variable]);
  }

  // ---------------------------------------------------------------- all runs at once

  lemma {:induction false} HarmlessDoesNotLeakIn(c: Cfg, a: Act, x: nat, k: nat, v: Value)
    requires Valid(c) && Alive(c, c.lvl) && Harmless(c, x, k, v)
    ensures DoLeak(c, a, x, k, v) == v
    decreases a
  {
    if a.Scope? {
      PushReady(c);
      HarmlessPush(c, x, k, v);
      HarmlessDoesNotLeak(Push(c), a.body, x, k, v);
    }
  }

  lemma {:induction false} HarmlessDoesNotLeak(c: Cfg, acts: seq<Act>, x: nat, k: nat, v: Value)
    requires Valid(c) && Alive(c, c.lvl) && Harmless(c, x, k, v)
    ensures RunLeak(c, acts, x, k, v) == v
    decreases acts
  {
    if acts != [] {
      HarmlessDoesNotLeakIn(c, acts[0], x, k, v);
      DoSkeleton(c, acts[0]);
      HarmlessSame(c, Do(c, acts[0]), x, k, v);
      HarmlessDoesNotLeak(Do(c, acts[0]), acts[1..], x, k, v);
    }
  }

  /** Without an alias that can change the saved slot, every run restores the variable. */
  lemma HarmlessRestores(c: Cfg, body: seq<Act>, x: nat)
    requires Valid(c) && Alive(c, c.lvl) && x < |c.opts| && Saves(c.opts[x])
    requires SavedSlot(c, x) >= 0 && Harmless(c, x, SavedSlot(c, x), c.vars[c.opts[x].variable])
    ensures Restores(c, body, x)
  {
    var v, k := c.vars[c.opts[x].variable], SavedSlot(c, x);
    ScopeGives(c, body, x);
    HarmlessPush(c, x, k, v);
    HarmlessDoesNotLeak(Push(c), body, x, k, v);
  }

  /** A block with one setting in it. */
  lemma DoOne(c: Cfg, name: string, param: Option<string>) returns (r: Cfg)
    requires Valid(c) && Alive(c, c.lvl)
    ensures Valid(Push(c)) && Alive(Push(c), c.lvl + 1)
    ensures r == Set(Push(c), name, param) && Valid(r)
    ensures Do(c, Scope([SetAct(name, param)])) == Pop(r)
  {
    PushValid(c);
    PushAlive(c, c.lvl);
    AliveUp(Push(c), c.lvl, c.lvl + 1);
    SetValid(Push(c), name, param);
    r := Set(Push(c), name, param);
    assert [SetAct(name, param)][1..] == [];
    assert Run(Push(c), [SetAct(name, param)]) == Run(r, []);
  }

  /** A setting through an alias that lands in the saved slot survives the pop. */
  lemma AliasOnSavedSlotLeaks(c: Cfg, x: nat, name: string, param: Option<string>)
    requires Valid(c) && Alive(c, c.lvl) && x < |c.opts| && Saves(c.opts[x]) && SavedSlot(c, x) >= 0
    requires Hits(c, x, SavedSlot(c, x), name, param)
    requires ParsedBy(c, name, param, c.vars[c.opts[x].variable]) != c.vars[c.opts[x].variable]
    ensures !Restores(c, [SetAct(name, param)], x)
  {
    var r := DoOne(c, name, param);
    assert OptOk(c.opts, c.lvl, x);
    FindPush(c, name, |c.opts|);
    OwnerUnique(r.opts, x, |r.opts|);
  }

  /** A push and its pop restore a saved variable over every balanced run in between if and
      only if no accepted alias setting changes the slot the push saved the variable in. */
  lemma RestoresIff(c: Cfg, x: nat)
    requires Valid(c) && Alive(c, c.lvl) && x < |c.opts| && Saves(c.opts[x]) && SavedSlot(c, x) >= 0
    ensures (forall body :: Restores(c, body, x)) <==>
            Harmless(c, x, SavedSlot(c, x), c.vars[c.opts[x].variable])
  {
    var v := c.vars[c.opts[x].variable];
    if Harmless(c, x, SavedSlot(c, x), v) {
      forall body ensures Restores(c, body, x) { HarmlessRestores(c, body, x); }
    } else {
      var name, param :| Hits(c, x, SavedSlot(c, x), name, param) && ParsedBy(c, name, param, v) != v;
      AliasOnSavedSlotLeaks(c, x, name, param);
    }
  }

  /** A variable the push does not save (global, nosave, or legacy and unset) keeps what its own name sets. */
  lemma UnsavedIsNotRestored(c: Cfg, x: nat, name: string, param: Option<string>)
    requires Valid(c) && Alive(c, c.lvl) && x < |c.opts| && c.opts[x].home.Own? && !Saves(c.opts[x])
    requires Find(c.opts, name, |c.opts|) == Some(x)
    requires !Forbidden(c.mode, c.opts[x].desc) && Writes(c.mode, c.opts[x].desc, c.opts[x].isSet)
        && c.opts[x].desc.code(param) >= 0
    requires |c.opts[x].home.chain| > 0
    requires c.opts[x].desc.value(param, Top(c.opts[x].home.chain).data) != c.vars[c.opts[x].variable]
    ensures !Restores(c, [SetAct(name, param)], x)
  {
    var r := DoOne(c, name, param);
    assert OptOk(c.opts, c.lvl, x);
    FindPush(c, name, |c.opts|);
    OwnerUnique(r.opts, x, |r.opts|);
    assert r.opts[x].home.chain == c.opts[x].home.chain[|c.opts[x].home.chain| - 1 := Top(r.opts[x].home.chain)];
  }

  // ---------------------------------------------------------------- why one push is not enough

  /** Every level has given each saved option its own slot, and the aliases hold the slot of level 1. */
  ghost predicate LayeredOpt(o: Opt, lvl: int) {
    match o.home
    case Own(chain) => Pops(o) && !o.desc.legacy ==>
      |chain| == lvl + 1 && forall j | 0 <= j < |chain| :: chain[j].lvl == j
    case Alias(_, k) => k == 1
  }

  ghost predicate Layered(c: Cfg) {
    forall i | 0 <= i < |c.opts| :: LayeredOpt(c.opts[i], c.lvl)
  }

  /** All options were registered at level 1, and none pushed yet. */
  ghost predicate Registered(c: Cfg) {
    c.lvl == 1 && forall i | 0 <= i < |c.opts| && c.opts[i].home.Own? :: |c.opts[i].home.chain| == 2
  }

  lemma AddOptionLayered(c: Cfg, name: string, desc: Desc, v: Variable)
    requires Valid(c) && Registered(c) && Layered(c) && v in c.vars
    ensures Registered(AddOption(c, name, desc, v)) && Layered(AddOption(c, name, desc, v))
  {
    var r := AddOption(c, name, desc, v);
    forall i | 0 <= i < |r.opts| ensures LayeredOpt(r.opts[i], r.lvl) {
      if i < |c.opts| {
        assert LayeredOpt(c.opts[i], c.lvl);
      } else {
        var f := NewestOn(c.opts, v, |c.opts|);
        if f.Some? { assert LayeredOpt(c.opts[f.value], c.lvl) && OptOk(c.opts, c.lvl, f.value); }
      }
    }
  }

  lemma PushLayered(c: Cfg)
    requires Valid(c) && Layered(c)
    ensures Layered(Push(c))
  {
    var r := Push(c);
    forall i | 0 <= i < |r.opts| ensures LayeredOpt(r.opts[i], r.lvl) {
      assert LayeredOpt(c.opts[i], c.lvl) && OptOk(c.opts, c.lvl, i);
    }
  }

  lemma PopLayered(c: Cfg)
    requires Valid(c) && Layered(c) && c.lvl > 1
    ensures Layered(Pop(c))
  {
    var r := Pop(c);
    forall i | 0 <= i < |r.opts| ensures LayeredOpt(r.opts[i], r.lvl) {
      assert LayeredOpt(c.opts[i], c.lvl) && OptOk(c.opts, c.lvl, i);
    }
  }

  lemma SetLayered(c: Cfg, name: string, param: Option<string>)
    requires Valid(c) && Alive(c, c.lvl) && Layered(c)
    ensures Layered(Set(c, name, param))
  {
    SetSkeleton(c, name, param);
    var r := Set(c, name, param);
    forall i | 0 <= i < |r.opts| ensures LayeredOpt(r.opts[i], r.lvl) {
      assert LayeredOpt(c.opts[i], c.lvl) && SameBones(c.opts[i], r.opts[i]);
    }
  }

  /** What the program does with its options: registers them, and then sets, pushes and pops in any order. */
  datatype Registration = Registration(name: string, desc: Desc, variable: Variable)

  datatype Move = SetMove(name: string, param: Option<string>) | PushMove | PopMove

  /** Registers the options in turn; each needs its variable. */
  ghost function RegisterAll(c: Cfg, regs: seq<Registration>): (r: Cfg)
    requires Valid(c) && Alive(c, c.lvl)
    ensures Valid(r) && Alive(r, r.lvl) && r.lvl == c.lvl
    decreases regs
  {
    if regs == [] then c
    else if regs[0].variable !in c.vars then RegisterAll(c, regs[1..])
    else
      AddOptionValid(c, regs[0].name, regs[0].desc, regs[0].variable);
      RegisterAll(AddOption(c, regs[0].name, regs[0].desc, regs[0].variable), regs[1..])
  }

  /** Any moves; a pop of the last level is left out. */
  ghost function Play(c: Cfg, moves: seq<Move>): (r: Cfg)
    requires Valid(c) && Alive(c, 1)
    ensures Valid(r) && Alive(r, 1)
    decreases moves
  {
    if moves == [] then c
    else
      AliveUp(c, 1, c.lvl);
      match moves[0]
      case SetMove(name, param) =>
        SetValid(c, name, param);
        Play(Set(c, name, param), moves[1..])
      case PushMove =>
        PushValid(c);
        PushAlive(c, 1);
        Play(Push(c), moves[1..])
      case PopMove =>
        if c.lvl == 1 then Play(c, moves[1..])
        else
          PopValid(c);
          PopAlive(c, 1);
          Play(Pop(c), moves[1..])
  }

  lemma {:induction false} RegisterAllLayered(c: Cfg, regs: seq<Registration>)
    requires Valid(c) && Alive(c, c.lvl) && Registered(c) && Layered(c)
    ensures Registered(RegisterAll(c, regs)) && Layered(RegisterAll(c, regs))
    decreases regs
  {
    if regs != [] {
      var g := regs[0];
      if g.variable !in c.vars {
        RegisterAllLayered(c, regs[1..]);
      } else {
        AddOptionValid(c, g.name, g.desc, g.variable);
        AddOptionLayered(c, g.name, g.desc, g.variable);
        RegisterAllLayered(AddOption(c, g.name, g.desc, g.variable), regs[1..]);
      }
    }
  }

  lemma {:induction false} PlayLayered(c: Cfg, moves: seq<Move>)
    requires Valid(c) && Alive(c, 1) && Layered(c)
    ensures Layered(Play(c, moves))
    decreases moves
  {
    if moves != [] {
      AliveUp(c, 1, c.lvl);
      match moves[0]
      case SetMove(name, param) =>
        SetValid(c, name, param);
        SetLayered(c, name, param);
        PlayLayered(Set(c, name, param), moves[1..]);
      case PushMove =>
        PushValid(c);
        PushAlive(c, 1);
        PushLayered(c);
        PlayLayered(Push(c), moves[1..]);
      case PopMove =>
        if c.lvl == 1 {
          PlayLayered(c, moves[1..]);
        } else {
          PopValid(c);
          PopAlive(c, 1);
          PopLayered(c);
          PlayLayered(Pop(c), moves[1..]);
        }
    }
  }

  /** From a new configuration, whatever is registered and then set, pushed and popped: each saved option has
      one slot for each level, and no alias holds any but the slot of level 1. */
  lemma AlwaysLayered(vars: map<Variable, Value>, mode: Mode, regs: seq<Registration>, moves: seq<Move>)
    ensures var new_ := NewCfg().(vars := vars, mode := mode);
      && Valid(new_) && Alive(new_, 1)
      && Layered(Play(RegisterAll(new_, regs), moves))
  {
    var new_ := NewCfg().(vars := vars, mode := mode);
    RegisterAllLayered(new_, regs);
    PlayLayered(RegisterAll(new_, regs), moves);
  }

  /** A push from level 2 on is undone by its pop whatever is set in between, under any name. */
  lemma LevelTwoRestores(c: Cfg, x: nat, body: seq<Act>)
    requires Valid(c) && Alive(c, c.lvl) && Layered(c) && c.lvl >= 2
    requires x < |c.opts| && Saves(c.opts[x]) && !c.opts[x].desc.legacy
    ensures Restores(c, body, x)
  {
    assert LayeredOpt(c.opts[x], c.lvl);
    assert Harmless(c, x, SavedSlot(c, x), c.vars[c.opts[x].variable]);
    HarmlessRestores(c, body, x);
  }

  /** With an alias whose name accepts some changing parameter, level 2 is exactly what it takes:
      a block opened at level 1 can leak, one opened after an extra push cannot. */
  lemma AliasedNeedsLevelTwo(c: Cfg, x: nat, name: string, param: Option<string>)
    requires Valid(c) && Alive(c, c.lvl) && Layered(c)
    requires x < |c.opts| && Saves(c.opts[x]) && !c.opts[x].desc.legacy
    requires Hits(c, x, 1, name, param)
    requires ParsedBy(c, name, param, c.vars[c.opts[x].variable]) != c.vars[c.opts[x].variable]
    ensures (forall body :: Restores(c, body, x)) <==> c.lvl >= 2
  {
    assert LayeredOpt(c.opts[x], c.lvl);
    if c.lvl >= 2 {
      forall body ensures Restores(c, body, x) { LevelTwoRestores(c, x, body); }
    } else {
      AliasOnSavedSlotLeaks(c, x, name, param);
    }
  }
}
