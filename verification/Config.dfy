/**
 The option context stack as m_config.c keeps it: option records holding pointers
 into chains of save slots, changed in place by loops over the option list.
 */
module Config {
  import opened Util
  import opened ConfigModel

  class Slot {
    var prev: Slot?
    var lvl: int
    var data: Value
    ghost const home: ConfigOption
    ghost const index: nat

    constructor (prev: Slot?, lvl: int, data: Value, ghost home: ConfigOption, ghost index: nat)
      ensures this.prev == prev && this.lvl == lvl && this.data == data
      ensures this.home == home && this.index == index
    {
      this.prev, this.lvl, this.data, this.home, this.index := prev, lvl, data, home, index;
    }
  }

  class ConfigOption {
    const name: string
    const desc: Desc
    const p: Variable
    const isAlias: bool
    var slots: Slot?
    var isSet: bool
    ghost var chain: seq<Slot>  // the owned slots, oldest first
    ghost var home: Home        // what the slots hold, or which slot an alias captured
    ghost const index: nat

    constructor (name: string, desc: Desc, p: Variable, isAlias: bool, ghost home: Home, ghost index: nat)
      ensures this.name == name && this.desc == desc && this.p == p && this.isAlias == isAlias
      ensures slots == null && !isSet && chain == [] && this.home == home && this.index == index
    {
      this.name, this.desc, this.p, this.isAlias := name, desc, p, isAlias;
      this.slots, this.isSet, this.chain := null, false, [];
      this.home, this.index := home, index;
    }

    ghost function View(): Opt
      reads this
    {
      Opt(name, desc, p, home, isSet)
    }

    ghost predicate SlotLinked(k: nat)
      reads this, chain
      requires home.Own? && k < |chain| == |home.chain|
    {
      && chain[k].home == this && chain[k].index == k
      && chain[k].prev == (if k == 0 then null else chain[k - 1])
      && Saved(chain[k].lvl, chain[k].data) == home.chain[k]
    }

    /** The slot records behind an owning option are exactly its chain, linked through prev. */
    ghost predicate OwnLinked()
      reads this, chain
    {
      && home.Own? && !isAlias
      && chain != [] && |home.chain| == |chain|
      && slots == chain[|chain| - 1]
      && forall k | 0 <= k < |chain| :: SlotLinked(k)
    }

    /** Saves the variable into the top slot and links in a slot of the new level. */
    method PushSlot(lvl: int)
      requires OwnLinked()
      modifies this, slots
      ensures OwnLinked() && fresh(slots) && chain == old(chain) + [slots]
      ensures home == Own(SetTop(old(home).chain, p.value) + [Saved(lvl, p.value)]) && !isSet
    {
      ghost var n := |chain|;
      assert SlotLinked(n - 1);
      // what the variable holds belongs to the level below
      slots.data := p.value;
      var slot := new Slot(slots, lvl, slots.data, this, n);
      slots := slot;
      chain := chain + [slot];
      isSet := false;
      home := Own(SetTop(home.chain, p.value) + [Saved(lvl, p.value)]);
      forall k | 0 <= k < |chain| ensures SlotLinked(k) {
        if k < n { assert old(SlotLinked(k)); }
      }
    }

    method DropTop()
      requires OwnLinked() && |chain| > 1
      modifies this
      ensures OwnLinked() && chain == old(chain)[..|old(chain)| - 1]
      ensures home == Own(old(home).chain[..|old(chain)| - 1]) && isSet == old(isSet)
    {
      ghost var n := |chain| - 1;
      assert SlotLinked(n);
      slots := slots.prev;
      chain := chain[..n];
      home := Own(home.chain[..n]);
      forall k | 0 <= k < n ensures SlotLinked(k) { assert old(SlotLinked(k)); }
    }

    /** Drops the slots of the level and above, then sets the variable if any was dropped. */
    method PopSlots(lvl: int)
      requires OwnLinked() && home.chain[0].lvl < lvl
      modifies this, p
      ensures OwnLinked() && chain <= old(chain)
      ensures home == Own(Below(old(home).chain, lvl)) && isSet == old(isSet)
      ensures p.value == if |chain| < |old(chain)| then Top(home.chain).data else old(p.value)
    {
      var pop := 0;
      assert SlotLinked(|chain| - 1);
      while slots.lvl >= lvl
        invariant OwnLinked() && SlotLinked(|chain| - 1) && chain <= old(chain) && home.chain[0].lvl < lvl
        invariant isSet == old(isSet) && p.value == old(p.value) && pop == |old(chain)| - |chain|
        invariant Below(home.chain, lvl) == Below(old(home).chain, lvl)
        decreases |chain|
      {
        DropTop();
        assert SlotLinked(|chain| - 1);
        pop := pop + 1;
      }
      if pop > 0 {
        // a slot has gone: the variable goes back to the one below
        p.value := slots.data;
      }
    }

    /** An alias points at the slot of its owner that it captured. */
    ghost predicate AliasLinked(owner: ConfigOption)
      reads this, owner
    {
      && home.Alias? && isAlias && chain == []
      && owner.index == home.owner
      && home.slot < |owner.chain| && slots == owner.chain[home.slot]
    }
  }

  class Config {
    var lvl: int
    var mode: Mode
    var opts: seq<ConfigOption>  // in registration order
    ghost var allSlots: set<Slot>
    ghost var variables: set<Variable>

    ghost function Frame(): set<object>
      reads this
    {
      {this as object} + (set o: object | o in opts) + allSlots + variables
    }

    ghost predicate Linked(i: nat)
      reads `opts, `allSlots, `variables, opts, allSlots
      requires i < |opts|
    {
      var o := opts[i];
      && o.index == i
      && o.p in variables
      && (forall k | 0 <= k < |o.chain| :: o.chain[k] in allSlots)
      && if o.home.Own? then o.OwnLinked() else o.home.owner < i && o.AliasLinked(opts[o.home.owner])
    }

    ghost function View(): Cfg
      reads this, opts, variables
    {
      Cfg(lvl, mode, seq(|opts|, i requires 0 <= i < |opts| reads this, opts => opts[i].View()),
          map v | v in variables :: v.value)
    }

    ghost predicate Valid()
      reads this, opts, allSlots, variables
    {
      && Wf()
      && ConfigModel.Valid(View()) && Alive(View(), lvl)
    }

    constructor ()
      ensures Valid() && opts == [] && allSlots == {} && variables == {} && View() == NewCfg()
    {
      lvl, mode, opts, allSlots, variables := 1, ConfigFile, [], {}, {};
    }

    ghost predicate Wf()
      reads `opts, `allSlots, `variables, opts, allSlots
    {
      forall i | 0 <= i < |opts| :: Linked(i)
    }

    /** One turn of the push loop. */
    method PushOption(i: nat)
      requires Wf() && i < |opts|
      modifies `allSlots, opts[i], allSlots
      ensures Wf() && fresh(allSlots - old(allSlots))
      ensures View() == PushAt(old(View()), i)
    {
      assert Linked(i);
      var co := opts[i];
      forall j | 0 <= j < |opts| && j != i ensures co != opts[j] { assert Linked(j); }
      if !co.desc.global && !co.desc.noSave && (co.desc.legacy ==> co.isSet) && !co.isAlias {
        assert co.SlotLinked(|co.chain| - 1);
        co.PushSlot(lvl);
        allSlots := allSlots + {co.slots};
        assert Linked(i);
        forall j | 0 <= j < |opts| && j != i ensures Linked(j) {
          assert old(Linked(j));
          var o := opts[j];
          if o.home.Own? {
            forall k | 0 <= k < |o.chain| ensures o.SlotLinked(k) { assert old(o.SlotLinked(k)); }
          }
        }
      }
    }

    method Push()
      requires Valid()
      modifies this, opts, allSlots, variables
      ensures Valid() && fresh(allSlots - old(allSlots)) && opts == old(opts) && variables == old(variables)
      ensures View() == ConfigModel.Push(old(View()))
    {
      ghost var was := View();
      lvl := lvl + 1;
      ghost var raised := View();
      PushOptions();
      PushFromIs(was, raised);
    }

    /** The loop of the push. */
    method PushOptions()
      requires Wf()
      modifies this, opts, allSlots, variables
      ensures Wf() && fresh(allSlots - old(allSlots)) && opts == old(opts) && variables == old(variables)
      ensures View() == PushFrom(old(View()), 0)
    {
      var i := |opts|;
      while i > 0
        invariant 0 <= i <= |opts| && opts == old(opts) && variables == old(variables)
        invariant fresh(allSlots - old(allSlots))
        invariant Wf() && View() == PushFrom(old(View()), i)
      {
        i := i - 1;
        PushOption(i);
      }
    }

    /** One turn of the pop loop; no alias may hold a slot that goes. */
    method PopOption(i: nat)
      requires Wf() && i < |opts| && lvl >= 1 && OptOk(View().opts, lvl, i) && Alive(View(), lvl - 1)
      modifies opts[i], opts[i].p
      ensures Wf()
      ensures View() == PopAt(old(View()), i)
    {
      assert Linked(i) && View().opts[i] == opts[i].View();
      var co := opts[i];
      forall j | 0 <= j < |opts| && j != i ensures co != opts[j] { assert Linked(j); }
      if !co.desc.global && !co.desc.noSave && !co.isAlias {
        co.PopSlots(lvl);
        assert Linked(i);
        forall j | 0 <= j < |opts| && j != i ensures Linked(j) {
          assert old(Linked(j)) && old(SlotAlive(View().opts, lvl - 1, j));
          var o := opts[j];
          if o.home.Own? {
            forall k | 0 <= k < |o.chain| ensures o.SlotLinked(k) { assert old(o.SlotLinked(k)); }
          }
        }
      }
    }

    method Pop()
      requires Valid() && lvl > 1 && Alive(View(), lvl - 1)
      modifies this, opts, allSlots, variables
      ensures Valid() && allSlots == old(allSlots) && opts == old(opts) && variables == old(variables)
      ensures View() == ConfigModel.Pop(old(View()))
    {
      ghost var was := View();
      var i := |opts|;
      while i > 0
        invariant 0 <= i <= |opts| && opts == old(opts) && variables == old(variables) && allSlots == old(allSlots)
        invariant Wf() && View() == PopFrom(was, i)
      {
        i := i - 1;
        assert Linked(i);
        PopFromReady(was, i + 1);
        PopOption(i);
      }
      lvl := lvl - 1;
      PopFromIs(was, View());
    }

    /** The newest option that answers to the name. */
    method GetCo(arg: string) returns (co: ConfigOption?)
      requires Wf()
      ensures var f := Find(View().opts, arg, |opts|);
        if f.Some? then co == opts[f.value] else co == null
    {
      var i := |opts|;
      while i > 0
        invariant 0 <= i <= |opts|
        invariant Find(View().opts, arg, |opts|) == Find(View().opts, arg, i)
      {
        i := i - 1;
        assert View().opts[i] == opts[i].View();
        if NameMatches(opts[i].name, opts[i].desc.wildcard, arg) {
          return opts[i];
        }
      }
      return null;
    }

    /** Parses into the slot co holds, slot k of option x, and sets the variable from the slot. */
    method SetThroughSlot(ghost x: nat, ghost k: nat, co: ConfigOption, param: Option<string>)
      requires Wf() && x < |opts| && opts[x].home.Own? && k < |opts[x].chain|
      requires co in opts && co.slots == opts[x].chain[k]
      modifies opts[x], co, co.slots, co.p
      ensures Wf() && k < |old(opts[x].home).chain| && co.isSet && co.slots == old(co.slots)
      ensures co.p.value == co.desc.value(param, old(opts[x].home).chain[k].data)
      ensures opts[x].home == Own(SetData(old(opts[x].home).chain, k, co.p.value))
      ensures co != opts[x] ==> co.home == old(co.home) && opts[x].isSet == old(opts[x].isSet)
    {
      ghost var owner := opts[x];
      assert Linked(x) && owner.SlotLinked(k);
      co.slots.data := co.desc.value(param, co.slots.data);
      co.p.value := co.slots.data;
      co.isSet := true;
      owner.home := Own(SetData(owner.home.chain, k, co.slots.data));
      forall j | 0 <= j < |opts| ensures Linked(j) {
        assert old(Linked(j));
        var o := opts[j];
        if o.home.Own? {
          forall m | 0 <= m < |o.chain| ensures o.SlotLinked(m) { assert old(o.SlotLinked(m)); }
        }
      }
    }

    method WriteOption(ghost i: nat, co: ConfigOption, param: Option<string>)
      requires Valid() && i < |opts| && opts[i] == co
      modifies this, opts, allSlots, variables
      ensures Valid() && allSlots == old(allSlots) && opts == old(opts) && variables == old(variables)
      ensures View() == Write(old(View()), i, param)
    {
      ghost var was := View();
      ghost var (x, k) := SlotOf(was, i);
      assert Linked(i) && Linked(x) && was.opts[i] == co.View() && was.opts[x] == opts[x].View();
      SetThroughSlot(x, k, co, param);
      WriteValid(was, i, param);
      WriteAlive(was, i, param, lvl);
      forall j | 0 <= j < |opts| && j != i && j != x ensures opts[j].View() == was.opts[j] {
        assert old(Linked(j)) && old(Linked(i)) && old(Linked(x));
      }
      assert View().opts == Write(was, i, param).opts;
      assert View() == Write(was, i, param);
    }

    method ParseOption(arg: string, param: Option<string>, set_: bool) returns (r: int)
      requires Valid()
      modifies this, opts, allSlots, variables
      ensures Valid() && allSlots == old(allSlots) && opts == old(opts) && variables == old(variables)
      ensures (View(), r) == ConfigModel.ParseOption(old(View()), arg, param, set_)
    {
      var co := GetCo(arg);
      if co == null { return UNKNOWN; }
      ghost var i := Find(View().opts, arg, |opts|).value;
      assert View().opts[i] == co.View();
      if Forbidden(mode, co.desc) { return INVALID; }
      var set' := set_ && Writes(mode, co.desc, co.isSet);
      r := co.desc.code(param);
      if r < 0 { return; }
      if set' { WriteOption(i, co, param); }
    }

    /** The newest option on variable p. */
    method NewestWith(p: Variable) returns (newest: ConfigOption?)
      requires Wf()
      ensures var f := NewestOn(View().opts, p, |opts|);
        if f.Some? then newest == opts[f.value] else newest == null
    {
      var i := |opts|;
      while i > 0
        invariant 0 <= i <= |opts|
        invariant NewestOn(View().opts, p, |opts|) == NewestOn(View().opts, p, i)
      {
        i := i - 1;
        assert View().opts[i] == opts[i].View();
        if opts[i].p == p { return opts[i]; }
      }
      return null;
    }

    /** A record for a new option on p: an alias of newest, or the owner of a two-slot chain. */
    method NewRecord(name: string, desc: Desc, p: Variable, newest: ConfigOption?, ghost home: Home)
      returns (co: ConfigOption)
      requires newest == null ==> home == Own([Saved(0, p.value), Saved(lvl, p.value)])
      ensures fresh(co) && co.View() == Opt(name, desc, p, home, false) && co.index == |opts|
      ensures newest == null ==> co.OwnLinked() && forall s <- co.chain :: fresh(s)
      ensures newest != null ==> co.chain == [] && co.isAlias && co.slots == newest.slots
    {
      co := new ConfigOption(name, desc, p, newest != null, home, |opts|);
      if newest != null {
        co.slots := newest.slots;
      } else {
        var sl := new Slot(null, 0, p.value, co, 0);
        co.slots := new Slot(sl, lvl, sl.data, co, 1);
        co.chain := [sl, co.slots];
        assert co.SlotLinked(0) && co.SlotLinked(1);
      }
    }

    /** Registers an option on variable p.  The first option on p gets a default slot and a slot of
        the current level; a later one only takes over the newest one's slot pointer. */
    method AddOption(name: string, desc: Desc, p: Variable)
      requires Valid()
      modifies this
      ensures Valid() && variables == old(variables) + {p} && fresh(allSlots - old(allSlots))
      ensures |opts| == |old(opts)| + 1 && opts[..|old(opts)|] == old(opts) && fresh(opts[|old(opts)|])
      ensures View() == ConfigModel.AddOption(WithVariable(old(View()), p, p.value), name, desc, p)
    {
      ghost var home := Registered(View(), name, desc, p, p.value);
      // a second option on a variable shares its slots
      var newest := NewestWith(p);
      if newest != null { NewestSlot(View(), p, newest, home); }
      var co := NewRecord(name, desc, p, newest, home);
      Append(co);
      assert View() == ConfigModel.AddOption(WithVariable(old(View()), p, p.value), name, desc, p);
    }

    method Append(co: ConfigOption)
      requires Wf() && co.index == |opts|
      requires if co.home.Own? then co.OwnLinked() else co.home.owner < |opts| && co.AliasLinked(opts[co.home.owner])
      modifies this
      ensures Wf() && variables == old(variables) + {co.p} && opts == old(opts) + [co]
      ensures allSlots == old(allSlots) + set s | s in co.chain
      ensures lvl == old(lvl) && mode == old(mode)
    {
      variables := variables + {co.p};
      allSlots := allSlots + set s | s in co.chain;
      opts := opts + [co];
      forall j | 0 <= j < |opts| ensures Linked(j) {
        if j < |opts| - 1 { assert old(Linked(j)); }
      }
    }

    /** A new alias points at the slot that its home names. */
    lemma NewestSlot(c: Cfg, p: Variable, newest: ConfigOption, home: Home)
      requires Wf() && ConfigModel.Valid(c) && Alive(c, c.lvl) && c.opts == View().opts
      requires NewestOn(c.opts, p, |opts|).Some? && newest == opts[NewestOn(c.opts, p, |opts|).value]
      requires p in c.vars && home == NewHome(c, p)
      ensures home.Alias? && home.owner < |opts| && Linked(home.owner) && opts[home.owner].index == home.owner
      ensures home.slot < |opts[home.owner].chain| && newest.slots == opts[home.owner].chain[home.slot]
    {
      var i := NewestOn(c.opts, p, |opts|).value;
      assert Linked(i) && OptOk(c.opts, c.lvl, i) && c.opts[i] == newest.View();
      if newest.home.Alias? { assert Linked(newest.home.owner); }
    }
  }

  /** What registering does to the model, with the home the new option gets. */
  lemma Registered(c: Cfg, name: string, desc: Desc, p: Variable, v: Value) returns (home: Home)
    requires ConfigModel.Valid(c) && Alive(c, c.lvl)
    ensures var r := ConfigModel.AddOption(WithVariable(c, p, v), name, desc, p);
      && ConfigModel.Valid(r) && Alive(r, r.lvl)
      && r == Cfg(c.lvl, c.mode, c.opts + [Opt(name, desc, p, home, false)], c.vars[p := v])
    ensures NewestOn(c.opts, p, |c.opts|).None? ==> home == Own([Saved(0, v), Saved(c.lvl, v)])
    ensures NewestOn(c.opts, p, |c.opts|).Some? ==> p in c.vars && home == NewHome(c, p)
  {
    WithVariableValid(c, p, v);
    AddOptionValid(WithVariable(c, p, v), name, desc, p);
    home := NewHome(WithVariable(c, p, v), p);
  }

  ghost function WithVariable(c: Cfg, v: Variable, value: Value): Cfg {
    c.(vars := c.vars[v := value])
  }

  lemma WithVariableValid(c: Cfg, v: Variable, value: Value)
    requires ConfigModel.Valid(c) && Alive(c, c.lvl)
    ensures ConfigModel.Valid(WithVariable(c, v, value)) && Alive(WithVariable(c, v, value), c.lvl)
  {
    var r := WithVariable(c, v, value);
    forall j | 0 <= j < |r.opts| ensures OptOk(r.opts, r.lvl, j) && SlotAlive(r.opts, r.lvl, j) {
      assert OptOk(c.opts, c.lvl, j) && SlotAlive(c.opts, c.lvl, j);
    }
  }

  // ---------------------------------------------------------------- the loops, one option at a time

  ghost function PushAt(c: Cfg, i: nat): (r: Cfg)
    requires i < |c.opts|
    ensures |r.opts| == |c.opts|
  {
    var o := c.opts[i];
    if Saves(o) && o.home.chain != [] && o.variable in c.vars
    then c.(opts := c.opts[i := PushOpt(o, c.vars[o.variable], c.lvl)]) else c
  }

  ghost function PushFrom(c: Cfg, i: nat): (r: Cfg)
    requires i <= |c.opts|
    ensures |r.opts| == |c.opts|
    decreases |c.opts| - i
  {
    if i == |c.opts| then c else PushAt(PushFrom(c, i + 1), i)
  }

  lemma {:induction false} PushFromAt(c: Cfg, i: nat)
    requires i <= |c.opts|
    ensures var r := PushFrom(c, i);
      && r == c.(opts := r.opts)
      && forall j | 0 <= j < |c.opts| :: r.opts[j] == if j < i then c.opts[j] else PushAt(c, j).opts[j]
    decreases |c.opts| - i
  {
    if i < |c.opts| { PushFromAt(c, i + 1); }
  }

  lemma PushFromIs(c: Cfg, raised: Cfg)
    requires ConfigModel.Valid(c) && Alive(c, c.lvl) && raised == c.(lvl := c.lvl + 1)
    ensures var r := PushFrom(raised, 0); r == Push(c) && ConfigModel.Valid(r) && Alive(r, r.lvl)
  {
    PushFromAt(raised, 0);
    var r := PushFrom(raised, 0);
    forall j | 0 <= j < |c.opts| ensures r.opts[j] == Push(c).opts[j] { assert OptOk(c.opts, c.lvl, j); }
    assert r.opts == Push(c).opts;
    PushValid(c);
    PushAlive(c, c.lvl);
    AliveUp(r, c.lvl, r.lvl);
  }

  predicate Poppable(o: Opt, lvl: int) {
    Pops(o) && o.home.chain != [] && o.home.chain[0].lvl < lvl
  }

  ghost function PopOptAt(o: Opt, lvl: int): Opt {
    if Poppable(o, lvl) then PopOpt(o, lvl) else o
  }

  ghost function PopVarsAt(o: Opt, lvl: int, vars: map<Variable, Value>): (r: map<Variable, Value>)
    ensures o.variable in vars ==> r.Keys == vars.Keys
  {
    if Poppable(o, lvl) && |Below(o.home.chain, lvl)| < |o.home.chain|
    then vars[o.variable := Top(Below(o.home.chain, lvl)).data] else vars
  }

  ghost function PopAt(c: Cfg, i: nat): (r: Cfg)
    requires i < |c.opts|
    ensures |r.opts| == |c.opts|
  {
    c.(opts := c.opts[i := PopOptAt(c.opts[i], c.lvl)], vars := PopVarsAt(c.opts[i], c.lvl, c.vars))
  }

  ghost function PopFrom(c: Cfg, i: nat): (r: Cfg)
    requires i <= |c.opts|
    ensures |r.opts| == |c.opts| && r.lvl == c.lvl && r.mode == c.mode
    decreases |c.opts| - i
  {
    if i == |c.opts| then c else PopAt(PopFrom(c, i + 1), i)
  }

  lemma {:induction false} PopFromAt(c: Cfg, i: nat, j: nat)
    requires i <= |c.opts| && j < |c.opts|
    ensures PopFrom(c, i).opts[j] == if j < i then c.opts[j] else PopOptAt(c.opts[j], c.lvl)
    decreases |c.opts| - i
  {
    if i < |c.opts| {
      PopFromAt(c, i + 1, j);
      PopFromAt(c, i + 1, i);
    }
  }

  /** Half-way, the next option is as it was and no alias has lost its slot. */
  lemma PopFromReady(c: Cfg, i: nat)
    requires ConfigModel.Valid(c) && Alive(c, c.lvl - 1) && 0 < i <= |c.opts|
    ensures OptOk(PopFrom(c, i).opts, c.lvl, i - 1) && Alive(PopFrom(c, i), c.lvl - 1)
  {
    var r, b := PopFrom(c, i), c.lvl - 1;
    forall j | 0 <= j < |r.opts| ensures SlotAlive(r.opts, b, j) {
      assert OptOk(c.opts, c.lvl, j) && SlotAlive(c.opts, b, j);
      PopFromAt(c, i, j);
      if c.opts[j].home.Alias? {
        var x := c.opts[j].home.owner;
        assert OptOk(c.opts, c.lvl, x);
        PopFromAt(c, i, x);
      }
    }
    assert OptOk(c.opts, c.lvl, i - 1);
    PopFromAt(c, i, i - 1);
    if c.opts[i - 1].home.Alias? { PopFromAt(c, i, c.opts[i - 1].home.owner); }
  }

  lemma {:induction false} PopFromKeys(c: Cfg, i: nat)
    requires i <= |c.opts| && forall j | 0 <= j < |c.opts| :: c.opts[j].variable in c.vars
    ensures PopFrom(c, i).vars.Keys == c.vars.Keys
    decreases |c.opts| - i
  {
    if i < |c.opts| {
      PopFromKeys(c, i + 1);
      PopFromAt(c, i + 1, i);
    }
  }

  lemma PopVarsTurn(c: Cfg, v: Variable, i: nat, m: map<Variable, Value>)
    requires ConfigModel.Valid(c) && i < |c.opts| && v in c.vars && m.Keys == c.vars.Keys
    requires OwnerOf(c.opts, v, |c.opts|) == Some(i) ==> m[v] == c.vars[v]
    ensures PopVarsAt(c.opts[i], c.lvl, m)[v] ==
            if OwnerOf(c.opts, v, |c.opts|) == Some(i) then PopValue(c, v) else m[v]
  {
    var o := c.opts[i];
    assert OptOk(c.opts, c.lvl, i);
    if o.home.Own? { OwnerUnique(c.opts, i, |c.opts|); }
  }

  lemma {:induction false} PopFromVars(c: Cfg, v: Variable, i: nat)
    requires ConfigModel.Valid(c) && i <= |c.opts| && v in c.vars
    ensures var x := OwnerOf(c.opts, v, |c.opts|);
      v in PopFrom(c, i).vars &&
      PopFrom(c, i).vars[v] == if x.Some? && x.value >= i then PopValue(c, v) else c.vars[v]
    decreases |c.opts| - i
  {
    if i < |c.opts| {
      PopFromVars(c, v, i + 1);
      PopFromAt(c, i + 1, i);
      PopFromKeys(c, i + 1);
      PopVarsTurn(c, v, i, PopFrom(c, i + 1).vars);
    }
  }

  lemma PopFromOpts(c: Cfg)
    requires ConfigModel.Valid(c) && c.lvl > 1 && Alive(c, c.lvl - 1)
    ensures PopFrom(c, 0).opts == Pop(c).opts
  {
    var opts := PopFrom(c, 0).opts;
    forall j | 0 <= j < |c.opts| ensures j < |opts| && opts[j] == Pop(c).opts[j] {
      PopFromAt(c, 0, j);
      assert OptOk(c.opts, c.lvl, j);
    }
  }

  lemma PopFromAllVars(c: Cfg)
    requires ConfigModel.Valid(c) && c.lvl > 1 && Alive(c, c.lvl - 1)
    ensures PopFrom(c, 0).vars == Pop(c).vars
  {
    PopFromKeys(c, 0);
    forall v | v in c.vars ensures PopFrom(c, 0).vars[v] == PopValue(c, v) { PopFromVars(c, v, 0); }
  }

  lemma PopFromIs(c: Cfg, c': Cfg)
    requires ConfigModel.Valid(c) && c.lvl > 1 && Alive(c, c.lvl - 1)
    requires c' == PopFrom(c, 0).(lvl := c.lvl - 1)
    ensures c' == Pop(c) && ConfigModel.Valid(c') && Alive(c', c'.lvl)
  {
    PopFromOpts(c);
    PopFromAllVars(c);
    PopValid(c);
    PopAlive(c, c.lvl - 1);
  }
}
