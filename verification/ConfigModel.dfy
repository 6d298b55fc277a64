/**
 The option context stack of m_config.c as a value: what every operation does to
 the option list, the save slots and the program variables.

 An option that is the first to name a variable owns a chain of save slots, kept
 here oldest first; the slot at index 0 is the level-0 default.  A later option on
 the same variable is an alias: it holds the one slot that was on top of the chain
 when it was registered, whatever happens to the chain afterwards.
 */
module ConfigModel {
  import opened Util

  type Value = string

  /** The program variable an option writes. */
  class Variable {
    var value: Value

    constructor (v: Value)
      ensures value == v
    {
      value := v;
    }
  }

  datatype Mode = ConfigFile | CommandLine | PreParse

  /** An option's own parser is an oracle: code is negative when the parameter is
      refused and otherwise the number of arguments consumed; value is what an
      accepted parameter makes of the data in the slot it is parsed into. */
  datatype Desc = Desc(
    global: bool, noSave: bool, legacy: bool, noCfg: bool, noCmd: bool, preParse: bool, wildcard: bool,
    code: Option<string> -> int,
    value: (Option<string>, Value) -> Value)

  datatype Saved = Saved(lvl: int, data: Value)

  datatype Home =
    | Own(chain: seq<Saved>)
    | Alias(owner: nat, slot: nat)

  datatype Opt = Opt(name: string, desc: Desc, variable: Variable, home: Home, isSet: bool)

  /** Options are in registration order; the C list is the reverse. */
  datatype Cfg = Cfg(lvl: int, mode: Mode, opts: seq<Opt>, vars: map<Variable, Value>)

  const UNKNOWN := -1
  const INVALID := -3

  // ---------------------------------------------------------------- well-formed states

  /** Push gives option o a new slot (a legacy option only when it is set). */
  predicate Saves(o: Opt) {
    !o.desc.global && !o.desc.noSave && (o.desc.legacy ==> o.isSet) && o.home.Own?
  }

  /** Pop looks at the chain of option o. */
  predicate Pops(o: Opt) {
    !o.desc.global && !o.desc.noSave && o.home.Own?
  }

  ghost predicate ChainOk(chain: seq<Saved>) {
    && |chain| > 0
    && chain[0].lvl == 0
    && (forall i, j | 0 <= i < j < |chain| :: chain[i].lvl < chain[j].lvl)
  }

  ghost predicate OptOk(opts: seq<Opt>, lvl: int, i: int)
    requires 0 <= i < |opts|
  {
    match opts[i].home
    case Own(chain) => ChainOk(chain) && (Pops(opts[i]) ==> Top(chain).lvl <= lvl)
    case Alias(x, k) => x < i && opts[x].home.Own? && opts[x].variable == opts[i].variable
  }

  ghost predicate OwnersDistinct(opts: seq<Opt>) {
    forall i, j | 0 <= i < j < |opts| && opts[i].home.Own? && opts[j].home.Own? ::
      opts[i].variable != opts[j].variable
  }

  ghost predicate Valid(c: Cfg) {
    && c.lvl >= 1
    && (forall i | 0 <= i < |c.opts| :: OptOk(c.opts, c.lvl, i))
    && (forall i | 0 <= i < |c.opts| :: c.opts[i].variable in c.vars)
    && OwnersDistinct(c.opts)
  }

  /** The slot option i holds exists and is not freed by popping back to level b. */
  ghost predicate SlotAlive(opts: seq<Opt>, b: int, i: int)
    requires 0 <= i < |opts|
  {
    match opts[i].home
    case Own(chain) => true
    case Alias(x, k) =>
      && x < |opts| && opts[x].home.Own?
      && k < |opts[x].home.chain|
      && (Pops(opts[x]) ==> opts[x].home.chain[k].lvl <= b)
  }

  ghost predicate Alive(c: Cfg, b: int) {
    forall i | 0 <= i < |c.opts| :: SlotAlive(c.opts, b, i)
  }

  lemma AliveUp(c: Cfg, b: int, b': int)
    requires Alive(c, b) && b <= b'
    ensures Alive(c, b')
  {
    forall i | 0 <= i < |c.opts| ensures SlotAlive(c.opts, b', i) { assert SlotAlive(c.opts, b, i); }
  }

  // ---------------------------------------------------------------- push and pop

  function Top(chain: seq<Saved>): Saved
    requires |chain| > 0
  {
    chain[|chain| - 1]
  }

  function SetTop(chain: seq<Saved>, v: Value): seq<Saved>
    requires |chain| > 0
  {
    chain[|chain| - 1 := Top(chain).(data := v)]
  }

  /** The slots that survive popping level lvl. */
  function Below(chain: seq<Saved>, lvl: int): (r: seq<Saved>)
    requires |chain| > 0 && chain[0].lvl < lvl
    ensures 0 < |r| <= |chain| && r == chain[..|r|]
    ensures Top(r).lvl < lvl
    ensures |r| < |chain| ==> chain[|r|].lvl >= lvl
  {
    if Top(chain).lvl >= lvl then Below(chain[..|chain| - 1], lvl) else chain
  }

  function PushOpt(o: Opt, v: Value, lvl: int): Opt
    requires Saves(o) ==> |o.home.chain| > 0
  {
    if Saves(o) then o.(home := Own(SetTop(o.home.chain, v) + [Saved(lvl, v)]), isSet := false) else o
  }

  function PopOpt(o: Opt, lvl: int): Opt
    requires Pops(o) ==> |o.home.chain| > 0 && o.home.chain[0].lvl < lvl
  {
    if Pops(o) then o.(home := Own(Below(o.home.chain, lvl))) else o
  }

  function Push(c: Cfg): (r: Cfg)
    requires Valid(c)
  {
    c.(lvl := c.lvl + 1,
       opts := seq(|c.opts|, i requires 0 <= i < |c.opts| =>
         assert OptOk(c.opts, c.lvl, i); PushOpt(c.opts[i], c.vars[c.opts[i].variable], c.lvl + 1)))
  }

  lemma PushOptOk(c: Cfg, i: nat)
    requires Valid(c) && i < |c.opts|
    ensures OptOk(Push(c).opts, c.lvl + 1, i)
  {
    assert OptOk(c.opts, c.lvl, i);
    match c.opts[i].home
    case Own(chain) =>
    case Alias(x, k) => assert OptOk(c.opts, c.lvl, x);
  }

  lemma PushValid(c: Cfg)
    requires Valid(c)
    ensures Valid(Push(c)) && Push(c).lvl == c.lvl + 1
  {
    var r := Push(c);
    forall i | 0 <= i < |r.opts| ensures OptOk(r.opts, r.lvl, i) { PushOptOk(c, i); }
  }

  lemma PushAlive(c: Cfg, b: int)
    requires Valid(c) && Alive(c, b)
    ensures Alive(Push(c), b)
  {
    forall i | 0 <= i < |c.opts| ensures SlotAlive(Push(c).opts, b, i) {
      assert OptOk(c.opts, c.lvl, i) && SlotAlive(c.opts, b, i);
    }
  }

  lemma PushReady(c: Cfg)
    requires Valid(c) && Alive(c, c.lvl)
    ensures Valid(Push(c)) && Push(c).lvl == c.lvl + 1 && Alive(Push(c), c.lvl + 1)
    ensures forall b | b <= c.lvl :: Alive(c, b) ==> Alive(Push(c), b)
  {
    PushValid(c);
    forall b | b <= c.lvl && Alive(c, b) ensures Alive(Push(c), b) { PushAlive(c, b); }
    AliveUp(Push(c), c.lvl, c.lvl + 1);
  }

  /** The first of the first n options that owns variable v. */
  function OwnerOf(opts: seq<Opt>, v: Variable, n: nat): (r: Option<nat>)
    requires n <= |opts|
    ensures r.Some? ==> r.value < n && opts[r.value].home.Own? && opts[r.value].variable == v
    ensures r.None? ==> forall i | 0 <= i < n :: opts[i].home.Own? ==> opts[i].variable != v
  {
    if n == 0 then None
    else
      var r := OwnerOf(opts, v, n - 1);
      if r.Some? then r
      else if opts[n - 1].home.Own? && opts[n - 1].variable == v then Some(n - 1) else None
  }

  lemma {:induction false} OwnerUnique(opts: seq<Opt>, x: nat, n: nat)
    requires OwnersDistinct(opts) && x < n <= |opts| && opts[x].home.Own?
    ensures OwnerOf(opts, opts[x].variable, n) == Some(x)
  {
    if x < n - 1 { OwnerUnique(opts, x, n - 1); }
    else { assert OwnerOf(opts, opts[x].variable, n - 1).None?; }
  }

  /** The value variable v has after popping: its owner's surviving top slot when a slot was dropped. */
  function PopValue(c: Cfg, v: Variable): Value
    requires Valid(c) && v in c.vars
  {
    match OwnerOf(c.opts, v, |c.opts|)
    case None => c.vars[v]
    case Some(i) =>
      var o := c.opts[i];
      assert OptOk(c.opts, c.lvl, i);
      if Pops(o) && |PopOpt(o, c.lvl).home.chain| < |o.home.chain|
      then Top(PopOpt(o, c.lvl).home.chain).data
      else c.vars[v]
  }

  /** Removes every slot of the current level and above. */
  function Pop(c: Cfg): (r: Cfg)
    requires Valid(c)
  {
    c.(lvl := c.lvl - 1,
       opts := seq(|c.opts|, i requires 0 <= i < |c.opts| => assert OptOk(c.opts, c.lvl, i); PopOpt(c.opts[i], c.lvl)),
       vars := map v | v in c.vars :: PopValue(c, v))
  }

  lemma PopOptOk(c: Cfg, i: nat)
    requires Valid(c) && i < |c.opts|
    ensures OptOk(Pop(c).opts, c.lvl - 1, i)
  {
    assert OptOk(c.opts, c.lvl, i);
    match c.opts[i].home
    case Own(chain) =>
    case Alias(x, k) => assert OptOk(c.opts, c.lvl, x);
  }

  lemma PopValid(c: Cfg)
    requires Valid(c) && c.lvl > 1
    ensures Valid(Pop(c)) && Pop(c).lvl == c.lvl - 1
  {
    var r := Pop(c);
    forall i | 0 <= i < |r.opts| ensures OptOk(r.opts, r.lvl, i) { PopOptOk(c, i); }
  }

  lemma PopAlive(c: Cfg, b: int)
    requires Valid(c) && Alive(c, b) && b < c.lvl
    ensures Alive(Pop(c), b)
  {
    forall i | 0 <= i < |c.opts| ensures SlotAlive(Pop(c).opts, b, i) {
      assert OptOk(c.opts, c.lvl, i) && SlotAlive(c.opts, b, i);
      if c.opts[i].home.Alias? { assert OptOk(c.opts, c.lvl, c.opts[i].home.owner); }
    }
  }

  // ---------------------------------------------------------------- setting an option

  /** m_config_get_co: exact names ignoring case, or the part before the star. */
  predicate NameMatches(name: string, wildcard: bool, arg: string) {
    if wildcard && |name| > 0 && name[|name| - 1] == '*' then
      |name| - 1 <= |arg| && Lower(name[..|name| - 1]) == Lower(arg[..|name| - 1])
    else
      Lower(name) == Lower(arg)
  }

  predicate Answers(o: Opt, arg: string) {
    NameMatches(o.name, o.desc.wildcard, arg)
  }

  /** The newest of the first n options that answers to the name. */
  function Find(opts: seq<Opt>, arg: string, n: nat): (r: Option<nat>)
    requires n <= |opts|
    ensures r.Some? ==> r.value < n && Answers(opts[r.value], arg)
    ensures r.Some? ==> forall i | r.value < i < n :: !Answers(opts[i], arg)
    ensures r.None? ==> forall i | 0 <= i < n :: !Answers(opts[i], arg)
  {
    if n == 0 then None
    else if Answers(opts[n - 1], arg) then Some(n - 1)
    else Find(opts, arg, n - 1)
  }

  predicate Forbidden(mode: Mode, d: Desc) {
    (mode == ConfigFile && d.noCfg) || (mode == CommandLine && d.noCmd)
  }

  /** While pre-parsing only the pre-parse options are set; later such an option is
      set only when it was not set before. */
  predicate Writes(mode: Mode, desc: Desc, isSet: bool) {
    if mode == PreParse then desc.preParse else !(desc.preParse && isSet)
  }

  /** Where option i keeps the data it parses into: an owner and a slot index. */
  function SlotOf(c: Cfg, i: nat): (r: (nat, nat))
    requires Valid(c) && Alive(c, c.lvl) && i < |c.opts|
    ensures r.0 < |c.opts| && c.opts[r.0].home.Own? && r.1 < |c.opts[r.0].home.chain|
    ensures c.opts[r.0].variable == c.opts[i].variable
  {
    assert OptOk(c.opts, c.lvl, i) && SlotAlive(c.opts, c.lvl, i);
    match c.opts[i].home
    case Own(chain) => (i, |chain| - 1)
    case Alias(x, k) => (x, k)
  }

  function SetData(chain: seq<Saved>, k: nat, v: Value): seq<Saved>
    requires k < |chain|
  {
    chain[k := chain[k].(data := v)]
  }

  /** Parses into the option's slot, copies the slot to the variable and marks the option set. */
  function Write(c: Cfg, i: nat, param: Option<string>): (r: Cfg)
    requires Valid(c) && Alive(c, c.lvl) && i < |c.opts|
  {
    var (x, k) := SlotOf(c, i);
    var v := c.opts[i].desc.value(param, c.opts[x].home.chain[k].data);
    var opts := c.opts[x := c.opts[x].(home := Own(SetData(c.opts[x].home.chain, k, v)))];
    c.(opts := opts[i := opts[i].(isSet := true)], vars := c.vars[c.opts[i].variable := v])
  }

  /** A write moves no option, frees no slot and changes no level. */
  lemma WriteShape(c: Cfg, i: nat, param: Option<string>, j: nat)
    requires Valid(c) && Alive(c, c.lvl) && i < |c.opts| && j < |c.opts|
    ensures var o, o' := c.opts[j], Write(c, i, param).opts[j];
      && o'.variable == o.variable && o'.desc == o.desc && o'.name == o.name
      && o'.home.Own? == o.home.Own?
      && (o.home.Alias? ==> o'.home == o.home)
      && (o.home.Own? ==> |o'.home.chain| == |o.home.chain|)
      && (o.home.Own? ==> forall k | 0 <= k < |o.home.chain| :: o'.home.chain[k].lvl == o.home.chain[k].lvl)
  {
  }

  lemma WriteValid(c: Cfg, i: nat, param: Option<string>)
    requires Valid(c) && Alive(c, c.lvl) && i < |c.opts|
    ensures Valid(Write(c, i, param))
  {
    var r := Write(c, i, param);
    forall j | 0 <= j < |c.opts| ensures OptOk(r.opts, c.lvl, j) {
      assert OptOk(c.opts, c.lvl, j);
      WriteShape(c, i, param, j);
      if c.opts[j].home.Alias? { WriteShape(c, i, param, c.opts[j].home.owner); }
    }
    forall j | 0 <= j < |c.opts|
      ensures r.opts[j].variable == c.opts[j].variable && r.opts[j].home.Own? == c.opts[j].home.Own?
    { WriteShape(c, i, param, j); }
  }

  lemma WriteAlive(c: Cfg, i: nat, param: Option<string>, b: int)
    requires Valid(c) && Alive(c, c.lvl) && i < |c.opts| && Alive(c, b)
    ensures Alive(Write(c, i, param), b)
  {
    var r := Write(c, i, param);
    forall j | 0 <= j < |c.opts| ensures SlotAlive(r.opts, b, j) {
      assert SlotAlive(c.opts, b, j);
      WriteShape(c, i, param, j);
      if c.opts[j].home.Alias? { WriteShape(c, i, param, c.opts[j].home.owner); }
    }
  }

  function ParseOption(c: Cfg, arg: string, param: Option<string>, set_: bool): (r: (Cfg, int))
    requires Valid(c) && Alive(c, c.lvl)
  {
    match Find(c.opts, arg, |c.opts|)
    case None => (c, UNKNOWN)
    case Some(i) =>
      var o := c.opts[i];
      if Forbidden(c.mode, o.desc) then (c, INVALID)
      else
        var r := o.desc.code(param);
        if r < 0 || !set_ || !Writes(c.mode, o.desc, o.isSet) then (c, r) else (Write(c, i, param), r)
  }

  function Set(c: Cfg, arg: string, param: Option<string>): (r: Cfg)
    requires Valid(c) && Alive(c, c.lvl)
  {
    ParseOption(c, arg, param, true).0
  }

  lemma SetValid(c: Cfg, arg: string, param: Option<string>)
    requires Valid(c) && Alive(c, c.lvl)
    ensures Valid(Set(c, arg, param)) && Set(c, arg, param).lvl == c.lvl
    ensures forall b :: Alive(c, b) ==> Alive(Set(c, arg, param), b)
  {
    var f := Find(c.opts, arg, |c.opts|);
    if f.Some? {
      WriteValid(c, f.value, param);
      forall b | Alive(c, b) ensures Alive(Write(c, f.value, param), b) { WriteAlive(c, f.value, param, b); }
    }
  }

  // ---------------------------------------------------------------- registration

  /** The newest of the first n options on variable v. */
  function NewestOn(opts: seq<Opt>, v: Variable, n: nat): (r: Option<nat>)
    requires n <= |opts|
    ensures r.Some? ==> r.value < n && opts[r.value].variable == v
    ensures r.None? ==> forall i | 0 <= i < n :: opts[i].variable != v
  {
    if n == 0 then None
    else if opts[n - 1].variable == v then Some(n - 1)
    else NewestOn(opts, v, n - 1)
  }

  /** Where a new option on variable v keeps its data: it takes over the slot pointer of
      the newest option on v, or gets a default slot and a slot of the current level. */
  function NewHome(c: Cfg, v: Variable): Home
    requires Valid(c) && v in c.vars
  {
    match NewestOn(c.opts, v, |c.opts|)
    case None => Own([Saved(0, c.vars[v]), Saved(c.lvl, c.vars[v])])
    case Some(i) =>
      assert OptOk(c.opts, c.lvl, i);
      match c.opts[i].home
      case Own(chain) => Alias(i, |chain| - 1)
      case Alias(x, k) => Alias(x, k)
  }

  function AddOption(c: Cfg, name: string, desc: Desc, v: Variable): (r: Cfg)
    requires Valid(c) && v in c.vars
  {
    c.(opts := c.opts + [Opt(name, desc, v, NewHome(c, v), false)])
  }

  lemma AddOptionValid(c: Cfg, name: string, desc: Desc, v: Variable)
    requires Valid(c) && v in c.vars && Alive(c, c.lvl)
    ensures Valid(AddOption(c, name, desc, v)) && Alive(AddOption(c, name, desc, v), c.lvl)
  {
    var r := AddOption(c, name, desc, v);
    forall j | 0 <= j < |r.opts| ensures OptOk(r.opts, c.lvl, j) && SlotAlive(r.opts, c.lvl, j) {
      if j < |c.opts| {
        assert OptOk(c.opts, c.lvl, j) && SlotAlive(c.opts, c.lvl, j);
      } else {
        var f := NewestOn(c.opts, v, |c.opts|);
        if f.Some? { assert OptOk(c.opts, c.lvl, f.value) && SlotAlive(c.opts, c.lvl, f.value); }
      }
    }
  }

  /** A new configuration: level 0 is the defaults. */
  function NewCfg(): Cfg {
    Cfg(1, ConfigFile, [], map[])
  }
}
