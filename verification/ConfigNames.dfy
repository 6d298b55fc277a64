/** Which option a name sets, and when it may. */
module ConfigNames {
  import opened Util
  import opened ConfigModel

  // ---------------------------------------------------------------- names

  /** The same letter, large or small. */
  predicate SameLetter(a: char, b: char) {
    a == b || ('A' <= a <= 'Z' && b as int == a as int + 32) || ('A' <= b <= 'Z' && a as int == b as int + 32)
  }

  predicate SameName(a: string, b: string) {
    |a| == |b| && forall i | 0 <= i < |a| :: SameLetter(a[i], b[i])
  }

  predicate BeginsWith(arg: string, stem: string) {
    |stem| <= |arg| && forall i | 0 <= i < |stem| :: SameLetter(stem[i], arg[i])
  }

  /** Option o goes by the name arg: an option of a type with wildcards, if its name ends in a star, by every name that
      begins with what is before the star; any other option by its own name. */
  ghost predicate GoesBy(o: Opt, arg: string) {
    if o.desc.wildcard && exists stem: string :: o.name == stem + "*"
    then exists stem: string :: o.name == stem + "*" && BeginsWith(arg, stem)
    else SameName(o.name, arg)
  }

  lemma LowerSame(a: string, b: string)
    ensures Lower(a) == Lower(b) <==> SameName(a, b)
  {
    if Lower(a) == Lower(b) {
      assert |a| == |Lower(a)| == |b|;
      forall i | 0 <= i < |a| ensures SameLetter(a[i], b[i]) { assert Lower(a)[i] == Lower(b)[i]; }
    }
  }

  lemma StarIs(name: string, arg: string, stem: string)
    requires name == stem + "*"
    ensures NameMatches(name, true, arg) <==> BeginsWith(arg, stem)
  {
    assert name[..|name| - 1] == stem;
    if |stem| <= |arg| { LowerSame(stem, arg[..|stem|]); }
  }

  lemma AnswersIff(o: Opt, arg: string)
    ensures Answers(o, arg) <==> GoesBy(o, arg)
  {
    LowerSame(o.name, arg);
    forall stem: string | o.name == stem + "*" ensures |o.name| > 0 && o.name[|o.name| - 1] == '*' {}
    if o.desc.wildcard {
      if |o.name| > 0 && o.name[|o.name| - 1] == '*' {
        var stem := o.name[..|o.name| - 1];
        assert o.name == stem + "*";
        StarIs(o.name, arg, stem);
        forall other: string | o.name == other + "*" ensures other == stem {
          assert (other + "*")[..|other|] == other;
        }
      }
    }
  }

  /** Option x is the one meant by arg: it goes by that name, and no newer one does. */
  ghost predicate Meant(opts: seq<Opt>, arg: string, x: nat) {
    x < |opts| && GoesBy(opts[x], arg) && forall j | x < j < |opts| :: !GoesBy(opts[j], arg)
  }

  /** A name finds the option it means, and nothing if it means none. */
  lemma FoundIff(opts: seq<Opt>, arg: string)
    ensures forall x: nat :: Find(opts, arg, |opts|) == Some(x) <==> Meant(opts, arg, x)
    ensures Find(opts, arg, |opts|) == None <==> forall j | 0 <= j < |opts| :: !GoesBy(opts[j], arg)
  {
    forall j | 0 <= j < |opts| ensures Answers(opts[j], arg) <==> GoesBy(opts[j], arg) { AnswersIff(opts[j], arg); }
    var f := Find(opts, arg, |opts|);
    forall x: nat ensures f == Some(x) <==> Meant(opts, arg, x) {
      if Meant(opts, arg, x) {
        assert Answers(opts[x], arg);
        assert f.Some? && f.value == x;
      }
    }
  }

  // ---------------------------------------------------------------- setting

  /** The data that option x's parser works on. */
  function DataOf(c: Cfg, x: nat): Value
    requires Valid(c) && Alive(c, c.lvl) && x < |c.opts|
  {
    var (y, k) := SlotOf(c, x);
    c.opts[y].home.chain[k].data
  }

  /** Nothing goes by that name: an error, and nothing is changed. */
  lemma UnknownIs(c: Cfg, arg: string, param: Option<string>, set_: bool)
    requires Valid(c) && Alive(c, c.lvl) && forall j | 0 <= j < |c.opts| :: !GoesBy(c.opts[j], arg)
    ensures ParseOption(c, arg, param, set_) == (c, UNKNOWN)
  {
    FoundIff(c.opts, arg);
  }

  /** An option not meant for config files is refused in one, and one not meant for the command line is refused there;
      and neither anywhere else. */
  lemma RefusedByMode(c: Cfg, arg: string, param: Option<string>, set_: bool, x: nat)
    requires Valid(c) && Alive(c, c.lvl) && Meant(c.opts, arg, x)
    ensures c.mode == ConfigFile && c.opts[x].desc.noCfg ==> ParseOption(c, arg, param, set_) == (c, INVALID)
    ensures c.mode == CommandLine && c.opts[x].desc.noCmd ==> ParseOption(c, arg, param, set_) == (c, INVALID)
    ensures c.mode == ConfigFile && !c.opts[x].desc.noCfg
        ==> ParseOption(c, arg, param, set_).1 == c.opts[x].desc.code(param)
    ensures c.mode == CommandLine && !c.opts[x].desc.noCmd
        ==> ParseOption(c, arg, param, set_).1 == c.opts[x].desc.code(param)
    ensures c.mode == PreParse ==> ParseOption(c, arg, param, set_).1 == c.opts[x].desc.code(param)
  {
    FoundIff(c.opts, arg);
  }

  /** The option meant is allowed here and its parser accepts the parameter. */
  ghost predicate Allowed(c: Cfg, arg: string, param: Option<string>, x: nat) {
    && Meant(c.opts, arg, x) && c.opts[x].desc.code(param) >= 0
    && !(c.mode == ConfigFile && c.opts[x].desc.noCfg) && !(c.mode == CommandLine && c.opts[x].desc.noCmd)
  }

  /** What an accepted option does when it is set: its variable gets what its parser makes of its data, and it counts
      as set; all other variables stay. */
  ghost predicate IsSetTo(c: Cfg, r: Cfg, x: nat, v: Value)
    requires x < |c.opts|
  {
    && r.vars == c.vars[c.opts[x].variable := v] && x < |r.opts| == |c.opts| && r.opts[x].isSet
    && r.lvl == c.lvl && r.mode == c.mode
    && forall j | 0 <= j < |c.opts| && j != x :: r.opts[j].isSet == c.opts[j].isSet
  }

  /** Before the command line proper only pre-parse options are set; afterwards they are set only if they were not set
      before, and all others always. */
  lemma SetOnlyWhen(c: Cfg, arg: string, param: Option<string>, x: nat)
    requires Valid(c) && Alive(c, c.lvl) && Allowed(c, arg, param, x)
    ensures var d, r := c.opts[x].desc, Set(c, arg, param);
      var early, late := c.mode == PreParse && !d.preParse, c.mode != PreParse && d.preParse && c.opts[x].isSet;
      if early || late then r == c
      else
        var v := d.value(param, DataOf(c, x));
        Valid(r) && Alive(r, r.lvl) && IsSetTo(c, r, x, v) && DataOf(r, x) == v
  {
    FoundIff(c.opts, arg);
    WriteSets(c, x, param);
  }

  lemma WriteSets(c: Cfg, x: nat, param: Option<string>)
    requires Valid(c) && Alive(c, c.lvl) && x < |c.opts|
    ensures var r, v := Write(c, x, param), c.opts[x].desc.value(param, DataOf(c, x));
      Valid(r) && Alive(r, r.lvl) && IsSetTo(c, r, x, v) && DataOf(r, x) == v
  {
    WriteValid(c, x, param);
    WriteAlive(c, x, param, c.lvl);
    WriteShape(c, x, param, x);
  }

  /** Checking an option changes nothing, and neither does a parameter that is refused. */
  lemma ChecksOnly(c: Cfg, arg: string, param: Option<string>, set_: bool)
    requires Valid(c) && Alive(c, c.lvl)
    ensures !set_ || ParseOption(c, arg, param, set_).1 < 0 ==> ParseOption(c, arg, param, set_).0 == c
    ensures ParseOption(c, arg, param, set_).1 == ParseOption(c, arg, param, !set_).1
  {
  }

  // ---------------------------------------------------------------- two options on one variable

  /** A second option on a variable works on the data of the first, as long as no level is pushed: what is set by
      either name is what the other one's parser then works on. */
  lemma SharesData(c: Cfg, name: string, desc: Desc, x: nat)
    requires Valid(c) && Alive(c, c.lvl) && x < |c.opts| && c.opts[x].home.Own?
    requires forall i | 0 <= i < |c.opts| && i != x :: c.opts[i].variable != c.opts[x].variable
    ensures var r, n := AddOption(c, name, desc, c.opts[x].variable), |c.opts|;
      Valid(r) && Alive(r, r.lvl) && DataOf(r, n) == DataOf(r, x) == DataOf(c, x)
      && SlotOf(r, n) == SlotOf(r, x)
  {
    AddOptionValid(c, name, desc, c.opts[x].variable);
    NewestIs(c.opts, x, |c.opts|);
  }

  lemma {:induction false} NewestIs(opts: seq<Opt>, x: nat, n: nat)
    requires x < n <= |opts| && forall i | 0 <= i < n && i != x :: opts[i].variable != opts[x].variable
    ensures NewestOn(opts, opts[x].variable, n) == Some(x)
  {
    if x < n - 1 { NewestIs(opts, x, n - 1); }
  }

  /** The first option on a variable begins with the value that the variable has; no other option is touched. */
  lemma NewOptionBegins(c: Cfg, name: string, desc: Desc, v: Variable)
    requires Valid(c) && Alive(c, c.lvl) && v in c.vars && forall i | 0 <= i < |c.opts| :: c.opts[i].variable != v
    ensures var r, n := AddOption(c, name, desc, v), |c.opts|;
      && Valid(r) && Alive(r, r.lvl) && DataOf(r, n) == c.vars[v] && !r.opts[n].isSet
      && r.opts[..n] == c.opts && r.opts[n].name == name && r.opts[n].desc == desc && r.opts[n].variable == v
  {
    AddOptionValid(c, name, desc, v);
  }
}
