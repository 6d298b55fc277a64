/** Which option values are in force at every stop of a walk. */
module IterConfig {
  import opened Util
  import opened ConfigModel
  import opened ConfigTheorems
  import opened PlayTrees
  import opened IterModel

  // ---------------------------------------------------------------- one plain option

  /** A saved option that no other option is an alias of. */
  ghost predicate Tracked(c: Cfg, x: nat) {
    && x < |c.opts| && c.opts[x].home.Own?
    && !c.opts[x].desc.global && !c.opts[x].desc.noSave && !c.opts[x].desc.legacy
    && c.opts[x].home.chain != [] && c.opts[x].variable in c.vars
    && forall a | 0 <= a < |c.opts| :: c.opts[a].home.Alias? ==> c.opts[a].home.owner != x
  }

  /** The values option x has at each level, the current one on top. */
  ghost function Held(c: Cfg, x: nat): seq<Saved>
    requires Tracked(c, x)
  {
    SetTop(c.opts[x].home.chain, c.vars[c.opts[x].variable])
  }

  /** Two configurations with the same options, whatever their values. */
  ghost predicate KinOpt(o: Opt, o': Opt) {
    && o'.name == o.name && o'.desc == o.desc && o'.variable == o.variable
    && o'.home.Own? == o.home.Own? && (o.home.Alias? ==> o'.home == o.home)
  }

  ghost predicate Kin(c: Cfg, c': Cfg) {
    c'.mode == c.mode && |c'.opts| == |c.opts| && forall i | 0 <= i < |c.opts| :: KinOpt(c.opts[i], c'.opts[i])
  }

  lemma {:induction false} KinFind(c: Cfg, c': Cfg, name: string, n: nat)
    requires Kin(c, c') && n <= |c.opts|
    ensures Find(c'.opts, name, n) == Find(c.opts, name, n)
  {
    if n > 0 {
      assert KinOpt(c.opts[n - 1], c'.opts[n - 1]);
      KinFind(c, c', name, n - 1);
    }
  }

  /** Setting name to param changes option x, which is set or not. */
  ghost predicate Applies(c: Cfg, x: nat, isSet: bool, name: string, param: Option<string>)
    requires x < |c.opts|
  {
    var d := c.opts[x].desc;
    && Find(c.opts, name, |c.opts|) == Some(x)
    && !Forbidden(c.mode, d) && Writes(c.mode, d, isSet) && d.code(param) >= 0
  }

  /** What a node's parameters, set in order, make of the value v of option x. */
  ghost function Overlay(c: Cfg, x: nat, v: Value, isSet: bool, params: seq<Param>): Value
    requires x < |c.opts|
    decreases params
  {
    if params == [] then v
    else if Applies(c, x, isSet, params[0].name, params[0].value)
    then Overlay(c, x, c.opts[x].desc.value(params[0].value, v), true, params[1..])
    else Overlay(c, x, v, isSet, params[1..])
  }

  lemma {:induction false} OverlayKin(c: Cfg, c': Cfg, x: nat, v: Value, isSet: bool, params: seq<Param>)
    requires Kin(c, c') && x < |c.opts|
    ensures Overlay(c', x, v, isSet, params) == Overlay(c, x, v, isSet, params)
    decreases params
  {
    assert KinOpt(c.opts[x], c'.opts[x]);
    if params != [] {
      KinFind(c, c', params[0].name, |c.opts|);
      OverlayKin(c, c', x, v, isSet, params[1..]);
      OverlayKin(c, c', x, c.opts[x].desc.value(params[0].value, v), true, params[1..]);
    }
  }

  /** The top slot agrees with the variable. */
  ghost predicate Synced(c: Cfg, x: nat) {
    Tracked(c, x) && Top(c.opts[x].home.chain).data == c.vars[c.opts[x].variable]
  }

  lemma SetKin(c: Cfg, name: string, param: Option<string>)
    requires Valid(c) && Alive(c, c.lvl)
    ensures Kin(c, Set(c, name, param))
  {
    SetSkeleton(c, name, param);
    forall j | 0 <= j < |c.opts| ensures KinOpt(c.opts[j], Set(c, name, param).opts[j]) {
      assert SameBones(c.opts[j], Set(c, name, param).opts[j]);
    }
  }

  lemma WriteHeld(c: Cfg, x: nat, i: nat, param: Option<string>)
    requires Valid(c) && Alive(c, c.lvl) && Synced(c, x) && i < |c.opts|
    ensures var r := Write(c, i, param);
      && Synced(r, x)
      && if i == x
         then Held(r, x) == SetTop(Held(c, x), c.opts[x].desc.value(param, Top(Held(c, x)).data)) && r.opts[x].isSet
         else Held(r, x) == Held(c, x) && r.opts[x].isSet == c.opts[x].isSet
  {
    var r := Write(c, i, param);
    if i != x { OtherVariable(c, x, i); }
    forall a | 0 <= a < |r.opts| && r.opts[a].home.Alias? ensures r.opts[a].home == c.opts[a].home {
      WriteShape(c, i, param, a);
    }
  }

  lemma SetHeld(c: Cfg, x: nat, name: string, param: Option<string>)
    requires Valid(c) && Alive(c, c.lvl) && Synced(c, x)
    ensures var r := Set(c, name, param);
      && Synced(r, x) && Kin(c, r)
      && if Applies(c, x, c.opts[x].isSet, name, param)
         then Held(r, x) == SetTop(Held(c, x), c.opts[x].desc.value(param, Top(Held(c, x)).data)) && r.opts[x].isSet
         else Held(r, x) == Held(c, x) && r.opts[x].isSet == c.opts[x].isSet
  {
    var f := Find(c.opts, name, |c.opts|);
    SetKin(c, name, param);
    if f.Some? { WriteHeld(c, x, f.value, param); }
  }

  /** Only option x itself writes the variable of a tracked option x. */
  lemma OtherVariable(c: Cfg, x: nat, i: nat)
    requires Valid(c) && Alive(c, c.lvl) && Tracked(c, x) && i < |c.opts| && i != x
    ensures c.opts[i].variable != c.opts[x].variable && SlotOf(c, i).0 != x
  {
    var y := SlotOf(c, i).0;
    assert OptOk(c.opts, c.lvl, i);
    assert OwnersDistinct(c.opts);
    if x < y {
      assert c.opts[x].variable != c.opts[y].variable;
    } else {
      assert c.opts[y].variable != c.opts[x].variable;
    }
  }

  lemma PushHeld(c: Cfg, x: nat)
    requires Valid(c) && Tracked(c, x)
    ensures Synced(Push(c), x) && Kin(c, Push(c)) && !Push(c).opts[x].isSet
    ensures Held(Push(c), x) == Held(c, x) + [Saved(c.lvl + 1, Top(Held(c, x)).data)]
  {
    var r := Push(c);
    forall j | 0 <= j < |c.opts| ensures KinOpt(c.opts[j], r.opts[j]) {}
  }

  lemma PopHeld(c: Cfg, x: nat)
    requires Valid(c) && Tracked(c, x) && |c.opts[x].home.chain| > 1 && Top(c.opts[x].home.chain).lvl == c.lvl
    ensures Synced(Pop(c), x) && Kin(c, Pop(c))
    ensures Held(Pop(c), x) == Held(c, x)[..|Held(c, x)| - 1]
  {
    var r, chain := Pop(c), c.opts[x].home.chain;
    assert OptOk(c.opts, c.lvl, x);
    forall j | 0 <= j < |c.opts| ensures KinOpt(c.opts[j], r.opts[j]) { assert OptOk(c.opts, c.lvl, j); }
    OwnerUnique(c.opts, x, |c.opts|);
    assert r.opts[x].home.chain == chain[..|chain| - 1] by {
      assert chain[|chain| - 2].lvl < chain[|chain| - 1].lvl;
    }
  }

  lemma {:induction false} SetParamsHeld(c: Cfg, x: nat, params: seq<Param>)
    requires Valid(c) && Alive(c, c.lvl) && Synced(c, x)
    ensures var r := SetParams(c, params);
      && Synced(r, x) && Kin(c, r)
      && Held(r, x) == SetTop(Held(c, x), Overlay(c, x, Top(Held(c, x)).data, c.opts[x].isSet, params))
    decreases params
  {
    if params != [] {
      var m := Set(c, params[0].name, params[0].value);
      SetHeld(c, x, params[0].name, params[0].value);
      SetValid(c, params[0].name, params[0].value);
      SetParamsHeld(m, x, params[1..]);
      OverlayKin(c, m, x, Top(Held(m, x)).data, m.opts[x].isSet, params[1..]);
      KinTrans(c, m, SetParams(m, params[1..]));
    }
  }

  lemma KinTrans(a: Cfg, b: Cfg, c: Cfg)
    requires Kin(a, b) && Kin(b, c)
    ensures Kin(a, c)
  {
    forall i | 0 <= i < |a.opts| ensures KinOpt(a.opts[i], c.opts[i]) {
      assert KinOpt(a.opts[i], b.opts[i]) && KinOpt(b.opts[i], c.opts[i]);
    }
  }

  ghost function ParamList(params: Option<seq<Param>>): seq<Param> {
    if params.Some? then params.value else []
  }

  lemma PushedParamsHeld(c: Cfg, m: Cfg, x: nat, params: seq<Param>)
    requires Valid(m) && Alive(m, m.lvl) && Tracked(c, x) && Synced(m, x) && Kin(c, m) && !m.opts[x].isSet
    requires Held(m, x) == Held(c, x) + [Saved(m.lvl, Top(Held(c, x)).data)]
    ensures var r := SetParams(m, params);
      && Synced(r, x) && Kin(c, r)
      && Held(r, x) == Held(c, x) + [Saved(m.lvl, Overlay(c, x, Top(Held(c, x)).data, false, params))]
  {
    SetParamsHeld(m, x, params);
    OverlayKin(c, m, x, Top(Held(c, x)).data, false, params);
    KinTrans(c, m, SetParams(m, params));
  }

  /** Pushing a node's parameters adds one level: the value so far, overlaid by the parameters. */
  lemma PushParamsHeld(c: Cfg, x: nat, params: Option<seq<Param>>)
    requires Valid(c) && Alive(c, c.lvl) && Tracked(c, x)
    ensures var r := PushParams(c, params);
      && Synced(r, x) && Kin(c, r)
      && Held(r, x) == Held(c, x) + [Saved(c.lvl + 1, Overlay(c, x, Top(Held(c, x)).data, false, ParamList(params)))]
  {
    PushReady(c);
    PushHeld(c, x);
    if params.Some? { PushedParamsHeld(c, Push(c), x, params.value); }
  }

  // ---------------------------------------------------------------- the levels along a path

  /** The levels of option x with the parameters of every node above n pushed, from the root down. */
  ghost function HeldAbove(p: Playlist, c: Cfg, x: nat, n: PlayTree): (r: seq<Saved>)
    requires PlaylistOk(p) && n in p.shape.kids && Tracked(c, x)
    ensures |r| == |c.opts[x].home.chain| + p.shape.depth[n]
    ensures p.shape.depth[n] > 0 ==> Top(r).lvl == c.lvl + p.shape.depth[n]
    decreases p.shape.depth[n]
  {
    if n == p.shape.root then Held(c, x)
    else
      assert UpOk(p.shape, n) && ChildOk(p.shape, p.shape.up[n], p.shape.pos[n]);
      WithNode(p, c, x, p.shape.up[n], HeldAbove(p, c, x, p.shape.up[n]))
  }

  /** ... and with node n's own parameters on top. */
  ghost function WithNode(p: Playlist, c: Cfg, x: nat, n: PlayTree, above: seq<Saved>): seq<Saved>
    requires PlaylistOk(p) && n in p.shape.kids && x < |c.opts| && above != []
  {
    above + [Saved(c.lvl + p.shape.depth[n] + 1, Overlay(c, x, Top(above).data, false, ParamList(p.params[n])))]
  }

  ghost function HeldAt(p: Playlist, c: Cfg, x: nat, n: PlayTree): seq<Saved>
    requires PlaylistOk(p) && n in p.shape.kids && Tracked(c, x)
  {
    WithNode(p, c, x, n, HeldAbove(p, c, x, n))
  }

  /** The walk that began with configuration c has every level below the entry's own as it should
      be; the entry's own level may hold anything, since options can be set while it plays. */
  ghost predicate OnPath(p: Playlist, it: Iter, c: Cfg, x: nat) {
    && Ready(p, it) && it.cfg.Some? && Valid(c) && Tracked(c, x) && Alive(c, c.lvl)
    && InPlace(it.cfg.value, c, x, HeldAbove(p, c, x, it.tree), c.lvl + |it.stack|, it.pushed)
  }

  /** Above level lvl there is at most one level more. */
  ghost predicate InPlace(now: Cfg, c: Cfg, x: nat, above: seq<Saved>, lvl: int, pushed: bool) {
    && Valid(now) && Alive(now, c.lvl) && Kin(c, now) && Tracked(now, x) && (pushed ==> Synced(now, x))
    && now.lvl == lvl + (if pushed then 1 else 0)
    && if pushed then
        && |Held(now, x)| == |above| + 1 && Held(now, x)[..|above|] == above && Top(Held(now, x)).lvl == now.lvl
      else
        Held(now, x) == above
  }

  /** ... and the entry's own level is exactly its parameters. */
  ghost predicate AtEntry(p: Playlist, it: Iter, c: Cfg, x: nat) {
    OnPath(p, it, c, x) && it.pushed && Held(it.cfg.value, x) == HeldAt(p, c, x, it.tree)
  }

  // ---------------------------------------------------------------- every move keeps to the path

  lemma LeaveOnPath(p: Playlist, it: Iter, c: Cfg, x: nat)
    requires OnPath(p, it, c, x)
    ensures OnPath(p, Leave(p, it), c, x) && !Leave(p, it).pushed
  {
    if it.pushed { PoppedHeld(it.cfg.value, c, x); }
  }

  /** One level less, and still no lower than where the walk began. */
  lemma PoppedHeld(now: Cfg, c: Cfg, x: nat)
    requires Valid(now) && Alive(now, c.lvl) && now.lvl > c.lvl >= 1 && Kin(c, now) && Tracked(now, x)
    requires |Held(now, x)| > 1 && Top(Held(now, x)).lvl == now.lvl
    ensures var r := Pop(now);
      && Valid(r) && Alive(r, c.lvl) && r.lvl == now.lvl - 1 && Kin(c, r) && Synced(r, x)
      && Held(r, x) == Held(now, x)[..|Held(now, x)| - 1]
  {
    PopValid(now);
    PopAlive(now, c.lvl);
    PopHeld(now, x);
    KinTrans(c, now, Pop(now));
  }

  /** Moving to a sibling, with the counters changed at will, changes nothing. */
  lemma SiblingOnPath(p: Playlist, it: Iter, at: Iter, i: nat, c: Cfg, x: nat)
    requires OnPath(p, it, c, x) && Ready(p, at) && i < |Siblings(p.shape, it.tree)|
        && at.tree == Siblings(p.shape, it.tree)[i]
    requires at.cfg == it.cfg && at.pushed == it.pushed && |at.stack| == |it.stack|
    ensures OnPath(p, at, c, x)
  {
    SiblingFacts(p.shape, it.tree, i);
  }

  lemma RewindOnPath(p: Playlist, it: Iter, d: int, c: Cfg, x: nat)
    requires OnPath(p, it, c, x) && LoopsAgain(p, it, d)
    ensures OnPath(p, Rewind(p, it, d), c, x)
  {
    var i := Pos(p.shape, it.tree);
    SiblingOnPath(p, it, Rewind(p, it, d), if d > 0 then 0 else |Siblings(p.shape, it.tree)| - 1, c, x);
  }

  /** Pushing the parameters of the node the walk stands on gives that node's own level. */
  lemma PushedHeld(p: Playlist, it: Iter, c: Cfg, x: nat)
    requires OnPath(p, it, c, x) && !it.pushed
    ensures var r := Pushed(p, it.cfg, it.tree);
      && r.Some? && Valid(r.value) && Alive(r.value, c.lvl) && r.value.lvl == it.cfg.value.lvl + 1
      && Kin(c, r.value) && Synced(r.value, x) && Held(r.value, x) == HeldAt(p, c, x, it.tree)
  {
    var now := it.cfg.value;
    AliveUp(now, c.lvl, now.lvl);
    PushParamsHeld(now, x, p.params[it.tree]);
    OverlayKin(c, now, x, Top(Held(now, x)).data, false, ParamList(p.params[it.tree]));
    KinTrans(c, now, PushParams(now, p.params[it.tree]));
  }

  lemma WithinOnPath(p: Playlist, it: Iter, d: int, c: Cfg, x: nat)
    requires OnPath(p, it, c, x) && !it.pushed && p.shape.kids[it.tree] != []
    ensures OnPath(p, Within(p, it, d), c, x)
  {
    var kids := p.shape.kids[it.tree];
    assert ChildOk(p.shape, it.tree, if d >= 0 then 0 else |kids| - 1);
    PushedHeld(p, it, c, x);
  }

  lemma EnterAtEntry(p: Playlist, it: Iter, c: Cfg, x: nat)
    requires OnPath(p, it, c, x) && !it.pushed
    ensures AtEntry(p, Enter(p, it), c, x)
  {
    PushedHeld(p, it, c, x);
    var above := HeldAbove(p, c, x, it.tree);
    assert HeldAt(p, c, x, it.tree)[..|above|] == above;
  }

  lemma HeldUp(p: Playlist, c: Cfg, x: nat, n: PlayTree)
    requires PlaylistOk(p) && n in p.shape.up && Tracked(c, x)
    ensures p.shape.up[n] in p.shape.kids && p.shape.depth[n] == p.shape.depth[p.shape.up[n]] + 1
    ensures var all, above := HeldAbove(p, c, x, n), HeldAbove(p, c, x, p.shape.up[n]);
      |all| == |above| + 1 && all[..|above|] == above
  {
    assert UpOk(p.shape, n) && ChildOk(p.shape, p.shape.up[n], p.shape.pos[n]);
  }

  lemma AboveOnPath(p: Playlist, it: Iter, c: Cfg, x: nat)
    requires OnPath(p, it, c, x) && it.tree != p.shape.root
    ensures OnPath(p, Above(p, it), c, x)
  {
    HeldUp(p, c, x, it.tree);
    PoppedInPlace(it.cfg.value, c, x, HeldAbove(p, c, x, it.tree), HeldAbove(p, c, x, p.shape.up[it.tree]),
        c.lvl + |it.stack|, it.pushed);
  }

  /** One level less is in place for the node above. */
  lemma PoppedInPlace(now: Cfg, c: Cfg, x: nat, all: seq<Saved>, above: seq<Saved>, lvl: int, pushed: bool)
    requires InPlace(now, c, x, all, lvl, pushed) && Tracked(c, x) && lvl > c.lvl >= 1
    requires above != [] && |all| == |above| + 1 && all[..|above|] == above && Top(all).lvl == lvl
    ensures InPlace(Pop(now), c, x, above, lvl - 1, pushed)
  {
    assert pushed ==> Held(now, x)[..|all|] == all;
    PoppedHeld(now, c, x);
  }

  // ---------------------------------------------------------------- every call keeps to the path

  /** After any call the levels below the entry's own are those of its path, and a call that
      stops at an entry has just put the entry's own parameters on top. */
  ghost predicate Lands(p: Playlist, r: (Iter, Status), c: Cfg, x: nat) {
    if r.1 == ENTRY then AtEntry(p, r.0, c, x) else OnPath(p, r.0, c, x) && !r.0.pushed
  }

  lemma {:induction false} StepLands(p: Playlist, it: Iter, d: int, withNodes: bool, c: Cfg, x: nat)
    requires OnPath(p, it, c, x)
    ensures Lands(p, Step(p, it, d, withNodes), c, x)
    decreases if d == 0 then 0 else p.shape.depth[it.tree] + 1, Room(p.shape, it.tree),
        if Exhausted(p, it) then 1 else 0, 4
  {
    LeaveOnPath(p, it, c, x);
    if Leave(p, it).rndMode { ShuffledLands(p, Leave(p, it), d, withNodes, c, x); }
    else { InOrderLands(p, Leave(p, it), d, withNodes, c, x); }
  }

  lemma {:induction false} ShuffledLands(p: Playlist, it: Iter, d: int, withNodes: bool, c: Cfg, x: nat)
    requires OnPath(p, it, c, x) && !it.pushed && it.rndMode == Shuffling(p, it.tree) == true
    ensures Lands(p, StepShuffled(p, it, d, withNodes), c, x)
    decreases if d == 0 then 0 else p.shape.depth[it.tree] + 1, Room(p.shape, it.tree),
        if Exhausted(p, it) then 1 else 0, 3
  {
    if Exhausted(p, it) {
      if it.loops[p.shape.root] != 0 {
        SiblingOnPath(p, it, Replay(p, it), Pos(p.shape, it.tree), c, x);
        StepLands(p, Replay(p, it), 0, withNodes, c, x);
      }
    } else {
      var (pt, next) := Draw(p, it);
      SiblingOnPath(p, it, next.(tree := pt), IndexOf(Siblings(p.shape, it.tree), pt), c, x);
      ArriveLands(p, next, pt, d, withNodes, c, x);
    }
  }

  lemma {:induction false} InOrderLands(p: Playlist, it: Iter, d: int, withNodes: bool, c: Cfg, x: nat)
    requires OnPath(p, it, c, x) && !it.pushed
    ensures Lands(p, StepInOrder(p, it, d, withNodes), c, x)
    decreases if d == 0 then 0 else p.shape.depth[it.tree] + 1, Room(p.shape, it.tree), 0, 3
  {
    var n, i := |Siblings(p.shape, it.tree)|, Pos(p.shape, it.tree);
    if 0 <= i + d < n {
      var next := Siblings(p.shape, it.tree)[i + d];
      SiblingFacts(p.shape, it.tree, i + d);
      SiblingOnPath(p, it, it.(tree := next), i + d, c, x);
      ArriveLands(p, it, next, Sign(d), withNodes, c, x);
    } else {
      OffTheEndLands(p, it, Leftover(d, i, n), withNodes, c, x);
    }
  }

  lemma {:induction false} OffTheEndLands(p: Playlist, it: Iter, d: int, withNodes: bool, c: Cfg, x: nat)
    requires OnPath(p, it, c, x) && !it.pushed && d != 0
    ensures Lands(p, StepOffTheEnd(p, it, d, withNodes), c, x)
    decreases p.shape.depth[it.tree] + 1, Room(p.shape, it.tree), 0, 2
  {
    if LoopsAgain(p, it, d) {
      RewindOnPath(p, it, d, c, x);
      StepLands(p, Rewind(p, it, d), 0, withNodes, c, x);
    } else {
      UpLands(p, it, d, withNodes, c, x);
    }
  }

  lemma {:induction false} ArriveLands(p: Playlist, it: Iter, pt: PlayTree, d: int, withNodes: bool, c: Cfg, x: nat)
    requires OnPath(p, it.(tree := pt), c, x) && !it.pushed
    ensures Lands(p, Arrive(p, it, pt, d, withNodes), c, x)
    decreases 0, Room(p.shape, pt), 0, 2
  {
    var at := it.(tree := pt);
    if p.shape.kids[pt] == [] {
      EnterAtEntry(p, at, c, x);
    } else if !withNodes {
      WithinOnPath(p, at, d, c, x);
      StepLands(p, Within(p, at, d), 0, withNodes, c, x);
    }
  }

  lemma {:induction false} UpLands(p: Playlist, it: Iter, d: int, withNodes: bool, c: Cfg, x: nat)
    requires OnPath(p, it, c, x) && (it.tree == p.shape.root ==> !it.pushed)
    ensures Lands(p, Up(p, it, d, withNodes), c, x)
    decreases p.shape.depth[it.tree], p.shape.bound + 1, 0, 0
  {
    if it.tree != p.shape.root {
      AboveOnPath(p, it, c, x);
      StepLands(p, Above(p, it), d, withNodes, c, x);
    }
  }

  // ---------------------------------------------------------------- every run keeps to the path

  /** The calls a player makes on its iterator, with options set while an entry plays. */
  datatype Call =
    | StepBy(d: int, withNodes: bool)
    | UpBy(d: int, withNodes: bool)
    | SetOption(name: string, param: Option<string>)

  ghost function Do(p: Playlist, it: Iter, call: Call): (r: (Iter, Status))
    requires Ready(p, it)
    ensures Ready(p, r.0)
  {
    match call
    case StepBy(d, withNodes) => Step(p, it, d, withNodes)
    case UpBy(d, withNodes) => Up(p, it, d, withNodes)
    case SetOption(name, param) =>
      if it.pushed && it.cfg.Some? && Valid(it.cfg.value) && Alive(it.cfg.value, it.cfg.value.lvl)
      then (it.(cfg := Some(Set(it.cfg.value, name, param))), ENTRY) else (it, ENTRY)
  }

  ghost function DoAll(p: Playlist, it: Iter, calls: seq<Call>): (r: Iter)
    requires Ready(p, it)
    ensures Ready(p, r)
    decreases calls
  {
    if calls == [] then it else DoAll(p, Do(p, it, calls[0]).0, calls[1..])
  }

  lemma SetOnPath(p: Playlist, it: Iter, name: string, param: Option<string>, c: Cfg, x: nat)
    requires OnPath(p, it, c, x) && it.pushed
    ensures OnPath(p, Do(p, it, SetOption(name, param)).0, c, x)
  {
    var now := it.cfg.value;
    AliveUp(now, c.lvl, now.lvl);
    SetHeld(now, x, name, param);
    SetValid(now, name, param);
    KinTrans(c, now, Set(now, name, param));
  }

  lemma {:induction false} DoAllOnPath(p: Playlist, it: Iter, calls: seq<Call>, c: Cfg, x: nat)
    requires OnPath(p, it, c, x)
    ensures OnPath(p, DoAll(p, it, calls), c, x)
    decreases calls
  {
    if calls != [] {
      match calls[0] {
        case StepBy(d, withNodes) => StepLands(p, it, d, withNodes, c, x);
        case UpBy(d, withNodes) => if it.tree != p.shape.root { UpLands(p, it, d, withNodes, c, x); }
        case SetOption(name, param) => if it.pushed { SetOnPath(p, it, name, param, c, x); }
      }
      DoAllOnPath(p, Do(p, it, calls[0]).0, calls[1..], c, x);
    }
  }

  /** The starting value overlaid by the parameters of every node from the root down to n, in that order. */
  ghost function PathValue(p: Playlist, c: Cfg, x: nat, n: PlayTree): Value
    requires PlaylistOk(p) && n in p.shape.kids && Tracked(c, x)
    decreases p.shape.depth[n]
  {
    var above :=
      if n == p.shape.root then c.vars[c.opts[x].variable]
      else
        assert UpOk(p.shape, n) && ChildOk(p.shape, p.shape.up[n], p.shape.pos[n]);
        PathValue(p, c, x, p.shape.up[n]);
    Overlay(c, x, above, false, ParamList(p.params[n]))
  }

  lemma {:induction false} HeldAtValue(p: Playlist, c: Cfg, x: nat, n: PlayTree)
    requires PlaylistOk(p) && n in p.shape.kids && Tracked(c, x)
    ensures Top(HeldAt(p, c, x, n)).data == PathValue(p, c, x, n)
    decreases p.shape.depth[n]
  {
    if n != p.shape.root {
      assert UpOk(p.shape, n) && ChildOk(p.shape, p.shape.up[n], p.shape.pos[n]);
      HeldAtValue(p, c, x, p.shape.up[n]);
    }
  }

  /** After any calls at all, a step that stops at an entry has exactly that entry's path in force:
      one level for each node on it, and in every plain variable the value the path gives it. */
  lemma EntryHasItsPath(p: Playlist, loops: map<PlayTree, int>, played: set<PlayTree>, draws: seq<nat>, c: Cfg, x: nat,
      calls: seq<Call>, d: int)
    requires PlaylistOk(p) && loops.Keys == p.shape.kids.Keys && played <= p.shape.kids.Keys
    requires Valid(c) && Alive(c, c.lvl) && Tracked(c, x)
    ensures var it := Start(p, loops, played, Some(c), draws);
      Ready(p, it) &&
      var (r, status) := Step(p, DoAll(p, it, calls), d, false);
      status == ENTRY ==>
        && r.cfg.Some? && r.cfg.value.lvl == c.lvl + p.shape.depth[r.tree] + 1
        && c.opts[x].variable in r.cfg.value.vars
        && r.cfg.value.vars[c.opts[x].variable] == PathValue(p, c, x, r.tree)
  {
    var it := Start(p, loops, played, Some(c), draws);
    assert OnPath(p, it, c, x) by {
      assert Kin(c, c);
    }
    DoAllOnPath(p, it, calls, c, x);
    var at := DoAll(p, it, calls);
    StepLands(p, at, d, false, c, x);
    var (r, status) := Step(p, at, d, false);
    if status == ENTRY {
      HeldAtValue(p, c, x, r.tree);
      assert KinOpt(c.opts[x], r.cfg.value.opts[x]);
    }
  }
}
