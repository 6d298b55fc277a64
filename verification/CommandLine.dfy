/** The play tree that a command line means: parser-mpcmd.c as a recursive reading of brackets. */
module CommandLine {
  import opened Util
  import opened PlayTrees
  import opened Strtol

  /** A play tree by value: a file, or a group of trees; what is said of it, and how it is played. */
  datatype Tree = Tree(file: Option<string>, loop: int, shuffle: bool, params: seq<Param>, kids: seq<Tree>)

  const ROOT := Tree(None, 0, false, [], [])

  /** What the option parser says of an option: how many arguments it takes, and whether it holds for
      all files; or that the program should end. */
  datatype Reply = Rejected | Taken(args: nat, global: bool) | Exits(args: nat)

  /** The options there are, and the entries that a file argument stands for: itself, the titles of a
      disc range, or none when the range is not valid. */
  datatype Env = Env(option: (string, Option<string>) -> Reply, names: string -> seq<string>)

  datatype Why = TooManyClosers | NoFileGiven | BadOption | BadLoop | ExitAsked

  datatype Outcome = Built(tree: Tree) | Refused(why: Why)

  /** Options are local once an entry has begun; after -- there are no more options. */
  datatype Mode = Mode(local: bool, noMore: bool, exit: bool)

  const BEGIN := Mode(false, false, false)

  // ---------------------------------------------------------------- what one argument does to the group it stands in

  function Leaf(name: Option<string>): Tree {
    Tree(name, 0, false, [], [])
  }

  function Group(shuffle: bool): Tree {
    Tree(None, 0, shuffle, [], [])
  }

  function Attach(t: Tree, kid: Tree): Tree {
    t.(kids := t.kids + [kid])
  }

  function AddFiles(t: Tree, names: seq<string>): Tree {
    if names == [] then Attach(t, Leaf(None)) else t.(kids := t.kids + Leaves(names))
  }

  function Leaves(names: seq<string>): seq<Tree> {
    if names == [] then [] else [Leaf(Some(names[0]))] + Leaves(names[1..])
  }

  function LastKid(t: Tree): Tree
    requires t.kids != []
  {
    t.kids[|t.kids| - 1]
  }

  function WithLastKid(t: Tree, kid: Tree): Tree
    requires t.kids != []
  {
    t.(kids := t.kids[|t.kids| - 1 := kid])
  }

  /** The last entry is a group that holds something. */
  predicate AfterGroup(t: Tree) {
    t.kids != [] && LastKid(t).kids != []
  }

  function SetLoop(t: Tree, l: int): Tree {
    if t.kids != [] then WithLastKid(t, LastKid(t).(loop := l)) else t.(loop := l)
  }

  function SetShuffle(t: Tree, on: bool): Tree {
    if AfterGroup(t) then WithLastKid(t, LastKid(t).(shuffle := on)) else t.(shuffle := on)
  }

  function AddParam(t: Tree, p: Param): Tree {
    if t.kids != [] then WithLastKid(t, LastKid(t).(params := LastKid(t).params + [p]))
        else t.(params := t.params + [p])
  }

  function Skip(args: seq<string>, n: nat): (r: seq<string>)
    ensures |r| <= |args|
  {
    args[Min(n, |args|)..]
  }

  /** What an argument does: refuses the line, opens a group, closes one, or adds to the one at hand. */
  datatype Turned = Bad(why: Why) | Enter(rest: seq<string>, mode: Mode) | Leave(rest: seq<string>)
      | Stay(tree: Tree, rest: seq<string>, mode: Mode)

  /** -loop for a group: its number, where 0 and less mean for ever. */
  function LoopCount(text: string): Option<int> {
    var (n, used) := ReadNumber(text);
    if used < |text| then None else Some(if n <= 0 then -1 else n)
  }

  function OptionTurn(opt: string, rest: seq<string>, t: Tree, m: Mode, o: Env): (r: Turned)
    ensures r.Stay? || r.Bad?
    ensures r.Stay? ==> |r.rest| <= |rest|
  {
    var param := if rest == [] then None else Some(rest[0]);
    if Lower(opt) == "loop" && (t.kids == [] || AfterGroup(t)) then
      if param.None? || LoopCount(param.value).None? then Bad(BadLoop)
      else Stay(SetLoop(t, LoopCount(param.value).value), rest[1..], m)
    else if Lower(opt) == "shuffle" then Stay(SetShuffle(t, true), rest, m)
    else if Lower(opt) == "noshuffle" then Stay(SetShuffle(t, false), rest, m)
    else match o.option(opt, param)
      case Rejected => Bad(BadOption)
      case Exits(n) => Stay(t, Skip(rest, n), m.(exit := true))
      case Taken(n, global) => Stay(if m.local && !global then AddParam(t, Param(opt, param)) else t, Skip(rest, n), m)
  }

  function Turn(args: seq<string>, t: Tree, m: Mode, o: Env): (r: Turned)
    requires args != []
    ensures r.Bad? || |r.rest| < |args|
  {
    var arg, rest := args[0], args[1..];
    if arg == "--" then (if rest == [] then Bad(NoFileGiven) else Stay(t, rest, m.(noMore := true)))
    else if arg == "{" then Enter(rest, m.(local := true))
    else if arg == "}" then Leave(rest)
    else if !m.noMore && |arg| > 1 && arg[0] == '-' then OptionTurn(arg[1..], rest, t, m, o)
    else Stay(AddFiles(t, o.names(arg)), rest, m.(local := true))
  }

  // ---------------------------------------------------------------- the meaning: reading brackets recursively

  datatype After = Ended(mode: Mode) | Closed(rest: seq<string>, mode: Mode) | Failed(why: Why)

  /** Reads into group t up to the brace that closes it, or to the end of the line. */
  function ReadGroup(args: seq<string>, t: Tree, m: Mode, o: Env): (r: (Tree, After))
    ensures r.1.Closed? ==> |r.1.rest| < |args|
    decreases |args|
  {
    if args == [] then (t, Ended(m))
    else match Turn(args, t, m, o)
      case Bad(why) => (t, Failed(why))
      case Leave(rest) => (t, Closed(rest, m))
      case Stay(t', rest, m') => ReadGroup(rest, t', m', o)
      case Enter(rest, m') =>
        var (kid, after) := ReadGroup(rest, Group(t.shuffle), m', o);
        match after
        case Failed(why) => (t, Failed(why))
        case Ended(_) => (Attach(t, kid), after)
        case Closed(rest', m'') => ReadGroup(rest', Attach(t, kid), m'', o)
  }

  function Ending(t: Tree, m: Mode): Outcome {
    if m.exit then Refused(ExitAsked) else Built(t)
  }

  /** The tree that a command line means. */
  function Meaning(args: seq<string>, o: Env): Outcome {
    var (t, after) := ReadGroup(args, ROOT, BEGIN, o);
    match after
    case Failed(why) => Refused(why)
    case Closed(_, _) => Refused(TooManyClosers)
    case Ended(m) => Ending(t, m)
  }

  // ---------------------------------------------------------------- the program: one loop, and the open groups

  /** Closes all open groups, the innermost one first. */
  function CloseAll(outer: seq<Tree>, top: Tree): Tree {
    if outer == [] then top else CloseAll(outer[..|outer| - 1], Attach(outer[|outer| - 1], top))
  }

  /** The loop over the arguments; top is the group being filled, in the groups outer. */
  function Loop(args: seq<string>, outer: seq<Tree>, top: Tree, m: Mode, o: Env): Outcome
    decreases |args|
  {
    if args == [] then Ending(CloseAll(outer, top), m)
    else match Turn(args, top, m, o)
      case Bad(why) => Refused(why)
      case Enter(rest, m') => Loop(rest, outer + [top], Group(top.shuffle), m', o)
      case Leave(rest) =>
        if outer == [] then Refused(TooManyClosers)
        else Loop(rest, outer[..|outer| - 1], Attach(outer[|outer| - 1], top), m, o)
      case Stay(t, rest, m') => Loop(rest, outer, t, m', o)
  }

  /** Going on in the outer groups after what ReadGroup has found in the innermost one. */
  function Unwind(outer: seq<Tree>, r: (Tree, After), o: Env): Outcome
    decreases |outer|
  {
    match r.1
    case Failed(why) => Refused(why)
    case Ended(m) => Ending(CloseAll(outer, r.0), m)
    case Closed(rest, m) =>
      if outer == [] then Refused(TooManyClosers)
      else Unwind(outer[..|outer| - 1], ReadGroup(rest, Attach(outer[|outer| - 1], r.0), m, o), o)
  }

  lemma {:induction false} LoopUnwinds(args: seq<string>, outer: seq<Tree>, top: Tree, m: Mode, o: Env)
    ensures Loop(args, outer, top, m, o) == Unwind(outer, ReadGroup(args, top, m, o), o)
    decreases |args|
  {
    if args != [] {
      match Turn(args, top, m, o)
      case Bad(why) =>
      case Stay(t, rest, m') => LoopUnwinds(rest, outer, t, m', o);
      case Leave(rest) =>
        if outer != [] { LoopUnwinds(rest, outer[..|outer| - 1], Attach(outer[|outer| - 1], top), m, o); }
      case Enter(rest, m') => LoopEnters(args, outer, top, m, o, rest, m');
    }
  }

  lemma {:induction false} LoopEnters(args: seq<string>, outer: seq<Tree>, top: Tree, m: Mode, o: Env,
      rest: seq<string>, m': Mode)
    requires args != [] && Turn(args, top, m, o) == Enter(rest, m')
    ensures Loop(args, outer, top, m, o) == Unwind(outer, ReadGroup(args, top, m, o), o)
    decreases |args|, 0
  {
    var inner := outer + [top];
    assert inner[..|outer|] == outer && inner[|outer|] == top;
    var (kid, after) := ReadGroup(rest, Group(top.shuffle), m', o);
    LoopUnwinds(rest, inner, Group(top.shuffle), m', o);
    assert after.Ended? ==> CloseAll(inner, kid) == CloseAll(outer, Attach(top, kid));
  }

  /** The loop builds what the brackets mean. */
  lemma LoopMeans(args: seq<string>, o: Env)
    ensures Loop(args, [], ROOT, BEGIN, o) == Meaning(args, o)
  {
    LoopUnwinds(args, [], ROOT, BEGIN, o);
  }

  // ---------------------------------------------------------------- when it is refused

  /** The parts of a command line of files, braces and -loop options. */
  datatype Word = File(name: string) | OpenBrace | CloseBrace | LoopOption(count: string)

  /** A file does not look like something else, and the option parser takes -loop, when it is for a file, with its
      one argument or not at all. */
  ghost predicate WordOk(w: Word, o: Env) {
    match w
    case File(name) => name != "--" && name != "{" && name != "}" && (|name| > 1 ==> name[0] != '-')
    case LoopOption(count) => var r := o.option("loop", Some(count)); r.Rejected? || (r.Taken? && r.args == 1)
    case _ => true
  }

  ghost predicate Fits(words: seq<Word>, o: Env) {
    forall w <- words :: WordOk(w, o)
  }

  function Text(words: seq<Word>): seq<string> {
    if words == [] then []
    else
      (match words[0]
       case File(name) => [name]
       case OpenBrace => ["{"]
       case CloseBrace => ["}"]
       case LoopOption(count) => ["-loop", count])
      + Text(words[1..])
  }

  /** How many more braces are opened than closed. */
  function Depth(words: seq<Word>): int {
    if words == [] then 0
    else
      var w := words[|words| - 1];
      Depth(words[..|words| - 1]) + if w.OpenBrace? then 1 else if w.CloseBrace? then -1 else 0
  }

  /** The files and braces. */
  function Placed(words: seq<Word>): seq<Word> {
    if words == [] then []
    else
      var w := words[|words| - 1];
      Placed(words[..|words| - 1]) + if w.LoopOption? then [] else [w]
  }

  /** Nothing stands yet in the group at hand. */
  predicate AtHead(places: seq<Word>) {
    places == [] || places[|places| - 1].OpenBrace?
  }

  /** A brace has just closed a group that holds something. */
  predicate BehindGroup(places: seq<Word>) {
    |places| >= 2 && places[|places| - 1].CloseBrace? && !places[|places| - 2].OpenBrace?
  }

  /** A -loop here is for a group. */
  predicate ForGroup(words: seq<Word>) {
    AtHead(Placed(words)) || BehindGroup(Placed(words))
  }

  /** What is wrong with the k-th word: a brace too many, a count for a group that is no number, or one for a file that
      the option parser does not accept. */
  function FaultAt(words: seq<Word>, k: nat, o: Env): Option<Why>
    requires k < |words|
  {
    match words[k]
    case CloseBrace => if Depth(words[..k]) <= 0 then Some(TooManyClosers) else None
    case LoopOption(count) =>
      if ForGroup(words[..k]) then (if LoopCount(count).None? then Some(BadLoop) else None)
      else if o.option("loop", Some(count)).Rejected? then Some(BadOption)
      else None
    case _ => None
  }

  /** The first fault from the k-th word on. */
  function FirstFault(words: seq<Word>, k: nat, o: Env): Option<Why>
    requires k <= |words|
    decreases |words| - k
  {
    if k == |words| then None
    else if FaultAt(words, k, o).Some? then FaultAt(words, k, o)
    else FirstFault(words, k + 1, o)
  }

  /** The group at hand, seen from the words that led to it. */
  predicate Shows(words: seq<Word>, top: Tree) {
    && (top.kids == [] <==> AtHead(Placed(words)))
    && (AfterGroup(top) <==> BehindGroup(Placed(words)))
  }

  lemma OneMore(words: seq<Word>, k: nat)
    requires k < |words|
    ensures words[..k + 1][..k] == words[..k] && words[..k + 1][k] == words[k]
    ensures Placed(words[..k + 1]) == Placed(words[..k]) + if words[k].LoopOption? then [] else [words[k]]
    ensures Depth(words[..k + 1]) == Depth(words[..k]) + if words[k].OpenBrace? then 1
        else if words[k].CloseBrace? then -1 else 0
  {
    assert words[..k + 1][..k] == words[..k];
  }

  lemma {:induction false} LeavesEnd(names: seq<string>)
    requires names != []
    ensures Leaves(names) != [] && Leaves(names)[|Leaves(names)| - 1].kids == []
  {
    if |names| > 1 { LeavesEnd(names[1..]); }
  }

  predicate SameFront(t: Tree, u: Tree) {
    (t.kids == [] <==> u.kids == []) && (AfterGroup(t) <==> AfterGroup(u))
  }

  /** A -loop is refused, or changes nothing that a later word is judged by. */
  lemma LoopTurns(count: string, args: seq<string>, more: seq<string>, top: Tree, m: Mode, o: Env)
    requires args == ["-loop", count] + more && WordOk(LoopOption(count), o) && !m.noMore
    ensures var r := Turn(args, top, m, o);
      var forGroup := top.kids == [] || AfterGroup(top);
      if forGroup && LoopCount(count).None? then r == Bad(BadLoop)
      else if !forGroup && o.option("loop", Some(count)).Rejected? then r == Bad(BadOption)
      else r.Stay? && r.rest == more && r.mode == m && SameFront(r.tree, top)
  {
    assert args[0] == "-loop" && args[0][1..] == "loop" && Lower("loop") == "loop";
    assert args[1..] == [count] + more && args[1..][0] == count;
    assert args[1..][1..] == more;
    var r := OptionTurn("loop", args[1..], top, m, o);
  }

  /** One turn on the k-th word: a fault is refused, and without one the group at hand shows one word more. */
  lemma WordTurns(words: seq<Word>, k: nat, args: seq<string>, more: seq<string>, top: Tree, m: Mode, o: Env)
    requires k < |words| && args == Text(words[k..]) && more == Text(words[k + 1..])
    requires WordOk(words[k], o) && !m.exit && !m.noMore && Shows(words[..k], top)
    ensures args != [] && var r := Turn(args, top, m, o);
      match words[k]
      case OpenBrace => r == Enter(more, m.(local := true))
      case CloseBrace => r == Leave(more)
      case _ =>
        if FaultAt(words, k, o).Some? then r == Bad(FaultAt(words, k, o).value)
        else r.Stay? && r.rest == more && !r.mode.exit && !r.mode.noMore && Shows(words[..k + 1], r.tree)
  {
    TextParts(words, k, args, more);
    OneMore(words, k);
    match words[k]
    case LoopOption(count) => LoopTurns(count, args, more, top, m, o);
    case File(name) => FilesAdded(top, o.names(name));
    case _ =>
  }

  /** The text from the k-th word on is that word's and the rest. */
  lemma TextParts(words: seq<Word>, k: nat, args: seq<string>, more: seq<string>)
    requires k < |words| && args == Text(words[k..]) && more == Text(words[k + 1..])
    ensures args != [] && match words[k]
      case LoopOption(count) => args == ["-loop", count] + more
      case File(name) => args[0] == name && args[1..] == more
      case OpenBrace => args[0] == "{" && args[1..] == more
      case CloseBrace => args[0] == "}" && args[1..] == more
  {
    assert words[k..][1..] == words[k + 1..];
  }

  lemma FilesAdded(t: Tree, names: seq<string>)
    ensures AddFiles(t, names).kids != [] && !AfterGroup(AddFiles(t, names))
  {
    if names != [] { LeavesEnd(names); }
  }

  /** An opened group is empty, and a closed one is a group unless its brace was just opened. */
  lemma BraceShows(words: seq<Word>, k: nat, outer: seq<Tree>, top: Tree)
    requires k < |words| && |outer| == Depth(words[..k]) && Shows(words[..k], top)
    ensures words[k].OpenBrace? ==> Depth(words[..k + 1]) == |outer| + 1 && forall on ::
        Shows(words[..k + 1], Group(on))
    ensures words[k].CloseBrace? && outer != [] ==>
      Depth(words[..k + 1]) == |outer| - 1 && Shows(words[..k + 1], Attach(outer[|outer| - 1], top))
  {
    OneMore(words, k);
    DepthPlaced(words[..k]);
  }

  /** Where a group is open, a brace was placed. */
  lemma {:induction false} DepthPlaced(words: seq<Word>)
    ensures Placed(words) == [] ==> Depth(words) == 0
    decreases |words|
  {
    if words != [] { DepthPlaced(words[..|words| - 1]); }
  }

  /** Refused for the fault there is, and else built. */
  predicate Judged(r: Outcome, fault: Option<Why>) {
    if fault.Some? then r == Refused(fault.value) else r.Built?
  }

  lemma {:induction false} LoopRefuses(words: seq<Word>, k: nat, args: seq<string>, outer: seq<Tree>, top: Tree,
      m: Mode, o: Env)
    requires Fits(words, o) && k <= |words| && args == Text(words[k..]) && !m.exit && !m.noMore
    requires |outer| == Depth(words[..k]) && Shows(words[..k], top)
    ensures Judged(Loop(args, outer, top, m, o), FirstFault(words, k, o))
    decreases |words| - k
  {
    if k < |words| {
      var more := Text(words[k + 1..]);
      assert words[k] in words;
      WordTurns(words, k, args, more, top, m, o);
      BraceShows(words, k, outer, top);
      OneMore(words, k);
      match Turn(args, top, m, o)
      case Enter(_, m') => LoopRefuses(words, k + 1, more, outer + [top], Group(top.shuffle), m', o);
      case Leave(_) =>
        if outer != [] { LoopRefuses(words, k + 1, more, outer[..|outer| - 1], Attach(outer[|outer| - 1], top), m, o); }
      case Stay(t, _, m') => LoopRefuses(words, k + 1, more, outer, t, m', o);
      case Bad(_) =>
    }
  }

  lemma {:induction false} FirstFaultIs(words: seq<Word>, k: nat, o: Env)
    requires k <= |words|
    ensures FirstFault(words, k, o).Some? <==> exists i | k <= i < |words| :: FaultAt(words, i, o).Some?
    ensures forall i | k <= i < |words| && FaultAt(words, i, o).Some?
        && (forall j | k <= j < i :: FaultAt(words, j, o) == None) ::
      FirstFault(words, k, o) == FaultAt(words, i, o)
    decreases |words| - k
  {
    if k < |words| { FirstFaultIs(words, k + 1, o); }
  }

  /** A line of files, braces and loops is refused exactly when a word of it is at fault, and for the first such word.
      */
  lemma RefusedIff(words: seq<Word>, o: Env)
    requires Fits(words, o)
    ensures Meaning(Text(words), o).Refused? <==> exists k | 0 <= k < |words| :: FaultAt(words, k, o).Some?
    ensures forall k | 0 <= k < |words| && FaultAt(words, k, o).Some?
        && (forall j | 0 <= j < k :: FaultAt(words, j, o) == None) ::
      Meaning(Text(words), o) == Refused(FaultAt(words, k, o).value)
  {
    assert words[0..] == words && words[..0] == [];
    LoopRefuses(words, 0, Text(words), [], ROOT, BEGIN, o);
    LoopMeans(Text(words), o);
    FirstFaultIs(words, 0, o);
  }
}
