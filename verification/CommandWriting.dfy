/** Command lines written down from what they should mean, and read back. */
module CommandWriting {
  import opened Util
  import opened PlayTrees
  import opened Strtol
  import opened CommandLine

  // ---------------------------------------------------------------- what is written, and what it means

  /** What is said of a group: a number for -loop, or -shuffle or -noshuffle. */
  datatype Setting = Loops(n: int) | Shuffled(on: bool)

  /** An option with its argument, said of the entry before it. */
  datatype Said = Said(name: string, value: string)

  /** A file argument with the entries it stands for; or a group, with settings behind its opening brace and more
      behind its closing one. */
  datatype Entry =
    | OneFile(arg: string, titles: seq<string>, options: seq<Said>)
    | OneGroup(before: seq<Setting>, entries: seq<Entry>, behind: seq<Setting>, options: seq<Said>)

  /** Settings in their order: a number above 0 is the number of rounds, any other is for ever. */
  function SetAll(t: Tree, settings: seq<Setting>): Tree
    decreases settings
  {
    if settings == [] then t
    else
      match settings[0]
      case Loops(n) => SetAll(t.(loop := if n > 0 then n else -1), settings[1..])
      case Shuffled(on) => SetAll(t.(shuffle := on), settings[1..])
  }

  function Remember(t: Tree, options: seq<Said>): Tree
    decreases options
  {
    if options == [] then t
    else Remember(t.(params := t.params + [Param(options[0].name, Some(options[0].value))]), options[1..])
  }

  /** The entries of a file argument: one for each title, or an empty one when there is none. */
  function Titles(titles: seq<string>): (r: seq<Tree>)
    ensures r != []
  {
    if |titles| == 0 then [Tree(None, 0, false, [], [])]
    else if |titles| == 1 then [Tree(Some(titles[0]), 0, false, [], [])]
    else [Tree(Some(titles[0]), 0, false, [], [])] + Titles(titles[1..])
  }

  function OnLast(ts: seq<Tree>, options: seq<Said>): (r: seq<Tree>)
    requires ts != []
  {
    ts[|ts| - 1 := Remember(ts[|ts| - 1], options)]
  }

  /** The trees that entries mean in a group that is shuffled or not: a group in it begins like it. */
  function TreesOf(entries: seq<Entry>, shuffle: bool): seq<Tree>
    decreases entries
  {
    if entries == [] then [] else TreesOfOne(entries[0], shuffle) + TreesOf(entries[1..], shuffle)
  }

  function TreesOfOne(e: Entry, shuffle: bool): (r: seq<Tree>)
    ensures r != []
    decreases e
  {
    match e
    case OneFile(_, titles, options) => OnLast(Titles(titles), options)
    case OneGroup(before, entries, behind, options) =>
      var head := SetAll(Tree(None, 0, shuffle, [], []), before);
      [Remember(SetAll(head.(kids := TreesOf(entries, head.shuffle)), behind), options)]
  }

  // ---------------------------------------------------------------- how it is written

  function NumberText(n: int): string {
    if n > 0 then Decimal(n) else if n == 0 then "0" else "-" + Decimal(-n)
  }

  function SettingText(s: Setting): (r: seq<string>)
    ensures r != []
  {
    match s
    case Loops(n) => ["-loop", NumberText(n)]
    case Shuffled(on) => [if on then "-shuffle" else "-noshuffle"]
  }

  function SettingsText(settings: seq<Setting>): seq<string> {
    if settings == [] then [] else SettingText(settings[0]) + SettingsText(settings[1..])
  }

  function OptionsText(options: seq<Said>): seq<string> {
    if options == [] then [] else ["-" + options[0].name, options[0].value] + OptionsText(options[1..])
  }

  function LineOf(entries: seq<Entry>): seq<string>
    decreases entries
  {
    if entries == [] then [] else TextOfOne(entries[0]) + LineOf(entries[1..])
  }

  function TextOfOne(e: Entry): seq<string>
    decreases e
  {
    match e
    case OneFile(arg, _, options) => [arg] + OptionsText(options)
    case OneGroup(before, entries, behind, options) =>
      ["{"] + (SettingsText(before) + (LineOf(entries) + (["}"] + (SettingsText(behind) + OptionsText(options)))))
  }

  // ---------------------------------------------------------------- what can be written

  predicate SettingOk(s: Setting) {
    s.Loops? ==> -0x8000_0000 < s.n < 0x8000_0000
  }

  predicate SettingsOk(settings: seq<Setting>) {
    forall s <- settings :: SettingOk(s)
  }

  /** The options are known and take their argument, for the one entry; none is taken for another thing. */
  ghost predicate OptionsOk(options: seq<Said>, group: bool, o: Env) {
    forall s <- options ::
      && s.name != "" && s.name != "-" && Lower(s.name) != "shuffle" && Lower(s.name) != "noshuffle"
      && (group ==> Lower(s.name) != "loop") && o.option(s.name, Some(s.value)) == Taken(1, false)
  }

  ghost predicate FileOk(arg: string, titles: seq<string>, o: Env) {
    arg != "--" && arg != "{" && arg != "}" && (|arg| > 1 ==> arg[0] != '-') && o.names(arg) == titles
  }

  ghost predicate AllOk(entries: seq<Entry>, o: Env)
    decreases entries
  {
    forall e <- entries :: EntryOk(e, o)
  }

  ghost predicate EntryOk(e: Entry, o: Env)
    decreases e
  {
    match e
    case OneFile(arg, titles, options) =>
      FileOk(arg, titles, o) && OptionsOk(options, false, o)
    case OneGroup(before, entries, behind, options) =>
      && SettingsOk(before) && SettingsOk(behind) && AllOk(entries, o) && (entries == [] ==> behind == [])
      && OptionsOk(options, entries != [], o)
  }

  // ---------------------------------------------------------------- reading it back

  /** A number for -loop, written out, is read as it was meant. */
  lemma LoopCountIs(n: int)
    requires -0x8000_0000 < n < 0x8000_0000
    ensures LoopCount(NumberText(n)) == Some(if n > 0 then n else -1)
  {
    var text := NumberText(n);
    if n > 0 {
      assert text == Decimal(n) + "";
      DecimalRead(n, text, "", text);
    } else if n < 0 {
      var digits := Decimal(-n);
      assert digits == digits + "";
      NegativeRead(-n, digits, "", digits, text);
    } else {
      ReadsZero();
    }
  }

  /** An argument that begins with a dash is an option. */
  lemma DashTurns(opt: string, rest: seq<string>, args: seq<string>, t: Tree, m: Mode, o: Env)
    requires args == ["-" + opt] + rest && opt != "" && opt != "-" && !m.noMore
    ensures Turn(args, t, m, o) == OptionTurn(opt, rest, t, m, o)
  {
    var arg := "-" + opt;
    assert args[0] == arg && args[1..] == rest && arg[1..] == opt && arg[0] == '-';
    assert "--"[1..] == "-";
  }

  lemma StayStep(args: seq<string>, t: Tree, m: Mode, o: Env, t': Tree, rest: seq<string>, m': Mode)
    requires args != [] && Turn(args, t, m, o) == Stay(t', rest, m')
    ensures ReadGroup(args, t, m, o) == ReadGroup(rest, t', m', o)
  {
  }

  lemma EnterStep(args: seq<string>, inner: seq<string>, t: Tree, m: Mode, o: Env, kid: Tree, rest: seq<string>)
    requires args == ["{"] + inner
        && ReadGroup(inner, Group(t.shuffle), m.(local := true), o) == (kid, Closed(rest, m.(local := true)))
    ensures ReadGroup(args, t, m, o) == ReadGroup(rest, Attach(t, kid), m.(local := true), o)
  {
    assert args[0] == "{" && args[1..] == inner;
    assert Turn(args, t, m, o) == Enter(inner, m.(local := true));
  }

  lemma LeaveStep(args: seq<string>, t: Tree, m: Mode, o: Env, rest: seq<string>)
    requires args == ["}"] + rest
    ensures ReadGroup(args, t, m, o) == (t, Closed(rest, m))
  {
    assert args[0] == "}" && args[1..] == rest;
  }

  ghost predicate AtGroup(t: Tree) {
    t.kids == [] || AfterGroup(t)
  }

  /** The group that a setting is said of: the one at hand at its head, and else the last one in it. */
  function SetHere(t: Tree, settings: seq<Setting>): Tree {
    if t.kids == [] then SetAll(t, settings)
    else t.(kids := t.kids[|t.kids| - 1 := SetAll(t.kids[|t.kids| - 1], settings)])
  }

  lemma SetOne(t: Tree, s: Setting)
    ensures SetAll(t, [s]) == if s.Loops? then t.(loop := if s.n > 0 then s.n else -1) else t.(shuffle := s.on)
  {
    assert [s][1..] == [];
  }

  lemma CountTurns(n: int, rest: seq<string>, t: Tree, m: Mode, o: Env)
    requires -0x8000_0000 < n < 0x8000_0000 && AtGroup(t)
    ensures OptionTurn("loop", [NumberText(n)] + rest, t, m, o) == Stay(SetHere(t, [Loops(n)]), rest, m)
  {
    var args := [NumberText(n)] + rest;
    assert Lower("loop") == "loop" && args[0] == NumberText(n) && args[1..] == rest;
    LoopCountIs(n);
    SetOne(t, Loops(n));
    if t.kids != [] { SetOne(LastKid(t), Loops(n)); }
  }

  lemma ShuffleTurns(on: bool, rest: seq<string>, t: Tree, m: Mode, o: Env)
    requires AtGroup(t)
    ensures OptionTurn(if on then "shuffle" else "noshuffle", rest, t, m, o)
        == Stay(SetHere(t, [Shuffled(on)]), rest, m)
  {
    assert Lower("shuffle") == "shuffle" && Lower("noshuffle") == "noshuffle";
    SetOne(t, Shuffled(on));
    if t.kids != [] { SetOne(LastKid(t), Shuffled(on)); }
  }

  /** One setting at the head of a group, or right behind a group that holds something. */
  lemma SettingTurns(s: Setting, rest: seq<string>, args: seq<string>, t: Tree, m: Mode, o: Env)
    requires args == SettingText(s) + rest && !m.noMore && AtGroup(t) && SettingOk(s)
    ensures Turn(args, t, m, o) == Stay(SetHere(t, [s]), rest, m)
  {
    match s
    case Loops(n) =>
      assert "-" + "loop" == "-loop";
      assert ["-loop", NumberText(n)] + rest == ["-loop"] + ([NumberText(n)] + rest);
      DashTurns("loop", [NumberText(n)] + rest, args, t, m, o);
      CountTurns(n, rest, t, m, o);
    case Shuffled(on) =>
      var opt := if on then "shuffle" else "noshuffle";
      assert "-" + opt == if on then "-shuffle" else "-noshuffle";
      DashTurns(opt, rest, args, t, m, o);
      ShuffleTurns(on, rest, t, m, o);
  }

  lemma RememberOne(t: Tree, s: Said)
    ensures Remember(t, [s]) == t.(params := t.params + [Param(s.name, Some(s.value))])
  {
    assert [s][1..] == [];
  }

  lemma {:induction false} SetMore(t: Tree, s: Setting, settings: seq<Setting>)
    ensures SetAll(SetAll(t, [s]), settings) == SetAll(t, [s] + settings)
  {
    assert ([s] + settings)[1..] == settings;
    SetOne(t, s);
  }

  lemma SetHereMore(t: Tree, settings: seq<Setting>)
    requires settings != [] && AtGroup(t)
    ensures AtGroup(SetHere(t, settings[..1]))
        && SetHere(SetHere(t, [settings[0]]), settings[1..]) == SetHere(t, settings)
  {
    assert settings == [settings[0]] + settings[1..] && settings[..1] == [settings[0]];
    SetOne(t, settings[0]);
    SetMore(t, settings[0], settings[1..]);
    if t.kids != [] {
      SetOne(LastKid(t), settings[0]);
      SetMore(LastKid(t), settings[0], settings[1..]);
    }
  }

  /** Settings are said of the group at hand, at its head, or of the one before. */
  lemma {:induction false} SettingsRead(settings: seq<Setting>, rest: seq<string>, args: seq<string>, t: Tree, m: Mode,
      o: Env)
    requires args == SettingsText(settings) + rest && SettingsOk(settings) && !m.noMore
        && (settings != [] ==> AtGroup(t))
    ensures ReadGroup(args, t, m, o) == ReadGroup(rest, if settings == [] then t else SetHere(t, settings), m, o)
    decreases settings
  {
    if settings == [] {
      assert args == rest;
    } else {
      var s, more := settings[0], SettingsText(settings[1..]) + rest;
      assert args == SettingText(s) + more;
      SettingTurns(s, more, args, t, m, o);
      SetHereMore(t, settings);
      assert settings[..1] == [s];
      SettingsRead(settings[1..], rest, more, SetHere(t, [s]), m, o);
      if settings[1..] == [] { assert settings == [s]; }
    }
  }

  // ---------------------------------------------------------------- options of one entry

  /** An option said of the last entry is remembered with it. */
  lemma SaidTurns(s: Said, rest: seq<string>, args: seq<string>, t: Tree, m: Mode, o: Env)
    requires args == ["-" + s.name, s.value] + rest && OptionsOk([s], AfterGroup(t), o) && t.kids != []
    requires m.local && !m.noMore
    ensures Turn(args, t, m, o) == Stay(t.(kids := OnLast(t.kids, [s])), rest, m)
  {
    assert s in [s];
    var more := [s.value] + rest;
    assert args == ["-" + s.name] + more;
    DashTurns(s.name, more, args, t, m, o);
    assert more[0] == s.value && Skip(more, 1) == rest;
    RememberOne(LastKid(t), s);
  }

  lemma OnLastMore(ts: seq<Tree>, s: Said, more: seq<Said>)
    requires ts != []
    ensures OnLast(OnLast(ts, [s]), more) == OnLast(ts, [s] + more)
    ensures OnLast(ts, [s])[|ts| - 1].kids == ts[|ts| - 1].kids
  {
    RememberOne(ts[|ts| - 1], s);
    assert ([s] + more)[1..] == more;
  }

  lemma {:induction false} OptionsRead(options: seq<Said>, group: bool, rest: seq<string>, args: seq<string>, t: Tree,
      m: Mode, o: Env)
    requires args == OptionsText(options) + rest && OptionsOk(options, group, o) && t.kids != []
    requires group == AfterGroup(t) && m.local && !m.noMore
    ensures ReadGroup(args, t, m, o) == ReadGroup(rest, t.(kids := OnLast(t.kids, options)), m, o)
    decreases options
  {
    if options == [] {
      assert args == rest && OnLast(t.kids, options) == t.kids;
    } else {
      var s, more := options[0], OptionsText(options[1..]) + rest;
      assert args == ["-" + s.name, s.value] + more;
      var t' := t.(kids := OnLast(t.kids, [s]));
      assert OptionsOk([s], group, o) && options == [s] + options[1..];
      SaidTurns(s, more, args, t, m, o);
      StayStep(args, t, m, o, t', more, m);
      OnLastMore(t.kids, s, options[1..]);
      OptionsRead(options[1..], group, rest, more, t', m, o);
    }
  }

  // ---------------------------------------------------------------- entries

  lemma {:induction false} TitlesAre(titles: seq<string>)
    ensures titles != [] ==> Titles(titles) == Leaves(titles)
    ensures titles == [] ==> Titles(titles) == [Leaf(None)]
    ensures Titles(titles)[|Titles(titles)| - 1].kids == []
  {
    if |titles| > 1 {
      TitlesAre(titles[1..]);
    } else if |titles| == 1 {
      assert Leaves(titles[1..]) == [];
    }
  }

  lemma OnLastConcat(a: seq<Tree>, b: seq<Tree>, options: seq<Said>)
    requires b != []
    ensures OnLast(a + b, options) == a + OnLast(b, options)
  {
  }

  lemma FileTurns(arg: string, titles: seq<string>, more: seq<string>, args: seq<string>, t: Tree, m: Mode, o: Env)
    requires FileOk(arg, titles, o) && args == [arg] + more
    ensures Turn(args, t, m, o) == Stay(t.(kids := t.kids + Titles(titles)), more, m.(local := true))
  {
    assert args[0] == arg && args[1..] == more;
    TitlesAre(titles);
  }

  lemma FileRead(arg: string, titles: seq<string>, options: seq<Said>, rest: seq<string>, more: seq<string>,
      args: seq<string>, t: Tree, m: Mode, o: Env)
    requires FileOk(arg, titles, o) && OptionsOk(options, false, o) && !m.noMore
    requires args == [arg] + more && more == OptionsText(options) + rest
    ensures ReadGroup(args, t, m, o)
         == ReadGroup(rest, t.(kids := t.kids + OnLast(Titles(titles), options)), m.(local := true), o)
  {
    var ts := Titles(titles);
    var t', m' := t.(kids := t.kids + ts), m.(local := true);
    FileTurns(arg, titles, more, args, t, m, o);
    StayStep(args, t, m, o, t', more, m');
    TitlesAre(titles);
    OptionsOfLast(options, false, rest, more, t.kids, ts, t', m', o);
  }

  /** The options of the last of the trees ts, which stand behind others. */
  lemma OptionsOfLast(options: seq<Said>, group: bool, rest: seq<string>, args: seq<string>, before: seq<Tree>,
      ts: seq<Tree>, t: Tree, m: Mode, o: Env)
    requires args == OptionsText(options) + rest && OptionsOk(options, group, o) && m.local && !m.noMore
    requires ts != [] && t.kids == before + ts && (group <==> ts[|ts| - 1].kids != [])
    ensures ReadGroup(args, t, m, o) == ReadGroup(rest, t.(kids := before + OnLast(ts, options)), m, o)
  {
    OptionsRead(options, group, rest, args, t, m, o);
    OnLastConcat(before, ts, options);
  }

  lemma {:induction false} SetAllKeeps(t: Tree, settings: seq<Setting>)
    ensures SetAll(t, settings).kids == t.kids && SetAll(t, settings).file == t.file
    ensures SetAll(t, settings).params == t.params
    decreases settings
  {
    if settings != [] {
      SetAllKeeps(if settings[0].Loops? then t.(loop := if settings[0].n > 0 then settings[0].n else -1)
                  else t.(shuffle := settings[0].on), settings[1..]);
    }
  }

  /** The inside of a group, up to its closing brace. */
  lemma InsideRead(e: Entry, rest: seq<string>, args: seq<string>, shuffle: bool, m: Mode, o: Env, head: Tree)
    requires e.OneGroup? && EntryOk(e, o) && m.local && !m.noMore && head == SetAll(Group(shuffle), e.before)
    requires args == SettingsText(e.before) + (LineOf(e.entries) + (["}"] + rest))
    ensures ReadGroup(args, Group(shuffle), m, o) == (head.(kids := TreesOf(e.entries, head.shuffle)), Closed(rest, m))
    decreases e, 0
  {
    var inner, last := LineOf(e.entries) + (["}"] + rest), ["}"] + rest;
    SettingsRead(e.before, inner, args, Group(shuffle), m, o);
    SetAllKeeps(Group(shuffle), e.before);
    EntriesRead(e.entries, last, inner, head, m, o);
    LeaveStep(last, head.(kids := TreesOf(e.entries, head.shuffle)), m, o, rest);
    assert head.kids + TreesOf(e.entries, head.shuffle) == TreesOf(e.entries, head.shuffle);
  }

  lemma {:induction false} GroupRead(e: Entry, rest: seq<string>, args: seq<string>, t: Tree, m: Mode, o: Env)
    requires e.OneGroup? && EntryOk(e, o) && args == TextOfOne(e) + rest && !m.noMore
    ensures ReadGroup(args, t, m, o)
         == ReadGroup(rest, t.(kids := t.kids + TreesOfOne(e, t.shuffle)), m.(local := true), o)
    decreases e, 1
  {
    var head, m' := SetAll(Group(t.shuffle), e.before), m.(local := true);
    var tail := SettingsText(e.behind) + (OptionsText(e.options) + rest);
    var inner := SettingsText(e.before) + (LineOf(e.entries) + (["}"] + tail));
    var g := head.(kids := TreesOf(e.entries, head.shuffle));
    GroupText(e, rest, tail, inner, args);
    InsideRead(e, tail, inner, t.shuffle, m', o, head);
    EnterStep(args, inner, t, m, o, g, tail);
    BehindRead(e, rest, tail, t.kids, Attach(t, g), g, m', o);
  }

  /** The text of a group, cut where its parts begin. */
  lemma GroupText(e: Entry, rest: seq<string>, tail: seq<string>, inner: seq<string>, args: seq<string>)
    requires e.OneGroup? && args == TextOfOne(e) + rest
    requires tail == SettingsText(e.behind) + (OptionsText(e.options) + rest)
    requires inner == SettingsText(e.before) + (LineOf(e.entries) + (["}"] + tail))
    ensures args == ["{"] + inner
  {
  }

  /** What stands behind the closing brace of a group g, the last of its siblings. */
  lemma BehindRead(e: Entry, rest: seq<string>, args: seq<string>, before: seq<Tree>, t: Tree, g: Tree, m: Mode, o: Env)
    requires e.OneGroup? && EntryOk(e, o) && args == SettingsText(e.behind) + (OptionsText(e.options) + rest)
    requires t.kids == before + [g] && (g.kids != [] <==> e.entries != []) && m.local && !m.noMore
    ensures ReadGroup(args, t, m, o)
         == ReadGroup(rest, t.(kids := before + [Remember(SetAll(g, e.behind), e.options)]), m, o)
  {
    var more, g' := OptionsText(e.options) + rest, SetAll(g, e.behind);
    var t' := t.(kids := before + [g']);
    SettingsBehind(e.behind, more, args, before, t, g, m, o);
    SetAllKeeps(g, e.behind);
    OptionsOfLast(e.options, e.entries != [], rest, more, before, [g'], t', m, o);
    OnOnly(g', e.options);
  }

  lemma SettingsBehind(settings: seq<Setting>, rest: seq<string>, args: seq<string>, before: seq<Tree>, t: Tree,
      g: Tree,
      m: Mode, o: Env)
    requires args == SettingsText(settings) + rest && SettingsOk(settings) && !m.noMore
    requires t.kids == before + [g] && (settings != [] ==> g.kids != [])
    ensures ReadGroup(args, t, m, o) == ReadGroup(rest, t.(kids := before + [SetAll(g, settings)]), m, o)
  {
    SettingsRead(settings, rest, args, t, m, o);
    assert t.kids[|t.kids| - 1 := SetAll(g, settings)] == before + [SetAll(g, settings)];
  }

  lemma OnOnly(g: Tree, options: seq<Said>)
    ensures OnLast([g], options) == [Remember(g, options)]
  {
  }

  lemma OneRead(e: Entry, rest: seq<string>, args: seq<string>, t: Tree, m: Mode, o: Env)
    requires EntryOk(e, o) && args == TextOfOne(e) + rest && !m.noMore
    ensures ReadGroup(args, t, m, o)
         == ReadGroup(rest, t.(kids := t.kids + TreesOfOne(e, t.shuffle)), m.(local := true), o)
    decreases e, 2
  {
    if e.OneFile? {
      var more := OptionsText(e.options) + rest;
      assert args == [e.arg] + more;
      FileRead(e.arg, e.titles, e.options, rest, more, args, t, m, o);
    } else {
      GroupRead(e, rest, args, t, m, o);
    }
  }

  lemma LineSplits(entries: seq<Entry>, rest: seq<string>, more: seq<string>, args: seq<string>)
    requires entries != [] && args == LineOf(entries) + rest && more == LineOf(entries[1..]) + rest
    ensures args == TextOfOne(entries[0]) + more
  {
  }

  lemma TreesSplit(entries: seq<Entry>, before: seq<Tree>, shuffle: bool)
    requires entries != []
    ensures before + TreesOfOne(entries[0], shuffle) + TreesOf(entries[1..], shuffle)
        == before + TreesOf(entries, shuffle)
  {
  }

  lemma {:induction false} EntriesRead(entries: seq<Entry>, rest: seq<string>, args: seq<string>, t: Tree, m: Mode,
      o: Env)
    requires AllOk(entries, o) && args == LineOf(entries) + rest && !m.noMore
    ensures ReadGroup(args, t, m, o) == ReadGroup(rest, t.(kids := t.kids + TreesOf(entries, t.shuffle)),
      if entries == [] then m else m.(local := true), o)
    decreases entries
  {
    if entries == [] {
      assert args == rest && t.kids + [] == t.kids;
    } else {
      var e, more := entries[0], LineOf(entries[1..]) + rest;
      var t' := t.(kids := t.kids + TreesOfOne(e, t.shuffle));
      LineSplits(entries, rest, more, args);
      OneRead(e, more, args, t, m, o);
      EntriesRead(entries[1..], rest, more, t', m.(local := true), o);
      TreesSplit(entries, t.kids, t.shuffle);
    }
  }

  /** A command line written from settings for the whole list and any entries means just these. */
  lemma MeansWhatIsWritten(before: seq<Setting>, entries: seq<Entry>, o: Env)
    requires SettingsOk(before) && AllOk(entries, o)
    ensures var all := SetAll(Tree(None, 0, false, [], []), before);
      Meaning(SettingsText(before) + LineOf(entries), o) == Built(all.(kids := TreesOf(entries, all.shuffle)))
  {
    var args, all := SettingsText(before) + LineOf(entries), SetAll(ROOT, before);
    SettingsRead(before, LineOf(entries), args, ROOT, BEGIN, o);
    SetAllKeeps(ROOT, before);
    assert LineOf(entries) + [] == LineOf(entries);
    EntriesRead(entries, [], LineOf(entries), all, BEGIN, o);
    assert all.kids + TreesOf(entries, all.shuffle) == TreesOf(entries, all.shuffle);
  }

  // ---------------------------------------------------------------- what is not remembered

  /** A file even if it looks like an option. */
  ghost predicate PlainName(name: string, o: Env) {
    name != "--" && name != "{" && name != "}" && o.names(name) == [name]
  }

  /** After -- every argument but a brace or another -- is a file. */
  lemma {:induction false} FilesAfterDashes(names: seq<string>, t: Tree, m: Mode, o: Env)
    requires m.noMore && forall i | 0 <= i < |names| :: PlainName(names[i], o)
    ensures ReadGroup(names, t, m, o)
         == (t.(kids := t.kids + Leaves(names)), Ended(if names == [] then m else m.(local := true)))
    decreases names
  {
    if names == [] {
      assert t.kids + [] == t.kids;
    } else {
      var kid, more := Leaf(Some(names[0])), names[1..];
      PlainTurns(names[0], more, names, t, m, o);
      StayStep(names, t, m, o, Attach(t, kid), more, m.(local := true));
      FilesAfterDashes(more, Attach(t, kid), m.(local := true), o);
      assert t.kids + [kid] + Leaves(more) == t.kids + Leaves(names);
    }
  }

  lemma PlainTurns(name: string, rest: seq<string>, args: seq<string>, t: Tree, m: Mode, o: Env)
    requires args != [] && args[0] == name && args[1..] == rest && m.noMore && PlainName(name, o)
    ensures Turn(args, t, m, o) == Stay(Attach(t, Leaf(Some(name))), rest, m.(local := true))
  {
    assert [name][1..] == [] && Leaves([name]) == [Leaf(Some(name))];
  }

  /** An option before all entries, or one that holds for all of them, is remembered with none. */
  lemma GlobalRemembersNothing(s: Said, global: bool, rest: seq<string>, args: seq<string>, t: Tree, m: Mode, o: Env)
    requires args == ["-" + s.name, s.value] + rest && !m.noMore && (!m.local || global)
    requires s.name != "" && s.name != "-" && Lower(s.name) != "shuffle" && Lower(s.name) != "noshuffle"
    requires Lower(s.name) != "loop" && o.option(s.name, Some(s.value)) == Taken(1, global)
    ensures ReadGroup(args, t, m, o) == ReadGroup(rest, t, m, o)
  {
    var more := [s.value] + rest;
    assert args == ["-" + s.name] + more;
    DashTurns(s.name, more, args, t, m, o);
    assert more[0] == s.value && Skip(more, 1) == rest;
    StayStep(args, t, m, o, t, rest, m);
  }

  lemma {:induction false} ExitStays(args: seq<string>, t: Tree, m: Mode, o: Env)
    requires m.exit
    ensures var r := ReadGroup(args, t, m, o).1; !r.Failed? ==> r.mode.exit
    decreases |args|
  {
    if args != [] {
      match Turn(args, t, m, o)
      case Bad(_) =>
      case Leave(_) =>
      case Stay(t', rest, m') => ExitStays(rest, t', m', o);
      case Enter(rest, m') =>
        ExitStays(rest, Group(t.shuffle), m', o);
        var (kid, after) := ReadGroup(rest, Group(t.shuffle), m', o);
        if after.Closed? { ExitStays(after.rest, Attach(t, kid), after.mode, o); }
    }
  }

  /** A line that begins with an option that asks to exit builds nothing, whatever follows. */
  lemma ExitBuildsNothing(name: string, rest: seq<string>, n: nat, o: Env)
    requires name != "" && name != "-" && Lower(name) != "shuffle" && Lower(name) != "noshuffle"
        && Lower(name) != "loop"
    requires o.option(name, if rest == [] then None else Some(rest[0])) == Exits(n)
    ensures Meaning(["-" + name] + rest, o).Refused?
  {
    var args, m := ["-" + name] + rest, BEGIN.(exit := true);
    DashTurns(name, rest, args, ROOT, BEGIN, o);
    StayStep(args, ROOT, BEGIN, o, ROOT, Skip(rest, n), m);
    ExitStays(Skip(rest, n), ROOT, m, o);
  }

  /** A line that ends in -- names no file. */
  lemma DashesNeedAFile(t: Tree, m: Mode, o: Env)
    ensures ReadGroup(["--"], t, m, o) == (t, Failed(NoFileGiven))
  {
  }

  /** A -loop for a group needs a number, and nothing behind it. */
  lemma LoopNeedsANumber(rest: seq<string>, args: seq<string>, t: Tree, m: Mode, o: Env)
    requires args == ["-" + "loop"] + rest && AtGroup(t) && !m.noMore
    requires rest == [] || ReadNumber(rest[0]).1 < |rest[0]|
    ensures ReadGroup(args, t, m, o) == (t, Failed(BadLoop))
  {
    assert Lower("loop") == "loop";
    DashTurns("loop", rest, args, t, m, o);
  }

  /** An option without an argument is remembered with whatever stands behind it, which is then read for itself. */
  lemma FlagRemembersNext(name: string, rest: seq<string>, args: seq<string>, t: Tree, m: Mode, o: Env,
      next: Option<string>)
    requires args == ["-" + name] + rest && next == (if rest == [] then None else Some(rest[0])) && t.kids != []
    requires name != "" && name != "-" && Lower(name) != "shuffle" && Lower(name) != "noshuffle"
        && Lower(name) != "loop"
    requires o.option(name, next) == Taken(0, false) && m.local && !m.noMore
    ensures var last := LastKid(t);
      ReadGroup(args, t, m, o) == ReadGroup(rest,
        t.(kids := t.kids[|t.kids| - 1 := last.(params := last.params + [Param(name, next)])]), m, o)
  {
    DashTurns(name, rest, args, t, m, o);
    assert Skip(rest, 0) == rest;
    StayStep(args, t, m, o, AddParam(t, Param(name, next)), rest, m);
  }
}
