# MPlayer's front-end core, verified

This project models the part of MPlayer that decides what is played, with which options, and in which
order, together with the small machines around it. The models are Dafny classes and arrays where the C
code works by changing things, proved against functions; what the code promises is then proved about
those functions for all inputs and all runs.

* **Play tree** (`PlayTree`, `PlayTreeLists`, `PlayTreeCleanup`, `PlayTreePruned`, `PlayTreeNodes`): the
  sibling lists of `playtree.c`, `play_tree_cleanup`, and what it keeps.
* **Iterator** (`IterModel`, `PlayTreeIter`): `play_tree_iter_step`, `up_step` and `down_step` as mutually
  recursive methods on the linked tree. `IterTheorems` shows that stepping is flattening, `IterConfig` that
  every entry is played with the options of its path, `IterSteps` where a step of any length
  and direction stops, `IterEndless` what endless loops play,
  `IterShuffle` and `IterMixed` what shuffling plays and when it ends, `IterFiles` which files come out.
* **Option context** (`ConfigModel`, `Config`, `ConfigTheorems`, `ConfigNames`): save slots, levels and aliases of
  `m_config.c`, from which level on a block of settings is undone, and which option a name sets.
* **Command line** (`CommandLine`, `CommandWriting`, `CommandNodes`, `CommandParser`, `CommandShape`,
  `CommandPlays`): braces and group options of `parser-mpcmd.c`, lists written as lines and read back; the last of
  these joins parser, clean-up and iterator.
* **Text machines** (`SeparatedText`, `SeparatedScan`, `SeparatedJoin`, `StringLists`, `StringListMeaning`,
  `ObjectLists`, `Suboptions`, `SuboptionText`, `Strtol`, `StrtolBases`; `PropertyText`, `PropertyTemplates`): the list splitter,
  compactors and suboption reader of `m_option.c`, and the template expander of `m_property.c`.
* **Key queue** (`KeyFifo`, `StuckKeys`), **frame timing** (`FrameTiming`), **edit lists** (`EditLists`,
  `EditTimes`, `EditTraversal`).

`dafny verify dfyconfig.toml` checks everything.

## Where the code does something else than expected

Each of these is a lemma here; where the expected property holds for some inputs, with its exact condition.

* A setting through an alias made inside a block opened at level 1 outlives the block, because the alias
  captured its slot at registration (`src/m_config.c:336-346`); from level 2 on it does not
  (`ConfigTheorems.AliasedNeedsLevelTwo`).
* A shuffled list with loop l plays l + 1 rounds where a plain group plays max(1, l)
  (`IterShuffle.ShuffledPlaysEveryRound`).
* Nothing outside a shuffled group is played once it has been entered (`IterMixed.NeverLeavesShuffled`); and a
  list with just the root shuffled, a finite number of times, comes to an end if and only if no group is among
  the root's children (`IterMixed.ShuffledEndsIff`).
* A list that is a single entry starts again after its end (`IterFiles.LoneEntryRestarts`).
* The key ring keeps its order for any number of keys only if its size divides 2^32; the default of 7 does
  not (`KeyFifos.OrderlyForever`).
* Lists of strings are printed without escaping, so they are read back only if no element holds a separator
  (`SeparatedJoin.PrintRoundTrip`).
* An EDL action such as 65537 is no mute when the line is read and one once it is stored in a short, so a mute
  can be left alone (`EditLists.ReadGuarantees`). A skip inside it that is given up then ends the mute too soon:
  edl_muted is right in every run if and only if no skip inside a mute is at or behind a skip that only mutes
  precede (`EditTraversal.MutedIff`, `EditTraversal.FileMutedIff`, `EditTraversal.ExposedBreaks`).
* A key code that presses a key and releases all of them leaves a key stuck in every queue of two or more; no
  key is stuck in any run if and only if there is no such code or the queue holds one code only
  (`StuckKeys.BothMarksStick`, `StuckKeys.NoStuckIff`).
* `\x` in a property template goes on one character too early (`src/m_property.c:133-147`), so the last digit
  taken is read again (`PropertyTemplates.HexLeavesOne`); the output is right if and only if the escape ends the
  text, is dropped, or stands before a text that is read past its end (`PropertyTemplates.HexRightIff`).

## Model

| member | source | states |
|---|---|---|
| PlayTreeLists.Append | src/playtree.c:110-129 | the siblings end with the new entry, linked both ways under the same parent; appending a node to itself changes nothing |
| PlayTreeLists.Prepend | src/playtree.c:131-154 | the new entry comes before all siblings and the parent's child pointer is the new head |
| PlayTreeLists.Insert | src/playtree.c:156-176 | the new entry stands right after the given node, all other places kept |
| PlayTreeLists.Remove | src/playtree.c:178-223 | the siblings without the node, in their order, in all four cases; the node itself is left without links |
| PlayTreeLists.SetChild | src/playtree.c:225-255 | the whole list that the child stands in becomes the children; the old children, unless the child is one of them, lose their parent; a missing node changes nothing |
| PlayTreeLists.SameChain | src/playtree.c:225-255 | two sibling lists that share a node are the same list, so old and new children are the same or apart |
| PlayTreeLists.SetParamsFrom | src/playtree.c:352-428 | the parameters of the source node come behind those that are there, in order; the shuffle flag is passed on only by a node that has parameters |
| PlayTreeLists.InsertEntry | src/playtree.c:912-922 | the new entry stands after the cursor and takes over its parameters behind its own, the shuffle flag only if there are parameters |
| PlayTreeLists.Replace | src/playtree.c:924-932 | inserting and removing puts the new entry, with the parameters it inherits, exactly in the place of the old one, and the cursor on it |
| PlayTreeLists.InsertAndRemove | src/playtree.c:156-223 | removing a freshly linked entry puts every pointer of the list back |
| PlayTreeLists.ChainNoRepeats | src/playtree.c:110-223 | a list linked both ways from a head without predecessor holds no node twice |
| PlayTrees.CleanHasFile | src/playtree.c:662-683 | in a tree without childless groups every node is valid |
| PlayTreeNodes.FreeIndex | src/playtree.c:521-546 | counting down over the unplayed siblings picks the drawn one: the r-th free choice |
| PlayTreeNodes.RndStep | src/playtree.c:521-546 | for any draw the pick is the drawn unplayed sibling, none only if all are played; the "Random stepping error" line cannot be reached |
| PlayTreeNodes.UnsetPlayed | src/playtree.c:431-442 | the flag goes from exactly the nodes within the given depth |
| PlayTreeNodes.RootReaches | src/playtree.c:431-442 | from the root with depth -1 that is every node of the tree |
| PlayTreeNodes.Along | src/playtree.c:583-595 | d siblings along in either direction, or off the end with what is left of the step, one at least |
| PlayTreeCleanup.IsValid | src/playtree.c:662-683 | valid exactly when the subtree holds a file entry, also while the tree is partly cleaned |
| PlayTreeCleanup.DropInvalid | src/playtree.c:809-818 | the first loop leaves the children that hold a file, in order, and first is the head of what is left |
| PlayTreeCleanup.Cleanup | src/playtree.c:796-828 | NULL exactly when there is no file below, and then the node has left its list, at the root or anywhere; otherwise below the node every list is thinned to the children that hold a file |
| PlayTreePruned.PrunedOk | src/playtree.c:796-828 | what is left is a tree again, and each of its nodes is an entry or has children |
| PlayTreePruned.PrunedFlattens | src/playtree.c:796-828 | flattening the cleaned tree gives what flattening the whole tree gave: no file entry is lost, added or moved, whatever the loops |
| PlayTreePruned.CleanedIsPruned | src/playtree.c:796-828 | after cleaning the root the pointers in the heap are those of the pruned tree |
| IterModel.Step | src/playtree.c:549-660 | for any direction, any loops and any draws the call ends, never gives ERROR, and leaves the stack of saved counters as deep as the node it stands on |
| IterSteps.StepReachesSibling | src/playtree.c:583-659 | in a plain list a step of any length in either direction, with that many siblings there, stops at the sibling so far along; if that is a group, at the entry at which it is entered, forward by its first child and backward by its last one |
| IterSteps.StepGoesRound | src/playtree.c:605-619 | a step off an end of the siblings with another round in its direction stops forward at the first sibling, with a round less to go, and backward at the last one, with a round more |
| IterSteps.StepGoesUp | src/playtree.c:605-619 | without another round it goes on from the group itself with what is left of it, and at the top it is the end |
| IterSteps.ThereAndBack | src/playtree.c:583-659 | among entries a step and the same step back return to the same entry and counters, whatever length and direction |
| IterSteps.RoundAndBack | src/playtree.c:605-619 | so they do over the end of a round, rounds counted or endless |
| IterSteps.StepStopsAtNode | src/playtree.c:623-640 | a step that stops at nodes stops at the sibling itself, group or entry |
| IterSteps.UpIsStepAbove | src/playtree.c:685-726 | moving up is a step of d from the group at hand, and the end at the top |
| IterSteps.DownEnters | src/playtree.c:728-763 | moving down enters the group by its first or last child, one level deeper and with a round less than its loop to go |
| IterTheorems.StepCounts | src/playtree.c:605-619 | without shuffle, in any direction and with endless loops too, the loop counter and every saved one stay between 0 and their group's loop when that is positive |
| IterTheorems.ArriveFlattens | src/playtree.c:623-659 | arriving at a node stops at its first file, and that file with what is then to come is the node's flattening and what followed the node |
| IterTheorems.StepAdvances | src/playtree.c:549-619 | a step by one stops at the next entry still to come, and gives END exactly when none is |
| IterTheorems.RunsFlattenRoot | src/playtree.c:549-763 | every run of forward steps from creation, with any marks and draws, has visited a prefix of flatten(root), can go on exactly until that is used up, and then is at END |
| IterTheorems.EndIsFinal | src/playtree.c:549-763 | at END every further forward step gives END again |
| IterEndless.EndlessRuns | src/playtree.c:605-619 | with loops for ever anywhere: a run of forward steps has visited a prefix of flatten(root) with each endless loop played more often than the run has stops, and is at END exactly when that is used up |
| IterEndless.EndlessNeverEnds | src/playtree.c:605-619 | if any group loops for ever, no run of forward steps is ever at END |
| IterConfig.DoAllOnPath | src/playtree.c:447-477 | steps, moves up and down and settings made by the user keep one option level for each node on the path, each holding the value of its part of the path |
| IterConfig.EntryHasItsPath | src/playtree.c:447-477 | after any calls, a step that stops at an entry has level = start + depth + 1 and gives each plain saved variable the value it had at the start overlaid by the params from the root to the entry; what was set at earlier entries is gone |
| IterShuffle.ShuffledStep | src/playtree.c:597-604 | in a flat shuffled list a step plays an entry not yet played, or starts a new round, or ends; never ERROR |
| IterShuffle.RoundIsPermutation | src/playtree.c:521-546 | for any draws a round plays every entry exactly once |
| IterShuffle.FirstRoundIsPermutation | src/playtree.c:521-604 | so does the first round of an iterator that has just been made |
| IterShuffle.AnyEntryCanCome | src/playtree.c:521-546 | any entry not played yet is the next one for some draw |
| IterShuffle.ShuffledPlaysEveryRound | src/playtree.c:597-604 | from creation, whatever the draws and directions, a shuffled list with root loop l >= 0 plays exactly l + 1 rounds, so with 0 each entry once before END |
| IterMixed.NeverLeavesShuffled | src/playtree.c:597-604 | in any tree, a walk that has come into a shuffled group never steps out of it, in any direction and with any loops and draws |
| IterMixed.StepGoesOn | src/playtree.c:549-763 | below a shuffled group that holds no other shuffled group but has a plain group among its children, not marked as played, no step is at END or marks that child |
| IterMixed.UpMarksGroup | src/playtree.c:686-726 | moving up by hand out of a shuffled group marks the group as played, if there is an option context |
| IterMixed.ShuffledEndsIff | src/playtree.c:549-763 | with just the root shuffled and its loop finite, some steps from creation come to END if and only if no child of the root is a group |
| IterFiles.StepAtEntry | src/playtree.c:644-657 | a step that stops at an entry stands before its first file with the right file count |
| IterFiles.NextFileReads | src/playtree.c:765-794 | a call by one gives the next unread file of this or the next entry, and leaves exactly the rest unread |
| IterFiles.BackInFiles | src/playtree.c:765-794 | a call backward gives the file before, from the first one the last; for 0 the same again; and none at the last file, in any direction |
| IterFiles.FileOnAndBack | src/playtree.c:765-794 | one file on and one back is the same file, unless the last one was come to |
| IterFiles.FilesInOrder | src/playtree.c:890-910 | successive calls after creation, with any marks and draws, give the files of flatten(root), each in its turn, and then none for ever |
| IterFiles.LoneEntryRestarts | src/playtree.c:890-910 | when the root itself is an entry the call after the end gives its first file again |
| PlayTreeIterator.PlayTreeIter.PushParams | src/playtree.c:447-477 | the loop over the params leaves the context one level higher with all of them set in order, refused ones skipped; the entry is marked as pushed only if it has no children |
| PlayTreeIterator.PlayTreeIter.Step | src/playtree.c:549-572 | the linked tree, the counters, the marks and the option context become exactly those of the step function; a new iterator first stands on the root |
| PlayTreeIterator.PlayTreeIter.StepFrom | src/playtree.c:574-660 | the same for the recursive body, which ends for every direction |
| PlayTreeIterator.PlayTreeIter.StepShuffledFrom | src/playtree.c:597-604 | the shuffled branch: a draw, END, or another round |
| PlayTreeIterator.PlayTreeIter.StepInOrderFrom | src/playtree.c:583-595 | the plain branch: d siblings along or what is left of d |
| PlayTreeIterator.PlayTreeIter.StepOffTheEndFrom | src/playtree.c:605-619 | loop again or go up, with the counter moved as the direction asks |
| PlayTreeIterator.PlayTreeIter.ArriveFrom | src/playtree.c:623-659 | down into a valid group, a stop at the node, or a stop at the entry; the invalid-entry branch is dead on a cleaned tree |
| PlayTreeIterator.PlayTreeIter.UpStep | src/playtree.c:685-726 | END at the top, else the parent with counter, parameters and played mark put back |
| PlayTreeIterator.PlayTreeIter.DownStep | src/playtree.c:728-763 | the first or last child with the counter saved and the parameters pushed |
| PlayTreeIterator.PlayTreeIter.GetFile | src/playtree.c:765-794 | the file cursor moves as the specification says and stays inside the entry's files |
| PlayTreeIterator.PlayTreeIter.NextFile | src/playtree.c:890-910 | the loop goes to another entry once at most and gives the specified file |
| PlayTreeIterator.Create | src/playtree.c:860-880 | NULL exactly when the tree has no file or its first step does not reach an entry; otherwise the iterator walks the cleaned tree from its first entry |
| ConfigModel.PushValid | src/m_config.c:231-267 | after a push every chain of slots still has strictly decreasing levels down to a level-0 slot |
| ConfigModel.PopValid | src/m_config.c:269-303 | after a pop too, so the chain never runs out |
| ConfigModel.SetValid | src/m_config.c:401-484 | setting an option keeps the chains, the level and the slots that aliases hold |
| ConfigModel.AddOptionValid | src/m_config.c:305-367 | registering an option keeps all this, whether it owns its variable or shares one |
| ConfigTheorems.ScopeGives | src/m_config.c:231-303 | after a block a saved variable has exactly what the settings through aliases of its saved slot, taken in order, make of its old value; nothing else in the block counts |
| ConfigTheorems.ScopeRestores | src/m_config.c:231-303 | so it has its old value if the block, inner blocks included, sets it by its own names only, whatever aliases there are |
| ConfigTheorems.HarmlessRestores | src/m_config.c:231-303 | and after any block if no alias can change the saved slot |
| ConfigTheorems.RestoresIff | src/m_config.c:305-367 | push and pop restore a saved variable over every balanced run if and only if no accepted setting through an alias changes the slot it was saved in |
| ConfigTheorems.UnsavedIsNotRestored | src/m_config.c:231-267 | a variable that the push does not save (GLOBAL, NOSAVE, OLD and unset) keeps what its own name sets |
| ConfigTheorems.LevelTwoRestores | src/mencoder.c:643-648 | from level 2 on, whatever is set under any name, push and pop restore every saved variable, those of OLD options apart, whose slots are no layers |
| ConfigTheorems.AliasedNeedsLevelTwo | src/mencoder.c:643-648 | with an alias that accepts a changing value, restoring over every run holds if and only if the level is 2 at least |
| ConfigTheorems.AlwaysLayered | src/m_config.c:175-367 | from a new context, after any registrations at level 1 and any sets, pushes and pops, every option that is neither OLD nor unsaved has exactly one slot for each level |
| Config.Config.Push | src/m_config.c:231-267 | the loop over the linked slots leaves exactly the pushed state |
| Config.Config.Pop | src/m_config.c:269-303 | the loop that drops slots and copies values back leaves exactly the popped state |
| Config.Config.GetCo | src/m_config.c:385-399 | the option found is the newest registered one that answers to the name, wildcards included |
| ConfigNames.FoundIff | src/m_config.c:385-399 | an option of a wildcard type named with a star is found for every argument that begins with its stem, any other for its own name, large and small letters alike, if no newer option goes by that name; and nothing else is found |
| ConfigNames.RefusedByMode | src/m_config.c:424-431 | an option not meant for config files is refused in one, one not meant for the command line there, with nothing changed; and neither in another mode |
| ConfigNames.SetOnlyWhen | src/m_config.c:432-484 | pre-parsing sets only pre-parse options, afterwards these are set only if they were not; else an accepted option gives its variable what its parser makes of its data, counts as set, and touches no other variable |
| ConfigNames.ChecksOnly | src/m_config.c:401-484 | checking an option changes nothing and gives the same code, and neither does a refused parameter |
| Config.Config.ParseOption | src/m_config.c:401-484 | the same return code, value, slot data and set mark as the model |
| Config.Config.AddOption | src/m_config.c:305-367 | an owner gets its two slots, an alias captures the newest slot of the newest option on the same variable |
| ConfigNames.NewOptionBegins | src/m_config.c:305-367 | the first option on a variable begins with the value of the variable |
| ConfigNames.SharesData | src/m_config.c:330-346 | a second option on a variable works on the data of the first one |
| CommandLine.LoopMeans | src/parser-mpcmd.c:112-287 | the loop with its parent pointers builds the tree that reading the brackets recursively gives, options and loops included |
| CommandLine.RefusedIff | src/parser-mpcmd.c:112-221 | a line of files, braces and -loop options is refused exactly when a word is at fault, and for the first one that is: a closing brace with no group open; a count that is no number where the words before say that the loop is for a group (at its head, or behind the brace that closes one that holds something); a count that the option parser rejects where it is for a file |
| CommandWriting.MeansWhatIsWritten | src/parser-mpcmd.c:112-287 | any nested list of files and groups, with -loop numbers of any sign, -shuffle and -noshuffle at the head of a group or behind it, and options behind each entry, written as a command line, means that list: the number of rounds or for ever, shuffled like the group around it unless said otherwise, and the options with their entries |
| CommandWriting.LoopNeedsANumber | src/parser-mpcmd.c:156-166 | a -loop for a group without a number, or with more behind it, is refused |
| CommandWriting.FilesAfterDashes | src/parser-mpcmd.c:114-123 | after -- every argument but a brace or another -- is a file |
| CommandWriting.DashesNeedAFile | src/parser-mpcmd.c:114-123 | a line that ends in -- is refused |
| CommandWriting.GlobalRemembersNothing | src/parser-mpcmd.c:185-200 | an option before all entries, or a global one, is remembered with no entry |
| CommandWriting.FlagRemembersNext | src/parser-mpcmd.c:190-196 | an option without argument is remembered with whatever stands behind it, which is then read for itself |
| CommandWriting.ExitBuildsNothing | src/parser-mpcmd.c:203-212 | a line that begins with an option that asks to exit builds nothing |
| CommandParser.ParseCommandLine | src/parser-mpcmd.c:88-289 | the nodes that are returned are new, linked into that tree and unplayed; NULL exactly when the line is refused |
| CommandParser.AddEntry | src/parser-mpcmd.c:73-81 | first child of the group or next sibling of the last entry; all other links stay |
| CommandParser.DoOption | src/parser-mpcmd.c:151-212 | -loop for a group, -shuffle, -noshuffle and other options change what the recursive reading says they change |
| CommandNodes.AllClosed | src/parser-mpcmd.c:280-284 | braces left open at the end of the line count as closed there |
| CommandShape.ParsedIsLinked | src/parser-mpcmd.c:88-289 | what the parser returns is a tree whose four kinds of links agree, fit for cleaning and playing |
| CommandPlays.FlattenPlays | src/playtree.c:549-763 | flattening the linked tree visits the files of the tree it stands for |
| CommandPlays.CleanedPlays | src/playtree.c:549-910 | an iterator made on the cleaned tree gives the files that the brackets mean, one by one in order, and then none |
| CommandPlays.PlayCommandLine | src/parser-mpcmd.c:88-289 | parser, clean-up and iterator run one after the other on the same nodes: for lines without shuffled or endless groups the files given out are those that the brackets mean, in order, and then none for ever |
| KeyFifos.KeyFifo.Put | src/mp_fifo.c:31-60 | the ring with its wrapping counters takes a code exactly as the bounded queue does: refused, stored, or stored as a release of all keys |
| KeyFifos.KeyFifo.Get | src/mp_fifo.c:62-71 | codes come out in the order in which they were stored |
| KeyFifos.SlotsApart | src/mp_fifo.c:54-69 | codes that are queued together never share a place in the ring, under 2^32 keys or with a size dividing 2^32 |
| KeyFifos.OrderlyForever | src/mp_fifo.c:54-69 | without bound on the number of keys that holds if and only if the size divides 2^32 |
| KeyFifos.FreeIs | src/mp_fifo.c:32 | the free room computed from unsigned counters is size minus length |
| StuckKeys.PutKeeps | src/mp_fifo.c:31-60 | one put keeps it so, whether it is stored or refused |
| StuckKeys.NoStuckKeys | src/mp_fifo.c:31-60 | in every run of puts and gets, once the queue is drained the input loop holds no key that is not still held |
| StuckKeys.BothMarksStick | src/mp_fifo.c:31-60 | in a queue of any size from 2 on, a code that both presses a key and releases all leaves a key stuck in some run |
| StuckKeys.NoStuckIff | src/mp_fifo.c:31-60 | whatever other codes are sent beside those with one mark at most: no key is stuck in any run if and only if none of them carries both marks, or the size is 1 |
| StuckKeys.CalmRunIsSeen | src/mp_fifo.c:31-60 | in every run in which codes only come to a queue less than half full, and with room for another key, the drained input loop holds exactly the keys that are held |
| StuckKeys.StoredIsSeen | src/mp_fifo.c:31-60 | a code stored as it is leaves both ends with the same keys |
| StuckKeys.QueuedIff | src/mp_fifo.c:31-46 | a press is queued exactly while more than half of the room is free; a release while there is any, into the last place only behind anything but a release of all keys |
| StuckKeys.LastPlace | src/mp_fifo.c:42-54 | what takes the last place releases all keys, and names one only if it is the release of the key pressed last |
| StuckKeys.WheelGoesThrough | src/mp_fifo.c:46-53 | a queue of two lets the press and release of one key through |
| StuckKeys.InterpretHolds | src/input/input.c:1128-1197 | reading one code keeps the pressed keys among the held ones, each once |
| PropertyText.ExpandString | src/m_property.c:116-194 | the loop writes exactly what the scanner function says, in a buffer whose write position never leaves it |
| PropertyText.Write | src/m_property.c:185-189 | the buffer grows when needed and always keeps room for the closing zero |
| PropertyText.ReadPiece | src/m_property.c:121-181 | one turn reads one escape, property, head, close or character and moves lvl, skip and skip_lvl accordingly |
| PropertyTemplates.ExpandParts | src/m_property.c:148-181 | reading template parts writes their value, or nothing while skipping, and leaves lvl, skip and skip_lvl as they were |
| PropertyTemplates.ExpandCond | src/m_property.c:148-177 | a conditional part is kept or dropped as a whole, nested ones inside a dropped part included |
| PropertyTemplates.TemplatesExpand | src/m_property.c:116-194 | expanding any template of literals, escapes, values and nested conditional parts gives its recursive evaluation |
| PropertyTemplates.LiteralMeansItself | src/m_property.c:121-147 | any text can be written as a template that means just that text |
| PropertyTemplates.InertMeansItself | src/m_property.c:148-181 | a text without backslash, closed property or conditional part means itself: lone dollar signs, question marks, braces and parentheses stay |
| PropertyTemplates.InertStays | src/m_property.c:148-181 | such text inside a template is written as it is, and in a dropped part not at all |
| PropertyTemplates.HexLeavesOne | src/m_property.c:133-147 | for every text beginning with \x and every number of digits taken, the character is written and the last digit taken is scanned again |
| PropertyTemplates.HexRightIff | src/m_property.c:133-147 | so \x means its character and what stands behind the digits if and only if it ends the text, lies in a part that is dropped, or has behind it a text that is read past its end |
| SeparatedText.GetNextSep | src/m_option.c:551-563 | the scan, in place when it squeezes escapes out, is the one step function |
| SeparatedScan.ModesAgree | src/m_option.c:551-563 | both modes stop at the same separator, the one where the element ends; the modifying one has taken exactly the escaping backslashes out |
| SeparatedText.CountsAllButLast | src/m_option.c:594-605 | the first pass counts all elements but perhaps an empty last one |
| StringLists.CountElements | src/m_option.c:594-605 | the first pass counts just that and changes nothing |
| StringLists.SplitElements | src/m_option.c:614-635 | the second pass fills the n + 2 cells with the elements and a null pointer, never beyond them |
| StringLists.ParseStrList | src/m_option.c:565-649 | missing, out of range or the elements of the text |
| StringLists.StoreStrList | src/m_option.c:565-649 | by the suffix of the option name the list becomes the new elements, old and new, new and old, the unnamed ones, or empty; an error leaves it alone, and a call without a destination gives the same answer and stores nothing |
| StringListMeaning.SuffixMeans | src/m_option.c:570-585 | -add puts the new elements behind, -pre before the old ones, -del takes out the named ones, -clr all, in any case of letters; any other suffix is no option |
| StringListMeaning.WithoutSuffix | src/m_option.c:570-649 | by the stem alone, or an option without a star, the new elements replace the old ones |
| StringListMeaning.LimitsMean | src/m_option.c:594-610 | a text is out of range exactly when it has fewer elements than the least number or more than the most, an empty last one not counted |
| StringLists.ListAdd | src/m_option.c:473-498 | the new elements after the old ones, or before them |
| StringLists.ListDel | src/m_option.c:500-549 | what is left are the elements whose index is not named, in order; bad and repeated indices do nothing |
| StringListMeaning.DeletedIff | src/m_option.c:500-549 | an element stays exactly when no text is its index, and then in its place among those that stay |
| SeparatedJoin.RoundTrip | src/m_option.c:614-635 | splitting undoes joining with escaped separators if and only if no element but the last ends in a backslash |
| SeparatedJoin.OnlyEmptyIsMissing | src/m_option.c:590-592 | only the list of one empty element is written as the empty text, which is refused |
| SeparatedJoin.PrintRoundTrip | src/m_option.c:674-693 | what print_str_list writes is read back as it was if and only if, besides, no element holds a separator |
| ObjectLists.Compact | src/m_option.c:1751-1756 | the shifting loop leaves the unmarked objects in order and nothing but terminators behind them, so its scan past the new end stays in range |
| ObjectLists.DeleteNamed | src/m_option.c:1706-1763 | the named objects go, negative indices counted from the end; a text that is no number stops with the earlier ones marked |
| ObjectLists.MarksIff | src/m_option.c:1724-1744 | an object is marked exactly when its number is named, counted from 0 or below 0 from the end |
| ObjectLists.UnmarkedAt | src/m_option.c:1750-1758 | an object not marked stays in its place among those that stay |
| Suboptions.ParseSubconf | src/m_option.c:961-1052 | the loop gives what reading suboptions one after the other gives, and every turn consumes input |
| SuboptionText.TextRoundTrip | src/m_option.c:961-1052 | names and values written plainly, in quotes or with their length are read back the same; the first one refused decides the outcome |
| SuboptionText.AcceptedIff | src/m_option.c:961-1052 | a written text is accepted exactly when each suboption is known and its parser answers 0 or more; else it is said of the first other one whether it is unknown or with which code it is refused |
| SuboptionText.UnclosedQuote | src/m_option.c:987-996 | a quoted value that is not closed is refused |
| SuboptionText.BehindQuote | src/m_option.c:987-1021 | something but a colon behind the closing quote is refused |
| SuboptionText.LengthTooLarge | src/m_option.c:998-1005 | a length beyond the end of the text is refused |
| SuboptionText.LengthNotClosed | src/m_option.c:998-1005 | so is one without its second percent sign |
| SuboptionText.EmptyIsNone | src/m_option.c:1031-1037 | an empty value, in quotes or not, is passed on as none |
| SuboptionText.RereadCounted | src/m_option.c:961-1052 | whatever text is accepted, writing what was read with counted values and reading again gives the same |
| Strtol.ReadsDecimal | src/m_option.c:1001-1004 | a length written in decimal is read back up to the percent sign |
| StrtolBases.ReadsInBase | src/m_option.c:1001-1004 | any int but 0 in decimal, octal or hexadecimal, with a sign or none and behind blanks, is read back up to what follows |
| FrameTiming.FrameClock.Frame | src/mencoder.c:1435-1600 | the corrections, the skip flag and the chunks written follow the frame function |
| FrameTiming.FrameClock.DecideByTimer | src/mencoder.c:1462-1469 | one skip, or duplicates until the timer is less than a frame behind or the limit is met |
| FrameTiming.FrameClock.DecideByPts | src/mencoder.c:1474-1483 | the accumulated correction is followed when two frames large or opposite to the timer |
| FrameTiming.TimerDecides | src/mencoder.c:1462-1469 | within a frame nothing; a frame ahead one skip if any is allowed; behind, duplicates until it is less than a frame or as many as allowed |
| FrameTiming.PtsDecides | src/mencoder.c:1474-1483 | within a frame nothing; within two only what undoes the timer; from two on one skip unless there is one, or duplicates until it is less than two |
| FrameTiming.FrameClock.Emit | src/mencoder.c:1489-1568 | chunks written: none for a skip, one and the duplicates otherwise; a picture that fails to appear is charged to the timer |
| FrameTiming.DecisionBalance | src/mencoder.c:1462-1483 | the decision moves whole frames between the corrections and the skip flag, which is never above 1 |
| FrameTiming.RunBalanced | src/mencoder.c:1435-1600 | frame duration x frames written = input time + v_timer_corr + v_pts_corr - c_total after every frame of every run |
| FrameTiming.RunClose | src/mencoder.c:1462-1469 | without a limit v_timer_corr stays within a frame, two behind when pictures fail, in every run, whatever corrections the sound asks for |
| FrameTiming.OutputFollowsSound | src/mencoder.c:1435-1600 | so output time stays as close to input time plus the corrections that the sound has asked for and that are carried out |
| FrameTiming.OutputKeepsTime | src/mencoder.c:1462-1469 | without sound, output time itself is within one frame of input time; within two behind when pictures may fail |
| FrameTiming.NothingSkipped | src/mencoder.c:1462-1469 | with skip limit 0 and no sound every copied frame is written once |
| FrameTiming.FrameClock.Follow | src/mencoder.c:1571-1600 | the correction is a tenth of the delay, which the clock's own corrections enter, cut to the current limit; the next limit follows the speed |
| FrameTiming.CorrectionClosesIn | src/mencoder.c:1571-1600 | a correction comes off the delay in full, never grows it and never overshoots |
| FrameTiming.CorrectionCloses | src/mencoder.c:1590-1592 | a delay within ten times the limit loses a tenth, a larger one the limit, toward zero |
| FrameTiming.CorrectionsShrink | src/mencoder.c:1590-1600 | n corrections of a delay that nothing else changes leave nine tenths of it n times over |
| FrameTiming.InSyncIff | src/mencoder.c:1583-1588 | the delay is none exactly when sound and picture are as far apart in the input, at the speed and with the delay of the sound taken off, as in the output, corrections included |
| FrameTiming.DelayGrows | src/mencoder.c:1583-1588 | it grows with the lead of the sound in the input and shrinks with its lead in the output |
| FrameTiming.FrameClock.FrameWithSound | src/mencoder.c:1435-1600 | a whole turn with sound is the frame function fed with the correction that the clock then asks for |
| EditLists.ParseFile | src/edl.c:73-157 | the records read, linked both ways |
| EditLists.ReadGuarantees | src/edl.c:92-146 | the list is strictly chronological for every file; the two records of each mute are neighbours exactly when no accepted line has an action that only a short would take for a mute |
| EditTimes.FileMutes | src/edl.c:92-146 | for every file whose counted lines mean the action they say: the list mutes exactly the times of its mute lines |
| EditTimes.FileSkips | src/edl.c:92-146 | for every file: the list has a skip record for each of its skip lines, from its start to its stop, and no other |
| EditTimes.FileLengths | src/edl.c:124-141 | each record is as long as from its start to its stop, so those of mutes last no time |
| EditTimes.ShortIs | src/edl.c:140 | an action that fits a short is kept, another loses a multiple of 65536 |
| EditTraversal.Traversal.DoPass | src/mencoder.c:1274-1311 | cursor, edl_muted and edl_seeking after one pass, for every outcome of a seek |
| EditTimes.ForwardSeekLands | src/mencoder.c:1290-1300 | after a forward seek the cursor is on the first record that ends behind the place come to, and edl_muted is the parity of the mutes before it |
| EditTimes.BackwardSeekGivesUp | src/mencoder.c:1284-1289 | a seek that does not get past the skip moves the cursor on and turns the sound on |
| EditTimes.NoSeekingStays | src/mencoder.c:1282 | when the input cannot be sought in, the cursor stays on the skip for good |
| EditTimes.LooksAgainIff | src/mencoder.c:1274-1311 | the record is looked at once more exactly after a seek that has led somewhere |
| EditTraversal.PassKeeps | src/mencoder.c:1274-1311 | a pass keeps edl_muted the parity of the mute records before the cursor, unless, and only unless, it gives up a skip inside a mute because the seek went backward |
| EditTraversal.MutedIff | src/mencoder.c:1274-1311 | for every list in order of time: edl_muted is that parity in all runs if and only if no skip inside a mute is at or behind a skip preceded by mutes only |
| EditTraversal.FileMutedIff | src/mencoder.c:1274-1311 | the same for every file, on the list read from it |
| EditTraversal.MutedAlways | src/mencoder.c:1274-1311 | so it is for every file without a line whose action only a short would take for a mute |
| EditTraversal.ExposedBreaks | src/mencoder.c:1285-1292 | otherwise there is a run in which, after a skip is given up, the mute counts as over |
| EditTraversal.MutedMeans | src/mencoder.c:1303-1308 | when the cursor has caught up with the picture, edl_muted says exactly whether the picture lies in a mute |
| EditTraversal.CatchesUp | src/mencoder.c:1274-1311 | as many passes at one time as records are left bring the cursor up to that time if only mutes are in between; once seeking has been given up, only then |
| EditTraversal.MutedAfterPasses | src/mencoder.c:1274-1311 | so after them edl_muted says whether the picture lies in a mute, while only mutes are in between |

## Left out

* Allocation failure and who frees what, including the `fr` flag of the template expander, entries removed
  twice by index, and the memory of removed tree nodes, which stay allocated and unlinked here.
* The iterator holds its option context as a value of the option model, not as a pointer to a `Config`
  object, so sharing one context between the iterator and others is not captured.
* Trees whose root has siblings; a null iterator or root; `play_tree_iter_new_copy`, `pt_iter_goto_head`,
  `play_tree_set_parent`, and adding files and removing files and params one by one.
* Stepping backward as an inverse of stepping forward over groups: it is not, because `down_step` passes 0 on; among
  entries it is (`IterSteps.ThereAndBack`).
* IterSteps.StepReachesSibling: lists without shuffled groups, where the next sibling is drawn instead.
* Options that are trees of options, profiles, printing of option lists, INDIRECT and function-valued
  types; an option's own parser is a function that gives a code and a value.
* The reading of playlist files, and the effect of global options during parsing; the titles
  of a disc range are a function of the argument.
* Double-click timing of `mplayer_put_key`; timers.
* Other codecs, muxers and filters, the three-pass branch, rounding of C floats: durations are reals.
* Line reading of `edl_parse_file`: a line is three numbers or badly formatted.
* What `demux_seek` and slow seeking do: the outcome of a seek is an input of each pass.
* CommandLine.RefusedIff: lines without other options and `--`, with file names that do not look like options; the option parser takes `-loop` for a file with one argument or rejects it, value by value. Other lines are covered by `CommandLine.LoopMeans`.
* PropertyTemplates.HexRightIff: the last character that strtol takes is none that means something to the scanner, as digits, signs and blanks do not.
* IterMixed.ShuffledEndsIff: other trees with several shuffled groups are covered by `IterMixed.NeverLeavesShuffled` only; played with option contexts, from no marks.
* CommandWriting.MeansWhatIsWritten: options behind an entry take one argument; for others `CommandWriting.FlagRemembersNext` and `CommandLine.LoopMeans`.
* EditTimes.FileMutes: for a file with a line whose action becomes that of a mute only in a short, `EditLists.ReadGuarantees` says what is lost.
* PropertyTemplates.TemplatesExpand: templates have no `\x` escape and no trailing backslash; for the latter the scanner reads past the end and the model says so instead.
* FrameTiming.OutputKeepsTime: input frames last no negative time; with sound `FrameTiming.OutputFollowsSound` says the same of output time less the corrections asked for, which have no bound of their own.
* FrameTiming.FrameClock.FrameWithSound: the clocks of the sound and of the two output streams are inputs of each turn.
* CommandParser.DoOption: does not model `-playlist`, whose tree comes from reading another file.
* StuckKeys.InterpretHolds: does not model the key callback of the menu, which may take a code before it is looked up.
* Config.Config.Pop: a pop that would free the slot an alias holds is not modelled, because the C code is left with a dangling pointer; `ConfigTheorems.AlwaysLayered` shows it does not occur for options registered at level 1.
* IterConfig.EntryHasItsPath: options that have an alias are left out, because an alias writes an older slot whose data outlasts the entry.
* IterFiles.NextFileReads: calls by one; for 0 the object and the function agree (`PlayTreeIterator.PlayTreeIter.NextFile`), except before the first file, where the C code reads `files[-1]`.
* CommandPlays.PlayCommandLine: lines whose groups are shuffled or loop for ever are outside it; `CommandParser.ParseCommandLine` gives their tree all the same.
* SuboptionText.RereadCounted: texts shorter than 2^31 characters, since a length is stored in an int.
