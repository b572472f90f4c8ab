# whowatch: a verified model

whowatch shows logged-in users and the process tree on a terminal and keeps both up to date while the
user scrolls, searches and switches between them. This project models the parts of it that carry state
from one event to the next, as the C code does it, and proves what they promise.

**The process tree is never rebuilt.** Every few seconds `update_tree` reads `/proc` and edits the links
of a table of processes in place; `mark_del` takes the rows of moved and dead processes off them;
`delete_tree_lines` removes those rows and renumbers the others; `synchronize` merges what is left with a
walk over the new tree. The merge only asks whether a process has *a* row, not whether the row under its
hand is the row of that process. That this works is a fact about all edits of `update_tree` together: the
preorder of the new tree, restricted to the rows that survive, is the order those rows are already in.
The files build up to it:

- `Seqs`, `Options`, `Groves`, `Trees`: sequences and their selections; trees in the first-child and
  next-sibling form of `proc_t`; when the links of a table describe a finite tree, and who is in it.
- `ProcSpec`: the table on pids; one scanned line, the scan, the sweep. `Refresh`: a whole refresh.
  `Pstat`: the counters of the status line.
- `Intrusive`: lists with a pointer to the pointing slot (`ppv`), on a memory of slots. `ProcTable` and
  `Plist`: `proctree.c` and `plist.c` as classes on that memory, every method tied to the functions above.
  `RowLinks`: the cross-links of rows and processes. `Rows`, `Screen`: the row list and the cursor.
- `Walk`, `Draw`: the iterator and the drawing in front of each process.
- `Moves`: what a scan leaves, told from the snapshot alone: orders, rows and states.
- `Panels`, `Session`: 't' and ENTER; whole runs, whose steps are those that the methods of `Plist` take.
  `Search`: '/' and ENTER.
- `Witnesses`: worked inputs for which the display, or its counters, do go wrong.

**The keyboard decoder** (`Keys`, `Decoder`, `Typing`, `Sequences`, `Finals`, `Kbd`) is the five-state machine of `kbd.c` with
its 20-byte window. `Decoder.Run` is the decoder as a function of the bytes; `Kbd.Keyboard` is `getkey`
with its buffer, and hands out what `Run` says, however the reads cut the bytes up. It reads control
sequences as in section 5.4 of ECMA-48, and the 8-bit introducers of its section 5.3.

**Two smaller parts**: the login list (`Users`, `Ulist`, on the ring of `Ring`) and the slab allocator
(`Slab`).

## What turned out to be conditional

- **Open snapshots.** A process that is named as a parent but not listed survives; if its own parent dies,
  the sweep hands it to init and leaves its row where it is. Call it an orphan (`Refresh.Orphans`). With the
  root unchanged the refresh is right exactly if the rows are in order (`Refresh.RefreshKeepsRoot`,
  `Refresh.InOrder`): in the tree of a user, if no displayed process but the root is orphaned; in the tree of
  init, if the orphans already stand where init's child list has them now, behind init and before its other
  children, the last one adopted first. Both are known before the first row is touched. If every parent is
  listed there are no orphans. `Witnesses.Misordered` and `Witnesses.LeftBehind` are inputs for which it goes
  wrong, and `Witnesses.OrphanBehind` is the rule behind the first.
- **Another root.** When 't' turns the tree of a user into the tree of init, the old rows are merged into the
  new walk. Without orphans on display that is right exactly if the old root lost its row or its ancestors
  lead to init (`Refresh.RefreshIsRebuild`); for a process below pid 2 they do not (`Witnesses.NotBelowInit`).
  In general, orphans or not, it is right exactly if the new walk meets the surviving rows in their order
  (`Refresh.RefreshRight`).
- **Cycles.** A walk over a tree ends exactly if its root is not its own ancestor; cycles elsewhere do no harm
  (`Refresh.TreeAfter`).
- **The counters.** A row is uncounted in the state its process has then, not in the one it was counted in.
  The states of processes above 1 never change, those of 0 and init do. So the counters stay right exactly
  if init is not uncounted in another state than it was counted in; and that happens only if init is on
  display before it is listed for the first time (`Pstat.CountsRight`, `Witnesses.Miscounted`).
- **The 8-bit introducers** give the keys of ESC [ and ESC O on complete sequences and on no others
  (`Sequences.AgreeOnlyIfComplete`): a sequence that is given up is read again, the ESC form as a key with
  ALT and the 8-bit form without its first byte. The old F1 is one case: `incomplete` compares 0x9B M with a
  literal that means other bytes (`Sequences.OldF1`).
- **The cursor.** The comment on `scr_linserted` says the cursor stays where it is; at the very top it does
  not (`Screen.InsertedStays`, and for a whole merge `Rows.SyncFollows`). That happens when 't' puts init
  above the first row.
- `scr_crsr_jmp` to a line of the first screenful from below sets the first visible line below zero, which
  wraps around. `Screen.JumpSafe` says exactly when it does not.

## Model

| member | source | states |
|---|---|---|
| `Refresh.RefreshRight` | src/plist.c:264-271 | for any snapshot, any old root and any new tree: the rows become its preorder, numbered from 0, exactly if it meets the surviving rows in their order |
| `Refresh.RefreshIsRebuild` | src/plist.c:264-271 | with no displayed process orphaned, the rows become the preorder of the tree of any root exactly if the old root lost its row or its ancestors lead to the new root |
| `Refresh.MergeIsRebuild` | src/plist.c:101-134 | merging a display of one root with the walk over the tree of any other gives that walk exactly when nothing is displayed or the old root is in the tree |
| `Refresh.KeptInOrder` | src/plist.c:101-134 | and then the displayed rows are the walk's displayed part in the walk's order |
| `Refresh.RefreshKeepsRoot` | src/plist.c:264-271 | with the root unchanged the rows become the preorder of its new tree exactly if they are in order, which they are whenever every parent is listed; nothing is left if the root died; the new tree is again a valid display |
| `Refresh.PreorderStability` | src/proctree.c:178-231 | the new tree's preorder, restricted to processes that kept their row, is the old preorder restricted to them, exactly if the rows are in order |
| `Refresh.MirrorsScan` | src/proctree.c:178-231 | after any snapshot the indexed processes are exactly those mentioned, each below the parent it was last listed with, or below init if that died; child lists are the inverse of the parents and nothing points to a removed process |
| `Refresh.MirrorsSnapshot` | src/proctree.c:178-231 | if every parent is listed, the indexed processes are exactly those listed, each below the parent it was listed with |
| `Refresh.TreeAfter` | src/proctree.c:247-262 | after any snapshot a process has a finite tree, in which no process occurs twice, exactly if it is not its own ancestor |
| `Refresh.CursorFollows` | src/plist.c:264-271 | the cursor is on the same process after a refresh that keeps its row, and the screen scrolls with it unless it hit the top; with another root, exactly unless its row comes to lie at the very top and gets a new one above it |
| `Refresh.ChangesCounted` | src/proctree.c:189-230 | `update_tree` returns how many pids above 1 appeared plus how many disappeared |
| `Moves.StatesAfter` | src/proctree.c:137-168 | after any snapshot a known process above 1 has the state it had, a new one that of the first entry that mentions it, and 0 and init that of the last |
| `Moves.RowsKept` | src/plist.c:65-75 | the rows that are left after `update_tree` are exactly those of survivors of whom neither they nor a displayed ancestor was listed below another parent |
| `Moves.ScanChildren` | src/proctree.c:170-176 | after a scan every child list begins with those who came, the last one first, and goes on with those who stayed, in their old order |
| `Moves.ScanOrder` | src/proctree.c:153-168 | after a scan the main list has the mentioned processes by their last mention, and the old list those not mentioned, in their old order |
| `Refresh.UpdateShows` | src/proctree.c:203-228 | as long as no displayed process is orphaned, the rows that are left show exactly the displayed part of the final child lists, in their old order |
| `Refresh.WalkRestricted` | src/proctree.c:220-221 | in init's tree the rows that are left stand, in the new walk, as the subtrees of the adopted, the last one first, and then the others |
| `Refresh.ScanSupports` | src/proctree.c:203-211 | if every parent is listed, no survivor hangs below a process about to die, and nobody is orphaned |
| `Refresh.OrphanIs` | src/proctree.c:203-221 | an orphan is named as a parent but not listed, and its parent is not even named |
| `Groves.Restriction` | src/plist.c:101-134 | the preorder of a whole tree, restricted to a displayed tree somewhere inside it, is the displayed preorder |
| `Groves.CutShows` | src/plist.c:65-75 | taking a process and all displayed below it off the display leaves the others in order, and again exactly what the child lists show of them |
| `ProcSpec.ScanShows` | src/proctree.c:203-211 | after any number of scanned entries, cycles or not, the display is still a tree of the same root and its rows are in their old order |
| `ProcSpec.ScanOk` | src/proctree.c:203-211 | the scan keeps index, lists, parents and child lists consistent |
| `ProcSpec.ScanParents` | src/proctree.c:203-211 | the scan sets exactly the parents the snapshot gives, the last entry for a pid counting |
| `ProcSpec.ScanLists` | src/proctree.c:153-168 | every mentioned pid above 1 ends up on the live list, and exactly the unmentioned ones are left on the old list |
| `ProcSpec.SweepOk` | src/proctree.c:219-228 | the sweep empties the old list, keeps the table consistent, and leaves exactly the live processes and the two static ones |
| `ProcSpec.SweepAdopts` | src/proctree.c:219-228 | the sweep leaves the survivors their parents, or init for a dead one, and every child list its surviving part in order, init's with the adopted in front |
| `ProcSpec.ChangeParentLinks` | src/proctree.c:170-176 | moving a process keeps child lists the exact inverse of the parents |
| `Trees.TreeExists` | src/proctree.c:247-262 | a process that is not its own ancestor has a finite tree |
| `Trees.TreeMeansNoLoop` | src/proctree.c:247-262 | a process that is its own ancestor has none |
| `Trees.TreeDistinct` | src/proctree.c:247-262 | no process is met twice below a root, cycles elsewhere or not |
| `Trees.InTree` | src/proctree.c:247-262 | the tree of a process holds exactly those whose parent pointers lead to it |
| `Trees.ShownParents` | src/plist.c:65-75 | a displayed process other than the root has a displayed parent |
| `Trees.ParentsFirst` | src/plist.c:65-75 | the row of a displayed child is further down than that of its parent, so that the calls of `mark_del` on rows end |
| `Trees.ParentInside` | src/proctree.c:247-262 | the parent of any process of a tree but its top is in the tree |
| `Rows.SyncCompletes` | src/plist.c:101-134 | if the remaining rows are the displayed part of the walk in its order, the merge makes the list the walk, numbered consecutively |
| `Rows.SyncNeeds` | src/plist.c:101-134 | if the merge makes the list the walk, the remaining rows were the displayed part of the walk in its order |
| `Rows.DeleteExact` | src/plist.c:136-156 | exactly the marked rows go, the others keep their order and are numbered consecutively |
| `Rows.DeleteFollows` | src/plist.c:136-156 | while rows are deleted the cursor stays on its row, and the screen goes up with it until it reaches the top |
| `Rows.SyncFollows` | src/plist.c:101-134 | while rows are inserted the cursor stays on its process and the screen goes down with it; at the very top both stay where they are |
| `Rows.CursorStays` | src/plist.c:101-156 | deletion and merge together keep the cursor on its process exactly unless its row comes to lie at the very top and gets a new one above it |
| `RowLinks.RowRemoved` | src/plist.c:54-63 | taking out a row keeps the links between rows and processes inverse to each other |
| `RowLinks.RowInserted` | src/plist.c:114-131 | putting a row in keeps the links between rows and processes inverse to each other |
| `RowLinks.MergingHasRow` | src/plist.c:107-113 | a displayed process always finds a row under `*current` |
| `Witnesses.OrphanBehind` | src/proctree.c:219-226 | in init's tree an orphan goes wrong whenever a surviving child of init stands above it |
| `Witnesses.Misordered` | src/proctree.c:219-226 | an input for which the tree of init comes out in the wrong order |
| `Witnesses.LeftBehind` | src/proctree.c:219-226 | an input for which a row of a user's tree outlives that tree |
| `Witnesses.NotBelowInit` | src/plist.c:366-371 | an input for which 't' leaves the old rows in the tree of init |
| `Witnesses.Miscounted` | src/plist.c:42-52 | an input after which one running process too few is counted, and one sleeping too many |
| `Pstat.ScanDriftIs` | src/proctree.c:153-168 | during a scan only init's changes of state make the counters wrong, up to its first entry if that takes its row away |
| `Pstat.RecountIs` | src/plist.c:42-75 | after a refresh the counters are the numbers of displayed processes in each state, init in the state its row was counted in, plus what an init counted anew leaves behind |
| `Pstat.CountsRight` | src/plist.c:42-75 | they are right exactly if init is not uncounted in another state than it was counted in |
| `Session.AlwaysConsistent` | src/plist.c:359-411 | in every run of ticks, 'r', 't' and ENTER in which the rows can be taken over, at every moment exactly one panel is visible, a hidden tree has no rows, and the rows of a visible one are the preorder of its root, numbered from 0 |
| `Session.StepKeeps` | src/plist.c:264-378 | one event keeps that invariant if the rows can be taken over, a condition on the state before it and its snapshot; and only then, unless an orphan on display meets a change of root |
| `Session.EverydayFollows` | src/plist.c:264-378 | they can if every parent is listed and the ancestors of an old root lead to the new one |
| `Session.AlwaysGoesOn` | src/plist.c:264-378 | from every consistent state every event with a tree that can be walked has an outcome |
| `Session.EventReads` | src/plist.c:264-378 | whatever leaves the tree visible has just read the snapshot: the table says what it says, and the tree is that of the root before, of the user, or of init, as the event asks; only a second 't' does nothing |
| `Session.StepCounts` | src/plist.c:42-75 | one event keeps the counters right exactly if it does not count init anew in another state |
| `Session.AlwaysCounted` | src/plist.c:42-75 | in every run whose snapshots list init, at every moment each displayed process is counted once in its state, init in the state its row was made in; no counter is negative, and together they are no more than the rows |
| `Session.AlwaysRecorded` | src/proctree.c:137-168 | in every run the state of each process is the letter of the first entry that mentioned it since it was last missing, and of 0 and init that of the last |
| `Session.CountersSay` | src/plist.c:42-52 | so that the status line counts as many running, sleeping, dead and waiting processes as are displayed with the letters R, S, Z and D |
| `Panels.AlwaysOne` | src/ulist.c:320-334 | any sequence of 't' and ENTER leaves exactly one of user list and tree visible, and a tree last asked for with 't' is that of init |
| `Panels.LastKeyDecides` | src/plist.c:347-378 | after any history 't' ends on the tree of init, ENTER on the other panel, and if that is the tree, on that of the user under the cursor, or of init if there is none |
| `Intrusive.AddAll` | src/proctree.c:45-50 | `list_add` at any slot inserts there, keeps every back-link right and leaves all other lists alone |
| `Intrusive.DelAll` | src/proctree.c:52-55 | `list_del` finds its list through the back-link alone, removes the element and leaves all other lists alone |
| `Intrusive.ReheadAll` | src/proctree.c:58 | `change_head` moves a whole list to another head |
| `Intrusive.Lists.Add` | src/proctree.c:45-50 | the macro on memory: the element is in the list where the slot was, every other list is as before, and each element still knows the slot that points at it |
| `Intrusive.Lists.Del` | src/proctree.c:52-55 | the macro on memory: the element is out of its list, every other list is as before, and each element still knows the slot that points at it |
| `Intrusive.Lists.Rehead` | src/proctree.c:190-191 | `old_list` takes over all of `main_list`, and its first element knows the new head |
| `ProcTable.IndexesNew` | src/proctree.c:147 | adding a process to its bucket keeps every pid above 1 in its own bucket and nowhere else |
| `ProcTable.IndexesLess` | src/proctree.c:131 | removing a process from its bucket leaves every other pid above 1 in its own bucket and nowhere else |
| `ProcTable.ProcTable.constructor` | src/proctree.c:102-107 | the static initialisers are a consistent empty table |
| `ProcTable.ProcTable.FindByPid` | src/proctree.c:114-125 | finds a process exactly if there is one |
| `ProcTable.ProcTable.NewProc` | src/proctree.c:137-151 | a zeroed node, indexed; the cached node is used up |
| `ProcTable.ProcTable.ValidateProc` | src/proctree.c:153-168 | a known process is refiled, a new one made, and only the state of 0 and init is refreshed; all else as specified |
| `ProcTable.ProcTable.ChangeParent` | src/proctree.c:170-176 | off its child list if it is on one, to the front of the new one, and the parent set |
| `ProcTable.ProcTable.AdoptKids` | src/proctree.c:220-221 | the children of a dying process go to init one by one |
| `ProcTable.ProcTable.RemoveProc` | src/proctree.c:129-135 | unindexed, counted down, and its node cached |
| `ProcTable.ProcTable.TreeStart` | src/proctree.c:237-245 | starts a walk at the root, or after process 0, or yields nothing if there is no such process |
| `ProcTable.ProcTable.TreeNext` | src/proctree.c:247-262 | yields the next process in preorder, and nothing after the last; the climb ends |
| `ProcTable.ProcTable.TreeString` | src/proctree.c:266-303 | never leaves its 66-byte buffer, draws the path from the root, cut off below 32 levels, and each bar in the buffer says whether a later row is at its level before any row is higher up |
| `Walk.NextInPreorder` | src/proctree.c:247-262 | after a process comes its first child, or whoever the climb finds; each process once |
| `Walk.ClimbStep` | src/proctree.c:251-260 | one step of the climb by the links, and it gets closer to the root |
| `Draw.PathUp` | src/proctree.c:273-300 | a process's drawing is its parent's and one more column, which says whether a sibling follows |
| `Draw.TextAt` | src/proctree.c:283-300 | which characters stand at each level |
| `Draw.ColumnMeans` | src/proctree.c:295-300 | the column of a level is drawn exactly if a later row is at that level before any row is higher up |
| `Draw.DrawnColumns` | src/proctree.c:266-303 | so says the character of that level in the finished drawing; the row's own level has a corner if not; a dash ends it, or a dot if it is cut off |
| `Draw.DrawingDetermines` | src/proctree.c:266-303 | trees of at most 32 levels with the same rows drawn alike are the same tree |
| `Plist.Plist.constructor` | src/plist.c:34-40 | no rows, hidden, the tree of init, nothing counted |
| `Plist.Plist.Mark` | src/plist.c:72-74 | a row is uncounted in its process's state and loses it; all other links stay inverse |
| `Plist.Plist.MarkDel` | src/plist.c:65-75 | ends, takes their rows off exactly the process and all displayed below it, although links elsewhere may be cyclic during the scan, and uncounts each once |
| `Plist.Plist.ScanOne` | src/proctree.c:203-211 | one line of /proc on memory is one step of the specification, and the counters drift by what it changes of displayed states |
| `Plist.Plist.ScanAll` | src/proctree.c:203-211 | reading all of /proc on memory is the scan of the specification, and the rows left are those it leaves |
| `Plist.Plist.SweepAll` | src/proctree.c:219-228 | the walk over the old list, freeing as it goes, buries exactly its processes, counts them, and takes their rows off them |
| `Plist.Plist.UpdateTree` | src/proctree.c:178-231 | memory, rows, counters and return value are those of the specification, for any snapshot |
| `Plist.Plist.ProcDel` | src/plist.c:54-63 | a row leaves the list and its process |
| `Plist.Plist.DeleteTreeLines` | src/plist.c:136-156 | the marked rows go, the others are renumbered and the cursor moves, as specified |
| `Plist.Plist.InsertRow` | src/plist.c:114-131 | the row is in front of *current, linked both ways, and counted in its process's state |
| `Plist.Plist.Synchronize` | src/plist.c:101-134 | the merge on memory, in all cases, is the specified one; afterwards every process of the tree has its row, and each new one is counted once |
| `Plist.Plist.ClearList` | src/plist.c:82-99 | no rows, and no process has one |
| `Plist.Plist.Periodic` | src/plist.c:264-271 | the three together, for any snapshot after which the tree can be walked: rows, cursor and counters are those of the specification, and the display is the new tree whenever the rows can be taken over |
| `Plist.Plist.Hide` | src/plist.c:336-345 | no rows, no process has one, all counters are zero |
| `Plist.Plist.Unhide` | src/plist.c:324-334 | the tree of the given process is displayed, whatever the snapshot, and the cursor is at the top |
| `Plist.Plist.Tick` | src/plist.c:264-271 | the timer and 'r' take a step of `Session`, and keep the display right if the rows can be taken over |
| `Plist.Plist.Switch` | src/plist.c:359-378 | 't' and ENTER take a step of `Session` too, and keep the display right if the rows can be taken over |
| `Plist.Plist.GoodIsConsistent` | src/plist.c:359-378 | what the methods keep is the invariant of the runs |
| `Plist.Plist.GetProcByName` | src/plist.c:196-218 | jumps to the first matching row of the part asked for, or reports that there is none |
| `Plist.Plist.DoSearch` | src/wdgts.c:91-104 | the next match below, or else the first of all |
| `Search.EnterFrom` | src/wdgts.c:91-104 | from any line, a match or not, ENTER goes to the first match below, else to the first of all, else nowhere |
| `Search.EnterAdvances` | src/plist.c:196-218 | from one match to the next, from the last to the first |
| `Search.EnterCycles` | src/wdgts.c:91-104 | n presses go n matches on, counted round |
| `Search.EnterReturns` | src/wdgts.c:91-104 | with k matches, k presses come back, having visited each exactly once |
| `Screen.InsertedStays` | src/screen.c:215-222 | the cursor keeps its line and its place on the screen exactly unless it is at the very top and the line comes in there |
| `Screen.DeletedStays` | src/screen.c:229-237 | the cursor follows its line when a line above it goes, and keeps its place on the screen exactly unless the screen is at its top |
| `Screen.AlwaysSafe` | src/screen.c:289-363 | in every run of UP, DOWN, PAGE_UP, PAGE_DOWN and HOME the cursor stays on a line and on the screen |
| `Screen.NeverPastTheEnd` | src/screen.c:322-355 | no run scrolls past the last full screen |
| `Screen.PagesCancel` | src/screen.c:289-355 | exactly when PAGE_DOWN and PAGE_UP undo each other |
| `Screen.DownMany` | src/screen.c:322-340 | n times DOWN moves the cursor n lines or to the last, and the screen no further than it must |
| `Screen.UpMany` | src/screen.c:304-316 | n times UP moves the cursor n lines or to the first, and the screen no further than it must |
| `Screen.PageDownMany` | src/screen.c:342-355 | n times PAGE_DOWN moves the screen n pages but not past the last full one, and the cursor with it, or to the last line when nothing is left below |
| `Screen.PageUpMany` | src/screen.c:289-302 | n times PAGE_UP moves the screen n pages but not past the first, and the cursor with it, or to the first line when that is on the screen |
| `Screen.HomeIsHome` | src/screen.c:357-363 | after any run HOME leads to the first line of the first screen |
| `Screen.ScrollMany` | src/screen.c:304-330 | a widget without a cursor scrolls n lines, as far as there are any |
| `Screen.ScrollPages` | src/screen.c:289-355 | the page keys scroll it a page or what is left; but it remains without a cursor only on PAGE_DOWN and only if a line was left below |
| `Screen.JumpSafe` | src/screen.c:190-198 | exactly when a jump keeps the cursor on the screen |
| `Screen.JumpTo` | src/screen.c:190-198 | a jump within the screen moves only the cursor; to anywhere else it makes the line the last but one of the screen |
| `Screen.Widget.Inserted` | src/screen.c:215-222 | the fields change as `InsertedStays` is about |
| `Screen.Widget.Deleted` | src/screen.c:229-237 | a line above the cursor pulls the cursor up, and the screen while it can |
| `Screen.Widget.KbdUp` | src/screen.c:304-316 | first line and cursor after UP, for widgets with and without a cursor, are those the runs above are about |
| `Screen.Widget.KbdDown` | src/screen.c:322-340 | first line and cursor after DOWN, for widgets with and without a cursor, are those the runs above are about |
| `Screen.Widget.KbdPageUp` | src/screen.c:289-302 | first line and cursor after PAGE_UP, for widgets with and without a cursor, are those the runs above are about |
| `Screen.Widget.KbdPageDown` | src/screen.c:342-355 | first line and cursor after PAGE_DOWN, for widgets with and without a cursor, are those the runs above are about |
| `Screen.Widget.KbdHome` | src/screen.c:357-363 | first line and cursor are 0, and the key is skipped exactly if they were |
| `Screen.Widget.CrsrJmp` | src/screen.c:190-198 | the cursor is on the line, and the screen as `JumpSafe` is about |
| `Decoder.Run` | src/kbd.c:306-350 | after any bytes the window is not full and the state is consistent |
| `Decoder.ChunkingIsInvisible` | src/kbd.c:306-350 | any two ways of cutting a byte stream into reads give the same keys and the same state |
| `Decoder.RunAppend` | src/kbd.c:306-350 | what comes later does not change what came out before |
| `Decoder.Progress` | src/kbd.c:286-350 | every key costs a byte, and what is left in the window is the end of the input in its order |
| `Decoder.NextProgress` | src/kbd.c:325-347 | every step uses up a byte or gives one back for good; the loop of `getkey` ends |
| `Decoder.FeedOk` | src/kbd.c:98-281 | every state function keeps the arguments within bounds; st_start never gives up |
| `Decoder.FeedWindow` | src/kbd.c:286-304 | when a byte makes the decoder give up, `incomplete` looks only at bytes that were used |
| `Kbd.Keyboard.constructor` | src/kbd.c:69-74 | the decoder starts at the start, with an empty buffer and DEL as backspace |
| `Kbd.Keyboard.OrdKey` | src/kbd.c:84-96 | the key of an ordinary character, control characters by table; after a BS character DEL is the delete key |
| `Kbd.Keyboard.StStart` | src/kbd.c:98-127 | the fields and the result are those of `Decoder.StStart`: introducers begin a sequence, control characters become keys with CTRL, their 8-bit forms with ALT |
| `Kbd.Keyboard.StEsc` | src/kbd.c:129-148 | the fields and the result are those of `Decoder.StEsc`: an introducer, one more ESC, or a key with ALT |
| `Kbd.Keyboard.Last` | src/kbd.c:150-223 | the key is that of `Decoder.Finish`: by table, with the modifier argument and ALT where the code adds them, and DEL reset where it does |
| `Kbd.Keyboard.StCsiss3` | src/kbd.c:225-250 | the fields and the result are those of `Decoder.StCsiss3`; a control character or a second mark gives the sequence up |
| `Kbd.Keyboard.StArg` | src/kbd.c:252-268 | the fields and the result are those of `Decoder.StArg`; no argument is written beyond the 16 |
| `Kbd.Keyboard.StMouse` | src/kbd.c:270-281 | the fields and the result are those of `Decoder.StMouse`: three bytes, then a report |
| `Kbd.Keyboard.Call` | src/kbd.c:327 | KBD_MORE reaches every state but st_start and makes it give up |
| `Kbd.Keyboard.GiveUp` | src/kbd.c:286-304 | the rewind, though it looks at bytes beyond the window, depends on the window alone |
| `Kbd.Keyboard.Turn` | src/kbd.c:310-347 | once around the loop is one step of the decoder |
| `Kbd.Keyboard.GetKey` | src/kbd.c:306-350 | however many bytes each read returns, the keys handed out and the state in between are those of the decoder on the byte stream; a sequence that is not continued in time is read again first; with nothing to read there is no key, or an error at the end of the input; the loop ends and the assertion holds |
| `Typing.NamedControls` | src/kbd.c:78-96 | byte 13 is ENTER, 10 SHIFT-ENTER, 9 TAB |
| `Typing.Backspace` | src/kbd.c:84-96 | byte 8 is backspace and makes 127 the delete key; before that 127 is backspace |
| `Typing.OtherControls` | src/kbd.c:115-126 | any other control character but ESC is the character 64 above it with CTRL |
| `Typing.Characters` | src/kbd.c:84-96 | printing bytes, and those from 160 on, are themselves |
| `Typing.HighControls` | src/kbd.c:115-126 | the 8-bit control characters of the named ones are those with ALT, the others are no keys |
| `Typing.EscOrdinary` | src/kbd.c:129-148 | ESC, once or twice, and an ordinary byte is the key of the byte with ALT |
| `Typing.EscAlone` | src/kbd.c:286-304 | ESC and then nothing is the ESC key; a third ESC makes the first two ESC with ALT |
| `Sequences.TildeRoundTrip` | src/kbd.c:173-185 | CSI n ; m ~ is the n-th key with the modifiers m - 1 for every non-empty entry and m from 1 to 8, with any leading zeros that fit the window, after either introducer; DEL is backspace again |
| `Sequences.ZRoundTrip` | src/kbd.c:186-198 | the same for CSI n ; m z and its larger numbering |
| `Sequences.IntroducersAgree` | src/kbd.c:101-114 | 0x9B is ESC [ and 0x8F is ESC O on every complete sequence: same key, same state |
| `Sequences.AgreeOnlyIfComplete` | src/kbd.c:286-304 | and on no other: for a sequence decided inside the window, by its last byte or by a timeout, the keys are the same exactly if it is complete |
| `Sequences.GivenUpRuns` | src/kbd.c:286-304 | a sequence that is given up inside the window is read again |
| `Sequences.OldF1` | src/kbd.c:294-303 | ESC [ M and then nothing is F1, 0x9B M is an M |
| `Sequences.SecondEscape` | src/kbd.c:138-143 | a second ESC adds ALT to exactly the keys that pass `ready` |
| `Sequences.CompleteRuns` | src/kbd.c:225-268 | a complete sequence that fits the window gives its key, uses all its bytes and leaves the decoder at the start |
| `Sequences.LetterRuns` | src/kbd.c:150-223 | an introducer and a letter give the key of the table, in the 8-bit form too |
| `Sequences.ArrowLetters` | src/kbd.c:32-46 | A to D are the arrows after both introducers, a to d with SHIFT after CSI and with CTRL after SS3 |
| `Sequences.OtherLetters` | src/kbd.c:32-46 | F1 to F4 are P to S after SS3, F2 to F12 N to X after CSI, and the keypad sends its characters |
| `Sequences.EditingLetters` | src/kbd.c:32-61 | the editing keys by letter are those by number before '~' |
| `Finals.CsiLetters` | src/kbd.c:32-39 | the key of every letter after CSI |
| `Finals.Ss3Letters` | src/kbd.c:41-46 | the key of every letter after SS3 |
| `Finals.TildeNumbers` | src/kbd.c:48-53 | the key of every number before ~, however it is written |
| `Finals.ZNumbers` | src/kbd.c:55-61 | the key of every number before z |
| `Finals.TildeFamily` | src/kbd.c:173-185 | after two numbers ~ gives the key with the modifiers of the second, $ adds SHIFT, ^ CTRL and @ both; DEL is backspace again |
| `Finals.TildeAlone` | src/kbd.c:173-185 | the same after one number |
| `Finals.LetterWithNumber` | src/kbd.c:150-223 | a number before a letter gives its key the modifiers of the number |
| `Finals.ConsoleKeys` | src/kbd.c:160-164 | ESC [ [ A to L are F1 to F12 |
| `Finals.Reports` | src/kbd.c:166-172 | CSI ? c is the terminal's answer, and CSI M takes any three bytes for a mouse report |
| `Finals.NumberReports` | src/kbd.c:199-212 | two numbers and R are the cursor's position, and t the size of the window |
| `Finals.TooManyArguments` | src/kbd.c:259-264 | sixteen semicolons drop the sequence |
| `Finals.TwentyBytes` | src/kbd.c:310-314 | a sequence that is not finished after 20 bytes is read again |
| `Sequences.WrittenNumber` | src/kbd.c:256-258 | decimal digits with any leading zeros read back as the number |
| `Ring.AddLinks` | src/list.h:55-68 | `list_add` keeps the ring linked both ways |
| `Ring.DelLinks` | src/list.h:77-85 | `list_del` on the neighbours of an element leaves the ring of the others linked both ways |
| `Ring.Ring.Add` | src/list.h:66-68 | the new element is the first, the others follow in order, and both directions agree |
| `Ring.Ring.Del` | src/list.h:83-85 | the element is gone, the others are in order, and both directions agree |
| `Ring.Ring.Next` | src/list.h:118-119 | the forward traversal, up to the head |
| `Ring.Ring.Previous` | src/list.h:121-122 | the backward traversal |
| `Users.OtherNotNegative` | src/ulist.c:153-158 | the users of the three protocols are never more than all users |
| `Users.CountDropped` | src/ulist.c:24-34 | a logout takes one off exactly the counts that counted the user |
| `Users.StartsWithIs` | src/ulist.c:24-34 | a parent counts for a protocol exactly if its name is the prefix with something behind it |
| `Users.AlwaysApart` | src/ulist.c:183-221 | no two users are ever on one terminal if none were |
| `Users.LastEntryDecides` | src/ulist.c:183-221 | after any run a terminal has a user exactly if the last entry for it is a login, or if there is none and it had one |
| `Users.WhoSits` | src/ulist.c:183-221 | namely whoever was there, unless a logout came, and else the first since the last logout |
| `Users.NewcomersLast` | src/ulist.c:75-81 | those who stay keep their order, and behind them are new ones in the order in which they came |
| `Users.CursorFollows` | src/ulist.c:144-221 | as long as the user under the cursor is not logged out, any logins and logouts leave the cursor on that user, and the screen moves up with it while it can |
| `Ulist.UserList.NewUser` | src/ulist.c:75-81 | a new last line, counted |
| `Ulist.UserList.UpdateLine` | src/ulist.c:39-47 | the lines below move up by one |
| `Ulist.UserList.UDel` | src/ulist.c:144-151 | the line is gone, the others stay 0 to nusers - 1 in order, the counts and the cursor follow |
| `Ulist.UserList.FindByTty` | src/ulist.c:168-178 | finds the newest user on a terminal |
| `Ulist.UserList.Report` | src/ulist.c:153-163 | the numbers of the report are those of the users of each protocol, and the others are not negative |
| `Ulist.UserList.CursorUser` | src/ulist.c:131-142 | finds who is on a line, if it is one of the lines |
| `Ulist.UserList.CheckUtmpx` | src/ulist.c:183-221 | all entries of a scan, as specified |
| `Slab.CellsApart` | src/block.c:94-97 | two cells in use never share a byte |
| `Slab.FreesItsCell` | src/block.c:122-137 | an address inside a cell belongs to that cell only |
| `Slab.Slab.NewBlock` | src/block.c:63-72 | an empty block in front, overlapping no other |
| `Slab.Slab.GetEmpty` | src/block.c:78-97 | a cell that was free, now in use, and nothing else changed; a block is added only if all are full |
| `Slab.Slab.FreeEntry` | src/block.c:122-137 | exactly the cell that the address is in is free again, or the address is in no block |

## Left out

- Plist.Plist.Periodic: asks for a root other than process 0 (a login record with pid 0) whose new tree is finite, and for what the kernel sees to: no pid is 0, and init's parent is 0.
- Plist.Plist.Synchronize: asks for a root other than process 0, whose walk would not begin with the root.
- Session.StepKeeps: is not exact for 't' over the tree of a user in which an orphan is on display; `Refresh.RefreshRight` is, but it asks about the new walk.
- Session.AlwaysConsistent: says nothing about a run after a display has gone wrong.
- Kbd.Keyboard.Last: reports of the cursor position, the terminal and the window size are keys without a value, because the C packs them into overflowing integers.
- Kbd.Keyboard.StMouse: the button and position of a mouse report are not part of the key either.
- Kbd.Keyboard.StArg: arguments are mathematical integers; in C more than nine digits overflow.
- ProcTable.ProcTable.ValidateProc: the state of a known process above 1 is not refreshed, as in the code, so nothing is claimed about its freshness.
- Integers are mathematical where the C has int and u32, except for the first visible line in a jump.
- The addresses of nodes: a process is addressed by its pid and a row by a number, so the reuse of the one cached node's memory for another pid does not show; which pid is cached does.
- The wrap-around of the counters of pstat below zero (they are 32-bit and unsigned).
- The FreeBSD way of listing processes; negative pids; entries of /proc that cannot be read (they are not in the snapshot).
- The kernel: /proc, utmp, the terminal and regular expressions are inputs (snapshots, entries, bytes, the set of matching processes).
- KBD_END, the clamp after drawing, widgets that scroll sideways, resizing: the viewport is not kept safe there.
- The search in the user list, which goes from the highest line down and so does not go round.
- `list_splice`, `LIST_DEL` and `list_empty`: no other modelled code calls them.
- Terminal names are compared whole; the C compares the first UT_LINESIZE characters of stored names no longer than that.
- Drawing, colours, menus, help, the extended information window, plugins, signals and the owner cache.
