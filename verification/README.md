# Lucifer: a model of its show tree, playback, play list and output path

Lucifer drives laser projectors. What it shows is a tree of frame sources: static frames at the leaves, sequencers that
play their children in some order, colour rotators that change the colours of their one child. Shows are saved and
loaded as XML, single frames are imported from ILDA files, slots of a button grid are selected for playing, and a head
pulls frames of the current selection, resamples them to points and hands those to a hardware buffer of limited size.

Each part is modelled twice where the program changes things step by step: methods on heap objects with the program's
fields and loops, and functions on values that say what those methods do. Every method is proved equal to its function,
and the theorems are about the functions, for every input and over whole runs.

| module | what it models |
|---|---|
| Sources, PointCodec | frame sources as trees, the arity rule, the ten-byte point records |
| Xml, Layout, ShowTree, RoundTrip | token reader and writer with a cursor, saving and loading one tree |
| Engine, ShowRoundTrip | slots, saving, loading, clearing and importing a whole show |
| OtherDocuments | loading documents the program did not save |
| IndexTable, Playback, Player | index tables, `nextFrame` and `reset` of a tree as functions, and the playback objects on the heap |
| Traces, TraceTheorems | which frames a playback returns up to its null |
| Promise, NewShow, SecondShow, ModeSwitch | how that differs from the description, the first time, the next, and when the mode is changed |
| ColourEffects | the colour rotator's effects on the points of a frame |
| PlaybackList, ListSteps | the list of selected slots, and what each call on it does |
| Driver, Head, Refill, LaserHead | the two drivers, the head as a state machine, progress of its refill loop, and the objects |
| Output | which frames a head sends, from which playback and slot |
| Ilda, IldaColours, IldaLoader | the ILDA file format, where each point's colour comes from, and the loader's section loop |
| Midi | the MIDI port's queues |

## How the hard parts are stated

**Show files.** The parser does not match end tags: it returns with its cursor somewhere in the closing tags and counts
on later skips. The round trip carries that slack as an invariant. `Clear(doc, a, b)` says that only closing tags and
text lie between two positions. From any cursor with a clear stretch before a node, `loadFrames` returns the node's tree
and leaves the cursor inside the node with a clear stretch up to its end (`RoundTrip.LoadLaid`). What the writer
produced is described by a plan of positions (`Layout.Laid`), the same for compact and for automatically formatted
output. `ShowTree.LoadAt` and `Engine.LoadSequences` are the parser on any document at all, malformed ones included;
where the program fails an assertion they say so.

**Playback.** `Playback.Next` is one call of `nextFrame`, with the loops as recursion on (tree, repeats left, table
left). It is total for every tree whose sequencers have a child, keeps the playback in the shape of the source, and
indexes its tables in range, whatever the settings are changed to between calls. `Traces.Gives(src, pb, fs, sh)` says
that the calls from here on return exactly the frames `fs` and then null, whatever the clock says. For trees of any
depth that play in order, and for sequencers in any play mode over children that a reset takes back to their start,
`fs` is a plain list function of the tree.

**The refill loop.** `Refill.Stops(s, e, clock, t, n)` says that the loop of `dataRequested` ends within n rounds, each
at its own time. It ends whenever every fetch it makes yields points or no playback (`Refill.ProductiveEnds`), and in one
round for a killed head (`Refill.KilledEnds`). For a head with nothing to send, `Refill.EndsExactly` gives the condition
on the selected slots under which it ends, in both directions.

**Output.** The head's state carries a ledger: every point ever fetched, and for each one that has left the buffer
whether the driver accepted it. Conservation is an equation over the ledger, kept by every step. What the points are
is `Output.HeadPlays`: over any run of refills and hardware ticks the frames resampled are those left of what was
playing, then the whole frame lists of the slots that the play list names, one slot after the other, each frame once.

## What the code does that its documentation does not say

- The last entry of a pass contributes its first frame only, since the end test runs before that entry is pulled again;
  a sequencer with one child shows one frame a pass, and none in the first pass after a reset. The class comment
  (src/framesequencer.h:55-57) says that a sequencer stays on a child until its null. The two agree if and only if the
  child that ends each pass has one frame at most: the last one in order, the first one back and forth, and when
  shuffling, for every shuffle, all of them; for a sequencer with one child, if and only if that child has none
  (`Promise.KeepsPromise`, `Promise.KeepsPromiseShuffled`; `Promise.LastCutShort` is one that does not).
- A ping-pong sequencer of two or more children shows its list once, and from then on the list without its first frame,
  since after its null the first child still has the frame it ended with behind it; it shows the same list again if and
  only if its first child has no frame (`SecondShow.PingpongShows`).
- A sequencer with one child that is the first child of another one shows a frame more the first time, since its table is
  still empty and an empty table is never at its end (`NewShow.LoadedGives`).
- A saved play mode arrives as the mode about to be switched to, and `save` writes the mode in use. A show that is
  loaded and saved again without playing loses every mode but the sequential one (`RoundTrip.ReloadedTwice`).
- A leaf's dwell time and repeats of 2^31 or more are written as unsigned numbers, read as signed ones and come back 0
  (`RoundTrip.ReloadedIsSame`).
- In step mode ONCE the slot that starts to play is signalled as deselected while it stays in the list
  (`PlaybackList.OnceDarkensHead`). `PlaybackList.ExactStep` says which steps do so, and `PlaybackList.DarkStep` which
  slots are dark after any step.
- Selecting a slot that is selected already deselects it and then adds it again, at the back
  (`ListSteps.SelectMoves`). Taking away the head moves the list on by one at once, and the next fetch by another
  (`ListSteps.DeselectLeaves`).
- The rotator converts a point's colour to red, green and blue and drops the result, so that the colour stays in hue,
  saturation and value, without any loss (`ColourEffects.OffKeepsColours`).
- A sequence element whose content is unknown empties its slot (`OtherDocuments.UnknownSequence`); one without content,
  or fewer children than announced, fails an assertion (`OtherDocuments.EmptySequence`, `OtherDocuments.ChildMissing`).
- The refill loop need not end. A playback of an empty slot returns null for ever but is not null itself, and so does
  one of a sequencer with one child and no repeats, which is what a new sequencer has (`Refill.OneChildIsDud`).
  Selecting one such slot after starting up is enough (`Refill.SelectDudHangs`); in steps MANUAL and BEAT it is enough
  that the slot held is one, whatever else is selected (`Refill.EndsExactly`); and when the list is shuffled the refill
  may go on for ever as soon as one slot in a loop is (`Refill.EndsForEveryShuffle`).
- The rotation phase is corrected at most once a point. On a frame of n points it stays in [0, 1] if and only if it
  moves by at most one a point, or the frame ends before the excess has carried it out
  (`ColourEffects.FramePhases`); harmonic 5 on two points leaves the range (`ColourEffects.HarmonicLeaves`). Hue and
  saturation are wrapped afterwards, brightness is not.
- From frame to frame the rotation's start phase is corrected downwards only, so it stays in [0, 1] if and only if the
  advance is in [0, 1] (`ColourEffects.StartsInRange`), and the controls allow negative ones.
- An ILDA frame whose colour index is outside the current palette, or that has more points than the true-colour table
  before it, makes the loader read outside a vector (`Ilda.LoadPut` says exactly when, and
  `Ilda.OneColourTooFew` is such a file).

## Model

| member | source | states |
|---|---|---|
| Sources.AddChild | src/framesource_impl.cpp:41-66 | a child is accepted exactly when the node may take one and the position exists; then it is at that position and no other child is lost; a refusal changes nothing; the arity rule is kept |
| PointCodec.RoundTrip | src/staticframe.cpp:87-103 | decoding any encoded list of points returns it, and an incomplete record at the end is ignored |
| PointCodec.RecordLayout | src/staticframe.cpp:90-103 | where each number is in a record: coordinates high byte first in two's complement, then red, green, blue and the blanking flag |
| PointCodec.UnrecordLayout | src/staticframe.cpp:151-161 | reading takes every byte from its place, and any flag but zero blanks |
| PointCodec.DecodeAt | src/staticframe.cpp:150-162 | decoding takes every whole record at its own offset |
| PointCodec.EncodePoints | src/staticframe.cpp:87-103 | the byte loop of save: ten bytes a point, and decoding them returns the points |
| PointCodec.DecodePoints | src/staticframe.cpp:150-162 | the byte loop of load equals the decoding function on every byte string |
| Layout.LaidExtends | src/framesource_impl.cpp:114-127 | a tree that has been written stays laid out as the document grows |
| ShowTree.SaveStatic | src/staticframe.cpp:71-86 | only the open start tag changes: it gets the description, the number of points, the dwell switch and time and the repeats, each under its own name |
| ShowTree.SaveSequencer | src/framesequencer.cpp:73-78 | only the open start tag changes: it gets the mode in use and the repeats |
| ShowTree.SaveRotator | src/colourrotator.cpp:75-99 | only the open start tag changes: it gets the colours and switches |
| ShowTree.RotatorSettings | src/colourrotator.cpp:75-99 | which name each colour channel and switch is saved under |
| ShowTree.SavePoints | src/staticframe.cpp:104-109 | appends one point list element with the encoded points and nothing else of the show's tags |
| ShowTree.SaveKids | src/framesource_impl.cpp:114-127 | the loop over children appends their layouts one after the other with only text between |
| ShowTree.SaveFrames | src/framesource_impl.cpp:114-127 | for any tree, what is appended is a layout of that tree, all elements are closed and nothing written before changes |
| ShowTree.LoadOwn | src/staticframe.cpp:111-166 | a node's own settings leave its children alone and never move the cursor back |
| ShowTree.Load | src/staticframe.cpp:111-166 | the loads of the three node kinds on the stream equal the function, cursor included |
| ShowTree.LoadAt | src/framesource_impl.cpp:129-176 | the recursive parser terminates on any document and never moves its cursor back |
| ShowTree.LoadFrames | src/framesource_impl.cpp:129-176 | the parser on the stream equals the function on any document, malformed ones included |
| RoundTrip.LoadOwnLaid | src/staticframe.cpp:111-166 | reading back a node's own settings and points restores them and stops before its children |
| RoundTrip.LoadKidsLaid | src/framesource_impl.cpp:157-170 | the children's loop, from any child on and any cursor slack, rebuilds the remaining children in order and ends before the node's first end tag |
| RoundTrip.LoadLaid | src/framesource_impl.cpp:114-176 | for every storable tree of any depth, loading what was saved returns the tree and stops inside its own tokens with no start tag left before its end |
| RoundTrip.ReloadedIsSame | src/framesequencer.cpp:73-86 | a tree comes back as it was if and only if all its sequencers play, and are about to play, sequentially and all leaf counters are below 2^31 |
| RoundTrip.ReloadedTwice | src/framesequencer.cpp:73-86 | a second save and load without playing changes nothing if and only if every mode read back was sequential |
| Engine.FirstEmpty | src/engine.cpp:221-249 | the lowest empty slot, or the end if all are occupied |
| Engine.AddSlot | src/engine.cpp:221-249 | content lands at the position asked for, or the lowest empty slot; other slots stay and any new ones below are empty |
| Engine.AddLosesNothing | src/engine.cpp:221-249 | adding without a position overwrites no occupied slot |
| Engine.ImportReachesAll | src/engine.cpp:606-619 | an import overwrites at most the slot asked for, and all imported trees are in slots of their own afterwards |
| Engine.ImportAtIndex | src/engine.cpp:606-619 | the first file that can be read is in the slot asked for, whatever was there |
| Engine.ImportFillsUp | src/engine.cpp:606-619 | without an index the trees fill the empty slots from the lowest up, in order |
| Engine.ImportSkips | src/engine.cpp:606-619 | files that cannot be read make no difference |
| Engine.Engine.AddFrameSource | src/engine.cpp:221-249 | the resizing and searching on the slot vector equal AddSlot |
| Engine.Engine.GetFrameSource | src/engine.cpp:251-259 | the slot's tree, or none past the end |
| Engine.Engine.Clear | src/engine.cpp:450-466 | the loop and the final clear leave no slot |
| Engine.SaveSlot | src/engine.cpp:495-503 | one sequence element around one tree, with its index |
| Engine.SaveSlots | src/engine.cpp:495-503 | the non-empty slots in order, each in its own element, and nothing for empty ones |
| Engine.Engine.SaveShow | src/engine.cpp:488-507 | the whole document: header, slots in order, end |
| Engine.Engine.ReadSequences | src/engine.cpp:534-559 | the main loop terminates on any document and equals the function |
| Engine.Engine.LoadShow | src/engine.cpp:520-565 | header search, version check and main loop equal the function, on any document |
| Engine.Engine.Import | src/engine.cpp:606-619 | the import loop equals the function: the index is used for the first tree that loads only |
| ShowRoundTrip.LoadEntry | src/engine.cpp:543-559 | a saved sequence element puts its tree in its slot, is counted once, and the loader goes on behind that element |
| ShowRoundTrip.LoadSlots | src/engine.cpp:534-559 | from any slot on, the indexes the loader has loaded in the end are the occupied ones in order, so each saved element is visited once, and it stops at the end of the show |
| ShowRoundTrip.OccupiedOnce | src/engine.cpp:495-503 | those indexes are all the occupied ones, each once, ascending |
| ShowRoundTrip.RestoredOverlays | src/engine.cpp:534-559 | each saved tree is at its own index, all other slots are as before, and none is added past the last saved one |
| ShowRoundTrip.SaveThenLoad | src/engine.cpp:488-565 | loading a saved show over any slots visits each saved element once, puts back each tree at its index and changes no other slot |
| ShowRoundTrip.SaveClearLoad | src/engine.cpp:450-565 | for the engine object: save, clear, load restores every tree at its index, and the slots end at the last occupied one |
| OtherDocuments.UnknownElement | src/framesource_impl.cpp:138-147 | an element that is no node yields nothing and the cursor goes to the next tag |
| OtherDocuments.NoSettings | src/framesequencer.cpp:80-86 | what a node without attributes is loaded as |
| OtherDocuments.ColourOutOfRange | src/colourrotator.cpp:101-121 | a colour with a channel out of range is left as it was |
| OtherDocuments.NoPointList | src/staticframe.cpp:138-165 | a frame without any point list behind it has no points |
| OtherDocuments.NoChildrenElement | src/framesource_impl.cpp:152-173 | a node without a children element has no children, and the cursor stays at the start tag found instead |
| OtherDocuments.NoChildrenAnnounced | src/framesource_impl.cpp:157-161 | a missing, zero or negative number reads no child |
| OtherDocuments.ChildMissing | src/framesource_impl.cpp:163-169 | a child that is no node, or is not there, fails the assertion |
| OtherDocuments.NoShow | src/engine.cpp:522-530 | without a show element nothing is loaded |
| OtherDocuments.OtherVersion | src/engine.cpp:530-534 | of another version nothing is loaded |
| OtherDocuments.Damaged | src/engine.cpp:522-530 | nothing is loaded of a document damaged before its show element |
| OtherDocuments.OtherElement | src/engine.cpp:538-558 | an element that is no sequence is stepped into, not loaded |
| OtherDocuments.EmptySequence | src/engine.cpp:543-553 | a sequence without an element fails the assertion |
| OtherDocuments.DamagedSequence | src/engine.cpp:548-552 | a sequence damaged before its first tag ends the load with what there is |
| OtherDocuments.UnknownSequence | src/engine.cpp:543-555 | a sequence with an unknown element empties its slot, slot 0 if it has no position |
| OtherDocuments.HugePosition | src/engine.cpp:545-555 | a position of 2^63 or more means the lowest empty slot |
| OtherDocuments.DamagedLater | src/engine.cpp:534-537 | the loader stops at the end of the show or where the document is damaged, and keeps what it has |
| IndexTable.FillTable | src/framesequencer.cpp:154-172 | the loop with its running index and sign yields the table: up to the last child, and back again for ping-pong |
| IndexTable.PermutationFits | src/framesequencer.cpp:172-174 | any shuffle of the table has every child exactly once |
| IndexTable.PingpongTurnsOnce | src/framesequencer.cpp:154-172 | the ping-pong table has length 2n-1, reads the same both ways, meets the last child once and every other twice |
| Playback.CreatePlayback | src/framesource_impl.cpp:233-240 | a new playback has the shape of its tree, so no child playback is missing |
| Playback.ResetIndexFits | src/framesequencer.cpp:154-203 | a refilled table has one entry a step and only existing children |
| Playback.Reset | src/framesequencer.cpp:96-105 | a reset keeps the playback fit for its tree |
| Playback.Next | src/framesequencer.cpp:107-152 | one call terminates on every finite tree, keeps the playback's shape and never indexes outside a table |
| Playback.NewPass | src/framesequencer.cpp:122-132 | starting over counts the pass, refills the table, resets every child and keeps the shape |
| Player.Create | src/framesource_impl.cpp:233-240 | the playback objects built are new, not shared with each other, and in the shape of the tree |
| Player.Node.RefillTable | src/framesequencer.cpp:154-181 | the object's table becomes the function's table |
| Player.Node.Index | src/framesequencer.cpp:183-203 | refills a table of the wrong size, then returns an existing child at a position inside the table |
| Player.Node.Reset | src/framesequencer.cpp:96-105 | resetting the objects in place equals the function for all three kinds |
| Player.Node.NextFrame | src/framesequencer.cpp:107-152 | pulling a frame from the objects in place equals the function for all three kinds |
| Player.Node.RunSequencer | src/framesequencer.cpp:117-151 | the nested loops equal the recursive function |
| Player.Node.ResetAllKids | src/framesequencer.cpp:128-131 | the loop resets every child and nothing else |
| Traces.LeafGives | src/staticframe.cpp:168-191 | a static frame with repeats left shows itself that many times, then null |
| Traces.RotatorGives | src/colourrotator.cpp:155-178 | a rotator gives what its child gives |
| Traces.SeqGivesNow | src/framesequencer.cpp:107-152 | in the middle of a pass: the rest of the current child, the rest of the pass, the passes left, null |
| Traces.NullGivesNow | src/framesequencer.cpp:141-150 | a child's null is not seen outside: the same call goes on with the next entry, reset |
| Traces.LastGivesNow | src/framesequencer.cpp:117-132 | at the last entry the end test comes first: new passes with new tables, or null |
| Traces.SingleGivesNow | src/framesequencer.cpp:117-151 | with one child each pass shows that child's first frame only |
| Traces.TameGives | src/framesequencer.cpp:107-152 | a tree of any depth whose sequencers play in order shows exactly its frame list, then null, and is at its start again |
| Traces.GivesOne | src/framesequencer.cpp:107-152 | what a playback shows up to the first null is determined |
| TraceTheorems.GivesCalls | src/framesequencer.cpp:107-152 | the results of the calls are the frames and then one null, at any clock |
| TraceTheorems.TameRounds | src/framesequencer.cpp:107-152 | asked on and on, a tame tree repeats its list and a null for ever |
| TraceTheorems.TameLoaded | src/head.cpp:129-131 | the same from a playback as the head makes it, created and then reset |
| TraceTheorems.SequencerGives | src/framesequencer.cpp:107-152 | a loaded sequencer of two or more children, in any mode over resettable ones, back and forth over tame ones from a resettable first, or in order over tame ones to a resettable last, shows exactly repeats plus one passes, each over its own table, then null |
| TraceTheorems.FlatIsReady | src/framesequencer.cpp:107-152 | that covers sequencers of two or more static frames in every mode |
| TraceTheorems.TameIsReady | src/framesequencer.cpp:107-152 | and sequencers that play tame children in order |
| Promise.PassesAreWhole | src/framesequencer.cpp:117-151 | as lists: the passes shown are the passes promised if and only if the last entry of each has one frame at most |
| Promise.ShowsPasses | src/framesequencer.cpp:107-152 | for one way to shuffle, a loaded sequencer gives the promised list if and only if the last entry of every pass has one frame at most |
| Promise.KeepsPromise | src/framesequencer.cpp:107-152 | without shuffling, it gives all frames of all entries of repeats plus one passes if and only if the last child, or back and forth the first, has one frame at most; with one child, if and only if that child has no frame |
| Promise.KeepsPromiseShuffled | src/framesequencer.cpp:172-174 | when it shuffles, it does so for every shuffle if and only if every child has one frame at most |
| Promise.LastCutShort | src/framesequencer.cpp:117-132 | two points in order, each for two frames: a, a, b is shown where a, a, b, b is promised |
| NewShow.NewGives | src/framesequencer.cpp:112-118 | the first show of a new playback, with the frame that an empty table of a sequencer with one child adds along the first children |
| NewShow.LoadedGives | src/framesequencer.cpp:96-118 | the same for a playback that was made and reset, which resets the top of the tree only |
| SecondShow.AgainGives | src/framesequencer.cpp:96-105 | from the state in which a ping-pong sequencer ends, it shows its list without the first frame of its first child |
| SecondShow.PingpongShows | src/framesequencer.cpp:96-152 | a loaded ping-pong sequencer shows its passes and null, then for ever the list without its first frame and null; the same list if and only if its first child has no frame |
| SecondShow.BackAndForthForgets | src/framesequencer.cpp:96-105 | two one-frame children: a, b, a, null the first time and b, a, null the second |
| TraceTheorems.NullIsReset | src/colourrotator.cpp:172-176 | after a null one more reset changes nothing that can be seen |
| TraceTheorems.RotatorTransparent | src/colourrotator.cpp:155-178 | over any child that does not shuffle, a rotator returns the frames and the nulls of the bare child on the same calls, for any number of calls |
| TraceTheorems.RotatorHandsOn | src/colourrotator.cpp:155-178 | one call of a rotator: the child's frame, and after a null the child reset; without a child null |
| TraceTheorems.DwellShows | src/staticframe.cpp:168-191 | a dwell-timed frame shows until its time, taken as signed, has gone by |
| TraceTheorems.DwellExpires | src/staticframe.cpp:173-190 | then it returns null once and its timer starts again at that time, as it does at a reset |
| TraceTheorems.SettingsMayChange | src/framesequencer.cpp:112-116 | a playback stays fit when modes, repeats and dwell settings are changed between calls, from ping-pong to a shorter table too |
| ModeSwitch.SwitchGives | src/framesequencer.cpp:112-151 | a mode changed in the middle of a pass keeps the position: the rest of the child at that entry of the new table, the new table from the next entry on, the passes left, null |
| ModeSwitch.SwitchPastEnd | src/framesequencer.cpp:112-132 | at or past the end of the new table: a new pass over a table of its own with every child reset, or null and a reset |
| ModeSwitch.SwitchToPingpong | src/framesequencer.cpp:113-116 | three points in order, the second just shown: after the change to back and forth the third is next, then the second and the first |
| ColourEffects.WrapIsTheOne | src/colourrotator.cpp:214-219 | the wrapped value is the only one in [0, 1] that differs by a whole number, leaves values inside alone and comes in on the near side |
| ColourEffects.WrapByLoops | src/colourrotator.cpp:214-219 | both wrap loops terminate for every real and reach that value |
| ColourEffects.FramePhases | src/colourrotator.cpp:194-222 | on a frame of n points the phase is in [0, 1] at every point if and only if it moves by at most 1 a point or the excess over n - 1 points does not carry it out |
| ColourEffects.HarmonicLeaves | src/colourrotator.cpp:198-222 | harmonic 5 on two points reaches phase 1.5, harmonic 3 stays in range |
| ColourEffects.PulseStartInRange | src/colourrotator.cpp:256-258 | over any number of frames the pulse's start phase stays in [0, 1] if and only if it advances by at most 1 either way |
| ColourEffects.StartsInRange | src/colourrotator.cpp:233-234 | over any run of frames of any sizes the rotation's start phase stays in [0, 1] if and only if the advance is in [0, 1] |
| ColourEffects.RunInRange | src/colourrotator.cpp:194-236 | then every frame of the run with at least as many points as the harmonic has all its phases in range |
| ColourEffects.EffectsKeepShape | src/colourrotator.cpp:181-260 | number, places and blanking of the points are untouched |
| ColourEffects.PointAfterEffects | src/colourrotator.cpp:168-260 | a lit point inside the pulse's duty cycle has the pulse's colour; any other has its own or the override colour with the phase there added to hue and saturation up to a whole number and multiplied into the value, each if switched on |
| ColourEffects.RotateTurns | src/colourrotator.cpp:202-219 | the same for one colour: which of hue, saturation and value moves by which amount, and what stays |
| ColourEffects.PhaseAdds | src/colourrotator.cpp:220-255 | the phase at point i is the start phase plus i steps, up to a whole number |
| ColourEffects.IncrsAdd | src/colourrotator.cpp:198-242 | n steps amount to the harmonic |
| ColourEffects.OffKeepsColours | src/colourrotator.cpp:194-236 | with every effect off each point keeps hue, saturation and value, with hue 0 for greys |
| ColourEffects.RedTurnsCyan | src/colourrotator.cpp:205-207 | hue rotation alone turns red by half a circle into cyan |
| ColourEffects.ColourRotator.ColourOverride | src/colourrotator.cpp:181-192 | every point gets the override colour, in place, when it is on |
| ColourEffects.ColourRotator.HSVRotator | src/colourrotator.cpp:194-236 | each point gets its colour at its own phase, and the branch for values out of range is never taken |
| ColourEffects.ColourRotator.ColourPulse | src/colourrotator.cpp:238-260 | exactly the lit points inside the duty cycle get the pulse colour |
| ColourEffects.ColourRotator.Modulate | src/colourrotator.cpp:168-171 | the three effects in order, in place, keeping the frame's shape |
| PlaybackList.AlwaysConsistent | src/playbacklist.cpp:36-187 | after any run no slot is selected twice, single mode holds at most one, and the slot playing is none or the head |
| PlaybackList.SelectKeeps | src/playbacklist.cpp:57-83 | select keeps the invariant; afterwards exactly the slot and, outside single mode, the former selections are selected |
| PlaybackList.DeselectKeeps | src/playbacklist.cpp:43-56 | deselecting removes that slot only and keeps the invariant |
| PlaybackList.SignalsShowSelections | src/playbacklist.cpp:36-187 | replaying the signals of any run shows exactly the selected slots but the dark ones, which are computed without the signals; there are none if the run stays out of ONCE |
| PlaybackList.ExactStep | src/playbacklist.cpp:36-187 | from an exact state a step leaves the listener exact if and only if it is not, in ONCE, a fetch that starts a slot or a select or deselect of the head with another slot behind it |
| PlaybackList.ExactUnlessDarkened | src/playbacklist.cpp:36-187 | over a run the listener is exact at every moment if and only if no step is one of those |
| PlaybackList.OnceDarkensHead | src/playbacklist.cpp:163-171 | a fetch that starts an idle ONCE list turns its head off for the listener and keeps it selected |
| PlaybackList.LoopVisitsAll | src/playbacklist.cpp:143-188 | looping over n selections, n fetches return each once, the head last, and restore the list |
| PlaybackList.OnceInOrder | src/playbacklist.cpp:143-188 | from idle, ONCE returns the selections in order and then -1 however often it is asked |
| PlaybackList.FetchesConserve | src/playbacklist.cpp:172-181 | out of ONCE any number of fetches conserves the selections as a multiset, shuffled or not |
| PlaybackList.FetchesHold | src/playbacklist.cpp:143-149 | in MANUAL and BEAT repeated fetches change nothing while something plays |
| PlaybackList.ApplyLogs | src/playbacklist.cpp:36-187 | no call takes back a signal |
| ListSteps.SelectAppends | src/playbacklist.cpp:78-82 | outside single mode a new slot goes to the back and nothing else changes |
| ListSteps.SelectReplaces | src/playbacklist.cpp:67-77 | in single mode the slot is alone and nothing plays |
| ListSteps.SelectMoves | src/playbacklist.cpp:57-82 | a selected slot is taken away and put at the back |
| ListSteps.DeselectLeaves | src/playbacklist.cpp:43-56 | the others keep their order; without the head the list also moves on by one, except in ONCE, and nothing plays |
| ListSteps.ModesChange | src/playbacklist.cpp:95-140 | what changing a mode and clearing leave, field by field |
| ListSteps.StepTurns | src/playbacklist.cpp:114-128 | a click in MANUAL or a beat in BEAT sends the head to the back, plays the next slot and has the old one dumped |
| ListSteps.StepShuffles | src/playbacklist.cpp:172-181 | shuffling, it plays the head of an order of the same slots |
| ListSteps.StepIgnored | src/playbacklist.cpp:114-128 | in other step modes clicks and beats change nothing |
| ListSteps.StepsVisitAll | src/playbacklist.cpp:114-188 | as many steps as selections play each once and restore the list |
| ListSteps.FetchTurns | src/playbacklist.cpp:143-181 | a fetch that moves on does the same without the dump |
| ListSteps.FetchShuffles | src/playbacklist.cpp:143-181 | shuffling, it plays the head of the order that the shuffle gives |
| ListSteps.FetchOnce | src/playbacklist.cpp:143-171 | ONCE starts with the head, then drops a slot a fetch; the signals in their order |
| ListSteps.DumpsExactly | src/playbacklist.cpp:36-187 | which calls ask for a dump, and that no other does |
| PlaybackList.List.SelectSlot | src/playbacklist.cpp:36-84 | the object's select, with its mutual recursion with next, terminates in all modes and equals the function |
| PlaybackList.List.NextSlot | src/playbacklist.cpp:157-188 | the object's next equals the function and returns the head of the list or -1 |
| PlaybackList.List.SetSelectionMode | src/playbacklist.cpp:95-106 | equals the function: single mode drops selections from the back until one is left |
| PlaybackList.List.SetStepMode | src/playbacklist.cpp:108-112 | changes the step mode and nothing else |
| PlaybackList.TrimKeeps | src/playbacklist.cpp:100-103 | that loop keeps the head and nothing else |
| PlaybackList.List.GetNextFrameSource | src/playbacklist.cpp:143-149 | equals the function and returns the slot playing |
| PlaybackList.List.BeatDetected | src/playbacklist.cpp:114-120 | a beat steps the list in BEAT mode only |
| PlaybackList.List.ManualStepClicked | src/playbacklist.cpp:122-128 | a click steps the list in MANUAL mode only |
| PlaybackList.List.ClearList | src/playbacklist.cpp:130-140 | equals the function, whose loop stops at one selection |
| PlaybackList.List.IsSelected | src/playbacklist.cpp:209-219 | true exactly for the slots in the list |
| Driver.Take | src/driver_dummy_ilda.cpp:87-96 | as many points as fit are accepted, in order from the offset, and the buffer never overflows |
| Driver.Drain | src/driver_dummy_ilda.cpp:103-111 | exactly as many points as asked for, or all there are, leave from the front and none is lost |
| Driver.Driver.NewPoints | src/driver_portaudio_ilda.cpp:190-200 | the counter of the dummy and the ring buffer of the sound card both do what Take says |
| Driver.Driver.Timeout | src/driver_dummy_ilda.cpp:103-111 | a tick takes up to 1000 points |
| Driver.Driver.Callback | src/driver_portaudio_ilda.cpp:202-246 | each output row is the next buffered point: x, y, red, green, blue and their mean, and zeros once the buffer is dry |
| Head.RoundKeeps | src/head.cpp:112-149 | a round keeps the index inside the buffer, overflows nothing and drops no point |
| Head.ApplyKeeps | src/head.cpp:109-240 | every step of the head, a round, a tick, kill, restart or any call on the list, keeps the ledger equation, the index bound and the emptiness of a killed head |
| Head.PointsConserved | src/head.cpp:109-176 | over any run, the points accepted are the fetched ones that were not dropped, in order, and the unsent ones are the buffer's tail |
| Head.OnlyDumpsDrop | src/head.cpp:154-176 | only a dump or a kill drops points, and then exactly the unsent ones |
| Head.KilledIsSafe | src/head.cpp:231-240 | from kill until restart, in any interleaving, there is no playback, an empty buffer, and nothing is handed to the driver |
| Output.RefetchPulls | src/head.cpp:115-147 | a playing head takes the next frame of its playback; on null it asks the list, makes and resets a playback of the slot it gets and takes that one's first frame |
| Output.HeadPulls | src/head.cpp:109-152 | over any run of refills and ticks it fetches the points of the frames that calls of nextFrame return from its playback on, each resampled once and in order, until the null that makes it ask the list |
| Output.HeadPlays | src/head.cpp:109-152 | over any such run, with trees that play in order in the slots: the rest of what was playing, then the whole frame lists of the slots the list names, one after the other |
| Output.ListCall | src/head.cpp:154-176 | a call on the list drops playback and unsent points if it asks for a dump, and changes nothing but the list if not |
| Output.StepMovesOn | src/head.cpp:221-229 | after a step nothing plays, the unsent points are dropped, and the next fetch is the slot stepped to |
| Output.OtherCalls | src/head.cpp:231-240 | what kill, restart and a hardware tick change, and nothing else |
| Refill.NextFromLeaf | src/framesequencer.cpp:107-152 | every frame a playback returns is the frame of one of the tree's leaves |
| Refill.TameStarts | src/head.cpp:129-137 | a new playback of a tame tree begins with a frame if and only if its frame list is not empty |
| Refill.DwellStarts | src/staticframe.cpp:173-178 | a static frame with a dwell timer begins with a frame if and only if its dwell time is below 2^31 |
| Refill.After | src/head.cpp:109-152 | wherever the loop ends, at most 300 points of space are left or nothing is loaded to play |
| Refill.ProductiveEnds | src/head.cpp:112-149 | if every fetch the loop makes yields points or no playback, it ends within a round for each point of space above 300 and one more |
| Refill.KilledEnds | src/head.cpp:143-145 | a killed head ends the loop in its first round, whatever is selected |
| Refill.AllLiveEnds | src/head.cpp:112-149 | live slots make every fetch productive, so the loop ends |
| Refill.TameSlot | src/head.cpp:119-137 | a slot with a tame tree is live or a dud, as its frame list has a frame or not |
| Refill.OneChildIsDud | src/framesequencer.cpp:117-121 | a sequencer with one child and no repeats gives the head no frame, whatever its child shows |
| Refill.OnceEnds | src/head.cpp:112-149 | in ONCE the loop ends, with live slots and duds in any mixture |
| Refill.LoopEnds | src/head.cpp:112-149 | in LOOP without shuffling it ends if some selected slot is live |
| Refill.HoldEnds | src/head.cpp:112-149 | in MANUAL and BEAT it ends if the slot the next fetch returns is live |
| Refill.EndsExactly | src/head.cpp:109-152 | from nothing to send and nothing playing, without shuffling, over live slots and duds: the loop ends if and only if the mode is ONCE, or nothing is selected, or in LOOP some selected slot is live, or in MANUAL and BEAT the slot the next fetch returns is live |
| Refill.EndsForEveryShuffle | src/head.cpp:109-152 | with the list shuffled: the loop ends for every shuffle if and only if the mode is ONCE, or nothing is selected, or in MANUAL and BEAT the slot held is live, or all selected slots are live |
| Refill.SelectDudHangs | src/head.cpp:112-149 | starting up and selecting one dud makes the next refill run for ever |
| LaserHead.LaserHead.DataRequested | src/head.cpp:109-152 | wherever the loop ends, the objects are left as After says, each round at its own time |
| LaserHead.LaserHead.OneRound | src/head.cpp:113-147 | the loop body on the objects equals Round |
| LaserHead.LaserHead.FetchMore | src/head.cpp:115-147 | the part of the loop body that fetches equals its function, break included |
| LaserHead.LaserHead.Send | src/head.cpp:113-114 | exactly the points the driver has space for leave the buffer, in order |
| LaserHead.LaserHead.LoadSource | src/head.cpp:159-176 | a killed head takes no playback; an immediate load drops the unsent points |
| LaserHead.LaserHead.KillOutput | src/head.cpp:231-235 | kill drops playback and unsent points and keeps the head's invariant |
| LaserHead.LaserHead.RestartOutput | src/head.cpp:237-240 | restart only lets playbacks in again |
| LaserHead.LaserHead.SelectSlot | src/head.cpp:194-197 | selecting on the list, with the dump it may cause, is one step of the state machine |
| LaserHead.LaserHead.ManualStep | src/head.cpp:221-224 | a manual step is one step of the state machine |
| Ilda.LoadPut | src/loadilda.cpp:84-169 | a file of well-formed sections, with any bytes where the loader skips and any state bits, yields exactly their frames in file order, then goes on behind them, and reads outside a table exactly when a frame has no colour to take |
| Ilda.LoadWhole | src/loadilda.cpp:54-184 | the same for a whole file from the default palette, alone, or followed by an end marker and anything behind it, or by something that is no section, which gives error 2 |
| IldaColours.FilePoints | src/loadilda.cpp:205-316 | one frame for each drawing section, in file order; each point has its coordinates, is blanked by bit 6 of its state, and has the colour of its place in the last true-colour table since the last indexed frame, else of its index in the palette in force, or its own |
| IldaColours.FileSettings | src/loadilda.cpp:187-218 | a frame's description from the two names, no dwell timer, one repeat |
| IldaColours.CStringEnds | src/loadilda.cpp:190-201 | a name ends at its first zero byte |
| IldaColours.Wrapped | src/loadilda.cpp:173-184 | nothing, the frame, or a rotator over a sequencer of all frames in order |
| Ilda.OneColourTooFew | src/loadilda.cpp:237-240 | a palette of one colour and a point with colour 1 make the loader read outside the palette |
| Ilda.ReadPutBody | src/loadilda.cpp:98-148 | each of the six section types, a true-colour table with too many points and any unknown type is read back: its frame, the colours after it, and the rest of the file |
| Ilda.DefaultsSuffice | src/loadilda.cpp:72-79 | without palette and table sections every 8-bit colour index is in range |
| Ilda.TableReachesOne | src/loadilda.cpp:237-250 | whatever true-colour table came before, only the next indexed frame can differ |
| IldaLoader.Ildaloader.LoadDefaults | src/loadilda.cpp:66-79 | the default palette filled up with black to 256 colours, and no table |
| IldaLoader.Ildaloader.ReadFrameSection | src/loadilda.cpp:205-251 | equals the function on any bytes: frame, end marker or a colour that is not there |
| IldaLoader.Ildaloader.ReadFormat5 | src/loadilda.cpp:282-316 | equals the function on any bytes |
| IldaLoader.Ildaloader.ReadColorTable | src/loadilda.cpp:318-342 | equals the function on any bytes |
| IldaLoader.Ildaloader.ReadTrueColorSection | src/loadilda.cpp:253-280 | equals the function on any bytes, the skip for too many points included |
| IldaLoader.Ildaloader.Load | src/loadilda.cpp:54-184 | on any file: the section loop terminates; nothing for no frame, the frame itself for one, a rotator over a sequencer of all of them for more |
| Midi.NothingLost | src/alsamidi.cpp:99-166 | over any run with partial and failed writes, the bytes the device took and then the queue are all bytes written, in order, and polling is on exactly when the queue is not empty |
| Midi.FlushSends | src/alsamidi.cpp:99-115 | a flush sends exactly what the device takes up to its first refusal |
| Midi.WriteFlushes | src/alsamidi.cpp:156-166 | what is written goes behind the queue and is flushed at once |
| Midi.OneChunk | src/alsamidi.cpp:99-107 | one write is of 64 bytes at most, or as many as the device takes |
| Midi.WillingDeviceGetsAll | src/alsamidi.cpp:99-121 | a device that keeps taking at least one byte empties the queue, and polling is off |
| Midi.ReadInOrder | src/alsamidi.cpp:85-154 | over any run the reader gets every byte that arrived, once and in order |
| Midi.ReceiveTakes | src/alsamidi.cpp:85-93 | a receive moves exactly what the device gives up to its first refusal |
| Midi.TakenAll | src/alsamidi.cpp:85-115 | a device that refuses at once moves nothing, a willing one everything |
| Midi.AlsaMidi.WriteAvailable | src/alsamidi.cpp:99-121 | the loop terminates for every device and equals the function; all notifiers are set alike |
| Midi.AlsaMidi.WriteData | src/alsamidi.cpp:156-166 | appends all bytes, then flushes |
| Midi.AlsaMidi.ReadAvailable | src/alsamidi.cpp:85-97 | moves to the queue what the device gives, and announces data exactly if the queue has some |
| Midi.AlsaMidi.ReadData | src/alsamidi.cpp:143-154 | delivers as much of the front of the queue as asked for, or all of it, and keeps the rest |

## Left out

- Widgets and painting, output views, icons, settings, logging, device enumeration and opening: user interface and
  plumbing.
- XML text syntax, number formatting and base64 (section 4 of RFC 4648): documents are token sequences, attributes hold
  numbers or text, and a point list holds the bytes its characters stand for.
- Floating-point attributes (geometry, scale, duty cycle, harmonics, phase advances): they are formatted with loss and
  take no part in the round trip.
- ShowTree.SaveStatic: does not write the scale and geometry attributes, which are floating point.
- ShowTree.SaveRotator: does not write the duty cycle, harmonic and phase advance attributes, which are floating point.
- ShowTree.LoadOwn: does not read those attributes.
- ShowTree.Load: does not read those attributes.
- Copying a node (`clone`, `copyDataTo`), `toString` and `fromString`, and the clipboard: built from save and load.
- Sources are values, so edits to a subtree that two parents share are not modelled. A playback belongs to one source
  whose children do not change while it plays; a sequencer's mode in use lives in its playback.
- Sequencers without children: the program then reads outside an empty index table.
- The library's shuffle is any function that permutes its argument; the dwell clock is a parameter of each call.
- Locks, threads, real-time scheduling and delivery of signals: each slot call is one step, and the head receives the
  play list's dump signal before the next step. The engine's own notifications are not modelled.
- The resampler is an unknown function of a frame and of how many frames it was given before.
- LaserHead.LaserHead.DataRequested: is called where the loop ends, because it has no state afterwards elsewhere;
  Head.RoundKeeps covers each round without that requirement, and Refill says where the loop ends.
- Refill.EndsExactly: is about slots that are live or duds; a slot is neither if some frame of its tree resamples to
  nothing, or if it depends on the time whether its new playback gives a frame.
- Traces.TameGives: is about trees that show the same list again, which ping-pong sequencers do not and shuffling ones
  need not; TraceTheorems.SequencerGives and SecondShow.PingpongShows have the lists of those, for the sequencer at the
  top of a tree.
- Output.HeadPlays: is about slots that are empty or have trees that play in order; Output.HeadPulls is about any tree,
  for as long as one playback lasts.
- NewShow.LoadedGives: has the extra frame along the first children only, not in later children's own first children.
- The head's current playback is a value of Playback; Player.Node is the same playback on the heap and is proved equal
  to it, but the head does not hold such an object.
- A head without a driver, changing drivers and their speed: the refill then does nothing or only a rate changes.
- Slot indexes of 2^32 or more, and child counts of 2^31 or more.
- PlaybackList.List.ClearList: does not empty the list, because the program's loop stops at one selection.
- ColourEffects.ColourRotator.HSVRotator: is over real numbers, because rounding is not the point of its loops; the
  conversion between colour spaces is the GUI library's and a parameter.
- Truncated ILDA files whose last tag or name is cut short: the program then uses bytes of an uninitialised buffer; the
  model sees the bytes that are there.
- IldaLoader.Ildaloader.Load: stops at a read outside a colour table, because what the program reads there is undefined;
  and takes skipping a negative number of bytes to do nothing, which is up to the stream library. On a seekable file a
  version of it that seeks back instead could make the loop go on for ever.
- IldaLoader.Ildaloader.ReadTrueColorSection: takes skipping a negative number of bytes to do nothing.
- Closing the MIDI port, which discards both queues, and the parser behind it; a negative size given to ReadData.
- The trimming curve of `ColourTrimmer`, `abstractframe`, `geometry` and `outputeffects`: not used by the output path or
  not built.
