# mcu-updater, modelled and proved in Dafny

mcu-updater keeps the firmware of a 3D printer's boards up to date: it edits a hand-edited
config file shared by several processes, builds and flashes images, stops and restarts the
services that hold the ports, and streams its log to browsers. This project models the parts
of it where a mistake loses somebody's data or leaves a printer down, and proves what each
promises for every input, every run and every interleaving.

`dafny verify dfyconfig.toml` checks the whole project.

## What is modelled

The config document. `Text`, `CfgSyntax` and `CfgParse` are the line syntax and the parser, as
a state machine over lines; `CfgEdits` says what replacing, inserting or deleting lines does to
a full re-parse; `CfgRender` is what a value is written as; `CfgDocument` is the object itself,
whose index always is the parse of its lines. `CfgShapes` says which lines are headers and
options, `CfgPlaced` which rows an edit writes and where. `CfgLaws`, `CfgRename`, `CfgNotes`,
`CfgLayout`, `CfgOneLine` and `CfgOps` are the laws: edit locality, renaming, comments kept, many
edits at once. `CfgValues`, `CfgOrder` and `CfgGiven` follow what the index does not hold, the values a
repeated key was also given and the order of keys and sections, through every edit.

The board types and the settings. `CfgReads` and `Words` read texts, lists and words;
`Registry` saves and loads the types, `RegistryOps` keeps their keys apart, `RegistryType`
takes one type there and back, `RegistryTrip` and `RegistryBack` the whole file,
`RegistryCycles` over and over; `Settings` and `SettingsTrip` do the same for the `[updater]`
section. `RegistryReads` and `SettingsReads` are what keys and words mean and which files are
refused, in the words of the file. `CfgWitness`, `RegistryWitness` and `SettingsWitness` are files on which something is
lost, read line by line.

The shared parse. `Snapshot` is the config cache as a transition system of readers, writers and
clearers, one step at a time.

The image container. `Uf2`, `Uf2Image` and `Uf2Erase` decode it, give it its meaning (which
byte lands at which address) and erase a sector in it.

The outage. `Services` is the stop, the crash journal and the restart as a trace of events, a
kill being a prefix; `Batch` writes a batch of devices inside one such outage.

The shared file. `Lock` is the lock file with its acquirers, probers and killed holders;
`Updates` is the config file's three writers under it.

The streams. `LogStream` is a job's log ring and its batches; `Rpc` the ETX framing; `Crc8` and
`Roadrunner` the CRC-framed replies of a serial device.

The build tree. `Patches` is the temporary Makefile patching; `ProfileHeader`, `ProfileAnswers`
and `Profiles` the saved configs, what they were seeded from, and the user's own captures.

Where other processes or threads can act between two steps, the steps are single actions of a
world, and the imperative calls (`Shared.Read`, `LockFile.Acquire`, `ConfigFile.Mutate`) let
any of them in at every gap; `Interleaving` is the script that says which.

## Where the code and its promises part

Each of these is stated as a lemma with its exact condition, or with the input that shows it.

- Removing an option brings an ignored duplicate of it to life, and renaming a repeated section
  does the same with its second copy (`CfgLaws.RemoveIff`, `CfgRename.RenameIff`, seen in
  `CfgWitness.RemovedStillThere` and `CfgWitness.RenamedStillThere`). Through them a registry or
  settings save that drops a key can leave it set (`RegistryType.TypeBackIff`,
  `SettingsTrip.RoundTripIff`, seen in `RegistryWitness.StopListStays` and
  `SettingsWitness.RepeatedStopComesBack`).
- Saved settings do not come back when the section also spells a field with dashes further down,
  or has a dashed stop list and the stop list is unset (`SettingsTrip.RoundTripIff`, seen in
  `SettingsWitness.DashedRunWins` and `SettingsWitness.DashedStopComesBack`).
- A comment beside a one-line value is looked for by splitting at ':' and then at '=', whichever
  the line was written with, so a separator in the comment, or one right before a mark, loses or
  changes it (`CfgOneLine.NoteKeptIff`, seen in `CfgOneLine.ColonInNote`).
- A type declared in two sections is saved to the first and loaded from the last
  (`RegistryBack.RoundTripIff`, seen in `RegistryWitness.EditLost`).
- A family declared more than once for a type loads its Makefile patches as often over
  (`RegistryType.FamilyLoaded`, seen in `RegistryWitness.PatchesDoubled`), and every further save
  and load multiplies them again (`RegistryCycles.CyclesMultiply`).
- A cache reader held up between its fstat and its lookup, on a file rewritten within the
  window, can be handed newer bytes than its handle had (`Snapshot.SlowReader`); they are still
  bytes the file really held (`Snapshot.HitsAreTrue`).
- Sorting blocks by target changes the meaning of a container where the highest-placed block over
  an address is not the last one and says something else (`Uf2Erase.ErasedKeepsIff`, for two
  blocks `Uf2Erase.ReversedPair`).
- An inner stop clears the journal of an outer one, a stop begun over a pending entry forgets
  it, and a start that raises clears the entry with units still down
  (`Services.InnerCallErases`, `Services.OverwritingLoses`, `Services.RestartSafeIff`, seen in
  `Services.OneUnitLost`).
- Two patches that append to one file leave the first one's line behind (`Patches.RestoredIff`,
  seen in `Patches.SecondAppendStays`).
- The documentation of `apply_seed` says overwritten answers are kept first; for a forced seed over
  a config with no record no profile is captured, and only the replaced file itself stays, as
  `.bak` (`Profiles.ForcedKeptIff`). With the config deleted and its record left, no vendor seed
  can be applied at all (`Profiles.DeletedConfigSticks`).
- A type named "base:..." gives its capture's header a stray baseline line
  (`ProfileHeader.CapturedReads`, seen in `ProfileHeader.StrayRead`).

## Model

| member | source | states |
|---|---|---|
| CfgDocument.CfgDocument.Parse | src/mcu_updater/cfgdoc.py:139-198 | the parser loop, updating the index in place, ends with the index of the lines as they are |
| CfgDocument.CfgDocument.ParseLine | src/mcu_updater/cfgdoc.py:146-198 | one line of the loop: header, comment, blank, continuation or option, tried in that order, moves the index as the line's kind says |
| CfgDocument.CfgDocument.Extend | src/mcu_updater/cfgdoc.py:157-183 | a continuation or indented comment joins the open option's span, and its text the value, unless the option is a repeated one |
| CfgDocument.CfgDocument.Read | src/mcu_updater/cfgdoc.py:212-217 | reading a key answers what a full parse of the current lines answers |
| CfgDocument.CfgDocument.Splice | src/mcu_updater/cfgdoc.py:339-348 | replaces a span of lines and parses again, so the index still is the parse of the lines; a frozen document is refused and unchanged |
| CfgDocument.CfgDocument.AddSection | src/mcu_updater/cfgdoc.py:401-408 | appends a header after one blank line, and nothing when the section is there |
| CfgDocument.CfgDocument.Set | src/mcu_updater/cfgdoc.py:350-371 | writes the option over its own span or, a new key, in the place CfgPlaced.NewKeyPlaced fixes; adds the section first when it is missing |
| CfgDocument.CfgDocument.RemoveOption | src/mcu_updater/cfgdoc.py:373-381 | takes out exactly the option's span, and says whether there was one |
| CfgDocument.CfgDocument.RenameSection | src/mcu_updater/cfgdoc.py:383-399 | rewrites only the header line, when the old name is there and the new one is not |
| CfgDocument.CfgDocument.RenderDocument | src/mcu_updater/cfgdoc.py:424-426 | the lines joined, ending in one newline |
| CfgDocument.LastFilled | src/mcu_updater/cfgdoc.py:365-370 | stops with only blank rows between there and the end, and with no blank row before, unless it got to the start |
| CfgPlaced.NewKeyPlaced | src/mcu_updater/cfgdoc.py:362-371 | a new key's rows stand right under the section's header or last row that is not blank, with only blank rows from there to the section's old end |
| CfgPlaced.FirstKeyPlaced | src/mcu_updater/cfgdoc.py:350-371 | the first key of a section that was missing comes right under the header put at the end |
| CfgPlaced.SectionPlaced | src/mcu_updater/cfgdoc.py:401-408 | a new section goes after all rows, under one blank row: one that was there, one that is added, or none in an empty document |
| CfgPlaced.RenamedRow | src/mcu_updater/cfgdoc.py:395-398 | a rename changes one row, and of it only what stands in the brackets |
| CfgPlaced.RenderedEnd | src/mcu_updater/cfgdoc.py:424-426 | the rendered text is the rows joined, with a newline added exactly when it is not empty and has none at its end |
| CfgDocument.DecorationOf | src/mcu_updater/cfgdoc.py:271-305 | the loop over an existing block collects the comments beside and above each item and those at the end |
| CfgDocument.BlockLines | src/mcu_updater/cfgdoc.py:311-323 | the loop that writes a list puts each item's kept comments back around it |
| CfgParse.SectionsPlaced | src/mcu_updater/cfgdoc.py:139-198 | in any file, an indexed section starts at its first header and ends right before the next header that follows it |
| CfgParse.OptionsPlaced | src/mcu_updater/cfgdoc.py:139-198 | in any file, an indexed option spans its first line and exactly the continuation and indented comment lines after it |
| CfgParse.BlockRead | src/mcu_updater/cfgdoc.py:139-198 | wherever a block for a new key stands in a live section, the parser reads its value, all its lines and nothing else |
| CfgEdits.ValueIffCopies | src/mcu_updater/cfgdoc.py:192-198 | a key has a value exactly when some line of the live section gives it |
| CfgEdits.ReplaceOption | src/mcu_updater/cfgdoc.py:350-371 | replacing an option's span by another block for its key leaves the parse of everything else alone, in any file |
| CfgEdits.InsertOption | src/mcu_updater/cfgdoc.py:363-371 | inserting a block at the end of a section does not touch what any other option reads as |
| CfgEdits.DeleteOption | src/mcu_updater/cfgdoc.py:373-381 | deleting an option's span changes no other value |
| CfgEdits.AppendHeader | src/mcu_updater/cfgdoc.py:401-408 | a new header at the end of the file changes no value |
| CfgSyntax.TextLine | src/mcu_updater/cfgdoc.py:334-337 | a written `key: value  # note` line is parsed as that key with that value |
| CfgSyntax.ItemLine | src/mcu_updater/cfgdoc.py:311-323 | a written indented item line is parsed as a continuation holding that item, with or without a comment |
| CfgSyntax.HeaderLine | src/mcu_updater/cfgdoc.py:401-408 | a written header is parsed as that section |
| CfgShapes.HeaderIff | src/mcu_updater/cfgdoc.py:38 | a line is a header of a name exactly when it is a bracketed text stripping to that name, then blanks and at most a comment |
| CfgShapes.OptionIff | src/mcu_updater/cfgdoc.py:39 | a line gives a key and a value exactly when it is a key without separators, a separator and a rest, the value being the rest stripped and without its comment |
| CfgShapes.NotesCut | src/mcu_updater/cfgdoc.py:78-87 | a mark inside a word is kept, one after a blank or at the start ends the value |
| Text.CleanIffKept | src/mcu_updater/cfgdoc.py:81-87 | the texts that survive trimming and comment stripping are exactly the clean ones: trimmed, with no mark at the start or after whitespace |
| CfgRender.RenderedReads | src/mcu_updater/cfgdoc.py:308-337 | the block written for a clean value, whatever block it replaces, reads back as that value |
| CfgRender.ListOfJoined | src/mcu_updater/cfgdoc.py:219-230 | get_list gives back the items of a written list, each once, in order |
| CfgLaws.SetReads | src/mcu_updater/cfgdoc.py:350-371 | edit locality: after a set with a clean key and value a full re-parse finds that value, and every other (section, key) pair, repeated or not, reads exactly as before |
| CfgLaws.SetListReads | src/mcu_updater/cfgdoc.py:350-371 | a list that was set is what get_list returns |
| CfgLaws.SetTextIff | src/mcu_updater/cfgdoc.py:334-337 | exactly the clean one-line texts come back as they were set |
| CfgLaws.AddReads | src/mcu_updater/cfgdoc.py:401-408 | adding a section changes no value and no other section |
| CfgLaws.RemoveReads | src/mcu_updater/cfgdoc.py:373-381 | removing an option changes no other value |
| CfgLaws.RemoveIff | src/mcu_updater/cfgdoc.py:373-381 | the removed key reads as absent exactly when at most one line gave it; a repeated key comes back to life |
| CfgWitness.RemovedStillThere | src/mcu_updater/cfgdoc.py:373-381 | a key given twice reads as its second value once it is removed |
| CfgValues.ValuesIndexed | src/mcu_updater/cfgdoc.py:192-198 | of all the values the lines give a key, in order, the index holds the first; the others are read into options nobody can reach |
| CfgValues.EditedValues | src/mcu_updater/cfgdoc.py:350-381 | replacing, inserting or deleting an option changes the first of its key's values alone: the ignored ones stay behind it, and every other key has all its values as before |
| CfgOrder.KeysOrdered | src/mcu_updater/cfgdoc.py:192-198 | the keys of a section, each once, in the order of their lines |
| CfgOrder.EditedKeys | src/mcu_updater/cfgdoc.py:350-381 | an edit leaves every other key of the section at its place, and the edited one too when it is written over itself |
| CfgOrder.AppendedKey | src/mcu_updater/cfgdoc.py:363-371 | a key the section did not have comes last |
| CfgOrder.NamesAre | src/mcu_updater/cfgdoc.py:205-210 | the sections, each once, in the order of their headers |
| CfgGiven.SetGives | src/mcu_updater/cfgdoc.py:350-371 | a set puts its value before the ones that were ignored, in its key's place or last, and touches no other key |
| CfgGiven.RemoveGives | src/mcu_updater/cfgdoc.py:373-381 | what a removed option leaves is exactly the list of its other values, the next one counting now |
| CfgGiven.RenderGives | src/mcu_updater/cfgdoc.py:424-426 | the rendered text gives every key all its values, and every section its keys, in the same order |
| CfgGiven.ApplyEditsGives | src/mcu_updater/cfgdoc.py:350-381 | over any number of edits of distinct keys and sections: each key's list of values is edited as its own edit says, and no other list is |
| CfgLaws.RenderReads | src/mcu_updater/cfgdoc.py:424-426 | parsing the rendered text gives back every value the document gave |
| CfgRename.RenameReads | src/mcu_updater/cfgdoc.py:383-399 | a renamed section reads under its new name what it read under the old one and every other section as before, whether or not the old name is repeated; the sections and the repeats are otherwise the same |
| CfgRename.RenameIff | src/mcu_updater/cfgdoc.py:383-399 | the old name is gone exactly when it was not a repeated section |
| CfgWitness.RenamedStillThere | src/mcu_updater/cfgdoc.py:383-399 | of two sections of one name, the second answers to it once the first is renamed |
| CfgLayout.NotesKept | src/mcu_updater/cfgdoc.py:271-323 | a rewritten list is, row by row: the key's line, each item in order under the comment lines that stood above it and beside the comment it had, and the comments that ended the old block; nothing else |
| CfgLayout.RowKept | src/mcu_updater/cfgdoc.py:271-323 | a row of the old block that is the only one for its item, with the item still in the list, is a row of the new block, comment and all, right under the comment lines of the run above it |
| CfgLayout.SetListKeepsNotes | src/mcu_updater/cfgdoc.py:350-371 | so in the document: the option's rows are laid out like that, and no row before or after them changes |
| CfgNotes.SetListTwice | src/mcu_updater/cfgdoc.py:350-371 | setting the same list again leaves the lines identical |
| CfgOneLine.NoteKeptIff | src/mcu_updater/cfgdoc.py:334-337 | on any option line, however spelled, the rewrite finds the comment exactly when the last place it splits at comes no later than the comment and not right before a mark |
| CfgOneLine.FoundByCases | src/mcu_updater/cfgdoc.py:334-337 | which place that is, by which of ':' and '=' comes first |
| CfgOneLine.RewriteKeepsIff | src/mcu_updater/cfgdoc.py:326-337 | so the rewritten line carries the old comment exactly then |
| CfgOneLine.ColonInNote | src/mcu_updater/cfgdoc.py:334-337 | `k = v  # a:b` loses its comment |
| CfgNotes.PutSpanAfter | src/mcu_updater/cfgdoc.py:350-371 | the span the next set of a key replaces is exactly the block the last one wrote |
| CfgOps.ApplyAllReads | src/mcu_updater/cfgdoc.py:350-381 | any sequence of sets and removals of distinct keys: each reads as it was last set, or as absent exactly when not repeated, and all else as before |
| CfgOps.ApplyEditsReads | src/mcu_updater/cfgdoc.py:350-381 | the same over any number of sections edited one after another |
| CfgOps.MakeAll | src/mcu_updater/cfgdoc.py:350-381 | the edits made one by one in a document leave the lines of that sequence |
| Words.JoinedWords | src/mcu_updater/cfgdoc.py:232-254 | a list of words joined with ", " is a clean text that get_csv splits back into the same list |
| Words.WordAdded | src/mcu_updater/cfgdoc.py:232-254 | words on lines of their own are split just as words on one line |
| Registry.PatchReads | src/mcu_updater/config.py:85-94 | a patch with clean parts and no arrow in its file name is parsed back from what it is rendered as |
| RegistryReads.PatchIff | src/mcu_updater/config.py:85-91 | a line is a patch exactly when there is a file before its first arrow and a line after it, both stripped |
| RegistryOps.SaveOpsClean | src/mcu_updater/config.py:411-470 | the keys a save writes for a type never collide, whatever the families are called |
| RegistryType.FamilyLoaded | src/mcu_updater/config.py:347-361 | a declared family loads its arguments, its repositories, and its patches as often over as it is declared |
| RegistryType.TypeBackIff | src/mcu_updater/config.py:338-470 | a type loaded from the section it was saved to is the same for everyone who asks, families repeated or not, exactly when nothing that a load takes is left under a removed key and no family with patches is declared twice |
| Registry.LoadTypes | src/mcu_updater/config.py:316-363 | the walk over the type sections in file order - refusing a file that is not valid, skipping other builders' types - loads what LoadRegistry says |
| RegistryReads.RefusedIff | src/mcu_updater/typelist.py:285-317 | a type is refused exactly for a key that went away, no family, an undeclared family, or families built by two tools |
| RegistryReads.LoadsIff | src/mcu_updater/config.py:316-363 | a file loads exactly when no section repeats, none of its types is refused, and the patches of this registry's types parse |
| RegistryReads.TwoTools | src/mcu_updater/typelist.py:303-317 | a type with families of two builders raises |
| RegistryReads.TypeNameIff | src/mcu_updater/sections.py:45-53 | a section declares a type exactly when it is "type ", and a name once stripped |
| RegistryReads.FileLoads | src/mcu_updater/config.py:316-363 | a file with every key loads as that type, as nothing when another tool builds its family, and raises when its family is not declared |
| Registry.ReadFws | src/mcu_updater/config.py:347-361 | the loop over a type's families and their patches |
| RegistryBack.TypeLoaded | src/mcu_updater/config.py:316-363 | a type is loaded exactly when one of its sections is this registry's, and then from the last of them |
| RegistryTrip.SectionByOrder | src/mcu_updater/sections.py:45-61 | the section a type is written to is the first that declares it, by the order of the headers |
| RegistryTrip.EditsNames | src/mcu_updater/config.py:411-470 | a save keeps every section in its order; new ones follow, in the order of the types |
| RegistryBack.RoundTripIff | src/mcu_updater/config.py:316-483 | loading the saved file gives a held type back, the same, exactly when no later section declares it again and it comes back from its own - or when the later section already said the same |
| RegistryBack.OthersBack | src/mcu_updater/config.py:316-483 | every type the registry does not hold is loaded exactly when it was, and reads as it did |
| RegistryBack.NamesBack | src/mcu_updater/config.py:316-483 | what is loaded is exactly what was held, when everything in the file was |
| RegistryBack.SavedLoads | src/mcu_updater/config.py:316-483 | the saved file loads at all exactly when each held type's families are declared and of one builder and what is left under its removed patch lists parses |
| RegistryWitness.EditLost | src/mcu_updater/config.py:316-425 | with `[type a]` and `[type  a]`, a save goes to the first and a load to the second: the edit is lost |
| RegistryWitness.PatchesDoubled | src/mcu_updater/config.py:347-361 | a type that declares a family with patches twice does not come back the same |
| RegistryCycles.CyclesMultiply | src/mcu_updater/config.py:316-483 | after n cycles of saving and loading, with no key of its section repeated, a family declared m times has its patches m^n times over, and everything else it declares is as it was |
| RegistryWitness.DoubledEachTime | src/mcu_updater/config.py:347-361 | one patch of a family declared twice is 2^n patches after n cycles |
| RegistryWitness.StopListStays | src/mcu_updater/config.py:434-437 | an unset stop list comes back from a second line of its key |
| Registry.SectionFor | src/mcu_updater/sections.py:56-61 | the first section in the file that declares the type, or a new header when none does |
| Registry.TypeRegistry.SectionOfType | src/mcu_updater/sections.py:45-61 | the search over the sections finds that header |
| Registry.TypeRegistry.SaveType | src/mcu_updater/config.py:411-470 | the loop writes and removes a type's keys in that order, in that section |
| Registry.TypeRegistry.Save | src/mcu_updater/config.py:411-470 | the loop over the types leaves the document the round trip is about |
| Registry.TypeRegistry.AddSerial | src/mcu_updater/config.py:763-769 | adds the serial at the end of its type unless it is there; no other type changes; an unknown type changes nothing |
| Registry.TypeRegistry.RemoveSerial | src/mcu_updater/config.py:782-788 | removes the first such serial of its type; no other type changes |
| Settings.IntReads | src/mcu_updater/settings.py:219-220 | a written number is read back as that number, negative or not |
| Settings.LoadSettings | src/mcu_updater/settings.py:186-249 | the loop over the options in file order, dashed spellings and all, the last one of a field counting, loads what Load says; which words and numbers count is SettingsReads |
| SettingsReads.BoolWords | src/mcu_updater/cfgdoc.py:44-70 | true, yes, on and 1 turn a setting on, false, no, off and 0 turn it off, in letters of any size with white space around; any other text is neither |
| SettingsReads.Padded | src/mcu_updater/cfgdoc.py:66 | white space around a text goes and none of the text does |
| SettingsReads.IntWords | src/mcu_updater/settings.py:219-220 | a number is digits with a sign in front or none, and is negative under a minus; any other text raises |
| SettingsReads.FirstDigit | src/mcu_updater/settings.py:219-220 | a digit counts for as many tens as digits follow it |
| SettingsReads.OneLineLoads | src/mcu_updater/settings.py:186-249 | a file of one option sets that field as its kind reads, raises when it does not parse, and leaves every other field at its default |
| SettingsReads.WordsLoad | src/mcu_updater/settings.py:212-217 | a dry run is on with yes, rebuilding off with Off, and maybe raises |
| SettingsReads.NumbersLoad | src/mcu_updater/settings.py:219-220 | +12 and -1 are read, 1.5 raises |
| SettingsReads.DefaultsLoad | src/mcu_updater/settings.py:40-120 | an empty file loads as the defaults |
| SettingsReads.LegacyLoads | src/mcu_updater/settings.py:236-239 | the retired key is the stop list of a file that has none |
| SettingsReads.HashesGone | src/mcu_updater/settings.py:303 | a colour is written without the marks in front of it, however many |
| SettingsTrip.GatherTells | src/mcu_updater/settings.py:209-235 | the load raises exactly when some known spelling does not parse; else a field is what its last spelling reads as |
| SettingsTrip.RoundTripIff | src/mcu_updater/settings.py:186-320 | loading what the settings writer wrote gives the settings back, the colour with one mark in front, exactly when every dashed spelling parses, none of a field follows the field's own key with something else, and for an unset stop list nothing left gives one |
| SettingsTrip.OthersStay | src/mcu_updater/settings.py:284-320 | every other key of the section and every other section keeps all its values |
| SettingsWitness.DashedStopComesBack | src/mcu_updater/settings.py:199-229 | `stop-services: klipper` alone: an unset stop list does not come back unset |
| SettingsWitness.DashedRunWins | src/mcu_updater/settings.py:199-229 | `dry_run: false` then `dry-run: true`: a dry run that was turned off is on again |
| SettingsWitness.RepeatedStopComesBack | src/mcu_updater/settings.py:309-312 | a second `stop_services` line comes to life |
| Settings.WriteSettings | src/mcu_updater/settings.py:284-320 | the field-by-field edit leaves the document that round trip is about |
| Snapshot.HitIsBacked | src/mcu_updater/cfgsnapshot.py:86-92 | a lookup that matches gives bytes the file really held: those of the fstat once its mtime is outside the window, else those of a later moment |
| Snapshot.TrustedIsWhole | src/mcu_updater/cfgsnapshot.py:93-98 | a read that is trusted read one state of the file, not parts of several |
| Snapshot.StepKeeps | src/mcu_updater/cfgsnapshot.py:65-118 | every step of every reader, writer and clearer keeps the cache truthful |
| Snapshot.HitsAreTrue | src/mcu_updater/cfgsnapshot.py:65-102 | no stale hit in any interleaving of readers, in-place writes, replaces and invalidations, given a non-decreasing clock and writes that stamp mtime within the window or bring a new ctime |
| Snapshot.CacheIsTrue | src/mcu_updater/cfgsnapshot.py:93-102 | no torn read is ever cached: an entry is the whole text of the file at some moment, and of every moment outside the window that has its key |
| Snapshot.MissCaches | src/mcu_updater/cfgsnapshot.py:93-102 | an undisturbed miss caches exactly the file's text, and only when its mtime is outside the window |
| Snapshot.SlowReader | src/mcu_updater/cfgsnapshot.py:86-92 | with the mtime still inside the window at the fstat the promise fails: any same-size rewrite can be handed to the reader that was held up |
| Snapshot.Shared.Read | src/mcu_updater/cfgsnapshot.py:65-102 | the call's steps with anything let in between them keep the cache truthful; alone it returns the file's text, from the cache or not |
| Snapshot.Shared.ReadText | src/mcu_updater/cfgsnapshot.py:93-102 | the rest of a call that missed: reading in pieces, the second fstat and the store |
| Uf2.DecodeStops | src/mcu_updater/uf2.py:85-107 | an unreadable block is reported at its own place, whatever follows it |
| Uf2.ReadBlocks | src/mcu_updater/uf2.py:85-107 | the loop decodes the container block by block, or names the first bad block's offset |
| Uf2.PackedDecodes | src/mcu_updater/uf2_erase.py:97-112 | any list of blocks packed under the container's layout decodes to the same blocks, numbered 0..n-1 each with count n |
| Uf2.BlockLaid | src/mcu_updater/uf2.py:85-107 | one block, byte by byte: what its header says |
| Uf2Image.ExtractImage | src/mcu_updater/uf2.py:110-137 | succeeds exactly when every address asked for is supplied by a main-flash block, each byte being the last such block's in file order; otherwise names the first gap |
| Uf2Image.ImageExtent | src/mcu_updater/uf2.py:140-157 | the smallest interval that holds every non-empty main-flash payload |
| Uf2Image.ExtentHolds | src/mcu_updater/uf2.py:140-157 | the container puts no byte outside its extent and one at either end of it |
| Uf2Image.LinkedLength | src/mcu_updater/uf2.py:167-191 | a length taken from a .bin is one over which the container's bytes equal that .bin, and is taken whenever they do |
| Uf2Erase.SortedSorts | src/mcu_updater/uf2_erase.py:95-96 | sorting keeps every block and puts them in target order |
| Uf2Erase.SortedOver | src/mcu_updater/uf2_erase.py:95-96 | sorting by target makes the highest-placed block over an address the one that counts |
| Uf2Erase.WithErasedSector | src/mcu_updater/uf2_erase.py:66-131 | the method's checks and loop: refusals, or the packed container |
| Uf2Erase.ErasedIff | src/mcu_updater/uf2_erase.py:66-110 | a rewrite goes through exactly at a sector start, on a container that decodes and writes flash, outside the sector, when addresses and count fit their words |
| Uf2Erase.FirstMainLeads | src/mcu_updater/uf2_erase.py:93-94 | the pages take flags and family of the first main-flash block |
| Uf2Erase.FirstHitLeads | src/mcu_updater/uf2_erase.py:85-91 | of the blocks that reach into the sector the first is reported |
| Uf2Erase.ErasedDecodes | src/mcu_updater/uf2_erase.py:66-131 | the output decodes to the original blocks plus the sixteen 0xff pages, in target order, numbered 0..n-1 each with count n |
| Uf2Erase.ErasedMeaning | src/mcu_updater/uf2_erase.py:66-131 | for every address and any original: 0xff on the sector, elsewhere the highest-placed original block's byte, and nothing where there was none |
| Uf2Erase.ErasedKeeps | src/mcu_updater/uf2_erase.py:66-131 | where no main-flash block starts inside a later one, every image the original gave is still given and only the sector's addresses differ |
| Uf2Erase.ErasedKeepsIff | src/mcu_updater/uf2_erase.py:66-131 | for any container: nothing changes outside the sector exactly when, at every address, the highest-placed block over it and the last one agree |
| Uf2Erase.NonOverlappingInOrder | src/mcu_updater/uf2_erase.py:95-96 | non-overlapping main-flash blocks meet that condition |
| Uf2Erase.ReversedPair | src/mcu_updater/uf2_erase.py:95-96 | two overlapping blocks in descending order keep their meaning at an address exactly when they agree there |
| Services.Host.FindActive | src/mcu_updater/service.py:376-376 | each controller is probed once, in order; those that answered active are the ones to stop |
| Services.Host.AwaitDown | src/mcu_updater/service.py:397-413 | polls until one answer is inactive or a poll raises; gives up only after every answer was active |
| Services.Host.RestartAll | src/mcu_updater/service.py:384-393 | starts in reverse order up to the first start that raises, which leaves its unit down, then clears the journal whatever happened; the whole trace, as the host answers at those moments |
| Services.RestartSafeIff | src/mcu_updater/service.py:384-393 | restarting exactly what is down is safe when, and only when, no start raises at its moment |
| Services.OneUnitLost | src/mcu_updater/service.py:384-393 | one unit down and its start raises: it stays down and no entry names it |
| Services.Host.StopEach | src/mcu_updater/service.py:395-414 | stops in order, each seen down before the next; ends at the first whose stop or poll raises, or that stays up |
| Services.Host.Enter | src/mcu_updater/service.py:375-414 | records before the first stop; when a stop never verifies everything is restarted; once inside, every unit was seen down |
| Services.Host.ServicesStopped | src/mcu_updater/service.py:346-419 | whatever the body does, each unit active at entry gets one start, in reverse order and after everything else, up to the first that raises; the journal names every unit that is down at every step exactly when it did at entry and every unit down at entry or stopped here has a start here that went through |
| Services.Host.Reconcile | src/mcu_updater/service.py:261-297 | of the units the journal names, in reverse, each is asked, left when active and otherwise started, then the journal is cleared: the trace is exactly that, its starts are exactly the units that answered inactive, a raising start keeps the journal, and the journal is truthful at every step |
| Services.Host.PutRight | src/mcu_updater/service.py:292-295 | one unit is asked, and started exactly when it is not active |
| Services.Host.Life | src/mcu_updater/service.py:261-419 | over any number of processes, each killed after any of its steps, also during reconcile: at every step the journal names every unit that is down |
| Services.InnerCallErases | src/mcu_updater/service.py:389-393 | a nested call that finds nothing to stop clears the outer entry: that is safe exactly when nothing is down |
| Services.OverwritingLoses | src/mcu_updater/service.py:217-230 | a call begun while an older entry is pending is safe exactly when the new entry names everything that is down |
| Services.EachSeen | src/mcu_updater/service.py:376-414 | every unit asked for was seen inactive since the call began: on entry, or after its stop |
| Batch.GroupByStop | src/mcu_updater/flashers/registry.py:69-84 | splits a batch by requirement, each half in the batch's order |
| Batch.StoppedIff | src/mcu_updater/flashers/registry.py:62-66 | a target needs the stop exactly when it says so, or says nothing and its flasher does |
| Batch.Union | src/mcu_updater/flashers/registry.py:87-101 | the union has every unit of the group and no other, once each |
| Batch.StopServicesUnion | src/mcu_updater/flashers/registry.py:87-101 | the loop builds that union in first-seen order |
| Batch.FlasherOrder | src/mcu_updater/flashers/registry.py:104-119 | the flashers of a group, once each, in first-seen order |
| Batch.ByFlasher | src/mcu_updater/flashers/registry.py:104-119 | the loop gives each flasher exactly its own targets, in order |
| Batch.GroupOrderPermutes | src/mcu_updater/flashers/batch.py:108-166 | a group's writes are its targets, each as often as the group has it |
| Batch.OrderOnce | src/mcu_updater/flashers/batch.py:168-177 | the batch's order has every target exactly once, free targets first |
| Batch.PickKeepsOrder | src/mcu_updater/flashers/registry.py:69-119 | within a stop group and a flasher's share the targets keep the batch's order |
| Batch.WrittenOnce | src/mcu_updater/flashers/batch.py:108-166 | one write for each target in the order, and a ledger record for exactly the writes that returned and had one to file |
| Batch.FiledAtOnce | src/mcu_updater/flashers/batch.py:136-166 | a record is filed right after its own write and right before that target's settled, so before any other write |
| Batch.ReportedOnce | src/mcu_updater/flashers/batch.py:123-166 | a target is in flashed when its write went through and in failures otherwise, once, whatever recording and settling did |
| Batch.KillKeepsInside | src/mcu_updater/flashers/batch.py:168-177 | a batch cut at any point still has every write inside its outage |
| Batch.TurnCases | src/mcu_updater/flashers/batch.py:118-166 | a cancel ends the batch, and so does an error that is not the tool's own wherever in the turn it comes from; a failed write and a record that cannot be kept do not, and a dry run records nothing |
| Batch.Batch.WriteTarget | src/mcu_updater/flashers/batch.py:118-166 | one target's turn: cancelled only before the write, its events in order, its outcome reported, fatal exactly for a cancel or an error that is no ordinary failure |
| Batch.Batch.WriteGroup | src/mcu_updater/flashers/batch.py:108-166 | a group's turns, flasher by flasher, or a first part of them when one is fatal |
| Batch.Batch.WriteAll | src/mcu_updater/flashers/batch.py:59-187 | the batch: refused entries first, every target written once and reported once; every write that needs a stop after each of its units was seen down and before any start, every other before any stop; the journal truthful throughout; cut short, a first part of the same work |
| Crc8.Compute | scripts/roadrunner_usb.py:28-34 | the nested loops compute the CRC fold |
| Crc8.CrcLinear | scripts/roadrunner_usb.py:28-34 | the CRC of a corrupted message is the message's xor the error's |
| Crc8.ShiftsInjective | scripts/roadrunner_usb.py:28-34 | no non-zero register value is shifted to zero |
| Crc8.BurstDetected | scripts/roadrunner_usb.py:28-34 | no non-zero burst of at most eight consecutive bits, at any place in a message of any length, has CRC zero |
| Crc8.CheckValue | scripts/roadrunner_usb.py:28-34 | the CRC of the text 123456789 is 0xf4 |
| Roadrunner.FrameTells | scripts/roadrunner_usb.py:37-41 | a framed request has CRC zero, and two different requests are framed differently |
| Roadrunner.ReadResponse | scripts/roadrunner_usb.py:44-58 | reads the header, then as many bytes as it says, and returns status and payload or the reason it refuses |
| Roadrunner.ResponseIff | scripts/roadrunner_usb.py:44-58 | a stream is accepted as status and payload exactly when it starts with the reply that frames them |
| Roadrunner.CorruptedReplyRefused | scripts/roadrunner_usb.py:44-58 | a valid reply hit by any such burst outside its header makes read_response raise |
| Roadrunner.InfoExchange | scripts/roadrunner_usb.py:37-58 | the INFO request and an empty reply to it, byte by byte |
| Roadrunner.TakeField | scripts/roadrunner_usb.py:68-75 | a length-prefixed field is taken whole, and what follows is left |
| Roadrunner.DigestRoundTrip | scripts/roadrunner_usb.py:87-121 | a digest written low byte first in up to four bytes, and its range in four each, come back as those numbers, for every value that fits |
| Roadrunner.InfoRoundTrip | scripts/roadrunner_usb.py:124-154 | an info reply built from its fields and numbers is parsed back into them, with or without the optional tail |
| Roadrunner.InfoIsSent | scripts/roadrunner_usb.py:68-154 | every payload that parses is one a board can send of what it parses to, and a tail |
| Roadrunner.NumberReads | scripts/roadrunner_usb.py:112-121 | a number split into bytes by division by 256 is read back, for every number that fits them |
| Roadrunner.FourBytes | scripts/roadrunner_usb.py:112-121 | four bytes a, b, c, d are a + 0x100 b + 0x10000 c + 0x1000000 d |
| Roadrunner.AsciiIff | scripts/roadrunner_usb.py:136-141 | a text field is accepted exactly when each of its bytes has seven bits |
| Roadrunner.PayloadLaid | scripts/roadrunner_usb.py:87-154 | one whole payload, byte by byte |
| Rpc.Buffer.Unframe | src/mcu_updater/agent/rpc.py:62-76 | takes every complete non-blank message out of the buffer and leaves the bytes after the last ETX |
| Rpc.BlankIff | src/mcu_updater/agent/rpc.py:62-76 | a message is blank exactly when its bytes are the six ASCII whitespace ones |
| Rpc.SplitAt | src/mcu_updater/agent/rpc.py:62-76 | the messages of two pieces are those of the first, then those of what it left joined with the second |
| Rpc.ChunkIndependent | src/mcu_updater/agent/rpc.py:223-242 | however a stream is cut into reads, they yield the messages of the whole stream and leave the bytes after its last ETX |
| Rpc.ReadLoop | src/mcu_updater/agent/rpc.py:223-242 | the loop hands over those messages, up to the read that says the peer closed |
| Rpc.FramedComeBack | src/mcu_updater/agent/rpc.py:57-76 | ETX-free messages framed and concatenated come back in order, blank ones dropped |
| Rpc.AllComeBack | src/mcu_updater/agent/rpc.py:57-76 | so messages that are not blank all come back |
| Rpc.TailHasNoEtx | src/mcu_updater/agent/rpc.py:62-76 | what is left has no ETX and no complete message, and follows the stream's last ETX |
| Lock.StepKeeps | src/mcu_updater/lock.py:37-192 | every step of any acquirer, prober or killed holder keeps the lock with one handle and the record its own while it holds |
| Lock.RecordIsHolders | src/mcu_updater/lock.py:151-192 | from the end of acquire to the start of release the record on disk is the holder's own, and no other handle owns the lock |
| Lock.InsideNames | src/mcu_updater/lock.py:106-129 | a holder() call inside a hold names that holder, whatever else goes on |
| Lock.AloneNobody | src/mcu_updater/lock.py:37-129 | a holder() call during which nobody else owns the lock answers nobody and leaves no record, also after a killed holder |
| Lock.LockFile.Acquire | src/mcu_updater/lock.py:151-177 | with anything in between its steps, it ends holding with its own record, or busy; alone it gets a free lock and is told who holds one that is not |
| Lock.LockFile.Release | src/mcu_updater/lock.py:179-192 | clears the record, then lets the lock go |
| Lock.LockFile.Holder | src/mcu_updater/lock.py:106-129 | reads the record, probes, and clears a phantom only when the probe got the lock |
| Updates.StepKeeps | src/mcu_updater/config.py:367-395 | every step of every writer and every user of the lock keeps the file equal to the completed edits replayed |
| Updates.ReplaceKeeps | src/mcu_updater/config.py:478-483 | the replace completes exactly one edit, computed from the text as it then is |
| Updates.HolderOwnsFile | src/mcu_updater/config.py:389-395 | while one process holds the lock no step of another changes the config or its temporary file |
| Updates.NoLostUpdate | src/mcu_updater/config.py:389-483 | after any interleaving of registry edits, settings edits and seeding with kills anywhere, the text is the first one with the completed edits applied whole, one after another, in lock order; an edit that raised, was refused, was killed first or had nothing to change is not among them |
| Updates.ConfigFile.Mutate | src/mcu_updater/settings.py:250-281 | one process's edit under the lock, with anything in between its steps, leaves exactly what its job makes of the text it found, or that text |
| Updates.ConfigFile.Write | src/mcu_updater/seed.py:76-121 | the temporary file, written in pieces, then moved into place |
| LogStream.Job.Append | src/mcu_updater/jobs.py:92-99 | numbers the line and keeps exactly the newest lines in the ring, for any ring size |
| LogStream.Job.LogSince | src/mcu_updater/jobs.py:106-122 | returns exactly the held lines from the asked number on, where they start, and the next number |
| LogStream.LogBatcher.Add | src/mcu_updater/agent/events.py:102-118 | the line, cut if long, joins its own job's batch; a batch of another job, a full one or a heavy one is flushed |
| LogStream.LogBatcher.Flush | src/mcu_updater/agent/events.py:120-122 | nothing waits any more, and nothing is lost or repeated |
| LogStream.LogBatcher.FlushLocked | src/mcu_updater/agent/events.py:124-139 | emits what waits as one batch, or nothing when nothing waits |
| LogStream.PendingNext | src/mcu_updater/agent/events.py:111-118 | a batch never has more than 40 lines nor more than 32767 + 8231 counted characters |
| LogStream.BatchFirst | src/mcu_updater/agent/events.py:124-139 | a batch's number is how many of its job's lines went out before it, so with its length it gives the next one's |
| LogStream.GapSeen | src/mcu_updater/agent/events.py:127-133 | a client finds the number it expects exactly when it missed no batch of that job |
| LogStream.Work | src/mcu_updater/agent/events.py:102-139 | one job's appends with the timer anywhere among them, also between a line's numbering and its handing over: the ring has them numbered, the stream has them cut, in order |
| LogStream.Serve | src/mcu_updater/agent/events.py:102-139 | over any number of jobs the emitted batches carry every line once, in order |
| Patches.SourceTree.MakefilePatches | src/mcu_updater/build.py:290-349 | the patch loop, stopped by any fault, the build, and the restore loop leave the files the lemmas below are about |
| Patches.PatchedLines | src/mcu_updater/build.py:332-335 | a patched file has the lines it had and the patch's after them, with an empty line before it in an empty file |
| Patches.ContainsIff | src/mcu_updater/build.py:320 | a line is there already exactly when the text is something, the line, and something |
| Patches.HalfPatchSkipped | src/mcu_updater/build.py:306 | a patch that lacks its file or its line is passed over |
| Patches.DryRunTouchesNothing | src/mcu_updater/build.py:313-315 | a dry run touches nothing, whatever fails |
| Patches.PatchedGrows | src/mcu_updater/build.py:304-335 | each backup of a file is what it had grown to, from its bytes at entry on |
| Patches.LastSaveWins | src/mcu_updater/build.py:338-349 | restoring first to last leaves a file's last backup, and an unsaved file as it was |
| Patches.SavesAre | src/mcu_updater/build.py:304-335 | the call saves a file once for every line it gets to that is missing by then, and leaves it grown by exactly those lines |
| Patches.OneMissingIff | src/mcu_updater/build.py:304-335 | one line is missing in that way exactly when, with the first missing one appended, none of the later ones is |
| Patches.RestoredIff | src/mcu_updater/build.py:304-349 | whatever failed and whatever the build did, a file that missed a line the call got to ends with its entry bytes exactly when one append made up for all that were missing |
| Patches.RestoredWithoutFaults | src/mcu_updater/build.py:304-349 | without faults that is a condition on the file's text and the patches alone |
| Patches.SecondAppendStays | src/mcu_updater/build.py:304-349 | two lines for one empty file: the first is still there at the end |
| Patches.DistinctOnce | src/mcu_updater/build.py:304-335 | patches on pairwise distinct files come to at most one line each |
| Patches.AllRestored | src/mcu_updater/build.py:304-349 | so every file such a call appended to has its entry bytes again |
| Patches.PresentLeftAlone | src/mcu_updater/build.py:307-349 | a file that has the line of every valid patch on it is not saved or written by the whole call, whatever fails, and ends as the build left it |
| ProfileHeader.ReadHeader | src/mcu_updater/profiles.py:298-321 | the loop reads the header's tags up to the first answer line |
| ProfileHeader.TagReads | src/mcu_updater/profiles.py:311-317 | a tagged line gives its value back |
| ProfileHeader.CapturedReads | src/mcu_updater/profiles.py:298-388 | a capture's header reads back as its parent and baseline, but for one stray entry exactly when the type's name starts with "base:" |
| ProfileHeader.StrayRead | src/mcu_updater/profiles.py:298-388 | for a type "base:x" that entry is the rest of the title |
| ProfileHeader.CapturedAnswers | src/mcu_updater/profiles.py:757-771 | the answers of a captured file are the ones it was given; its header has none |
| ProfileHeader.FileReads | src/mcu_updater/profiles.py:298-388 | written to a file and read back, a capture has its parent, baseline, answers and so its overrides |
| ProfileHeader.OverridesTell | src/mcu_updater/profiles.py:829-858 | the overrides are the whole difference: the baseline with them applied is the answers, and none is a change to the same value |
| ProfileAnswers.AnswerReads | src/mcu_updater/profiles.py:741-754 | a line that strips to CONFIG_, a symbol without a separator, = and a value answers that symbol with that value, both stripped |
| ProfileAnswers.NoReads | src/mcu_updater/profiles.py:741-754 | a line that strips to the form saying not set answers its symbol with n |
| ProfileAnswers.OtherIsNone | src/mcu_updater/profiles.py:741-754 | a line is no answer exactly when it has neither form |
| ProfileAnswers.LineReadsIff | src/mcu_updater/profiles.py:741-826 | an answer's own line reads as that answer exactly when both are trimmed and the symbol has no =, which an answer n may have |
| ProfileAnswers.UnansweredIsNone | src/mcu_updater/profiles.py:821-826 | the line of a symbol with no answer is no answer |
| ProfileAnswers.OverridesWritten | src/mcu_updater/profiles.py:829-858 | between two lists of answers as written, a symbol is an override exactly when its last values differ, and with both those values |
| ProfileAnswers.TakenBack | src/mcu_updater/profiles.py:741-858 | y in the baseline and not set in the answers is the override from y to n |
| Profiles.StepSpares | src/mcu_updater/profiles.py:1165-1205 | no step the user did not ask for replaces a config that is theirs, or makes it pass for the tool's |
| Profiles.AnswersSurvive | src/mcu_updater/profiles.py:488-681 | over any run of unforced seeding, deriving and reseeding, captures, vendor changes and forgetting, a config with no record or unlike its record stays as the user wrote it |
| Profiles.CaptureReads | src/mcu_updater/profiles.py:324-424 | a capture's file reads back as the fork point computed for it and the answers taken |
| Profiles.ForkIsClean | src/mcu_updater/profiles.py:391-424 | a fork point is never the type's own profile |
| Profiles.ParentNeverCustom | src/mcu_updater/profiles.py:391-424 | in every run no capture says it came from the type's own profile |
| Profiles.RecaptureKeeps | src/mcu_updater/profiles.py:391-424 | capturing again with no new parent keeps the original parent and baseline, through the written header |
| Profiles.FirstCapture | src/mcu_updater/profiles.py:391-424 | a first capture takes its parent and baseline from the record |
| Profiles.ForcedKeptIff | src/mcu_updater/profiles.py:488-560 | a forced vendor seed keeps the answers it replaces as the type's own profile exactly when the config had a record; the `.bak` of the replaced file is outside the model |
| Profiles.UnforcedSeedIff | src/mcu_updater/profiles.py:488-541 | seeding over a config, unforced, raises exactly without such a profile, when it does not load, or when the config is the user's; raising changes nothing |
| Profiles.UnforcedDeriveIff | src/mcu_updater/profiles.py:563-636 | deriving, unforced, raises exactly when the application has no config, the one there is the user's, the tree fails or the addresses differ |
| Profiles.DeletedConfigSticks | src/mcu_updater/profiles.py:488-560 | with no config there, seeding raises exactly when the profile is missing, its text cannot be written, or - for a vendor's profile - a record of a config is left; raising changes nothing |
| Profiles.SeedThenVendor | src/mcu_updater/profiles.py:1093-1137 | after a recorded seed the status matches, and says moved exactly when the vendor then ships another text under that name |
| Profiles.ReseedSettles | src/mcu_updater/profiles.py:639-681 | an unforced reseed of a moved vendor seed goes through, takes the vendor's text and settles the status |
| Profiles.RederiveSettles | src/mcu_updater/profiles.py:639-681 | re-deriving a moved derived config raises exactly when the application's config is missing, the addresses disagree or the text cannot be written, changing nothing; otherwise it settles the status, unless it was derived from itself |
| Profiles.Store.CaptureCustom | src/mcu_updater/profiles.py:324-388 | changes the type's own profile file and nothing else, or raises and changes nothing |
| Profiles.CaptureIff | src/mcu_updater/profiles.py:324-388 | a capture goes through exactly when its file can be written and there are answers: given ones, or what the tree makes of a config that is there |
| Profiles.Store.ApplySeed | src/mcu_updater/profiles.py:488-541 | refuses, keeps, writes the config and records, in that order; raising leaves what was done so far |
| Profiles.Store.DeriveBootloader | src/mcu_updater/profiles.py:563-636 | writes the bootloader's config and record only when the application's config is there, it may, and the addresses agree |
| Profiles.Store.ReseedIfMoved | src/mcu_updater/profiles.py:639-681 | acts only on a moved seed, re-deriving a derived config and reseeding any other, never with force |

## Left out

- Whitespace is space and tab and a line break is a newline; other Unicode spaces and breaks are not modelled.
- `remove_section`, and comments above a removed section or in an emptied list, which the code drops.
- The Section and Option objects of the source are values in the document's maps: the dead copies of a repeated key or section, which nothing can reach, are not kept.
- Numbers with underscores or non-ASCII digits in them, which Python's int() takes.
- The `[firmware ...]` sections: what they declare, each family's builder, is given to a load, and a save does not touch them. Their own validation, and `add_type`, are left out; a save that validation refuses writes nothing, which Updates.NoLostUpdate covers as an edit that raises.
- A text stands for its parse in the snapshot cache, one path is cached, and the locks around single dictionary operations are the steps themselves.
- Controllers answer and raise as any function of the moment they are asked; log lines, waiting times and the label and time in the journal are not modelled, nor is the older journal shape with a single service, nor a probe that raises on entry, before anything is recorded or stopped. A start that returns counts as having gone through: the systemd controller only warns when systemctl fails (service.py:76-79).
- Batch.Batch.WriteAll: leaves out the readiness check after the outage, progress reporting and what a flasher's session holds; a write's extra fields and confidence are opaque.
- flock is taken to be exclusive and released by a kill; Windows, where there is no flock, is not modelled, nor are failing truncations.
- Updates.NoLostUpdate: an editor outside the tool that ignores the lock is not among the processes, because nothing can protect the file from it.
- Whether an emitted batch reaches a client: the emitter may drop it, which LogStream.GapSeen shows a client can tell.
- SHA-256 and CRC-32 are taken to tell texts apart, and JSON to be ETX-free bytes; what Kconfig makes of an answer file is given with each step.
- Seeding's steps on disk are each atomic: the moment between moving the old config aside and the new one into place is not modelled, nor is the `.bak` it is moved to.
- Paths stand for files: two spellings of one Makefile path, or a link, are different files here, and restore writes are taken to succeed.
- Subprocesses, make, git, dfu-util, flashtool, PlatformIO, hardware discovery, the CLI, the TUI, the web UI and the agent's method table: outside behaviour or plumbing.
- Cancellation targeting in the job runner, the state emitter and the bus watcher, profile listing and `distinguishing`.
