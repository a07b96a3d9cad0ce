// Lines appended to source-tree Makefiles for one build, and the files put back after it.

module Patches {
  import opened Text

  // A file's bytes, as text.
  type Tree = map<string, string>

  datatype Patch = Patch(file: string, line: string) {
    predicate IsValid() { file != "" && line != "" }
  }

  // How touching one target goes: fine, no read, or an append cut off after some bytes.
  datatype Fault = Fine | NoRead | Stops(after: nat)

  // None for a file that had its line already.
  datatype Backup = Backup(file: string, saved: Option<string>)

  datatype State = State(files: Tree, backups: seq<Backup>, raised: bool)

  predicate StandsAt(text: string, line: string, i: nat) {
    i + |line| <= |text| && text[i..i + |line|] == line
  }

  predicate Contains(text: string, line: string) {
    exists i | 0 <= i <= |text| :: StandsAt(text, line, i)
  }

  // What is appended: the line on a line of its own.
  function Appended(original: string, line: string): (r: string)
    ensures |r| > |line|
  {
    (if original == "" || original[|original| - 1] != '\n' then "\n" else "") + line + "\n"
  }

  function Written(original: string, line: string, fault: Fault): string {
    var all := Appended(original, line);
    if fault.Stops? && fault.after < |all| then original + all[..fault.after] else original + all
  }

  // One patch, unless an earlier one raised.
  function PatchOne(s: State, p: Patch, dryRun: bool, fault: Fault): State {
    if s.raised || !p.IsValid() || p.file !in s.files || dryRun then s
    else if fault.NoRead? then s.(raised := true)
    else
      var original := s.files[p.file];
      if Contains(original, p.line) then s.(backups := s.backups + [Backup(p.file, None)])
      else State(s.files[p.file := Written(original, p.line, fault)], s.backups + [Backup(p.file, Some(original))],
        fault.Stops?)
  }

  function PatchAll(tree: Tree, patches: seq<Patch>, dryRun: bool, faults: nat -> Fault): State {
    if patches == [] then State(tree, [], false)
    else
      var n := |patches| - 1;
      PatchOne(PatchAll(tree, patches[..n], dryRun, faults), patches[n], dryRun, faults(n))
  }

  // The backups written back, first to last.
  function PutBack(tree: Tree, backups: seq<Backup>): Tree {
    if backups == [] then tree
    else
      var before, last := PutBack(tree, backups[..|backups| - 1]), backups[|backups| - 1];
      if last.saved.Some? then before[last.file := last.saved.value] else before
  }

  class SourceTree {
    var files: Tree

    constructor (files: Tree)
      ensures this.files == files
    {
      this.files := files;
    }

    // What goes on inside: the build may do anything to the files, and may raise.
    method Build(body: Tree -> Tree)
      modifies this
      ensures files == body(old(files))
    {
      files := body(files);
    }

    method MakefilePatches(patches: seq<Patch>, dryRun: bool, faults: nat -> Fault, body: Tree -> Tree)
      returns (backups: seq<Backup>, raised: bool)
      modifies this
      ensures var s := PatchAll(old(files), patches, dryRun, faults);
              && backups == s.backups && raised == s.raised
              && files == PutBack(if raised then s.files else body(s.files), backups)
    {
      backups, raised := [], false;
      var i := 0;
      while i < |patches| && !raised
        invariant 0 <= i <= |patches|
        invariant State(files, backups, raised) == PatchAll(old(files), patches[..i], dryRun, faults)
      {
        assert patches[..i + 1][..i] == patches[..i];
        var p := patches[i];
        var fault := faults(i);
        i := i + 1;
        if !p.IsValid() || p.file !in files || dryRun {
          continue;
        }
        if fault.NoRead? {
          raised := true;
          continue;
        }
        var original := files[p.file];
        if Contains(original, p.line) {
          backups := backups + [Backup(p.file, None)];
          continue;
        }
        backups := backups + [Backup(p.file, Some(original))];
        files := files[p.file := Written(original, p.line, fault)];
        raised := fault.Stops?;
      }
      RaisedStays(old(files), patches, i, dryRun, faults);
      assert patches[..|patches|] == patches;
      if !raised {
        Build(body);
      }
      ghost var left := files;
      for k := 0 to |backups|
        invariant files == PutBack(left, backups[..k])
      {
        assert backups[..k + 1][..k] == backups[..k];
        if backups[k].saved.Some? {
          files := files[backups[k].file := backups[k].saved.value];
        }
      }
      assert backups[..|backups|] == backups;
    }
  }

  lemma {:induction false} RaisedStays(tree: Tree, patches: seq<Patch>, k: nat, dryRun: bool, faults: nat -> Fault)
    requires k <= |patches| && (k == |patches| || PatchAll(tree, patches[..k], dryRun, faults).raised)
    ensures PatchAll(tree, patches, dryRun, faults) == PatchAll(tree, patches[..k], dryRun, faults)
  {
    if k < |patches| {
      var n := |patches| - 1;
      assert patches[..n][..k] == patches[..k];
      RaisedStays(tree, patches[..n], k, dryRun, faults);
    } else {
      assert patches[..k] == patches;
    }
  }

  // ----- what comes back -----

  // The texts saved for one file, first to last.
  function SavesOf(backups: seq<Backup>, file: string): seq<string> {
    if backups == [] then []
    else
      var before, last := SavesOf(backups[..|backups| - 1], file), backups[|backups| - 1];
      if last.file == file && last.saved.Some? then before + [last.saved.value] else before
  }

  lemma SavesNext(backups: seq<Backup>, b: Backup, file: string)
    ensures SavesOf(backups + [b], file) ==
            SavesOf(backups, file) + if b.file == file && b.saved.Some? then [b.saved.value] else []
  {
    assert (backups + [b])[..|backups|] == backups;
  }

  // Each save is what the file had grown to by then, from its text at entry on.
  ghost predicate Growing(saves: seq<string>, entry: string, now: string) {
    && (saves == [] ==> now == entry)
    && (saves != [] ==> saves[0] == entry && saves[|saves| - 1] <= now)
    && (forall i | 0 <= i < |saves| - 1 :: saves[i] < saves[i + 1])
  }

  lemma {:induction false} PatchedGrows(tree: Tree, patches: seq<Patch>, dryRun: bool, faults: nat -> Fault,
                                        file: string)
    requires file in tree
    ensures var s := PatchAll(tree, patches, dryRun, faults);
            && file in s.files && Growing(SavesOf(s.backups, file), tree[file], s.files[file])
            && (!s.raised && SavesOf(s.backups, file) != [] ==>
               SavesOf(s.backups, file)[|SavesOf(s.backups, file)| - 1] < s.files[file])
  {
    if patches != [] {
      var n := |patches| - 1;
      PatchedGrows(tree, patches[..n], dryRun, faults, file);
      PatchGrows(tree, PatchAll(tree, patches[..n], dryRun, faults), patches[n], dryRun, faults(n), file);
    }
  }

  lemma PatchGrows(tree: Tree, s: State, p: Patch, dryRun: bool, fault: Fault, file: string)
    requires file in tree && file in s.files
    requires var saves := SavesOf(s.backups, file);
             && Growing(saves, tree[file], s.files[file])
             && (!s.raised && saves != [] ==> saves[|saves| - 1] < s.files[file])
    ensures var t := PatchOne(s, p, dryRun, fault); var saves := SavesOf(t.backups, file);
            && file in t.files && Growing(saves, tree[file], t.files[file])
            && (!t.raised && saves != [] ==> saves[|saves| - 1] < t.files[file])
  {
    hide SavesOf, Contains, Written, Growing;
    if p.file in s.files {
      SavesNext(s.backups, Backup(p.file, None), file);
      SavesNext(s.backups, Backup(p.file, Some(s.files[p.file])), file);
      WrittenGrows(s.files[p.file], p.line, fault);
      assert SavesOf(s.backups, file) + [] == SavesOf(s.backups, file);
      if !s.raised {
        SaveGrows(SavesOf(s.backups, file), tree[file], s.files[file], Written(s.files[p.file], p.line, fault));
      }
    }
  }

  lemma WrittenGrows(original: string, line: string, fault: Fault)
    ensures original <= Written(original, line, fault)
    ensures !fault.Stops? ==> original < Written(original, line, fault)
  {
    hide Appended;
  }

  lemma SaveGrows(saves: seq<string>, entry: string, was: string, now: string)
    requires Growing(saves, entry, was) && (saves != [] ==> saves[|saves| - 1] < was)
    ensures was <= now ==> Growing(saves + [was], entry, now)
  {
  }

  // What is left in a file: the last text saved for it, or what the build left there.
  lemma {:induction false} LastSaveWins(tree: Tree, backups: seq<Backup>, file: string)
    ensures var saves := SavesOf(backups, file);
            if saves == [] then (file in PutBack(tree, backups) <==> file in tree)
                                && (file in tree ==> PutBack(tree, backups)[file] == tree[file])
            else file in PutBack(tree, backups) && PutBack(tree, backups)[file] == saves[|saves| - 1]
  {
    if backups != [] { LastSaveWins(tree, backups[..|backups| - 1], file); }
  }

  // ----- which lines are missing -----

  // The lines a call got to for one file, in order: those of its valid patches, up to the one
  // that raised; without faults, all of them.
  function LinesFor(tree: Tree, patches: seq<Patch>, dryRun: bool, faults: nat -> Fault, file: string): seq<string> {
    if patches == [] then []
    else
      var n := |patches| - 1;
      var before, p := LinesFor(tree, patches[..n], dryRun, faults, file), patches[n];
      if PatchAll(tree, patches[..n], dryRun, faults).raised || !p.IsValid() || p.file != file || dryRun ||
         faults(n).NoRead?
      then before else before + [p.line]
  }

  function LinesOf(patches: seq<Patch>, file: string): seq<string> {
    if patches == [] then []
    else
      var before, p := LinesOf(patches[..|patches| - 1], file), patches[|patches| - 1];
      if p.IsValid() && p.file == file then before + [p.line] else before
  }

  // A text after some lines were appended where they were missing, and how many were.
  function Grown(text: string, lines: seq<string>): string {
    if lines == [] then text
    else
      var before, last := Grown(text, lines[..|lines| - 1]), lines[|lines| - 1];
      if Contains(before, last) then before else before + Appended(before, last)
  }

  function Missing(text: string, lines: seq<string>): nat {
    if lines == [] then 0
    else
      var n := |lines| - 1;
      Missing(text, lines[..n]) + if Contains(Grown(text, lines[..n]), lines[n]) then 0 else 1
  }

  predicate AllThere(text: string, lines: seq<string>) { forall i | 0 <= i < |lines| :: Contains(text, lines[i]) }

  // One line is missing, and with it appended no later one is.
  ghost predicate OneMissing(text: string, lines: seq<string>) {
    exists i | 0 <= i < |lines| :: FirstMissing(text, lines, i) &&
      AllThere(text + Appended(text, lines[i]), lines[i + 1..])
  }

  predicate FirstMissing(text: string, lines: seq<string>, i: nat)
    requires i < |lines|
  {
    AllThere(text, lines[..i]) && !Contains(text, lines[i])
  }

  lemma {:induction false} NoneMissing(text: string, lines: seq<string>)
    ensures Missing(text, lines) == 0 <==> AllThere(text, lines)
    ensures AllThere(text, lines) ==> Grown(text, lines) == text
  {
    hide Contains;
    if lines != [] {
      var n := |lines| - 1;
      NoneMissing(text, lines[..n]);
      assert AllThere(text, lines) <==> AllThere(text, lines[..n]) && Contains(text, lines[n]) by {
        assert forall i | 0 <= i < n :: lines[..n][i] == lines[i];
      }
    }
  }

  // Going through some lines and then others.
  lemma {:induction false} MissingJoin(text: string, a: seq<string>, b: seq<string>)
    ensures Grown(text, a + b) == Grown(Grown(text, a), b)
    ensures Missing(text, a + b) == Missing(text, a) + Missing(Grown(text, a), b)
  {
    hide Contains, Appended;
    if b == [] {
      assert a + b == a;
    } else {
      var n := |b| - 1;
      MissingJoin(text, a, b[..n]);
      assert (a + b)[..|a + b| - 1] == a + b[..n];
    }
  }

  lemma SingleLine(text: string, line: string)
    ensures Missing(text, [line]) == if Contains(text, line) then 0 else 1
    ensures Grown(text, [line]) == if Contains(text, line) then text else text + Appended(text, line)
  {
    hide Contains, Appended;
    assert [line][..0] == [] && Missing(text, []) == 0 && Grown(text, []) == text;
  }

  lemma FromFirst(text: string, lines: seq<string>, i: nat)
    requires i < |lines| && FirstMissing(text, lines, i)
    ensures Missing(text, lines) == 1 + Missing(text + Appended(text, lines[i]), lines[i + 1..])
  {
    hide Contains, Appended, Missing, Grown;
    NoneMissing(text, lines[..i]);
    SingleLine(text, lines[i]);
    MissingJoin(text, lines[..i], [lines[i]]);
    MissingJoin(text, lines[..i] + [lines[i]], lines[i + 1..]);
    assert lines == lines[..i] + [lines[i]] + lines[i + 1..];
  }

  lemma {:induction false} FirstOf(text: string, lines: seq<string>) returns (i: nat)
    requires !AllThere(text, lines)
    ensures i < |lines| && FirstMissing(text, lines, i)
  {
    hide Contains;
    var n := |lines| - 1;
    if AllThere(text, lines[..n]) {
      i := n;
      assert forall j | 0 <= j < n :: lines[..n][j] == lines[j];
    } else {
      i := FirstOf(text, lines[..n]);
      assert lines[..n][..i] == lines[..i];
    }
  }

  lemma OneMissingIff(text: string, lines: seq<string>)
    ensures Missing(text, lines) == 1 <==> OneMissing(text, lines)
  {
    hide Contains, Appended, Missing, AllThere, FirstMissing;
    NoneMissing(text, lines);
    if !AllThere(text, lines) {
      var i := FirstOf(text, lines);
      FromFirst(text, lines, i);
      NoneMissing(text + Appended(text, lines[i]), lines[i + 1..]);
      if OneMissing(text, lines) {
        var j :| 0 <= j < |lines| && FirstMissing(text, lines, j) &&
          AllThere(text + Appended(text, lines[j]), lines[j + 1..]);
        FromFirst(text, lines, j);
        NoneMissing(text + Appended(text, lines[j]), lines[j + 1..]);
      }
    } else {
      NoFirst(text, lines);
    }
  }

  lemma NoFirst(text: string, lines: seq<string>)
    requires AllThere(text, lines)
    ensures forall i | 0 <= i < |lines| :: !FirstMissing(text, lines, i)
  {
    hide Contains;
  }

  // The call saves the file once for every missing line it gets to.
  lemma {:induction false} SavesAre(tree: Tree, patches: seq<Patch>, dryRun: bool, faults: nat -> Fault, file: string)
    requires file in tree
    ensures var s, lines := PatchAll(tree, patches, dryRun, faults), LinesFor(tree, patches, dryRun, faults, file);
            && file in s.files && |SavesOf(s.backups, file)| == Missing(tree[file], lines)
            && (!s.raised ==> s.files[file] == Grown(tree[file], lines))
  {
    hide SavesOf, PatchOne, Grown, Missing, Contains;
    if patches == [] {
      NoSaves(file);
      NothingGrown(tree[file]);
    } else {
      var n := |patches| - 1;
      SavesAre(tree, patches[..n], dryRun, faults, file);
      var s := PatchAll(tree, patches[..n], dryRun, faults);
      OneSave(s, patches[n], dryRun, faults(n), file);
      var lines := LinesFor(tree, patches[..n], dryRun, faults, file);
      MissingJoin(tree[file], lines, [patches[n].line]);
      SingleLine(Grown(tree[file], lines), patches[n].line);
    }
  }

  lemma NothingGrown(text: string)
    ensures Grown(text, []) == text && Missing(text, []) == 0
  {
  }

  // What one patch does to one file.
  lemma OneSave(s: State, p: Patch, dryRun: bool, fault: Fault, file: string)
    requires file in s.files
    ensures var t := PatchOne(s, p, dryRun, fault);
            var mine := !s.raised && p.IsValid() && p.file == file && !dryRun && !fault.NoRead?;
            && file in t.files && (s.raised ==> t.raised)
            && |SavesOf(t.backups, file)| ==
               |SavesOf(s.backups, file)| + (if mine && !Contains(s.files[file], p.line) then 1 else 0)
            && (!t.raised ==>
                  t.files[file] == (if mine && !Contains(s.files[file], p.line)
                                    then s.files[file] + Appended(s.files[file], p.line) else s.files[file]))
  {
    hide SavesOf, Contains, Appended;
    if p.file in s.files {
      SavesNext(s.backups, Backup(p.file, None), file);
      SavesNext(s.backups, Backup(p.file, Some(s.files[p.file])), file);
    }
  }

  lemma {:induction false} NoFaults(tree: Tree, patches: seq<Patch>, faults: nat -> Fault, file: string)
    requires forall n :: faults(n).Fine?
    ensures LinesFor(tree, patches, false, faults, file) == LinesOf(patches, file)
    ensures !PatchAll(tree, patches, false, faults).raised
  {
    hide Contains;
    if patches != [] { NoFaults(tree, patches[..|patches| - 1], faults, file); }
  }

  // ----- what is left -----

  function Final(tree: Tree, patches: seq<Patch>, dryRun: bool, faults: nat -> Fault, body: Tree -> Tree): Tree {
    var s := PatchAll(tree, patches, dryRun, faults);
    PutBack(if s.raised then s.files else body(s.files), s.backups)
  }

  // Whether patching failed part-way, the build raised or it changed the files: a file that
  // missed a line the call got to ends with its bytes at entry exactly when one append made
  // up for all that were missing.
  lemma RestoredIff(tree: Tree, patches: seq<Patch>, dryRun: bool, faults: nat -> Fault, body: Tree -> Tree,
                    file: string)
    requires file in tree && !AllThere(tree[file], LinesFor(tree, patches, dryRun, faults, file))
    ensures var last := Final(tree, patches, dryRun, faults, body);
            && file in last && tree[file] <= last[file]
            && (last[file] == tree[file] <==> OneMissing(tree[file], LinesFor(tree, patches, dryRun, faults, file)))
  {
    hide SavesOf, PatchAll, PutBack, AllThere, OneMissing, Missing, LinesFor;
    var s, lines := PatchAll(tree, patches, dryRun, faults), LinesFor(tree, patches, dryRun, faults, file);
    SavesAre(tree, patches, dryRun, faults, file);
    NoneMissing(tree[file], lines);
    OneMissingIff(tree[file], lines);
    PatchedGrows(tree, patches, dryRun, faults, file);
    LastSaveWins(if s.raised then s.files else body(s.files), s.backups, file);
    var saves := SavesOf(s.backups, file);
    FirstIsLeast(saves, |saves| - 1);
  }

  // A file that has every line the call gets to is never appended to, and is left as the build
  // left it.
  lemma LeftAsBuilt(tree: Tree, patches: seq<Patch>, dryRun: bool, faults: nat -> Fault, body: Tree -> Tree,
                    file: string)
    requires file in tree && AllThere(tree[file], LinesFor(tree, patches, dryRun, faults, file))
    ensures var s, last := PatchAll(tree, patches, dryRun, faults), Final(tree, patches, dryRun, faults, body);
            var built := if s.raised then s.files else body(s.files);
            && SavesOf(s.backups, file) == [] && file in s.files && s.files[file] == tree[file]
            && (file in last <==> file in built) && (file in built ==> last[file] == built[file])
  {
    hide SavesOf, PatchAll, PutBack, AllThere, Missing, LinesFor;
    var s, lines := PatchAll(tree, patches, dryRun, faults), LinesFor(tree, patches, dryRun, faults, file);
    SavesAre(tree, patches, dryRun, faults, file);
    NoneMissing(tree[file], lines);
    PatchedGrows(tree, patches, dryRun, faults, file);
    LastSaveWins(if s.raised then s.files else body(s.files), s.backups, file);
  }

  lemma {:induction false} FirstIsLeast(saves: seq<string>, k: nat)
    requires k < |saves| && forall i | 0 <= i < |saves| - 1 :: saves[i] < saves[i + 1]
    ensures saves[0] <= saves[k] && (saves[0] == saves[k] <==> k == 0)
  {
    if k > 0 {
      FirstIsLeast(saves, k - 1);
      assert saves[k - 1] < saves[k];
    }
  }

  // ----- what that comes to for the patches themselves -----

  lemma {:induction false} LinesAreOf(tree: Tree, patches: seq<Patch>, dryRun: bool, faults: nat -> Fault, file: string)
    ensures forall line | line in LinesFor(tree, patches, dryRun, faults, file) ::
              Patch(file, line) in patches && Patch(file, line).IsValid()
  {
    hide PatchAll;
    if patches != [] {
      var n := |patches| - 1;
      LinesAreOf(tree, patches[..n], dryRun, faults, file);
      assert patches == patches[..n] + [patches[n]];
      assert patches[n] == Patch(patches[n].file, patches[n].line);
    }
  }

  // If the file has the line of every valid patch on it, no fault and no other patch makes the
  // call touch it: it is not saved, and ends as the build left it.
  lemma PresentLeftAlone(tree: Tree, patches: seq<Patch>, dryRun: bool, faults: nat -> Fault, body: Tree -> Tree,
                         file: string)
    requires file in tree
    requires forall p | p in patches && p.IsValid() && p.file == file :: Contains(tree[file], p.line)
    ensures var s, last := PatchAll(tree, patches, dryRun, faults), Final(tree, patches, dryRun, faults, body);
            var built := if s.raised then s.files else body(s.files);
            && SavesOf(s.backups, file) == [] && file in s.files && s.files[file] == tree[file]
            && (file in last <==> file in built) && (file in built ==> last[file] == built[file])
  {
    hide Contains, PatchAll, Final, SavesOf, LinesFor;
    var lines := LinesFor(tree, patches, dryRun, faults, file);
    LinesAreOf(tree, patches, dryRun, faults, file);
    forall i | 0 <= i < |lines| ensures Contains(tree[file], lines[i]) {
      assert lines[i] in lines;
      assert Patch(file, lines[i]).file == file;
    }
    LeftAsBuilt(tree, patches, dryRun, faults, body, file);
  }

  // Patches on pairwise distinct files come to at most one line each.
  lemma {:induction false} DistinctOnce(tree: Tree, patches: seq<Patch>, dryRun: bool, faults: nat -> Fault,
                                        file: string)
    requires forall i, j | 0 <= i < j < |patches| :: patches[i].file != patches[j].file
    ensures |LinesFor(tree, patches, dryRun, faults, file)| <= 1
    ensures (forall i | 0 <= i < |patches| :: patches[i].file != file) ==>
            LinesFor(tree, patches, dryRun, faults, file) == []
  {
    hide PatchAll;
    if patches != [] {
      var n := |patches| - 1;
      DistinctOnce(tree, patches[..n], dryRun, faults, file);
      if patches[n].file == file { assert forall i | 0 <= i < n :: patches[..n][i].file != file; }
    }
  }

  // So every file such a call appended to has its entry bytes again.
  lemma AllRestored(tree: Tree, patches: seq<Patch>, dryRun: bool, faults: nat -> Fault, body: Tree -> Tree,
                    file: string)
    requires file in tree && forall i, j | 0 <= i < j < |patches| :: patches[i].file != patches[j].file
    requires !AllThere(tree[file], LinesFor(tree, patches, dryRun, faults, file))
    ensures file in Final(tree, patches, dryRun, faults, body) &&
            Final(tree, patches, dryRun, faults, body)[file] == tree[file]
  {
    hide Final, LinesFor, Contains, Appended;
    var lines := LinesFor(tree, patches, dryRun, faults, file);
    DistinctOnce(tree, patches, dryRun, faults, file);
    RestoredIff(tree, patches, dryRun, faults, body, file);
    assert lines == [lines[0]] && lines[..0] == [] && lines[1..] == [];
    assert FirstMissing(tree[file], lines, 0);
  }

  // Without faults: exactly when one append makes up for every line of a valid patch on it.
  lemma RestoredWithoutFaults(tree: Tree, patches: seq<Patch>, faults: nat -> Fault, body: Tree -> Tree, file: string)
    requires file in tree && !AllThere(tree[file], LinesOf(patches, file)) && forall n :: faults(n).Fine?
    ensures var last := Final(tree, patches, false, faults, body);
            file in last && (last[file] == tree[file] <==> OneMissing(tree[file], LinesOf(patches, file)))
  {
    hide Final, LinesFor, LinesOf, AllThere, OneMissing;
    NoFaults(tree, patches, faults, file);
    RestoredIff(tree, patches, false, faults, body, file);
  }

  // Two lines for one empty file: the first is still there at the end.
  lemma SecondAppendStays(faults: nat -> Fault, body: Tree -> Tree)
    requires forall n :: faults(n).Fine?
    ensures var last := Final(map["f" := ""], [Patch("f", "a"), Patch("f", "b")], false, faults, body);
            "f" in last && last["f"] == "\na\n"
  {
    hide Contains;
    var tree, patches := map["f" := ""], [Patch("f", "a"), Patch("f", "b")];
    assert patches[..1] == [Patch("f", "a")] && patches[..1][..0] == [];
    NotThere();
    var none := PatchAll(tree, [], false, faults);
    var one := PatchAll(tree, patches[..1], false, faults);
    assert one == State(map["f" := "" + Appended("", "a")], [] + [Backup("f", Some(""))], false);
    assert Appended("", "a") == "\na\n" && "" + "\na\n" == "\na\n";
    var s := PatchAll(tree, patches, false, faults);
    assert s.backups == one.backups + [Backup("f", Some("\na\n"))];
    SavesNext(one.backups, Backup("f", Some("\na\n")), "f");
    LastSaveWins(if s.raised then s.files else body(s.files), s.backups, "f");
  }

  lemma NotThere()
    ensures !Contains("", "a") && !Contains("\na\n", "b")
  {
    forall i | 0 <= i <= 3 ensures !StandsAt("\na\n", "b", i) {
      if i < 3 { assert "\na\n"[i..i + 1] == ["\na\n"[i]]; }
    }
  }

  lemma NoSaves(file: string)
    ensures SavesOf([], file) == []
  {
  }

  // ----- the patched text, line by line -----

  lemma BreakApart(text: string) returns (first: string, rest: string)
    requires !OneLine(text)
    ensures text == first + "\n" + rest && OneLine(first)
    ensures rest != "" ==> rest[|rest| - 1] == text[|text| - 1]
    ensures rest == "" ==> text[|text| - 1] == '\n'
  {
    var n := LineBreak(text);
    first, rest := text[..n], text[n + 1..];
  }

  lemma {:induction false} WholeLinesSplit(whole: string, rest: string)
    requires whole == "" || whole[|whole| - 1] == '\n'
    ensures SplitLines(whole + rest) == SplitLines(whole) + SplitLines(rest)
    decreases |whole|
  {
    hide SplitLines;
    if whole == "" {
      assert whole + rest == rest && SplitLines("") == [] by { NoLines(); }
    } else {
      assert !OneLine(whole) by { assert whole[|whole| - 1] in whole; }
      var first, more := BreakApart(whole);
      WholeLinesSplit(more, rest);
      SplitAtBreak(first, more);
      SplitAtBreak(first, more + rest);
      Regroup(first, "\n", more, rest);
      assert [first] + (SplitLines(more) + SplitLines(rest)) == [first] + SplitLines(more) + SplitLines(rest);
    }
  }

  lemma NoLines()
    ensures SplitLines("") == []
  {
  }

  lemma Regroup(a: string, b: string, c: string, d: string)
    ensures (a + b + c) + d == a + b + (c + d)
  {
  }

  lemma OneLineSplit(text: string)
    requires OneLine(text) && text != ""
    ensures SplitLines(text) == [text] && SplitLines(text + "\n") == [text]
  {
    SplitAtBreak(text, "");
    assert text + "\n" + "" == text + "\n";
  }

  // A final newline makes no line of its own.
  lemma {:induction false} FinalNewline(text: string)
    requires text != "" && text[|text| - 1] != '\n'
    ensures SplitLines(text + "\n") == SplitLines(text)
    decreases |text|
  {
    hide SplitLines;
    if OneLine(text) {
      OneLineSplit(text);
    } else {
      var first, more := BreakApart(text);
      FinalNewline(more);
      SplitAtBreak(first, more);
      SplitAtBreak(first, more + "\n");
      Regroup(first, "\n", more, "\n");
    }
  }

  // A patched file has the lines it had, and the patch's after them; an empty one gets an
  // empty line in between.
  lemma PatchedLines(original: string, line: string)
    requires line != "" && line[|line| - 1] != '\n'
    ensures SplitLines(Written(original, line, Fine)) ==
            (if original == "" then [""] else SplitLines(original)) + SplitLines(line)
  {
    hide SplitLines;
    FinalNewline(line);
    if original == "" {
      SplitAtBreak("", line + "\n");
      assert "" + "\n" + (line + "\n") == Written(original, line, Fine);
    } else if original[|original| - 1] == '\n' {
      WholeLinesSplit(original, line + "\n");
      assert original + (line + "\n") == Written(original, line, Fine);
    } else {
      FinalNewline(original);
      WholeLinesSplit(original + "\n", line + "\n");
      assert original + "\n" + (line + "\n") == Written(original, line, Fine);
    }
  }

  // A dry run touches nothing, whatever fails.
  lemma {:induction false} DryRunTouchesNothing(tree: Tree, patches: seq<Patch>, faults: nat -> Fault)
    ensures PatchAll(tree, patches, true, faults) == State(tree, [], false)
  {
    if patches != [] { DryRunTouchesNothing(tree, patches[..|patches| - 1], faults); }
  }

  // A line is in a text when the text is something, the line, and something.
  lemma ContainsIff(text: string, line: string)
    ensures Contains(text, line) <==> exists before, after: string :: text == before + line + after
  {
    if Contains(text, line) {
      var i :| 0 <= i <= |text| && StandsAt(text, line, i);
      assert text == text[..i] + line + text[i + |line|..];
    }
    forall before: string, after: string | text == before + line + after ensures Contains(text, line) {
      assert StandsAt(text, line, |before|);
    }
  }

  // A patch that lacks its file or its line is passed over.
  lemma HalfPatchSkipped(s: State, p: Patch, dryRun: bool, fault: Fault)
    requires p.file == "" || p.line == ""
    ensures PatchOne(s, p, dryRun, fault) == s
  {
  }
}
