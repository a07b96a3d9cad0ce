// The edits that save one type: clean values under keys that never collide.

module RegistryOps {
  import opened Text
  import opened CfgSyntax
  import opened CfgParse
  import opened CfgEdits
  import opened CfgOrder
  import opened CfgRender
  import opened CfgDocument
  import opened CfgLaws
  import opened CfgOps
  import opened CfgGiven
  import opened CfgReads
  import opened Words
  import opened Registry

  // ----- the keys apart -----

  // The fourth letter from the end is enough to tell the keys apart.
  function Tail(key: string): char { if |key| < 4 then ' ' else key[|key| - 4] }

  lemma FwKeyTail(fw: string, suffix: string)
    requires |suffix| >= 4
    ensures Tail(fw + suffix) == Tail(suffix)
  {
  }

  lemma FwKeysDiffer(a: string, b: string, suffix: string)
    requires a != b
    ensures a + suffix != b + suffix
  {
    if |a| == |b| {
      assert (a + suffix)[..|a|] == a && (b + suffix)[..|b|] == b;
    }
  }

  lemma FwKeyClean(fw: string, suffix: string)
    requires FwName(fw) && suffix in {ARGS, PATCHES, REPOS}
    ensures CleanKey(fw + suffix)
  {
    WordIsClean(fw);
    var key := fw + suffix;
    assert key[0] == fw[0] && key[|key| - 1] == suffix[|suffix| - 1];
  }

  lemma {:induction false} RenderedClean(patches: seq<Patch>)
    requires forall i | 0 <= i < |patches| :: CleanPatch(patches[i])
    ensures CleanItems(Rendered(patches)) && ParseAll(Rendered(patches)) == Some(patches)
    ensures Rendered(patches) == [] <==> patches == []
  {
    hide RenderPatch, ParsePatch, CleanItem, CleanPatch, Rendered, ParseAll, Patch.IsValid;
    NoPatches();
    if patches != [] {
      var n := |patches| - 1;
      RenderedClean(patches[..n]);
      assert CleanPatch(patches[n]);
      PatchReads(patches[n]);
      PatchValid(patches[n]);
      assert patches == patches[..n] + [patches[n]];
      RenderedNext(patches[..n], patches[n]);
      ParseNext(Rendered(patches[..n]), RenderPatch(patches[n]));
    }
  }

  lemma NoPatches()
    ensures Rendered([]) == [] && ParseAll([]) == Some([])
  {
  }

  lemma RenderedNext(patches: seq<Patch>, p: Patch)
    requires p.IsValid()
    ensures Rendered(patches + [p]) == Rendered(patches) + [RenderPatch(p)]
  {
    hide RenderPatch;
    assert (patches + [p])[..|patches|] == patches;
  }

  lemma ParseNext(raws: seq<string>, raw: string)
    requires ParseAll(raws).Some? && ParsePatch(raw).Some?
    ensures ParseAll(raws + [raw]) == Some(ParseAll(raws).value + [ParsePatch(raw).value])
  {
    hide ParsePatch;
    assert (raws + [raw])[..|raws|] == raws;
  }

  lemma PatchValid(p: Patch)
    requires CleanPatch(p)
    ensures p.IsValid()
  {
  }

  // The keys of a type's own settings, which no family's can be.
  const TYPE_KEYS := ["chipset", "serials", "canbus_uuids", "firmware", "kconfig_make_profile", "stop_services",
                      "katapult_installed"]

  lemma KeysOfType(m: McuType)
    ensures |TypeOps(m)| == |TYPE_KEYS| && forall i | 0 <= i < |TYPE_KEYS| :: TypeOps(m)[i].key == TYPE_KEYS[i]
  {
    hide Trim, CommaJoin;
  }

  lemma TypeKeysDiffer()
    ensures Unlike(TYPE_KEYS)
  {
    var t := TYPE_KEYS;
    assert |t[0]| == 7 && |t[1]| == 7 && |t[2]| == 12 && |t[3]| == 8 && |t[4]| == 20 && |t[5]| == 13 && |t[6]| == 18;
    assert t[0][0] != t[1][0];
  }

  lemma TypeKeyTails()
    ensures forall i | 0 <= i < |TYPE_KEYS| :: Tail(TYPE_KEYS[i]) !in {Tail(ARGS), Tail(PATCHES), Tail(REPOS)}
    ensures Tail(ARGS) != Tail(PATCHES) && Tail(PATCHES) != Tail(REPOS) && Tail(ARGS) != Tail(REPOS)
  {
    FwTails();
    var t := TYPE_KEYS;
    assert Tail(t[0]) == 'p' && Tail(t[1]) == 'i' && Tail(t[2]) == 'u' && Tail(t[3]) == 'w';
    assert Tail(t[4]) == 'f' && Tail(t[5]) == 'i' && Tail(t[6]) == 'l';
  }

  lemma FwTails()
    ensures Tail(ARGS) == 'a' && Tail(PATCHES) == 'c' && Tail(REPOS) == 'e'
  {
  }

  lemma TypeKeysClean()
    ensures forall i | 0 <= i < |TYPE_KEYS| :: CleanKey(TYPE_KEYS[i])
  {
    hide CleanKey;
    forall i | 0 <= i < |TYPE_KEYS| ensures CleanKey(TYPE_KEYS[i]) { LettersClean(TYPE_KEYS[i]); }
  }

  lemma TypeOpsClean(m: McuType, known: seq<string>)
    requires CleanType(m, known)
    ensures CleanOps(TypeOps(m)) && Distinct(TypeOps(m))
  {
    hide Trim, StartsNote, CleanPatch, CleanCfg, FwName, CleanOp, CleanKey, Clean, AllWords, CommaJoin, CleanItems;
    JoinedWords(m.firmwares);
    if m.stop.Some? { JoinedWords(m.stop.value); }
    TrimClean(m.profile);
    TypeKeysClean();
    TypeKeysDiffer();
    KeysOfType(m);
    var k := TYPE_KEYS;
    assert CleanKey(k[0]) && CleanKey(k[1]) && CleanKey(k[2]) && CleanKey(k[3]) && CleanKey(k[4]) && CleanKey(k[5]);
    PutText(k[0], m.chipset);
    PutItems(k[1], m.serials);
    PutItems(k[2], m.uuids);
    PutText(k[3], CommaJoin(m.firmwares));
    PutText(k[4], Trim(m.profile));
    if m.stop.Some? { PutText(k[5], CommaJoin(m.stop.value)); }
    DropAny(k[2]);
    DropAny(k[4]);
    DropAny(k[5]);
    DropAny(k[6]);
  }

  lemma FwOpsClean(m: McuType, known: seq<string>, fw: string)
    requires CleanType(m, known) && FwName(fw)
    ensures CleanOps(FwOps(m, fw)) && Distinct(FwOps(m, fw))
  {
    hide Trim, StartsNote, CleanPatch, FwName, Rendered, CleanKey, AllWords, CleanOp, CleanItems, Clean, Tail;
    var cfg := FwGet(m, fw);
    PlainClean();
    assert CleanCfg(cfg);
    TrimClean(cfg.args);
    RenderedClean(cfg.patches);
    FwKeyClean(fw, ARGS);
    FwKeyClean(fw, PATCHES);
    FwKeyClean(fw, REPOS);
    PutText(fw + ARGS, Trim(cfg.args));
    PutItems(fw + PATCHES, Rendered(cfg.patches));
    PutItems(fw + REPOS, cfg.repos);
    DropAny(fw + ARGS);
    DropAny(fw + PATCHES);
    DropAny(fw + REPOS);
    FwKeyTails(fw);
  }

  lemma FwKeyTails(fw: string)
    ensures Tail(fw + ARGS) == Tail(ARGS) && Tail(fw + PATCHES) == Tail(PATCHES) && Tail(fw + REPOS) == Tail(REPOS)
    ensures fw + ARGS != fw + PATCHES && fw + ARGS != fw + REPOS && fw + PATCHES != fw + REPOS
  {
    hide Tail;
    FwKeyTail(fw, ARGS);
    FwKeyTail(fw, PATCHES);
    FwKeyTail(fw, REPOS);
    TypeKeyTails();
  }

  lemma PlainClean()
    ensures CleanCfg(PLAIN_FW)
  {
  }

  // ----- all the edits of one type -----

  lemma {:induction false} AllFwOpsClean(m: McuType, known: seq<string>, visits: seq<string>)
    requires CleanType(m, known) && Unlike(visits) && forall fw | fw in visits :: FwName(fw)
    ensures CleanOps(AllFwOps(m, visits)) && Distinct(AllFwOps(m, visits))
    ensures forall op | op in AllFwOps(m, visits) :: exists fw | fw in visits :: op in FwOps(m, fw)
    ensures forall fw | fw in visits :: forall op | op in FwOps(m, fw) :: op in AllFwOps(m, visits)
  {
    hide FwOps, CleanType, FwName, CleanOp;
    if visits != [] {
      var n := |visits| - 1;
      var before, last := AllFwOps(m, visits[..n]), FwOps(m, visits[n]);
      assert visits == visits[..n] + [visits[n]];
      AllFwOpsClean(m, known, visits[..n]);
      FwOpsClean(m, known, visits[n]);
      forall i, j | 0 <= i < |before| && 0 <= j < |last| ensures before[i].key != last[j].key {
        assert before[i] in before;
        var fw :| fw in visits[..n] && before[i] in FwOps(m, fw);
        FwOpsApart(m, fw, visits[n], before[i], last[j]);
      }
      DistinctJoin(before, last);
    }
  }

  lemma FwOpsApart(m: McuType, a: string, b: string, x: Op, y: Op)
    requires a != b && x in FwOps(m, a) && y in FwOps(m, b)
    ensures x.key != y.key
  {
    hide FwOps;
    FwOpKey(m, a, x);
    FwOpKey(m, b, y);
    FwKeysApart(a, b, x.key, y.key);
  }

  lemma FwOpKey(m: McuType, fw: string, op: Op)
    requires op in FwOps(m, fw)
    ensures op.key in {fw + ARGS, fw + PATCHES, fw + REPOS}
  {
    hide Trim, Rendered;
  }

  lemma FwKeysApart(a: string, b: string, x: string, y: string)
    requires a != b && x in {a + ARGS, a + PATCHES, a + REPOS} && y in {b + ARGS, b + PATCHES, b + REPOS}
    ensures x != y
  {
    hide Tail;
    FwKeyTails(a);
    FwKeyTails(b);
    FwTails();
    FwKeysDiffer(a, b, ARGS);
    FwKeysDiffer(a, b, PATCHES);
    FwKeysDiffer(a, b, REPOS);
  }

  lemma DistinctJoin(a: seq<Op>, b: seq<Op>)
    requires Distinct(a) && Distinct(b) && forall i, j | 0 <= i < |a| && 0 <= j < |b| :: a[i].key != b[j].key
    ensures Distinct(a + b)
  {
    var c := a + b;
    forall i, j | 0 <= i < j < |c| ensures c[i].key != c[j].key {
      if j < |a| { assert a[i].key != a[j].key; }
      else if i >= |a| { assert b[i - |a|].key != b[j - |a|].key; }
      else { assert a[i].key != b[j - |a|].key; }
    }
  }

  lemma SaveOpsClean(m: McuType, known: seq<string>)
    requires CleanType(m, known)
    ensures CleanOps(SaveOps(m, known)) && Distinct(SaveOps(m, known))
    ensures forall op | op in TypeOps(m) :: op in SaveOps(m, known)
    ensures forall fw | fw in m.slots + known :: forall op | op in FwOps(m, fw) :: op in SaveOps(m, known)
  {
    hide TypeOps, FwOps, CleanOp, AllFwOps;
    var visits := Once(m.slots + known);
    var own, fws := TypeOps(m), AllFwOps(m, visits);
    NamesVisited(m, known);
    TypeOpsClean(m, known);
    AllFwOpsClean(m, known, visits);
    forall i, j | 0 <= i < |own| && 0 <= j < |fws| ensures own[i].key != fws[j].key {
      assert fws[j] in fws;
      var fw :| fw in visits && fws[j] in FwOps(m, fw);
      TypeOpsApart(m, i, fw, fws[j]);
    }
    DistinctJoin(own, fws);
  }

  lemma NamesVisited(m: McuType, known: seq<string>)
    requires CleanType(m, known)
    ensures Unlike(Once(m.slots + known)) && forall fw | fw in Once(m.slots + known) :: FwName(fw)
  {
    hide FwName, CleanCfg;
  }

  lemma TypeOpsApart(m: McuType, i: nat, fw: string, op: Op)
    requires i < |TypeOps(m)| && op in FwOps(m, fw)
    ensures TypeOps(m)[i].key != op.key
  {
    hide TypeOps, Tail, Trim, Rendered;
    KeysOfType(m);
    TypeKeyTails();
    FwKeyTails(fw);
    assert TypeOps(m)[i].key == TYPE_KEYS[i];
  }
}
