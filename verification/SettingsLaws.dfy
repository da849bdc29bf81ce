/** Saving settings is a three-way merge, whatever payloads arrive while something is edited. */
module SettingsLaws {
  import opened Options
  import opened SettingsValues
  import opened SettingsPaths
  import opened SettingsModel

  // ---------------------------------------------------------------- what is shown

  /** An editable setting after which no other editable one has its path; with distinct paths, every editable one. */
  ghost predicate HasOwnPath(settings: seq<Setting>, i: nat) {
    && i < |settings| && !IsReadOnly(settings[i])
    && forall j :: i < j < |settings| && !IsReadOnly(settings[j]) ==> settings[j].path != settings[i].path
  }

  /** Each such setting shows its own value. */
  lemma {:induction false} ShowsItself(settings: seq<Setting>, payload: Fields, js: Conversions, i: nat)
    requires HasOwnPath(settings, i)
    ensures settings[i].path in HydrateAll(settings, payload, js)
    ensures HydrateAll(settings, payload, js)[settings[i].path] == Hydrate1(settings[i], payload, js)
  {
    hide Hydrate1, IsReadOnly;
    if i < |settings| - 1 {
      ShowsItself(settings[..|settings| - 1], payload, js, i);
    }
  }

  /** Only editable settings show anything. */
  lemma {:induction false} ShownPaths(settings: seq<Setting>, payload: Fields, js: Conversions, path: Path)
    ensures path in HydrateAll(settings, payload, js) <==>
      exists setting :: setting in settings && !IsReadOnly(setting) && setting.path == path
  {
    hide Hydrate1, IsReadOnly;
    if settings != [] {
      var before, last := settings[..|settings| - 1], settings[|settings| - 1];
      ShownPaths(before, payload, js, path);
      assert settings == before + [last];
      assert last in settings;
    }
  }

  /**
   What one setting shows: a secret the mask or nothing, as the payload's flag says, whatever secret the payload
   holds; a plain setting the payload's value at its path, or its default where there is none.
   */
  lemma {:induction false} ShownValue(setting: Setting, payload: Fields, js: Conversions)
    requires setting.prefName.None?
    ensures IsSecret(setting) ==>
      && Hydrate1(setting, payload, js) in {Text(STORED_SECRET_MASK), Text("")}
      && (Hydrate1(setting, payload, js) == Text(STORED_SECRET_MASK) <==>
          ValueIn(payload, PresencePath(setting.path)) == Bool(true))
    ensures IsSecret(setting) ==> forall stored: Value ::
      NoListInTheWay(payload, setting.path) ==>
        Hydrate1(setting, SetAt(payload, setting.path, stored), js) == Hydrate1(setting, payload, js)
    ensures !IsSecret(setting) && !setting.isPosthogProjects && setting.path != RETAIN_DAYS ==>
      var own := ValueIn(payload, setting.path);
      Hydrate1(setting, payload, js) == if IsNothing(own) then setting.defaultValue else own
  {
    assert STORED_SECRET_MASK != "";
    if IsSecret(setting) {
      var flag := PresencePath(setting.path);
      FlagIsUnrelated(setting.path);
      forall stored: Value | NoListInTheWay(payload, setting.path)
        ensures ValueIn(SetAt(payload, setting.path, stored), flag) == ValueIn(payload, flag)
      {
        SetLeavesOthers(payload, setting.path, stored, flag);
      }
    }
  }

  lemma {:induction false} FlagIsUnrelated(path: Path)
    ensures Unrelated(path, PresencePath(path))
  {
    var flag, last := PresencePath(path), |path| - 1;
    assert |flag[last]| == |path[last]| + |"Configured"|;
  }

  // ---------------------------------------------------------------- taking in payloads

  lemma {:induction false} CopiedValue(to: Values, from: Values, settings: seq<Setting>, path: Path)
    ensures
      Get(CopySettings(to, from, settings), path) ==
        if exists setting :: setting in settings && setting.path == path then Get(from, path) else Get(to, path)
  {
    if settings != [] {
      CopiedValue(to, from, settings[..|settings| - 1], path);
      var last := settings[|settings| - 1];
      assert settings == settings[..|settings| - 1] + [last];
      assert last in settings;
    }
  }

  /** A kept section shows this path. */
  ghost predicate IsKept(sections: seq<Section>, current: View, forced: set<string>, path: Path) {
    exists section, setting ::
      section in sections && setting in section.settings && setting.path == path && Keeps(section, current, forced)
  }

  /** What stands under a path after a payload was taken in: the old value where a kept section shows it, else the new one. */
  lemma {:induction false} KeptValue(
      sections: seq<Section>, latest: Values, from: Values, current: View, forced: set<string>, path: Path)
    ensures
      Get(KeepDirty(sections, latest, from, current, forced), path) ==
        if IsKept(sections, current, forced, path) then Get(from, path) else Get(latest, path)
  {
    hide Keeps;
    if sections != [] {
      var before, last := sections[..|sections| - 1], sections[|sections| - 1];
      KeptValue(before, latest, from, current, forced, path);
      KeptSnoc(before, last, current, forced, path);
      assert sections == before + [last];
      if Keeps(last, current, forced) {
        CopiedValue(KeepDirty(before, latest, from, current, forced), from, last.settings, path);
      }
    }
  }

  lemma {:induction false} KeptSnoc(before: seq<Section>, last: Section, current: View, forced: set<string>, path: Path)
    ensures
      IsKept(before + [last], current, forced, path) <==>
      (IsKept(before, current, forced, path)
       || (Keeps(last, current, forced) && exists setting :: setting in last.settings && setting.path == path))
  {
    hide Keeps;
    if section, setting :|
      section in before + [last] && setting in section.settings && setting.path == path && Keeps(section, current, forced)
    {
      assert section in before || section == last;
    }
    if section, setting :|
      section in before && setting in section.settings && setting.path == path && Keeps(section, current, forced)
    {
      assert section in before + [last];
    }
    assert last in before + [last];
  }

  /** In a section that is not forced, taking in a payload keeps each edited setting edited, with the same two values. */
  lemma {:induction false} RehydrateKeepsEdits(
      sections: seq<Section>, payload: Fields, view: View, forced: set<string>, js: Conversions,
      section: Section, setting: Setting)
    requires section in sections && section.id !in forced && setting in section.settings
    ensures
      var after := Rehydrate(sections, payload, Some(view), forced, js);
      var path := setting.path;
      && IsEdited(setting, after.original.values, after.edited.values)
          == IsEdited(setting, view.original.values, view.edited.values)
      && (IsEdited(setting, view.original.values, view.edited.values) ==>
        && Get(after.edited.values, path) == Get(view.edited.values, path)
        && Get(after.original.values, path) == Get(view.original.values, path))
  {
    hide ValuesEqual;
    var latest := Hydrate(sections, payload, js).values;
    KeptValue(sections, latest, view.original.values, view, forced, setting.path);
    KeptValue(sections, latest, view.edited.values, view, forced, setting.path);
    ValuesEqualSelf(Get(latest, setting.path));
    if IsEdited(setting, view.original.values, view.edited.values) {
      assert Keeps(section, view, forced);
      assert IsKept(sections, view, forced, setting.path);
    }
  }

  /** So a section that is not forced is dirty afterwards iff it was dirty before. */
  lemma {:induction false} RehydrateKeepsDirty(
      sections: seq<Section>, payload: Fields, view: View, forced: set<string>, js: Conversions, section: Section)
    requires section in sections && section.id !in forced
    ensures
      var after := Rehydrate(sections, payload, Some(view), forced, js);
      IsDirty(section, after.original.values, after.edited.values)
        == IsDirty(section, view.original.values, view.edited.values)
  {
    hide Rehydrate, IsEdited;
    forall setting | setting in section.settings
      ensures
        var after := Rehydrate(sections, payload, Some(view), forced, js);
        IsEdited(setting, after.original.values, after.edited.values)
          == IsEdited(setting, view.original.values, view.edited.values)
    {
      RehydrateKeepsEdits(sections, payload, view, forced, js, section, setting);
    }
  }

  /** A forced section whose paths no other kept section shows is clean afterwards, and shows the new payload. */
  lemma {:induction false} ForcedIsClean(
      sections: seq<Section>, payload: Fields, view: View, forced: set<string>, js: Conversions, setting: Setting)
    requires !IsKept(sections, view, forced, setting.path)
    ensures
      var after := Rehydrate(sections, payload, Some(view), forced, js);
      && Get(after.original.values, setting.path) == Get(Hydrate(sections, payload, js).values, setting.path)
      && !IsEdited(setting, after.original.values, after.edited.values)
  {
    hide ValuesEqual;
    var latest := Hydrate(sections, payload, js).values;
    KeptValue(sections, latest, view.original.values, view, forced, setting.path);
    KeptValue(sections, latest, view.edited.values, view, forced, setting.path);
    ValuesEqualSelf(Get(latest, setting.path));
  }

  /** No broadcast of the run forces this section. */
  ghost predicate NeverForced(section: Section, broadcasts: seq<Broadcast>) {
    forall i :: 0 <= i < |broadcasts| ==> section.id !in broadcasts[i].forced
  }

  /** The same over any number of payloads; and what is shown was read from the last of them. */
  lemma {:induction false} BroadcastsKeepEdits(
      sections: seq<Section>, view: View, broadcasts: seq<Broadcast>, js: Conversions, section: Section, setting: Setting)
    requires section in sections && setting in section.settings && NeverForced(section, broadcasts)
    ensures
      var after := Rehydrations(sections, view, broadcasts, js);
      && (broadcasts != [] ==> after.original.payload == broadcasts[|broadcasts| - 1].payload)
      && IsEdited(setting, after.original.values, after.edited.values)
          == IsEdited(setting, view.original.values, view.edited.values)
      && (IsEdited(setting, view.original.values, view.edited.values) ==>
        && Get(after.edited.values, setting.path) == Get(view.edited.values, setting.path)
        && Get(after.original.values, setting.path) == Get(view.original.values, setting.path))
  {
    hide IsEdited;
    if broadcasts != [] {
      var before, last := broadcasts[..|broadcasts| - 1], broadcasts[|broadcasts| - 1];
      BroadcastsKeepEdits(sections, view, before, js, section, setting);
      RehydrateKeepsEdits(sections, last.payload, Rehydrations(sections, view, before, js), last.forced, js, section, setting);
    }
  }

  // ---------------------------------------------------------------- what is written

  function WritesOf1(setting: Setting, view: View, js: Conversions): seq<Write> {
    var value := Outgoing(setting, view, js);
    [Write(setting.path, value)]
    + (if |setting.path| > 1 && HasAlias(setting, view.original.payload) then [Write(MEMORY_RETAIN_DAYS, value)] else [])
  }

  function WritesOf(changed: seq<Setting>, view: View, js: Conversions): seq<Write> {
    if changed == [] then []
    else WritesOf(changed[..|changed| - 1], view, js) + WritesOf1(changed[|changed| - 1], view, js)
  }

  function Overlay(payload: Fields, blocks: Fields): Fields {
    payload + blocks
  }

  /** A block started from the stored one is what a write on top of the stored payload would go on with. */
  lemma {:induction false} WriteThroughOverlay(payload: Fields, blocks: Fields, path: Path, value: Value)
    requires |path| == 1 || path[0] in blocks
    ensures Overlay(payload, SetAt(blocks, path, value)) == SetAt(Overlay(payload, blocks), path, value)
  {
  }

  lemma {:induction false} StartBlock(payload: Fields, blocks: Fields, path: Path, value: Value)
    requires |path| > 1 && path[0] !in blocks
    ensures
      var started := blocks[path[0] := Rec(ChildRec(payload, path[0]))];
      Overlay(payload, SetAt(started, path, value)) == SetAt(Overlay(payload, blocks), path, value)
  {
    var top := path[0];
    var started := blocks[top := Rec(ChildRec(payload, top))];
    var whole := Overlay(payload, blocks);
    assert ChildRec(started, top) == ChildRec(whole, top);
    var child := Rec(SetAt(ChildRec(whole, top), path[1..], value));
    assert Overlay(payload, started[top := child]) == whole[top := child];
  }

  /** A path of one part is nobody else's block. */
  ghost predicate TopsApart(changed: seq<Setting>) {
    forall i, j :: 0 <= i < |changed| && 0 <= j < |changed| && |changed[i].path| == 1 && |changed[j].path| > 1 ==>
      changed[i].path[0] != changed[j].path[0]
  }

  /** A block that was started is there, and whatever is there was started or is a path of one part. */
  ghost predicate BlocksFit(blocks: Blocks, changed: seq<Setting>) {
    && blocks.initialized <= blocks.payload.Keys
    && forall top :: top in blocks.payload && top !in blocks.initialized ==>
      exists i :: 0 <= i < |changed| && |changed[i].path| == 1 && changed[i].path[0] == top
  }

  lemma {:induction false} SetAtKeys(fields: Fields, path: Path, value: Value)
    ensures SetAt(fields, path, value).Keys == fields.Keys + {path[0]}
  {
  }

  lemma {:induction false} CollectFits(
      changed: seq<Setting>, setting: Setting, blocks: Blocks, view: View, js: Conversions)
    requires BlocksFit(blocks, changed)
    ensures BlocksFit(Collect1(blocks, setting, view, js), changed + [setting])
  {
    hide SetAt, Outgoing, HasAlias;
    CollectKeys(setting, blocks, view, js);
    var top, after, all := setting.path[0], Collect1(blocks, setting, view, js), changed + [setting];
    hide Collect1;
    assert all[|changed|] == setting;
    forall t | t in after.payload && t !in after.initialized
      ensures exists i :: 0 <= i < |all| && |all[i].path| == 1 && all[i].path[0] == t
    {
      if t in blocks.payload && t !in blocks.initialized {
        var i :| 0 <= i < |changed| && |changed[i].path| == 1 && changed[i].path[0] == t;
        assert all[i] == changed[i];
      }
    }
  }

  lemma {:induction false} CollectKeys(setting: Setting, blocks: Blocks, view: View, js: Conversions)
    ensures
      var top, after := setting.path[0], Collect1(blocks, setting, view, js);
      && after.payload.Keys == blocks.payload.Keys + {top}
      && after.initialized == (if |setting.path| == 1 then blocks.initialized else blocks.initialized + {top})
  {
    assert HasAlias(setting, view.original.payload) ==> setting.path[0] == MEMORY_RETAIN_DAYS[0];
    hide SetAt, Outgoing, HasAlias;
    hide ChildRec;
    var path, value := setting.path, Outgoing(setting, view, js);
    if |path| > 1 {
      if path[0] in blocks.initialized {
        WrittenKeys(blocks.payload, path, value);
      } else {
        WrittenKeys(blocks.payload[path[0] := Rec(ChildRec(view.original.payload, path[0]))], path, value);
      }
    }
  }

  lemma {:induction false} WrittenKeys(fields: Fields, path: Path, value: Value)
    ensures
      var written := SetAt(fields, path, value);
      && written.Keys == fields.Keys + {path[0]}
      && SetAt(written, MEMORY_RETAIN_DAYS, value).Keys == written.Keys + {MEMORY_RETAIN_DAYS[0]}
  {
    SetAtKeys(fields, path, value);
    SetAtKeys(SetAt(fields, path, value), MEMORY_RETAIN_DAYS, value);
  }

  lemma {:induction false} SetAllSnoc(fields: Fields, writes: seq<Write>, last: Write)
    ensures SetAll(fields, writes + [last]) == SetAt(SetAll(fields, writes), last.path, last.value)
  {
    assert (writes + [last])[..|writes + [last]| - 1] == writes;
  }

  /** One more changed setting is one more write, or two, onto the stored payload. */
  lemma {:induction false} Collect1Overlays(
      changed: seq<Setting>, setting: Setting, blocks: Blocks, view: View, js: Conversions)
    requires BlocksFit(blocks, changed) && TopsApart(changed + [setting])
    ensures
      var payload, value := view.original.payload, Outgoing(setting, view, js);
      var first := SetAt(Overlay(payload, blocks.payload), setting.path, value);
      Overlay(payload, Collect1(blocks, setting, view, js).payload) ==
        if |setting.path| > 1 && HasAlias(setting, payload) then SetAt(first, MEMORY_RETAIN_DAYS, value) else first
  {
    assert HasAlias(setting, view.original.payload) ==> setting.path[0] == MEMORY_RETAIN_DAYS[0];
    hide SetAt, Outgoing, HasAlias, Overlay, ChildRec;
    var path, top, payload := setting.path, setting.path[0], view.original.payload;
    var value := Outgoing(setting, view, js);
    var started := blocks.payload[top := Rec(ChildRec(payload, top))];
    if |path| == 1 || top in blocks.initialized {
      WriteThroughOverlay(payload, blocks.payload, path, value);
      AliasOverlays(payload, blocks.payload, path, value);
    } else {
      NotStarted(changed, setting, blocks);
      StartBlock(payload, blocks.payload, path, value);
      AliasOverlays(payload, started, path, value);
    }
  }

  lemma {:induction false} NotStarted(changed: seq<Setting>, setting: Setting, blocks: Blocks)
    requires BlocksFit(blocks, changed) && TopsApart(changed + [setting])
    requires |setting.path| > 1 && setting.path[0] !in blocks.initialized
    ensures setting.path[0] !in blocks.payload
  {
    var all := changed + [setting];
    assert all[|changed|] == setting;
    assert forall i :: 0 <= i < |changed| ==> all[i] == changed[i];
  }

  lemma {:induction false} AliasOverlays(payload: Fields, blocks: Fields, path: Path, value: Value)
    ensures path[0] == MEMORY_RETAIN_DAYS[0] ==>
      Overlay(payload, SetAt(SetAt(blocks, path, value), MEMORY_RETAIN_DAYS, value))
        == SetAt(Overlay(payload, SetAt(blocks, path, value)), MEMORY_RETAIN_DAYS, value)
  {
    SetAtKeys(blocks, path, value);
    hide SetAt, Overlay;
    if path[0] == MEMORY_RETAIN_DAYS[0] {
      WriteThroughOverlay(payload, SetAt(blocks, path, value), MEMORY_RETAIN_DAYS, value);
    }
  }

  /** Laying the collected blocks over the stored payload is writing the changed settings, and nothing else, into it. */
  lemma {:induction false} CollectOverlays(changed: seq<Setting>, view: View, js: Conversions)
    requires TopsApart(changed)
    ensures BlocksFit(CollectAll(changed, view, js), changed)
    ensures
      Overlay(view.original.payload, CollectAll(changed, view, js).payload)
        == SetAll(view.original.payload, WritesOf(changed, view, js))
  {
    hide SetAt, Outgoing, HasAlias, Overlay, ChildRec, Collect1, BlocksFit, SetAll;
    var payload := view.original.payload;
    if changed == [] {
      NothingCollected(payload);
    } else {
      var before, last := changed[..|changed| - 1], changed[|changed| - 1];
      assert changed == before + [last];
      CollectOverlays(before, view, js);
      var blocks := CollectAll(before, view, js);
      CollectFits(before, last, blocks, view, js);
      Collect1Overlays(before, last, blocks, view, js);
      var writes, value := WritesOf(before, view, js), Outgoing(last, view, js);
      var own, alias := Write(last.path, value), Write(MEMORY_RETAIN_DAYS, value);
      SetAllSnoc(payload, writes, own);
      SetAllSnoc(payload, writes + [own], alias);
      assert WritesOf(changed, view, js) == writes + WritesOf1(last, view, js);
      if |last.path| > 1 && HasAlias(last, payload) {
        assert writes + WritesOf1(last, view, js) == writes + [own] + [alias];
      } else {
        assert WritesOf1(last, view, js) == [own];
      }
    }
  }

  lemma {:induction false} NothingCollected(payload: Fields)
    ensures BlocksFit(Blocks(map[], {}), []) && Overlay(payload, map[]) == payload && SetAll(payload, []) == payload
  {
  }

  // ---------------------------------------------------------------- presence flags

  /** The path stands apart from every flag that says a secret is stored. */
  ghost predicate ApartFromFlags(settings: seq<Setting>, path: Path) {
    forall i :: 0 <= i < |settings| && IsSecret(settings[i]) ==> Unrelated(PresencePath(settings[i].path), path)
  }

  lemma {:induction false} DeleteUnderOverlay(payload: Fields, blocks: Fields, path: Path, other: Path)
    requires Unrelated(path, other)
    ensures ValueIn(Overlay(payload, DeleteAt(blocks, path)), other) == ValueIn(Overlay(payload, blocks), other)
  {
    hide ListFields;
    var before, after := Overlay(payload, blocks), Overlay(payload, DeleteAt(blocks, path));
    if path[0] == other[0] {
      UnrelatedTails(path, other);
      if path[0] in blocks && blocks[path[0]].Rec? {
        DeleteLeavesOthers(blocks[path[0]].fields, path[1..], other[1..]);
        ChildReads(before, other);
        ChildReads(after, other);
      }
    } else {
      assert Member(Rec(after), other[0]) == Member(Rec(before), other[0]);
    }
  }

  lemma {:induction false} FlagsUnderOverlay(payload: Fields, blocks: Fields, settings: seq<Setting>, other: Path)
    requires ApartFromFlags(settings, other)
    ensures
      ValueIn(Overlay(payload, DeletePresence(blocks, settings)), other) == ValueIn(Overlay(payload, blocks), other)
  {
    hide Overlay, DeleteAt, ValueIn, PresencePath, Unrelated;
    if settings != [] {
      var before, last := settings[..|settings| - 1], settings[|settings| - 1];
      FlagsUnderOverlay(payload, blocks, before, other);
      if IsSecret(last) {
        DeleteUnderOverlay(payload, DeletePresence(blocks, before), PresencePath(last.path), other);
      }
    }
  }

  // ---------------------------------------------------------------- the theorem

  function ChangedIn(sections: seq<Section>, view: View): seq<Setting> {
    Changed(SettingsOf(sections), view.original.values, view.edited.values)
  }

  /** The changed settings stand apart from each other and from the flags, and no list stands above them. */
  ghost predicate Mergeable(sections: seq<Section>, view: View, js: Conversions) {
    var writes := WritesOf(ChangedIn(sections, view), view, js);
    && Apart(writes) && NoLists(view.original.payload, writes)
    && forall i :: 0 <= i < |writes| ==> ApartFromFlags(SettingsOf(sections), writes[i].path)
  }

  lemma {:induction false} WriteOfChanged(changed: seq<Setting>, view: View, js: Conversions, i: nat) returns (k: nat)
    requires i < |changed|
    ensures
      var writes := WritesOf(changed, view, js);
      k < |writes| && writes[k] == Write(changed[i].path, Outgoing(changed[i], view, js))
  {
    hide Outgoing, HasAlias;
    var before := changed[..|changed| - 1];
    if i == |before| {
      k := |WritesOf(before, view, js)|;
    } else {
      k := WriteOfChanged(before, view, js, i);
    }
  }

  lemma {:induction false} ApartMeansTopsApart(changed: seq<Setting>, view: View, js: Conversions)
    requires Apart(WritesOf(changed, view, js))
    ensures TopsApart(changed)
  {
    hide WritesOf;
    forall i, j | 0 <= i < |changed| && 0 <= j < |changed| && |changed[i].path| == 1 && |changed[j].path| > 1
      ensures changed[i].path[0] != changed[j].path[0]
    {
      var writes := WritesOf(changed, view, js);
      var a := WriteOfChanged(changed, view, js, i);
      var b := WriteOfChanged(changed, view, js, j);
      if a < b {
        assert Unrelated(writes[a].path, writes[b].path);
      } else {
        assert Unrelated(writes[b].path, writes[a].path);
      }
      assert changed[i].path == [changed[i].path[0]];
    }
  }

  /**
   Saving is a three-way merge: laid over the payload last taken in, what is sent puts every changed setting
   at its outgoing value and leaves every path apart from those, and from the flags, as that payload has it.
   */
  lemma {:induction false} SaveIsThreeWayMerge(
      sections: seq<Section>, view: View, js: Conversions, setting: Setting, other: Path)
    requires Mergeable(sections, view, js)
    ensures
      var saved := Overlay(view.original.payload, Collect(sections, view, js));
      var changed := ChangedIn(sections, view);
      && (setting in changed ==> ValueIn(saved, setting.path) == Outgoing(setting, view, js))
      && (ApartFrom(WritesOf(changed, view, js), other) && ApartFromFlags(SettingsOf(sections), other) ==>
        ValueIn(saved, other) == ValueIn(view.original.payload, other))
  {
    hide SetAll, WritesOf, Outgoing, CollectAll, DeletePresence, Overlay, ValueIn, Unrelated, NoListInTheWay, TopsApart;
    var payload, changed := view.original.payload, ChangedIn(sections, view);
    var writes, blocks := WritesOf(changed, view, js), CollectAll(changed, view, js).payload;
    ApartMeansTopsApart(changed, view, js);
    CollectOverlays(changed, view, js);
    if setting in changed {
      var i :| 0 <= i < |changed| && changed[i] == setting;
      var k := WriteOfChanged(changed, view, js, i);
      SetAllSets(payload, writes, k);
      FlagsUnderOverlay(payload, blocks, SettingsOf(sections), setting.path);
    }
    if ApartFrom(writes, other) && ApartFromFlags(SettingsOf(sections), other) {
      SetAllLeavesOthers(payload, writes, other);
      FlagsUnderOverlay(payload, blocks, SettingsOf(sections), other);
    }
    if changed == [] {
      NothingSent(payload);
    }
  }

  lemma {:induction false} NothingSent(payload: Fields)
    ensures Overlay(payload, map[]) == payload
  {
  }

  lemma {:induction false} ChangedIff(settings: seq<Setting>, original: Values, edited: Values, setting: Setting)
    ensures setting in Changed(settings, original, edited) <==> setting in settings && IsChanged(setting, original, edited)
  {
    hide IsChanged;
    if settings != [] {
      var before, last := settings[..|settings| - 1], settings[|settings| - 1];
      ChangedIff(before, original, edited, setting);
      assert settings == before + [last];
    }
  }

  lemma {:induction false} InSettings(sections: seq<Section>, section: Section, setting: Setting)
    requires section in sections && setting in section.settings
    ensures setting in SettingsOf(sections)
  {
    var before, last := sections[..|sections| - 1], sections[|sections| - 1];
    assert sections == before + [last];
    if section in before {
      InSettings(before, section, setting);
    }
  }

  /**
   The same after any number of payloads have come in since the edit: a setting changed before them, in a
   section that none of them forced, is saved as it would have been over the last payload at the time of the
   edit, and every path apart from the changes keeps what that payload has.
   */
  lemma {:induction false} EditSurvivesBroadcasts(
      sections: seq<Section>, view: View, broadcasts: seq<Broadcast>, js: Conversions, section: Section, setting: Setting)
    requires broadcasts != [] && section in sections && setting in section.settings && NeverForced(section, broadcasts)
    requires IsChanged(setting, view.original.values, view.edited.values)
    requires Mergeable(sections, Rehydrations(sections, view, broadcasts, js), js)
    ensures
      var after := Rehydrations(sections, view, broadcasts, js);
      var latest := broadcasts[|broadcasts| - 1].payload;
      var before, typed := Get(view.original.values, setting.path), Get(view.edited.values, setting.path);
      var saved := ValueIn(Overlay(latest, Collect(sections, after, js)), setting.path);
      && saved == OutgoingOf(setting, before, typed, latest, js)
      && (!setting.control.ProjectsControl? ==> saved == WireValue(setting, typed, js))
    ensures
      var after := Rehydrations(sections, view, broadcasts, js);
      var latest := broadcasts[|broadcasts| - 1].payload;
      forall other: Path ::
        ApartFrom(WritesOf(ChangedIn(sections, after), after, js), other) && ApartFromFlags(SettingsOf(sections), other) ==>
          ValueIn(Overlay(latest, Collect(sections, after, js)), other) == ValueIn(latest, other)
  {
    hide Overlay, ValueIn, Collect, WireValue, Mergeable, Rehydrations, Changed, SettingsOf, WritesOf, ApartFrom, ApartFromFlags,
      UnionProjects;
    var after := Rehydrations(sections, view, broadcasts, js);
    BroadcastsKeepEdits(sections, view, broadcasts, js, section, setting);
    InSettings(sections, section, setting);
    ChangedIff(SettingsOf(sections), after.original.values, after.edited.values, setting);
    SaveIsThreeWayMerge(sections, after, js, setting, setting.path);
    forall other: Path | ApartFrom(WritesOf(ChangedIn(sections, after), after, js), other) && ApartFromFlags(SettingsOf(sections), other)
      ensures ValueIn(Overlay(after.original.payload, Collect(sections, after, js)), other) == ValueIn(after.original.payload, other)
    {
      SaveIsThreeWayMerge(sections, after, js, setting, other);
    }
  }

  /** A setting is among those to send after the payloads iff it was before them: none joins, none drops out. */
  lemma {:induction false} ChangedStaysChanged(
      sections: seq<Section>, view: View, broadcasts: seq<Broadcast>, js: Conversions, section: Section, setting: Setting)
    requires section in sections && setting in section.settings && NeverForced(section, broadcasts)
    ensures
      var after := Rehydrations(sections, view, broadcasts, js);
      IsChanged(setting, after.original.values, after.edited.values)
        == IsChanged(setting, view.original.values, view.edited.values)
  {
    hide Rehydrations, ValuesEqual;
    BroadcastsKeepEdits(sections, view, broadcasts, js, section, setting);
  }

  /** A page that has just taken in its first payload has nothing to save. */
  lemma {:induction false} FirstPayloadIsClean(
      sections: seq<Section>, payload: Fields, forced: set<string>, js: Conversions)
    ensures
      var view := Rehydrate(sections, payload, None, forced, js);
      Collect(sections, view, js) == map[] && forall section :: section in sections ==>
        !IsDirty(section, view.original.values, view.edited.values)
  {
    hide ValuesEqual, Hydrate;
    var view := Rehydrate(sections, payload, None, forced, js);
    var values, settings := view.original.values, SettingsOf(sections);
    forall setting
      ensures !IsEdited(setting, values, values)
    {
      ValuesEqualSelf(Get(values, setting.path));
    }
    var changed := Changed(settings, values, values);
    if changed != [] {
      ChangedIff(settings, values, values, changed[0]);
    }
  }
}
