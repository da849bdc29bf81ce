/** The settings page's loops, each proved to compute what the model says. */
module SettingsView {
  import opened Options
  import opened Sequences
  import opened SettingsValues
  import opened SettingsPaths
  import opened SettingsModel
  import opened SettingsLaws

  method SettingsOfMap(sections: seq<Section>) returns (settings: seq<Setting>)
    ensures settings == SettingsOf(sections)
  {
    settings := [];
    for i := 0 to |sections|
      invariant settings == SettingsOf(sections[..i])
    {
      TakeSnoc(sections, i);
      settings := settings + sections[i].settings;
    }
    assert sections[..|sections|] == sections;
  }

  /** Shows, for each editable setting with a path of its own, that setting's value; a secret shows the mask or nothing. */
  method HydrateFromSettings(sections: seq<Section>, payload: Fields, js: Conversions) returns (hydrated: Hydrated)
    ensures hydrated == Hydrate(sections, payload, js)
    ensures hydrated.payload == payload
    ensures forall path :: path in hydrated.values <==>
      exists setting :: setting in SettingsOf(sections) && !IsReadOnly(setting) && setting.path == path
    ensures forall i: nat :: HasOwnPath(SettingsOf(sections), i) ==>
      Get(hydrated.values, SettingsOf(sections)[i].path) == Hydrate1(SettingsOf(sections)[i], payload, js)
    ensures forall i: nat :: HasOwnPath(SettingsOf(sections), i) && SettingsOf(sections)[i].prefName.None? && IsSecret(SettingsOf(sections)[i]) ==>
      Get(hydrated.values, SettingsOf(sections)[i].path) in {Text(STORED_SECRET_MASK), Text("")}
  {
    hide Hydrate1;
    var settings := SettingsOfMap(sections);
    var values: Values := map[];
    for i := 0 to |settings|
      invariant values == HydrateAll(settings[..i], payload, js)
    {
      TakeSnoc(settings, i);
      if !IsReadOnly(settings[i]) {
        values := values[settings[i].path := Hydrate1(settings[i], payload, js)];
      }
    }
    assert settings[..|settings|] == settings;
    hydrated := Hydrated(values, payload);
    forall path
      ensures path in values <==> exists setting :: setting in settings && !IsReadOnly(setting) && setting.path == path
    {
      ShownPaths(settings, payload, js, path);
    }
    forall i: nat | HasOwnPath(settings, i)
      ensures Get(values, settings[i].path) == Hydrate1(settings[i], payload, js)
      ensures settings[i].prefName.None? && IsSecret(settings[i]) ==>
        Get(values, settings[i].path) in {Text(STORED_SECRET_MASK), Text("")}
    {
      ShowsItself(settings, payload, js, i);
      if settings[i].prefName.None? {
        ShownValue(settings[i], payload, js);
      }
    }
  }

  method CopySection(original: Values, edited: Values, current: View, settings: seq<Setting>)
      returns (keptOriginal: Values, keptEdited: Values)
    ensures keptOriginal == CopySettings(original, current.original.values, settings)
    ensures keptEdited == CopySettings(edited, current.edited.values, settings)
  {
    keptOriginal, keptEdited := original, edited;
    for i := 0 to |settings|
      invariant keptOriginal == CopySettings(original, current.original.values, settings[..i])
      invariant keptEdited == CopySettings(edited, current.edited.values, settings[..i])
    {
      TakeSnoc(settings, i);
      var path := settings[i].path;
      keptOriginal := keptOriginal[path := Get(current.original.values, path)];
      keptEdited := keptEdited[path := Get(current.edited.values, path)];
    }
    assert settings[..|settings|] == settings;
  }

  method SectionIsDirty(section: Section, current: View) returns (isDirty: bool)
    ensures isDirty <==> IsDirty(section, current.original.values, current.edited.values)
  {
    hide IsEdited;
    for i := 0 to |section.settings|
      invariant forall k :: 0 <= k < i ==> !IsEdited(section.settings[k], current.original.values, current.edited.values)
    {
      if IsEdited(section.settings[i], current.original.values, current.edited.values) {
        assert section.settings[i] in section.settings;
        return true;
      }
    }
    return false;
  }

  method RehydratePreservingDirtySections(
      sections: seq<Section>, payload: Fields, current: Option<View>, forced: set<string>, js: Conversions)
      returns (view: View)
    ensures view == Rehydrate(sections, payload, current, forced, js)
  {
    hide HydrateAll, IsDirty, CopySettings;
    var original := HydrateFromSettings(sections, payload, js);
    var edited := HydrateFromSettings(sections, payload, js);
    if current.None? {
      return View(original, edited);
    }
    var shown := current.value;
    ghost var latest := original.values;
    for i := 0 to |sections|
      invariant original == Hydrated(KeepDirty(sections[..i], latest, shown.original.values, shown, forced), payload)
      invariant edited == Hydrated(KeepDirty(sections[..i], latest, shown.edited.values, shown, forced), payload)
    {
      TakeSnoc(sections, i);
      var section := sections[i];
      if section.id in forced {
        continue;
      }
      var isDirty := SectionIsDirty(section, shown);
      if !isDirty {
        continue;
      }
      var keptOriginal, keptEdited := CopySection(original.values, edited.values, shown, section.settings);
      original, edited := original.(values := keptOriginal), edited.(values := keptEdited);
    }
    assert sections[..|sections|] == sections;
    view := View(original, edited);
  }

  method ChangedSettings(settings: seq<Setting>, view: View) returns (changed: seq<Setting>)
    ensures changed == Changed(settings, view.original.values, view.edited.values)
  {
    hide IsChanged;
    changed := [];
    for i := 0 to |settings|
      invariant changed == Changed(settings[..i], view.original.values, view.edited.values)
    {
      TakeSnoc(settings, i);
      if IsChanged(settings[i], view.original.values, view.edited.values) {
        changed := changed + [settings[i]];
      }
    }
    assert settings[..|settings|] == settings;
  }

  method CollectDirtyBlocks(sections: seq<Section>, view: View, js: Conversions) returns (payload: Fields)
    ensures payload == Collect(sections, view, js)
  {
    hide SetAt, DeleteAt, Outgoing, HasAlias, ChildRec, PresencePath;
    var settings := SettingsOfMap(sections);
    var changed := ChangedSettings(settings, view);
    payload := map[];
    if changed == [] {
      return;
    }
    var stored := view.original.payload;
    var initialized: set<string> := {};
    for i := 0 to |changed|
      invariant Blocks(payload, initialized) == CollectAll(changed[..i], view, js)
    {
      TakeSnoc(changed, i);
      var path, top := changed[i].path, changed[i].path[0];
      var value := Outgoing(changed[i], view, js);
      if |path| == 1 {
        payload := payload[top := value];
        continue;
      }
      if top !in initialized {
        payload := payload[top := Rec(ChildRec(stored, top))];
        initialized := initialized + {top};
      }
      payload := SetAt(payload, path, value);
      if HasAlias(changed[i], stored) {
        payload := SetAt(payload, MEMORY_RETAIN_DAYS, value);
      }
    }
    assert changed[..|changed|] == changed;
    var blocks := payload;
    for i := 0 to |settings|
      invariant payload == DeletePresence(blocks, settings[..i])
    {
      TakeSnoc(settings, i);
      if IsSecret(settings[i]) {
        payload := DeleteAt(payload, PresencePath(settings[i].path));
      }
    }
    assert settings[..|settings|] == settings;
  }
}
