/**
 What saving a project picker does to projects it cannot show. It adds them from the selection it showed when its
 section was first edited, not from the last payload.
 */
module SettingsPickers {
  import opened Options
  import opened SettingsValues
  import opened SettingsPaths
  import opened SettingsModel
  import opened SettingsLaws

  /** A project id that no choice of the payload offers. */
  predicate IsHidden(v: Value, payload: Fields, js: Conversions) {
    v.Text? && js.trim(v.text) != "" && v.text !in RenderedIds(ChoicesOf(payload))
  }

  /** The union holds what is checked, and what was stored that could not be shown. */
  lemma {:induction false} UnionHas(
      checked: seq<Value>, stored: seq<Value>, rendered: seq<string>, js: Conversions, v: Value)
    ensures v in UnionProjects(checked, stored, rendered, js) <==>
      v in checked || (v in stored && v.Text? && js.trim(v.text) != "" && v.text !in rendered)
  {
    if stored != [] {
      var before, last := stored[..|stored| - 1], stored[|stored| - 1];
      UnionHas(checked, before, rendered, js, v);
      UnionHas(checked, before, rendered, js, last);
      assert stored == before + [last];
    }
  }

  /** It offers exactly the texts that stand as the id of some choice. */
  lemma {:induction false} OfferedIff(choices: seq<Value>, id: string)
    ensures id in RenderedIds(choices) <==> exists i :: 0 <= i < |choices| && Member(choices[i], "id") == Text(id)
  {
    if choices != [] {
      var before, last := choices[..|choices| - 1], choices[|choices| - 1];
      OfferedIff(before, id);
      assert choices[|choices| - 1] == last && forall i :: 0 <= i < |before| ==> choices[i] == before[i];
      hide Member;
    }
  }

  /** No project is listed twice that was not checked twice. */
  lemma {:induction false} UnionDistinct(
      checked: seq<Value>, stored: seq<Value>, rendered: seq<string>, js: Conversions)
    requires forall i, j :: 0 <= i < j < |checked| ==> checked[i] != checked[j]
    ensures
      var union := UnionProjects(checked, stored, rendered, js);
      && checked <= union
      && forall i, j :: 0 <= i < j < |union| ==> union[i] != union[j]
  {
    if stored != [] {
      UnionDistinct(checked, stored[..|stored| - 1], rendered, js);
    }
  }

  /**
   After any number of payloads a changed picker is saved with exactly what is checked, and what of the
   selection it showed before the edit the last payload offers no choice for.
   */
  lemma {:induction false} PickerSaves(
      sections: seq<Section>, view: View, broadcasts: seq<Broadcast>, js: Conversions, section: Section, setting: Setting)
    requires broadcasts != [] && section in sections && setting in section.settings && NeverForced(section, broadcasts)
    requires IsChanged(setting, view.original.values, view.edited.values)
    requires setting.control.ProjectsControl? && |setting.path| > 1
    requires Mergeable(sections, Rehydrations(sections, view, broadcasts, js), js)
    ensures
      var latest := broadcasts[|broadcasts| - 1].payload;
      var before, typed := Get(view.original.values, setting.path), Get(view.edited.values, setting.path);
      var saved := ValueIn(Overlay(latest, Collect(sections, Rehydrations(sections, view, broadcasts, js), js)), setting.path);
      && saved.List?
      && forall v :: v in saved.items <==>
        v in ItemsOf(WireValue(setting, typed, js)) || (v in ItemsOf(before) && IsHidden(v, latest, js))
  {
    var latest := broadcasts[|broadcasts| - 1].payload;
    var before, typed := Get(view.original.values, setting.path), Get(view.edited.values, setting.path);
    EditSurvivesBroadcasts(sections, view, broadcasts, js, section, setting);
    hide Rehydrations, Collect, Overlay, ValueIn, Mergeable, WireValue, UnionProjects;
    forall v
      ensures v in UnionProjects(ItemsOf(WireValue(setting, typed, js)), ItemsOf(before), RenderedIds(ChoicesOf(latest)), js)
        <==> v in ItemsOf(WireValue(setting, typed, js)) || (v in ItemsOf(before) && IsHidden(v, latest, js))
    {
      UnionHas(ItemsOf(WireValue(setting, typed, js)), ItemsOf(before), RenderedIds(ChoicesOf(latest)), js, v);
    }
  }

  /**
   So no project that the last payload stores without offering it is lost by the save iff each of them is checked
   or was already in the selection before the edit.
   */
  lemma {:induction false} HiddenProjectsStayIff(
      sections: seq<Section>, view: View, broadcasts: seq<Broadcast>, js: Conversions, section: Section, setting: Setting)
    requires broadcasts != [] && section in sections && setting in section.settings && NeverForced(section, broadcasts)
    requires IsChanged(setting, view.original.values, view.edited.values)
    requires setting.control.ProjectsControl? && |setting.path| > 1
    requires Mergeable(sections, Rehydrations(sections, view, broadcasts, js), js)
    ensures
      var latest := broadcasts[|broadcasts| - 1].payload;
      var before, typed := Get(view.original.values, setting.path), Get(view.edited.values, setting.path);
      var saved := ValueIn(Overlay(latest, Collect(sections, Rehydrations(sections, view, broadcasts, js), js)), setting.path);
      (forall v :: v in ItemsOf(ValueIn(latest, setting.path)) && IsHidden(v, latest, js) ==> v in ItemsOf(saved)) <==>
      (forall v :: v in ItemsOf(ValueIn(latest, setting.path)) && IsHidden(v, latest, js) ==>
        v in ItemsOf(WireValue(setting, typed, js)) || v in ItemsOf(before))
  {
    PickerSaves(sections, view, broadcasts, js, section, setting);
    hide Rehydrations, Collect, Overlay, ValueIn, Mergeable, WireValue, IsHidden;
  }

  // ---------------------------------------------------------------- a project that is dropped

  lemma {:induction false} OneSettingMerges(sections: seq<Section>, setting: Setting, view: View, js: Conversions)
    requires SettingsOf(sections) == [setting] && !IsSecret(setting) && setting.path != RETAIN_DAYS
    requires NoListInTheWay(view.original.payload, setting.path)
    ensures Mergeable(sections, view, js)
  {
    assert !HasAlias(setting, view.original.payload);
    hide Outgoing, NoListInTheWay, IsChanged, Unrelated, PresencePath, HasAlias, SettingsOf;
    var changed := ChangedIn(sections, view);
    assert [setting][..0] == [] && [] + [setting] == [setting];
    assert Changed([], view.original.values, view.edited.values) == [];
    assert changed == [] || changed == [setting];
    if changed == [setting] {
      assert changed[..0] == [];
      assert WritesOf(changed, view, js) == [Write(setting.path, Outgoing(setting, view, js))];
    }
  }

  lemma {:induction false} LatestStores(late: string)
    ensures
      var path := ["prReview", "projects"];
      var latest: Fields := map["prReview" := Rec(map["projects" := List([Text(late)])])];
      ValueIn(latest, path) == List([Text(late)]) && NoListInTheWay(latest, path) && ChoicesOf(latest) == []
  {
    var path := ["prReview", "projects"];
    assert path[1..] == ["projects"] && path[1..][1..] == [];
  }

  lemma {:induction false} OnePayload(section: Section, view: View, latest: Fields, js: Conversions)
    ensures SettingsOf([section]) == section.settings
    ensures Rehydrations([section], view, [Broadcast(latest, {})], js).original.payload == latest
  {
    assert [section][..0] == [] && SettingsOf([]) == [];
  }

  /** The only editable setting of a page, changed before one payload comes in. */
  lemma {:induction false} OneSettingSaves(
      section: Section, setting: Setting, view: View, latest: Fields, js: Conversions)
    requires section.settings == [setting] && !IsSecret(setting) && setting.path != RETAIN_DAYS
    requires IsChanged(setting, view.original.values, view.edited.values) && NoListInTheWay(latest, setting.path)
    ensures
      var after := Rehydrations([section], view, [Broadcast(latest, {})], js);
      ValueIn(Overlay(latest, Collect([section], after, js)), setting.path)
        == OutgoingOf(setting, Get(view.original.values, setting.path), Get(view.edited.values, setting.path), latest, js)
  {
    hide ValueIn, NoListInTheWay, Collect, Overlay, IsChanged, OutgoingOf, Rehydrations, SettingsOf, Mergeable;
    var after := Rehydrations([section], view, [Broadcast(latest, {})], js);
    OnePayload(section, view, latest, js);
    OneSettingMerges([section], setting, after, js);
    EditSurvivesBroadcasts([section], view, [Broadcast(latest, {})], js, section, setting);
  }

  lemma {:induction false} PickedOne(setting: Setting, latest: Fields, js: Conversions, mine: string)
    requires setting == Setting(["prReview", "projects"], ProjectsControl, None, false, false, false, false, List([]))
    ensures !ValuesEqual(List([]), List([Text(mine)]))
    ensures OutgoingOf(setting, List([]), List([Text(mine)]), latest, js) == List([Text(mine)])
    ensures setting.path != RETAIN_DAYS
  {
    assert setting.path[0] != RETAIN_DAYS[0];
  }

  /**
   A page shows an empty selection and one project is checked; meanwhile another page stores a project that is
   offered nowhere. Saving drops it.
   */
  lemma {:induction false} LateProjectIsDropped(setting: Setting, js: Conversions, mine: string, late: string)
    requires setting == Setting(["prReview", "projects"], ProjectsControl, None, false, false, false, false, List([]))
    requires mine != late && js.trim(late) != ""
    ensures
      var sections := [Section("pr-review", [setting])];
      var view := View(Hydrated(map[setting.path := List([])], map[]), Hydrated(map[setting.path := List([Text(mine)])], map[]));
      var latest: Fields := map["prReview" := Rec(map["projects" := List([Text(late)])])];
      var after := Rehydrations(sections, view, [Broadcast(latest, {})], js);
      && ValueIn(latest, setting.path) == List([Text(late)]) && IsHidden(Text(late), latest, js)
      && ValueIn(Overlay(latest, Collect(sections, after, js)), setting.path) == List([Text(mine)])
  {
    var section := Section("pr-review", [setting]);
    var view := View(Hydrated(map[setting.path := List([])], map[]), Hydrated(map[setting.path := List([Text(mine)])], map[]));
    var latest: Fields := map["prReview" := Rec(map["projects" := List([Text(late)])])];
    LatestStores(late);
    PickedOne(setting, latest, js, mine);
    hide ValueIn, NoListInTheWay, ValuesEqual, Collect, Overlay, OutgoingOf, Rehydrations;
    OneSettingSaves(section, setting, view, latest, js);
  }
}
