/**
 What is sent for one setting, and what a save keeps back: values survive being shown and sent again, the second
 name of the retention setting is kept in step, and the flags of stored secrets never travel back.
 */
module SettingsWire {
  import opened Options
  import opened SettingsValues
  import opened SettingsPaths
  import opened SettingsModel
  import opened SettingsLaws

  // ---------------------------------------------------------------- one value there and back

  /** A number control sends null iff it is left blank where it may be, or set to nothing where that means none. */
  lemma {:induction false} NumberIsNullIff(setting: Setting, value: Value, js: Conversions)
    requires setting.control.NumberControl?
    ensures
      var isBlank := value.Absent? || value.Null? || js.trim(js.stringOf(value)) == "";
      var n := js.numberOf(value);
      var isNothing := n == MinusZero || n == Infinite(true) || (n.Finite? && n.value <= 0.0);
      WireValue(setting, value, js) ==
        if (setting.isNullable && isBlank) || (setting.zeroIsNull && isNothing) then Null else Num(n)
  {
  }

  function NumbersOf(items: seq<Value>): seq<Number>
    requires forall i :: 0 <= i < |items| ==> items[i].Num?
  {
    if items == [] then [] else NumbersOf(items[..|items| - 1]) + [items[|items| - 1].number]
  }

  lemma {:induction false} FiniteAreKept(items: seq<Value>)
    requires forall i :: 0 <= i < |items| ==> items[i].Num? && (items[i].number.Finite? || items[i].number.MinusZero?)
    ensures FiniteOnly(NumbersOf(items)) == items
  {
    if items != [] {
      var init, last := items[..|items| - 1], items[|items| - 1];
      FiniteAreKept(init);
      assert NumbersOf(items)[..|NumbersOf(items)| - 1] == NumbersOf(init);
      assert NumbersOf(items) == NumbersOf(init) + [last.number];
    }
  }

  /** The conversions lose nothing of this stored value. */
  ghost predicate Survives(setting: Setting, stored: Value, js: Conversions) {
    if setting.isPosthogProjects && !setting.control.NumberControl? then
      || (stored == Text("all") && js.trim(js.stringOf(stored)) == "all" && js.lowerCase("all") == "all")
      || (stored.List?
          && (forall i :: 0 <= i < |stored.items| ==>
            stored.items[i].Num? && (stored.items[i].number.Finite? || stored.items[i].number.MinusZero?))
          && var text := js.trim(js.stringOf(Text(js.joined(stored.items))));
          text != "" && js.lowerCase(text) != "all" && js.numbersIn(text) == NumbersOf(stored.items))
    else if setting.control.NumberControl? then
      && !setting.isPosthogProjects
      && ((stored.Null? && setting.isNullable)
          || (stored.Num? && js.numberOf(stored) == stored.number && js.trim(js.stringOf(stored)) != ""
              && !(setting.zeroIsNull && AtMostZero(stored.number))))
    else if setting.control.TextControl? || setting.control.PasswordControl? then
      stored.Text? && js.stringOf(stored) == stored.text && js.trim(stored.text) == stored.text
    else true
  }

  /** Such a value, shown and sent without being touched, is what was stored. */
  lemma {:induction false} WireRoundTrip(setting: Setting, stored: Value, js: Conversions)
    requires Survives(setting, stored, js)
    ensures WireValue(setting, DisplayValue(setting, stored, js), js) == stored
  {
    if setting.isPosthogProjects && !setting.control.NumberControl? && stored.List? {
      FiniteAreKept(stored.items);
    }
  }

  // ---------------------------------------------------------------- what is shown of a payload

  lemma {:induction false} OneDown(v: Value, part: string)
    ensures ValueAt(v, [part]) == Member(v, part)
  {
    assert [part][1..] == [];
  }

  /** A preference shows the stored one, else the one sent beside the settings, else the default. */
  lemma {:induction false} PreferenceShown(setting: Setting, payload: Fields, js: Conversions, name: string)
    requires setting.prefName == Some(name) && !setting.isPosthogProjects
    ensures
      var stored := ValueIn(payload, ["prefs", name]);
      var beside := ValueIn(payload, ["pref:" + name]);
      Hydrate1(setting, payload, js) ==
        if !IsNothing(stored) then stored else if !IsNothing(beside) then beside else setting.defaultValue
  {
    assert ["prefs", name][1..] == [name];
    OneDown(Member(Rec(payload), "prefs"), name);
    OneDown(Rec(payload), "pref:" + name);
    hide ListFields;
  }

  /** The retention setting shows its second name's value if there is one. */
  lemma {:induction false} RetentionShown(setting: Setting, payload: Fields, js: Conversions)
    requires setting.prefName.None? && !IsSecret(setting) && !setting.isPosthogProjects && setting.path == RETAIN_DAYS
    ensures
      var second, own := ValueIn(payload, MEMORY_RETAIN_DAYS), ValueIn(payload, RETAIN_DAYS);
      Hydrate1(setting, payload, js) ==
        if !IsNothing(second) then second else if !IsNothing(own) then own else setting.defaultValue
  {
  }

  // ---------------------------------------------------------------- the second name of the retention setting

  lemma {:induction false} AliasWrite(changed: seq<Setting>, view: View, js: Conversions, i: nat) returns (k: nat)
    requires i < |changed| && changed[i].path == RETAIN_DAYS
    requires !IsNothing(ValueIn(view.original.payload, MEMORY_RETAIN_DAYS))
    ensures
      var writes := WritesOf(changed, view, js);
      k < |writes| && writes[k] == Write(MEMORY_RETAIN_DAYS, Outgoing(changed[i], view, js))
  {
    assert |RETAIN_DAYS| > 1;
    hide Outgoing, ValueIn;
    var before := changed[..|changed| - 1];
    if i == |before| {
      k := |WritesOf(before, view, js)| + 1;
    } else {
      k := AliasWrite(before, view, js, i);
    }
  }

  /** Saving a changed retention setting writes it under its second name too, if the payload has that. */
  lemma {:induction false} RetentionIsSavedTwice(sections: seq<Section>, view: View, js: Conversions, setting: Setting)
    requires Mergeable(sections, view, js) && setting in ChangedIn(sections, view)
    requires setting.path == RETAIN_DAYS && !IsNothing(ValueIn(view.original.payload, MEMORY_RETAIN_DAYS))
    ensures
      var saved := Overlay(view.original.payload, Collect(sections, view, js));
      ValueIn(saved, RETAIN_DAYS) == ValueIn(saved, MEMORY_RETAIN_DAYS) == Outgoing(setting, view, js)
  {
    hide SetAll, WritesOf, Outgoing, CollectAll, DeletePresence, Overlay, ValueIn, Unrelated, NoListInTheWay, TopsApart;
    var payload, changed := view.original.payload, ChangedIn(sections, view);
    var writes, blocks := WritesOf(changed, view, js), CollectAll(changed, view, js).payload;
    SaveIsThreeWayMerge(sections, view, js, setting, setting.path);
    ApartMeansTopsApart(changed, view, js);
    CollectOverlays(changed, view, js);
    var i :| 0 <= i < |changed| && changed[i] == setting;
    var k := AliasWrite(changed, view, js, i);
    SetAllSets(payload, writes, k);
    FlagsUnderOverlay(payload, blocks, SettingsOf(sections), MEMORY_RETAIN_DAYS);
  }

  // ---------------------------------------------------------------- the flags of stored secrets

  /** What is not there is not there after a delete elsewhere either. */
  lemma {:induction false} DeleteAddsNothing(fields: Fields, path: Path, other: Path)
    requires ValueIn(fields, other).Absent?
    ensures ValueIn(DeleteAt(fields, path), other).Absent?
    decreases |other|
  {
    hide ListFields;
    var after := DeleteAt(fields, path);
    if |other| == 1 {
      assert other == [other[0]];
      OneDown(Rec(fields), other[0]);
      OneDown(Rec(after), other[0]);
    } else if path[0] == other[0] && |path| > 1 && path[0] in fields && fields[path[0]].Rec? {
      ChildReads(fields, other);
      ChildReads(after, other);
      DeleteAddsNothing(fields[path[0]].fields, path[1..], other[1..]);
    } else if |path| == 1 && path[0] == other[0] {
      assert Member(Rec(after), other[0]) == Absent;
      AbsentBelow(other[1..]);
    } else {
      assert Member(Rec(after), other[0]) == Member(Rec(fields), other[0]);
    }
  }

  /** No list stands strictly above the end of the path. */
  predicate ThroughObjects(fields: Fields, path: Path)
    decreases |path|
  {
    |path| == 1 || path[0] !in fields ||
    (!fields[path[0]].List? && ThroughObjects(ChildRec(fields, path[0]), path[1..]))
  }

  /** A deleted path reads as nothing, unless a list stands in its way. */
  lemma {:induction false} DeletedIsGone(fields: Fields, path: Path)
    requires ThroughObjects(fields, path)
    ensures ValueIn(DeleteAt(fields, path), path).Absent?
    decreases |path|
  {
    hide ListFields;
    var after := DeleteAt(fields, path);
    if |path| == 1 {
      assert path == [path[0]];
      OneDown(Rec(after), path[0]);
    } else if path[0] in fields && fields[path[0]].Rec? {
      DeletedIsGone(fields[path[0]].fields, path[1..]);
      ChildReads(after, path);
    } else {
      NothingBelow(Member(Rec(fields), path[0]), path[1..]);
    }
  }

  lemma {:induction false} DeleteStaysThroughObjects(fields: Fields, path: Path, other: Path)
    requires ThroughObjects(fields, other)
    ensures ThroughObjects(DeleteAt(fields, path), other)
    decreases |other|
  {
    if |other| > 1 && |path| > 1 && path[0] == other[0] && path[0] in fields && fields[path[0]].Rec? {
      DeleteStaysThroughObjects(fields[path[0]].fields, path[1..], other[1..]);
    }
  }

  /** The flag that a secret is stored is never among what is sent, unless a list stands in its way. */
  lemma {:induction false} FlagIsNotSent(blocks: Fields, settings: seq<Setting>, setting: Setting)
    requires setting in settings && IsSecret(setting) && ThroughObjects(blocks, PresencePath(setting.path))
    ensures ValueIn(DeletePresence(blocks, settings), PresencePath(setting.path)).Absent?
  {
    hide ValueIn, DeleteAt, ThroughObjects, PresencePath;
    var before, last := settings[..|settings| - 1], settings[|settings| - 1];
    assert settings == before + [last];
    var flag := PresencePath(setting.path);
    if setting in before {
      FlagIsNotSent(blocks, before, setting);
      if IsSecret(last) {
        DeleteAddsNothing(DeletePresence(blocks, before), PresencePath(last.path), flag);
      }
    } else {
      PresenceStaysThroughObjects(blocks, before, flag);
      DeletedIsGone(DeletePresence(blocks, before), flag);
    }
  }

  lemma {:induction false} PresenceStaysThroughObjects(blocks: Fields, settings: seq<Setting>, other: Path)
    requires ThroughObjects(blocks, other)
    ensures ThroughObjects(DeletePresence(blocks, settings), other)
  {
    hide DeleteAt, ThroughObjects, PresencePath;
    if settings != [] {
      var before, last := settings[..|settings| - 1], settings[|settings| - 1];
      PresenceStaysThroughObjects(blocks, before, other);
      if IsSecret(last) {
        DeleteStaysThroughObjects(DeletePresence(blocks, before), PresencePath(last.path), other);
      }
    }
  }

  // ---------------------------------------------------------------- texts

  /** A text control sends its text without the blanks around it, and nothing as the empty text. */
  lemma {:induction false} TextIsTrimmed(setting: Setting, value: Value, js: Conversions)
    requires (setting.control.TextControl? || setting.control.PasswordControl?) && !setting.isPosthogProjects
    ensures
      WireValue(setting, value, js)
        == Text(js.trim(js.stringOf(if value.Absent? || value.Null? then Text("") else value)))
  {
  }

  /** A list of project numbers that is not there is shown as all of them, and sent as that. */
  lemma {:induction false} NothingMeansAll(setting: Setting, value: Value, js: Conversions)
    requires setting.isPosthogProjects && !setting.control.NumberControl? && (value.Absent? || value.Null?)
    requires js.trim(js.stringOf(Text("all"))) == "all" && js.lowerCase("all") == "all"
    ensures DisplayValue(setting, value, js) == Text("all")
    ensures WireValue(setting, DisplayValue(setting, value, js), js) == Text("all")
  {
  }

  // ---------------------------------------------------------------- which settings are sent

  /**
   A setting is sent iff it can be edited, is no preference, differs from what it showed, and is not a secret that
   still shows its mask.
   */
  lemma {:induction false} SentIff(sections: seq<Section>, view: View, setting: Setting)
    ensures
      var shown, typed := Get(view.original.values, setting.path), Get(view.edited.values, setting.path);
      setting in ChangedIn(sections, view) <==>
        && setting in SettingsOf(sections) && !setting.isFileOnly && !setting.control.ReadOnlyControl?
        && setting.prefName.None? && !ValuesEqual(shown, typed)
        && !(setting.control.PasswordControl? && typed == Text(STORED_SECRET_MASK))
  {
    ChangedIff(SettingsOf(sections), view.original.values, view.edited.values, setting);
  }

  /** A section that is told to start over shows the new payload, if no other section that is not told so shows its paths. */
  lemma {:induction false} ForcedShowsLatest(
      sections: seq<Section>, payload: Fields, view: View, forced: set<string>, js: Conversions, setting: Setting)
    requires forall section, other :: section in sections && other in section.settings && other.path == setting.path ==>
      section.id in forced
    ensures
      var after := Rehydrate(sections, payload, Some(view), forced, js);
      && Get(after.original.values, setting.path) == Get(Hydrate(sections, payload, js).values, setting.path)
      && Get(after.edited.values, setting.path) == Get(Hydrate(sections, payload, js).values, setting.path)
  {
    var latest := Hydrate(sections, payload, js).values;
    assert !IsKept(sections, view, forced, setting.path);
    KeptValue(sections, latest, view.original.values, view, forced, setting.path);
    KeptValue(sections, latest, view.edited.values, view, forced, setting.path);
    hide Hydrate, KeepDirty, IsKept;
  }
}
