/**
 The settings page: what it shows of a payload, how it takes in a new payload while something is edited,
 and what it sends when the edits are saved.
 */
module SettingsModel {
  import opened Options
  import opened SettingsValues
  import opened SettingsPaths

  datatype Control = NumberControl | TextControl | PasswordControl | ProjectsControl | ReadOnlyControl | OtherControl

  datatype Setting = Setting(
    path: Path, control: Control, prefName: Option<string>, isFileOnly: bool, isPosthogProjects: bool,
    isNullable: bool, zeroIsNull: bool, defaultValue: Value)

  datatype Section = Section(id: string, settings: seq<Setting>)

  /** The language's own conversions between texts, numbers and values. */
  datatype Conversions = Conversions(
    stringOf: Value -> string, numberOf: Value -> Number, trim: string -> string, lowerCase: string -> string,
    joined: seq<Value> -> string, numbersIn: string -> seq<Number>)

  type Values = map<Path, Value>

  /** Displayed values, and the payload they were read from. */
  datatype Hydrated = Hydrated(values: Values, payload: Fields)

  datatype View = View(original: Hydrated, edited: Hydrated)

  const STORED_SECRET_MASK := "\U{2022}\U{2022}\U{2022}\U{2022}\U{2022}\U{2022}\U{2022}\U{2022}\U{2022}\U{2022}\U{2022}\U{2022}"
  const RETAIN_DAYS: Path := ["memory", "retainDays"]
  const MEMORY_RETAIN_DAYS: Path := ["memory", "memoryRetainDays"]

  function Get(values: Values, path: Path): Value {
    if path in values then values[path] else Absent
  }

  predicate IsNothing(v: Value) {
    v.Absent? || v.Null?
  }

  function Or(v: Value, other: Value): Value {
    if IsNothing(v) then other else v
  }

  predicate IsReadOnly(setting: Setting) {
    setting.isFileOnly || setting.control.ReadOnlyControl?
  }

  predicate IsSecret(setting: Setting) {
    setting.control.PasswordControl?
  }

  function PresencePath(path: Path): Path {
    path[..|path| - 1] + [path[|path| - 1] + "Configured"]
  }

  // ---------------------------------------------------------------- showing and sending one value

  function DisplayValue(setting: Setting, value: Value, js: Conversions): Value {
    if !setting.isPosthogProjects then value
    else if value.List? then Text(js.joined(value.items))
    else Or(value, Text("all"))
  }

  predicate AtMostZero(n: Number) {
    (n.Finite? && n.value <= 0.0) || n.MinusZero? || (n.Infinite? && n.isNegative)
  }

  function FiniteOnly(numbers: seq<Number>): seq<Value> {
    if numbers == [] then []
    else
      var last := numbers[|numbers| - 1];
      FiniteOnly(numbers[..|numbers| - 1]) + (if last.Finite? || last.MinusZero? then [Num(last)] else [])
  }

  function WireValue(setting: Setting, value: Value, js: Conversions): Value {
    if setting.control.NumberControl? then
      if setting.isNullable && (IsNothing(value) || js.trim(js.stringOf(value)) == "") then Null
      else if setting.zeroIsNull && AtMostZero(js.numberOf(value)) then Null
      else Num(js.numberOf(value))
    else if setting.isPosthogProjects then
      var text := js.trim(js.stringOf(Or(value, Text(""))));
      if text == "" || js.lowerCase(text) == "all" then Text("all") else List(FiniteOnly(js.numbersIn(text)))
    else if setting.control.TextControl? || setting.control.PasswordControl? then
      Text(js.trim(js.stringOf(Or(value, Text("")))))
    else value
  }

  // ---------------------------------------------------------------- reading a payload

  function Hydrate1(setting: Setting, payload: Fields, js: Conversions): Value {
    if setting.prefName.Some? then
      var name := setting.prefName.value;
      var prefs := if "prefs" in payload then payload["prefs"] else Absent;
      var direct := if "pref:" + name in payload then payload["pref:" + name] else Absent;
      DisplayValue(setting, Or(Or(Member(prefs, name), direct), setting.defaultValue), js)
    else if IsSecret(setting) then
      Text(if ValueIn(payload, PresencePath(setting.path)) == Bool(true) then STORED_SECRET_MASK else "")
    else
      var own := ValueIn(payload, setting.path);
      var value := if setting.path == RETAIN_DAYS then Or(ValueIn(payload, MEMORY_RETAIN_DAYS), own) else own;
      DisplayValue(setting, Or(value, setting.defaultValue), js)
  }

  function HydrateAll(settings: seq<Setting>, payload: Fields, js: Conversions): Values {
    if settings == [] then map[]
    else
      var last, before := settings[|settings| - 1], HydrateAll(settings[..|settings| - 1], payload, js);
      if IsReadOnly(last) then before else before[last.path := Hydrate1(last, payload, js)]
  }

  function SettingsOf(sections: seq<Section>): seq<Setting> {
    if sections == [] then []
    else SettingsOf(sections[..|sections| - 1]) + sections[|sections| - 1].settings
  }

  function Hydrate(sections: seq<Section>, payload: Fields, js: Conversions): Hydrated {
    Hydrated(HydrateAll(SettingsOf(sections), payload, js), payload)
  }

  // ---------------------------------------------------------------- taking in a new payload

  predicate IsEdited(setting: Setting, original: Values, edited: Values) {
    setting.prefName.None? && !ValuesEqual(Get(original, setting.path), Get(edited, setting.path))
  }

  predicate IsDirty(section: Section, original: Values, edited: Values) {
    exists setting :: setting in section.settings && IsEdited(setting, original, edited)
  }

  function CopySettings(to: Values, from: Values, settings: seq<Setting>): Values {
    if settings == [] then to
    else
      var path := settings[|settings| - 1].path;
      CopySettings(to, from, settings[..|settings| - 1])[path := Get(from, path)]
  }

  /** Whether a section keeps what it shows. */
  predicate Keeps(section: Section, current: View, forced: set<string>) {
    section.id !in forced && IsDirty(section, current.original.values, current.edited.values)
  }

  /** `from` names which of the two sides is copied. */
  function KeepDirty(sections: seq<Section>, latest: Values, from: Values, current: View, forced: set<string>): Values {
    if sections == [] then latest
    else
      var last := sections[|sections| - 1];
      var kept := KeepDirty(sections[..|sections| - 1], latest, from, current, forced);
      if Keeps(last, current, forced) then CopySettings(kept, from, last.settings) else kept
  }

  function Rehydrate(
      sections: seq<Section>, payload: Fields, current: Option<View>, forced: set<string>, js: Conversions): View
  {
    var latest := Hydrate(sections, payload, js);
    if current.None? then View(latest, latest)
    else
      var view := current.value;
      View(latest.(values := KeepDirty(sections, latest.values, view.original.values, view, forced)),
           latest.(values := KeepDirty(sections, latest.values, view.edited.values, view, forced)))
  }

  datatype Broadcast = Broadcast(payload: Fields, forced: set<string>)

  function Rehydrations(sections: seq<Section>, view: View, broadcasts: seq<Broadcast>, js: Conversions): View {
    if broadcasts == [] then view
    else
      var last := broadcasts[|broadcasts| - 1];
      Rehydrate(sections, last.payload, Some(Rehydrations(sections, view, broadcasts[..|broadcasts| - 1], js)),
        last.forced, js)
  }

  // ---------------------------------------------------------------- saving

  predicate IsChanged(setting: Setting, original: Values, edited: Values) {
    && !IsReadOnly(setting)
    && !(IsSecret(setting) && Get(edited, setting.path) == Text(STORED_SECRET_MASK))
    && IsEdited(setting, original, edited)
  }

  function Changed(settings: seq<Setting>, original: Values, edited: Values): seq<Setting> {
    if settings == [] then []
    else
      var last := settings[|settings| - 1];
      Changed(settings[..|settings| - 1], original, edited) + (if IsChanged(last, original, edited) then [last] else [])
  }

  /** The project ids the payload offered. */
  function RenderedIds(choices: seq<Value>): seq<string> {
    if choices == [] then []
    else
      var id := Member(choices[|choices| - 1], "id");
      RenderedIds(choices[..|choices| - 1]) + (if id.Text? then [id.text] else [])
  }

  /** Checked projects, then the stored ones that could not be shown. */
  function UnionProjects(checked: seq<Value>, stored: seq<Value>, rendered: seq<string>, js: Conversions): seq<Value> {
    if stored == [] then checked
    else
      var id := stored[|stored| - 1];
      var selection := UnionProjects(checked, stored[..|stored| - 1], rendered, js);
      if !id.Text? || js.trim(id.text) == "" || id.text in rendered || id in selection then selection
      else selection + [id]
  }

  function ItemsOf(v: Value): seq<Value> {
    if v.List? then v.items else []
  }

  function ChoicesOf(payload: Fields): seq<Value> {
    if "projectChoices" in payload then ItemsOf(payload["projectChoices"]) else []
  }

  /** What is sent for a setting that showed `before` and shows `typed` now, over this payload. */
  function OutgoingOf(setting: Setting, before: Value, typed: Value, payload: Fields, js: Conversions): Value {
    var wire := WireValue(setting, typed, js);
    if setting.control.ProjectsControl? && |setting.path| > 1
    then List(UnionProjects(ItemsOf(wire), ItemsOf(before), RenderedIds(ChoicesOf(payload)), js))
    else wire
  }

  /** What is sent for a changed setting. */
  function Outgoing(setting: Setting, view: View, js: Conversions): Value {
    OutgoingOf(setting, Get(view.original.values, setting.path), Get(view.edited.values, setting.path),
      view.original.payload, js)
  }

  /** The memory retention setting is stored under a second name if the payload has that. */
  predicate HasAlias(setting: Setting, payload: Fields) {
    setting.path == RETAIN_DAYS && !IsNothing(ValueIn(payload, MEMORY_RETAIN_DAYS))
  }

  /** The blocks collected so far, and which of them were started from the stored ones. */
  datatype Blocks = Blocks(payload: Fields, initialized: set<string>)

  function Collect1(blocks: Blocks, setting: Setting, view: View, js: Conversions): Blocks {
    var path, top, stored := setting.path, setting.path[0], view.original.payload;
    var value := Outgoing(setting, view, js);
    if |path| == 1 then blocks.(payload := blocks.payload[top := value])
    else
      var started :=
        if top in blocks.initialized then blocks
        else Blocks(blocks.payload[top := Rec(ChildRec(stored, top))], blocks.initialized + {top});
      var written := SetAt(started.payload, path, value);
      started.(payload := if HasAlias(setting, stored) then SetAt(written, MEMORY_RETAIN_DAYS, value) else written)
  }

  function CollectAll(changed: seq<Setting>, view: View, js: Conversions): Blocks {
    if changed == [] then Blocks(map[], {})
    else Collect1(CollectAll(changed[..|changed| - 1], view, js), changed[|changed| - 1], view, js)
  }

  /** Stored secrets are never sent back as presence flags. */
  function DeletePresence(payload: Fields, settings: seq<Setting>): Fields {
    if settings == [] then payload
    else
      var last, before := settings[|settings| - 1], DeletePresence(payload, settings[..|settings| - 1]);
      if IsSecret(last) then DeleteAt(before, PresencePath(last.path)) else before
  }

  function Collect(sections: seq<Section>, view: View, js: Conversions): Fields {
    var settings := SettingsOf(sections);
    var changed := Changed(settings, view.original.values, view.edited.values);
    if changed == [] then map[] else DeletePresence(CollectAll(changed, view, js).payload, settings)
  }
}
