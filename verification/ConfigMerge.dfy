/** Layered configuration: the table merges of crates/config/src/app.rs and the JSON merge of
    crates/core/src/provider_request.rs. */
module ConfigMerge {
  import opened Wrappers

  /** A configuration or JSON value. Arrays count as leaves: no merge looks into them. */
  datatype Value = Null | Leaf(text: string) | Table(entries: map<string, Value>)

  // ---- The merge as a function on trees ----

  function Merge(base: Value, overlay: Value): Value
    decreases overlay
  {
    if base.Table? && overlay.Table? then
      Table(map key | key in base.entries.Keys + overlay.entries.Keys ::
              if key !in overlay.entries then base.entries[key]
              else if key in base.entries then Merge(base.entries[key], overlay.entries[key])
              else overlay.entries[key])
    else overlay
  }

  /** The table part of the way through a merge, when only the keys in `done` were treated. */
  function MergeSome(base: map<string, Value>, overlay: map<string, Value>, done: set<string>): map<string, Value> {
    map key | key in base.Keys + (overlay.Keys * done) ::
      if key !in overlay || key !in done then base[key]
      else if key in base then Merge(base[key], overlay[key])
      else overlay[key]
  }

  /** `merge_toml_values`: overlay entries are taken in any order and replace or extend `base`. */
  method MergeTomlValues(base: Value, overlay: Value) returns (merged: Value)
    ensures merged == Merge(base, overlay)
    decreases overlay
  {
    if !base.Table? || !overlay.Table? {
      return overlay;
    }
    var table := base.entries;
    var left := overlay.entries.Keys;
    while left != {}
      invariant left <= overlay.entries.Keys
      invariant table == MergeSome(base.entries, overlay.entries, overlay.entries.Keys - left)
      decreases left
    {
      var key :| key in left;
      if key in table {
        var existing := MergeTomlValues(table[key], overlay.entries[key]);
        table := table[key := existing];
      } else {
        table := table[key := overlay.entries[key]];
      }
      left := left - {key};
    }
    merged := Table(table);
  }

  /** `merge_json_value`: a missing member is first inserted as null and then merged into. */
  method MergeJsonValue(base: Value, overlay: Value) returns (merged: Value)
    ensures merged == Merge(base, overlay)
    decreases overlay
  {
    if !overlay.Table? {
      return overlay;
    }
    if !base.Table? {
      return Table(overlay.entries);
    }
    var members := base.entries;
    var left := overlay.entries.Keys;
    while left != {}
      invariant left <= overlay.entries.Keys
      invariant members == MergeSome(base.entries, overlay.entries, overlay.entries.Keys - left)
      decreases left
    {
      var key :| key in left;
      if key !in members {
        members := members[key := Null];
      }
      var member := MergeJsonValue(members[key], overlay.entries[key]);
      members := members[key := member];
      left := left - {key};
    }
    merged := Table(members);
  }

  /** `merge_model_request_body`: turn fields over provider defaults. */
  method MergeModelRequestBody(defaults: Option<Value>, turnExtra: Option<Value>) returns (result: Option<Value>)
    ensures result == if turnExtra.None? then defaults
                      else if defaults.None? then turnExtra
                      else Some(Merge(defaults.value, turnExtra.value))
  {
    result := defaults;
    if turnExtra.None? {
      return;
    }
    if result.None? {
      return turnExtra;
    }
    var merged := MergeJsonValue(result.value, turnExtra.value);
    result := Some(merged);
  }

  // ---- Laws of the merge ----

  /** Merging a value into itself changes nothing. */
  lemma {:induction false} MergeIdempotent(v: Value)
    ensures Merge(v, v) == v
    decreases v
  {
    if v.Table? {
      forall key | key in v.entries
        ensures Merge(v, v).entries[key] == v.entries[key]
      {
        MergeIdempotent(v.entries[key]);
      }
      assert Merge(v, v).entries == v.entries;
    }
  }

  type Path = seq<string>

  /** The value at a path, if tables lead there. */
  function Lookup(v: Value, path: Path): Option<Value>
    decreases |path|
  {
    if path == [] then Some(v)
    else if v.Table? && path[0] in v.entries then Lookup(v.entries[path[0]], path[1..])
    else None
  }

  /** The setting at a path: a value that is not a table. */
  function Setting(v: Value, path: Path): Option<Value> {
    var found := Lookup(v, path);
    if found.Some? && !found.value.Table? then found else None
  }

  /** A layer decides a path when it has a setting there, a setting above it, or a table at it:
      then nothing a lower layer says about the path survives. */
  predicate Decides(v: Value, path: Path)
    decreases |path|
  {
    if !v.Table? || path == [] then true
    else path[0] in v.entries && Decides(v.entries[path[0]], path[1..])
  }

  lemma {:induction false} UndecidedIsUnset(v: Value, path: Path)
    requires !Decides(v, path)
    ensures Setting(v, path).None?
    decreases |path|
  {
    if path[0] in v.entries {
      UndecidedIsUnset(v.entries[path[0]], path[1..]);
    }
  }

  /** Without any assumption on the shapes: the overlay's word counts where it decides, the base's
      elsewhere. */
  lemma {:induction false} MergeSetting(base: Value, overlay: Value, path: Path)
    ensures Setting(Merge(base, overlay), path)
         == if Decides(overlay, path) then Setting(overlay, path) else Setting(base, path)
    decreases |path|
  {
    if base.Table? && overlay.Table? && path != [] && path[0] in base.entries && path[0] in overlay.entries {
      MergeSetting(base.entries[path[0]], overlay.entries[path[0]], path[1..]);
    } else if !Decides(overlay, path) {
      UndecidedIsUnset(overlay, path);
    }
  }

  /** A table, possibly empty, stands at the path. */
  predicate HasTable(v: Value, path: Path) {
    Lookup(v, path).Some? && Lookup(v, path).value.Table?
  }

  lemma {:induction false} UndecidedHasNoTable(v: Value, path: Path)
    requires !Decides(v, path)
    ensures !HasTable(v, path)
    decreases |path|
  {
    if path[0] in v.entries {
      UndecidedHasNoTable(v.entries[path[0]], path[1..]);
    }
  }

  /** Tables come from the same side as settings do; with `MergeSetting` this determines the merge. */
  lemma {:induction false} MergeTables(base: Value, overlay: Value, path: Path)
    ensures HasTable(Merge(base, overlay), path) <==> HasTable(if Decides(overlay, path) then overlay else base, path)
    decreases |path|
  {
    if base.Table? && overlay.Table? && path != [] && path[0] in base.entries && path[0] in overlay.entries {
      MergeTables(base.entries[path[0]], overlay.entries[path[0]], path[1..]);
    } else if !Decides(overlay, path) {
      UndecidedHasNoTable(overlay, path);
    }
  }

  lemma AtKey(v: Value, key: string)
    requires v.Table?
    ensures key in v.entries <==> Setting(v, [key]).Some? || HasTable(v, [key])
  {
    assert [key][1..] == [];
    if key in v.entries {
      assert Lookup(v, [key]) == Lookup(v.entries[key], []) == Some(v.entries[key]);
    }
  }

  /** Values with the same settings and tables are equal. */
  lemma {:induction false} SameEverywhere(a: Value, b: Value)
    requires forall path: Path :: Setting(a, path) == Setting(b, path) && (HasTable(a, path) <==> HasTable(b, path))
    ensures a == b
    decreases a
  {
    assert Lookup(a, []) == Some(a) && Lookup(b, []) == Some(b);
    assert Setting(a, []) == Setting(b, []) && (HasTable(a, []) <==> HasTable(b, []));
    if a.Table? {
      forall key
        ensures key in a.entries <==> key in b.entries
        ensures key in a.entries ==> a.entries[key] == b.entries[key]
      {
        assert Setting(a, [key]) == Setting(b, [key]) && (HasTable(a, [key]) <==> HasTable(b, [key]));
        AtKey(a, key);
        AtKey(b, key);
        if key in a.entries && key in b.entries {
          forall path: Path
            ensures Setting(a.entries[key], path) == Setting(b.entries[key], path)
            ensures HasTable(a.entries[key], path) <==> HasTable(b.entries[key], path)
          {
            assert ([key] + path)[1..] == path;
            assert Setting(a, [key] + path) == Setting(b, [key] + path) && (HasTable(a, [key] + path) <==> HasTable(b, [key] + path));
          }
          SameEverywhere(a.entries[key], b.entries[key]);
        }
      }
      assert a.entries == b.entries;
    }
  }

  /** Layers merged from lowest to highest priority. */
  function MergeLayers(layers: seq<Value>): Value
    requires layers != []
  {
    if |layers| == 1 then layers[0] else Merge(MergeLayers(layers[..|layers| - 1]), layers[|layers| - 1])
  }

  /** The highest layer that decides a path; the lowest layer when none does. */
  function HighestDeciding(layers: seq<Value>, path: Path): (i: nat)
    requires layers != []
    ensures i < |layers|
    ensures forall j | i < j < |layers| :: !Decides(layers[j], path)
    ensures i > 0 ==> Decides(layers[i], path)
  {
    if |layers| == 1 || Decides(layers[|layers| - 1], path) then |layers| - 1
    else HighestDeciding(layers[..|layers| - 1], path)
  }

  /** Every setting of the merged layers is that of the highest layer deciding its path. */
  lemma {:induction false} LayeredSetting(layers: seq<Value>, path: Path)
    requires layers != []
    ensures Setting(MergeLayers(layers), path) == Setting(layers[HighestDeciding(layers, path)], path)
  {
    if |layers| > 1 {
      MergeSetting(MergeLayers(layers[..|layers| - 1]), layers[|layers| - 1], path);
      LayeredSetting(layers[..|layers| - 1], path);
    }
  }

  /** Where no layer puts a setting against another layer's table, a layer decides a path exactly by
      setting it, so each setting comes from the highest layer that has it. */
  predicate Undisputed(v: Value, path: Path)
    decreases |path|
  {
    if path == [] then !v.Table?
    else v.Table? && (path[0] in v.entries ==> Undisputed(v.entries[path[0]], path[1..]))
  }

  lemma {:induction false} UndisputedDecides(v: Value, path: Path)
    requires Undisputed(v, path)
    ensures Decides(v, path) <==> Setting(v, path).Some?
    decreases |path|
  {
    if path != [] && path[0] in v.entries {
      UndisputedDecides(v.entries[path[0]], path[1..]);
    }
  }

  lemma HighestDefiningWins(layers: seq<Value>, path: Path, i: nat)
    requires i < |layers| && forall layer | layer in layers :: Undisputed(layer, path)
    requires Setting(layers[i], path).Some?
    requires forall j | i < j < |layers| :: Setting(layers[j], path).None?
    ensures Setting(MergeLayers(layers), path) == Setting(layers[i], path)
  {
    forall j: nat | j < |layers|
      ensures Decides(layers[j], path) <==> Setting(layers[j], path).Some?
    {
      assert layers[j] in layers;
      UndisputedDecides(layers[j], path);
    }
    LayeredSetting(layers, path);
  }

  // ---- The permission section ----

  const PERMISSION := "permission"

  function Section(v: Value): Option<Value> {
    if v.Table? && PERMISSION in v.entries then Some(v.entries[PERMISSION]) else None
  }

  function ReplacePermission(base: Value, overlay: Value): Value {
    var section := Section(overlay);
    if section.Some? && base.Table? then Table(base.entries[PERMISSION := section.value]) else base
  }

  function MergeConfig(base: Value, overlay: Value): Value {
    Merge(ReplacePermission(base, overlay), overlay)
  }

  method ReplacePermissionSectionIfPresent(base: Value, overlay: Value) returns (replaced: Value)
    ensures replaced == ReplacePermission(base, overlay)
  {
    replaced := base;
    if !overlay.Table? || PERMISSION !in overlay.entries {
      return;
    }
    if replaced.Table? {
      replaced := Table(replaced.entries[PERMISSION := overlay.entries[PERMISSION]]);
    }
  }

  method MergeAppConfigValues(base: Value, overlay: Value) returns (merged: Value)
    ensures merged == MergeConfig(base, overlay)
  {
    var replaced := ReplacePermissionSectionIfPresent(base, overlay);
    merged := MergeTomlValues(replaced, overlay);
  }

  /** The section is replaced as a unit; everything beside it is merged. */
  lemma PermissionIsAUnit(base: Value, overlay: Value)
    requires base.Table? && overlay.Table?
    ensures Section(MergeConfig(base, overlay)) == if Section(overlay).Some? then Section(overlay) else Section(base)
    ensures MergeConfig(base, overlay).Table?
    ensures MergeConfig(base, overlay).entries - {PERMISSION} == Merge(base, overlay).entries - {PERMISSION}
  {
    if Section(overlay).Some? {
      MergeIdempotent(Section(overlay).value);
    }
  }

  /** `load`: defaults, then the user's, the project's and the command line's layers where present. */
  method LoadLayers(defaults: Value, user: Option<Value>, project: Option<Value>, cli: Value) returns (merged: Value)
    ensures merged == LoadAll([defaults] + Present(user) + Present(project) + [cli])
    ensures defaults.Table? && cli.Table? && (user.Some? ==> user.value.Table?) && (project.Some? ==> project.value.Table?) ==>
              && (forall path | path != [] && path[0] != PERMISSION :: Setting(merged, path) == ByPriority(defaults, user, project, cli, path))
              && Section(merged) == SectionByPriority(defaults, user, project, cli)
  {
    merged := defaults;
    ghost var layers := [defaults];
    LoadOne(defaults);
    if user.Some? {
      merged := MergeAppConfigValues(merged, user.value);
      LoadMore(layers, user.value);
      layers := layers + [user.value];
    }
    assert layers == [defaults] + Present(user);
    if project.Some? {
      merged := MergeAppConfigValues(merged, project.value);
      LoadMore(layers, project.value);
      layers := layers + [project.value];
    }
    assert layers == [defaults] + Present(user) + Present(project);
    merged := MergeAppConfigValues(merged, cli);
    LoadMore(layers, cli);
    if defaults.Table? && cli.Table? && (user.Some? ==> user.value.Table?) && (project.Some? ==> project.value.Table?) {
      forall path: Path | path != [] && path[0] != PERMISSION
        ensures Setting(merged, path) == ByPriority(defaults, user, project, cli, path)
      {
        LoadedByPriority(defaults, user, project, cli, path);
      }
      LoadedSection(defaults, user, project, cli);
    }
  }

  /** Whose word counts: the command line's, else the project's, else the user's, else the defaults'. */
  function ByPriority(defaults: Value, user: Option<Value>, project: Option<Value>, cli: Value, path: Path): Option<Value> {
    if Decides(cli, path) then Setting(cli, path)
    else if project.Some? && Decides(project.value, path) then Setting(project.value, path)
    else if user.Some? && Decides(user.value, path) then Setting(user.value, path)
    else Setting(defaults, path)
  }

  function SectionByPriority(defaults: Value, user: Option<Value>, project: Option<Value>, cli: Value): Option<Value> {
    if Section(cli).Some? then Section(cli)
    else if project.Some? && Section(project.value).Some? then Section(project.value)
    else if user.Some? && Section(user.value).Some? then Section(user.value)
    else Section(defaults)
  }

  lemma MergedSettingBeside(base: Value, overlay: Value, path: Path)
    requires base.Table? && overlay.Table? && path != [] && path[0] != PERMISSION
    ensures MergeConfig(base, overlay).Table?
    ensures Setting(MergeConfig(base, overlay), path) == if Decides(overlay, path) then Setting(overlay, path) else Setting(base, path)
  {
    PermissionIsAUnit(base, overlay);
    MergeSetting(base, overlay, path);
    SameSettingBeside(MergeConfig(base, overlay), Merge(base, overlay), path);
  }

  lemma SameSettingBeside(a: Value, b: Value, path: Path)
    requires a.Table? && b.Table? && a.entries - {PERMISSION} == b.entries - {PERMISSION}
    requires path != [] && path[0] != PERMISSION
    ensures Setting(a, path) == Setting(b, path)
  {
    var key := path[0];
    assert key in a.entries <==> key in a.entries - {PERMISSION};
    assert key in b.entries <==> key in b.entries - {PERMISSION};
    if key in a.entries {
      assert (a.entries - {PERMISSION})[key] == (b.entries - {PERMISSION})[key];
    }
  }

  /** The layers one after the other, for a setting outside the permission section. */
  lemma {:induction false} LoadedStep(layers: seq<Value>, layer: Value, path: Path)
    requires layers != [] && layer.Table? && LoadAll(layers).Table?
    requires path != [] && path[0] != PERMISSION
    ensures LoadAll(layers + [layer]).Table?
    ensures Setting(LoadAll(layers + [layer]), path) == if Decides(layer, path) then Setting(layer, path) else Setting(LoadAll(layers), path)
    ensures Section(LoadAll(layers + [layer])) == if Section(layer).Some? then Section(layer) else Section(LoadAll(layers))
  {
    LoadMore(layers, layer);
    MergedSettingBeside(LoadAll(layers), layer, path);
    PermissionIsAUnit(LoadAll(layers), layer);
  }

  lemma LoadedThrough(defaults: Value, user: Option<Value>, project: Option<Value>, cli: Value, path: Path)
    requires defaults.Table? && cli.Table? && (user.Some? ==> user.value.Table?) && (project.Some? ==> project.value.Table?)
    requires path != [] && path[0] != PERMISSION
    ensures var loaded := LoadAll([defaults] + Present(user) + Present(project) + [cli]);
            Setting(loaded, path) == ByPriority(defaults, user, project, cli, path) && Section(loaded) == SectionByPriority(defaults, user, project, cli)
  {
    hide Setting, Decides, Section, LoadAll;
    var layers := [defaults];
    LoadOne(defaults);
    assert [defaults] + [] == [defaults];
    if user.Some? {
      LoadedStep(layers, user.value, path);
      layers := layers + [user.value];
    }
    assert layers == [defaults] + Present(user);
    assert layers + [] == layers;
    if project.Some? {
      LoadedStep(layers, project.value, path);
      layers := layers + [project.value];
    }
    assert layers == [defaults] + Present(user) + Present(project);
    LoadedStep(layers, cli, path);
  }

  lemma LoadedByPriority(defaults: Value, user: Option<Value>, project: Option<Value>, cli: Value, path: Path)
    requires defaults.Table? && cli.Table? && (user.Some? ==> user.value.Table?) && (project.Some? ==> project.value.Table?)
    requires path != [] && path[0] != PERMISSION
    ensures Setting(LoadAll([defaults] + Present(user) + Present(project) + [cli]), path) == ByPriority(defaults, user, project, cli, path)
  {
    LoadedThrough(defaults, user, project, cli, path);
  }

  lemma LoadedSection(defaults: Value, user: Option<Value>, project: Option<Value>, cli: Value)
    requires defaults.Table? && cli.Table? && (user.Some? ==> user.value.Table?) && (project.Some? ==> project.value.Table?)
    ensures Section(LoadAll([defaults] + Present(user) + Present(project) + [cli])) == SectionByPriority(defaults, user, project, cli)
  {
    LoadedThrough(defaults, user, project, cli, [""]);
  }

  function Present(layer: Option<Value>): seq<Value> {
    if layer.Some? then [layer.value] else []
  }

  function LoadAll(layers: seq<Value>): Value
    requires layers != []
  {
    if |layers| == 1 then layers[0] else MergeConfig(LoadAll(layers[..|layers| - 1]), layers[|layers| - 1])
  }

  lemma LoadOne(layer: Value)
    ensures LoadAll([layer]) == layer
  {
  }

  lemma LoadMore(layers: seq<Value>, layer: Value)
    requires layers != []
    ensures LoadAll(layers + [layer]) == MergeConfig(LoadAll(layers), layer)
  {
    assert (layers + [layer])[..|layers|] == layers;
  }

  /** The permission section of the highest layer that supplies one. */
  function HighestSection(layers: seq<Value>): Option<Value> {
    if layers == [] then None
    else if Section(layers[|layers| - 1]).Some? then Section(layers[|layers| - 1])
    else HighestSection(layers[..|layers| - 1])
  }

  /** However many layers there are: `[permission]` is exactly that of the highest layer supplying
      it, and every other entry is the plain layered merge. */
  lemma {:induction false} LoadedConfig(layers: seq<Value>)
    requires layers != [] && forall layer | layer in layers :: layer.Table?
    ensures LoadAll(layers).Table? && MergeLayers(layers).Table?
    ensures Section(LoadAll(layers)) == HighestSection(layers)
    ensures LoadAll(layers).entries - {PERMISSION} == MergeLayers(layers).entries - {PERMISSION}
  {
    if |layers| > 1 {
      var front, last := layers[..|layers| - 1], layers[|layers| - 1];
      assert last in layers;
      LoadedConfig(front);
      PermissionIsAUnit(LoadAll(front), last);
      SameBeside(LoadAll(front), MergeLayers(front), last);
    } else {
      assert layers[0] in layers;
      assert layers[..0] == [];
    }
  }

  lemma SameBeside(a: Value, b: Value, overlay: Value)
    requires a.Table? && b.Table? && overlay.Table?
    requires a.entries - {PERMISSION} == b.entries - {PERMISSION}
    ensures Merge(a, overlay).entries - {PERMISSION} == Merge(b, overlay).entries - {PERMISSION}
  {
    forall key | key != PERMISSION
      ensures key in a.entries <==> key in b.entries
      ensures key in a.entries ==> a.entries[key] == b.entries[key]
    {
      assert key in a.entries <==> key in a.entries - {PERMISSION};
      assert key in b.entries <==> key in b.entries - {PERMISSION};
      if key in a.entries {
        assert (a.entries - {PERMISSION})[key] == (b.entries - {PERMISSION})[key];
      }
    }
  }

  /** A loaded setting outside `[permission]` is that of the highest layer deciding its path. */
  lemma LoadedSetting(layers: seq<Value>, path: Path)
    requires layers != [] && forall layer | layer in layers :: layer.Table?
    requires path != [] && path[0] != PERMISSION
    ensures Setting(LoadAll(layers), path) == Setting(layers[HighestDeciding(layers, path)], path)
  {
    LoadedConfig(layers);
    LayeredSetting(layers, path);
    var key := path[0];
    var a, b := LoadAll(layers).entries, MergeLayers(layers).entries;
    assert key in a <==> key in a - {PERMISSION};
    assert key in b <==> key in b - {PERMISSION};
    if key in a {
      assert (a - {PERMISSION})[key] == (b - {PERMISSION})[key];
    }
  }
}
