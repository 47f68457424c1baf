/** The tool-access panel of an agent (ToolAccessPanel.tsx): a fixed catalogue of 21
    tools in seven categories, four presets, and a panel state made of a
    tool -> enabled dictionary and a "has unsaved changes" flag. */
module ToolAccess {

  datatype Category = Category(name: string, description: string, tools: seq<string>)

  /** TOOL_CATEGORIES: seven categories, none of them empty. */
  function Categories(): (cats: seq<Category>)
    ensures |cats| == 7
    ensures forall i :: 0 <= i < |cats| ==> cats[i].tools != []
  {
    [ Category("Fs", "File system operations", ["read", "write", "edit", "apply_patch"]),
      Category("Runtime", "Command execution", ["exec", "process"]),
      Category("Web", "Web access", ["web_search", "web_fetch"]),
      Category("Memory", "Memory operations", ["memory_search", "memory_get"]),
      Category("Sessions", "Session management",
               ["sessions_list", "sessions_history", "sessions_send", "sessions_spawn", "session_status", "agents_list"]),
      Category("UI", "Browser and canvas", ["browser", "canvas"]),
      Category("Messaging", "Communication", ["message", "tts", "voice_call"]) ]
  }

  /** `cats.flatMap(c => c.tools)`. */
  function Flatten(cats: seq<Category>): seq<string> {
    if cats == [] then [] else cats[0].tools + Flatten(cats[1..])
  }

  /** Every tool of the catalogue, in category order. */
  function AllTools(): seq<string> {
    Flatten(Categories())
  }

  function CatalogueSet(): set<string> {
    set t | t in AllTools()
  }

  /** PRESETS. */
  datatype Preset = StatusPreset | CodingPreset | MessagingPreset | FullPreset

  /** The tools a preset enables; every one of them is a catalogue tool. */
  function PresetTools(p: Preset): (r: seq<string>)
    ensures forall t :: t in r ==> t in AllTools()
  {
    AllToolsListed();
    match p
    case StatusPreset => ["session_status"]
    case CodingPreset => ["read", "write", "edit", "exec", "process", "web_search", "web_fetch", "memory_search", "memory_get"]
    case MessagingPreset => ["message", "tts", "sessions_send", "session_status"]
    case FullPreset => AllTools()
  }

  /** `cats.reduce((sum, cat) => sum + cat.tools.length, 0)`. */
  function SumSizes(cats: seq<Category>): nat {
    if cats == [] then 0 else |cats[0].tools| + SumSizes(cats[1..])
  }

  /** totalCount: the number of entries of the flattened catalogue. */
  function TotalCount(): (n: nat)
    ensures n == |AllTools()|
  {
    FlattenLength(Categories());
    SumSizes(Categories())
  }

  /** enabledCount: the number of keys of the dictionary mapped to true. */
  function EnabledCount(tools: map<string, bool>): (n: nat)
    ensures n <= |tools|
    ensures n == 0 <==> forall t :: t in tools ==> !tools[t]
  {
    var on := set t | t in tools && tools[t];
    SubsetSize(on, tools.Keys);
    assert on == {} <==> forall t :: t in tools ==> !tools[t] by {
      forall t | t in tools && tools[t] ensures t in on {
      }
      if on != {} {
        var t :| t in on;
      }
    }
    |on|
  }

  /** A subset is no larger than its superset. */
  lemma {:induction false} SubsetSize(a: set<string>, b: set<string>)
    requires a <= b
    ensures |a| <= |b|
    decreases |b|
  {
    if a != {} {
      var x :| x in a;
      SubsetSize(a - {x}, b - {x});
    }
  }

  /** `tools[t]` read as a boolean: a missing key is falsy. */
  predicate IsEnabled(tools: map<string, bool>, t: string) {
    t in tools && tools[t]
  }

  /** categoryEnabled: how many of the listed tools are enabled. */
  function CountEnabled(names: seq<string>, tools: map<string, bool>): (n: nat)
    ensures n <= |names|
    ensures n == |names| <==> forall i :: 0 <= i < |names| ==> IsEnabled(tools, names[i])
  {
    if names == [] then 0
    else
      var rest := CountEnabled(names[1..], tools);
      assert forall i :: 1 <= i < |names| ==> names[i] == names[1..][i - 1];
      (if IsEnabled(tools, names[0]) then 1 else 0) + rest
  }

  /** Counting distributes over concatenation, so the count is the number of
      enabled entries, one per enabled name. */
  lemma {:induction false} CountEnabledAppend(a: seq<string>, b: seq<string>, tools: map<string, bool>)
    ensures CountEnabled(a + b, tools) == CountEnabled(a, tools) + CountEnabled(b, tools)
  {
    if a == [] {
      assert a + b == b;
    } else {
      assert (a + b)[0] == a[0] && (a + b)[1..] == a[1..] + b;
      CountEnabledAppend(a[1..], b, tools);
    }
  }

  // ------------------------------------------------------------ catalogue facts

  lemma {:induction false} FlattenLength(cats: seq<Category>)
    ensures |Flatten(cats)| == SumSizes(cats)
  {
    if cats != [] {
      FlattenLength(cats[1..]);
    }
  }

  lemma {:induction false} FlattenSnoc(cats: seq<Category>, c: Category)
    ensures Flatten(cats + [c]) == Flatten(cats) + c.tools
  {
    if cats == [] {
      assert cats + [c] == [c];
    } else {
      assert (cats + [c])[0] == cats[0] && (cats + [c])[1..] == cats[1..] + [c];
      FlattenSnoc(cats[1..], c);
    }
  }

  predicate Distinct(s: seq<string>) {
    forall i, j :: 0 <= i < j < |s| ==> s[i] != s[j]
  }

  lemma {:induction false} DistinctSetSize(s: seq<string>)
    requires Distinct(s)
    ensures |set t | t in s| == |s|
  {
    if s != [] {
      DistinctSetSize(s[1..]);
      assert (set t | t in s) == {s[0]} + (set t | t in s[1..]);
      assert s[0] !in s[1..];
    }
  }

  /** The catalogue, flattened. */
  lemma AllToolsListed()
    ensures AllTools() == CatalogueList()
  {
    var cats := Categories();
    assert Flatten(cats[6..]) == cats[6].tools;
    assert Flatten(cats[5..]) == cats[5].tools + Flatten(cats[6..]);
    assert Flatten(cats[4..]) == cats[4].tools + Flatten(cats[5..]);
    assert Flatten(cats[3..]) == cats[3].tools + Flatten(cats[4..]);
    assert Flatten(cats[2..]) == cats[2].tools + Flatten(cats[3..]);
    assert Flatten(cats[1..]) == cats[1].tools + Flatten(cats[2..]);
  }

  function CatalogueList(): seq<string> {
    ["read", "write", "edit", "apply_patch", "exec", "process", "web_search", "web_fetch",
     "memory_search", "memory_get", "sessions_list", "sessions_history", "sessions_send",
     "sessions_spawn", "session_status", "agents_list", "browser", "canvas",
     "message", "tts", "voice_call"]
  }

  lemma CatalogueListDistinct()
    ensures Distinct(CatalogueList())
  {
  }

  /** The catalogue names 21 different tools, and the total count is 21. */
  lemma CatalogueHas21Tools()
    ensures TotalCount() == 21 == |AllTools()|
    ensures Distinct(AllTools())
    ensures |CatalogueSet()| == 21
  {
    AllToolsListed();
    CatalogueListDistinct();
    FlattenLength(Categories());
    DistinctSetSize(AllTools());
  }

  // ------------------------------------------------------------ the panel

  /** The dictionary a fill of the catalogue produces: exactly the catalogue tools, each
      mapped to `enabled(tool)`. */
  predicate IsCatalogueFill(tools: map<string, bool>, enabled: string -> bool) {
    && tools.Keys == CatalogueSet()
    && forall t :: t in tools ==> tools[t] == enabled(t)
  }

  /** The nested `TOOL_CATEGORIES.forEach(cat => cat.tools.forEach(...))` that builds a
      fresh dictionary, shared by applyPreset, enableAll and disableAll. */
  method FillCatalogue(cats: seq<Category>, enabled: string -> bool) returns (newTools: map<string, bool>)
    ensures newTools.Keys == set t | t in Flatten(cats)
    ensures forall t :: t in newTools ==> newTools[t] == enabled(t)
  {
    newTools := map[];
    ghost var seen: seq<string> := [];
    var c := 0;
    while c < |cats|
      invariant 0 <= c <= |cats|
      invariant seen == Flatten(cats[..c])
      invariant forall t :: t in newTools <==> t in seen
      invariant forall t :: t in newTools ==> newTools[t] == enabled(t)
    {
      var names := cats[c].tools;
      ghost var before := seen;
      var k := 0;
      while k < |names|
        invariant 0 <= k <= |names|
        invariant seen == before + names[..k]
        invariant forall t :: t in newTools <==> t in seen
        invariant forall t :: t in newTools ==> newTools[t] == enabled(t)
      {
        newTools := newTools[names[k] := enabled(names[k])];
        assert names[..k + 1] == names[..k] + [names[k]];
        seen := seen + [names[k]];
        k := k + 1;
      }
      assert names[..k] == names;
      assert cats[..c + 1] == cats[..c] + [cats[c]];
      FlattenSnoc(cats[..c], cats[c]);
      c := c + 1;
    }
    assert cats[..c] == cats;
    assert newTools.Keys == set t | t in seen;
  }

  /** The panel state: the tool dictionary and whether it has unsaved changes. */
  class ToolAccessPanel {
    var tools: map<string, bool>
    var hasChanges: bool

    constructor (initialTools: map<string, bool>)
      ensures tools == initialTools && !hasChanges
    {
      tools := initialTools;
      hasChanges := false;
    }

    /** toggleTool: only key `tool` is set; every other key keeps its value. */
    method ToggleTool(tool: string, enabled: bool)
      modifies this
      ensures tools == old(tools)[tool := enabled]
      ensures hasChanges
    {
      tools := tools[tool := enabled];
      hasChanges := true;
    }

    /** applyPreset: exactly the catalogue tools, each enabled iff the preset lists it. */
    method ApplyPreset(preset: Preset)
      modifies this
      ensures IsCatalogueFill(tools, t => t in PresetTools(preset))
      ensures hasChanges
    {
      var newTools := FillCatalogue(Categories(), t => t in PresetTools(preset));
      tools := newTools;
      hasChanges := true;
    }

    /** enableAll: every catalogue tool enabled, so all of them are counted. */
    method EnableAll()
      modifies this
      ensures IsCatalogueFill(tools, t => true)
      ensures EnabledCount(tools) == TotalCount()
      ensures hasChanges
    {
      var newTools := FillCatalogue(Categories(), t => true);
      tools := newTools;
      hasChanges := true;
      EnableAllCount(tools);
    }

    /** disableAll: every catalogue tool disabled, so none is counted. */
    method DisableAll()
      modifies this
      ensures IsCatalogueFill(tools, t => false)
      ensures EnabledCount(tools) == 0
      ensures hasChanges
    {
      var newTools := FillCatalogue(Categories(), t => false);
      tools := newTools;
      hasChanges := true;
      DisableAllCount(tools);
    }

    /** handleSave: the current dictionary goes to onSave unchanged; the flag clears. */
    method HandleSave() returns (saved: map<string, bool>)
      modifies this
      ensures saved == old(tools) && tools == old(tools)
      ensures !hasChanges
    {
      saved := tools;
      hasChanges := false;
    }
  }

  // ------------------------------------------------------------ counting facts

  /** After enableAll the enabled count equals the total count, 21. */
  lemma EnableAllCount(tools: map<string, bool>)
    requires IsCatalogueFill(tools, t => true)
    ensures EnabledCount(tools) == TotalCount() == 21
  {
    CatalogueHas21Tools();
    assert (set t | t in tools && tools[t]) == CatalogueSet();
  }

  /** After disableAll nothing is enabled. */
  lemma DisableAllCount(tools: map<string, bool>)
    requires IsCatalogueFill(tools, t => false)
    ensures EnabledCount(tools) == 0
  {
    assert (set t | t in tools && tools[t]) == {};
  }

  /** applyPreset("full") yields the same dictionary as enableAll. */
  lemma FullPresetIsEnableAll(a: map<string, bool>, b: map<string, bool>)
    requires IsCatalogueFill(a, t => t in PresetTools(FullPreset))
    requires IsCatalogueFill(b, t => true)
    ensures a == b
  {
    forall t | t in a ensures a[t] == b[t] {
      assert t in CatalogueSet();
    }
  }

  /** A preset fill enables exactly the preset's tools, so it counts their number. */
  lemma PresetCount(p: Preset, tools: map<string, bool>)
    requires IsCatalogueFill(tools, t => t in PresetTools(p))
    ensures EnabledCount(tools) == |set t | t in PresetTools(p)|
  {
    assert (set t | t in tools && tools[t]) == set t | t in PresetTools(p);
  }
}
