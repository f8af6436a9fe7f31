/** The five debug modes and the record of their on/off flags. */
module Modes {
  /** A key of the controller's `state` record. */
  datatype Mode = Wire | Highlight | StyleInfo | Tags | Grid

  /** `state`: one flag per mode, all false at construction. */
  datatype ModeState = ModeState(wire: bool, grid: bool, tags: bool, highlight: bool, styleInfo: bool)

  const AllOff := ModeState(false, false, false, false, false)

  /** `state[m]` */
  function Flag(s: ModeState, m: Mode): bool
  {
    match m
    case Wire => s.wire
    case Highlight => s.highlight
    case StyleInfo => s.styleInfo
    case Tags => s.tags
    case Grid => s.grid
  }

  /** `state[m] = on`: that flag takes the value and the other four keep theirs. */
  function WithFlag(s: ModeState, m: Mode, on: bool): (r: ModeState)
    ensures Flag(r, m) == on
    ensures forall m' :: m' != m ==> Flag(r, m') == Flag(s, m')
  {
    match m
    case Wire => s.(wire := on)
    case Highlight => s.(highlight := on)
    case StyleInfo => s.(styleInfo := on)
    case Tags => s.(tags := on)
    case Grid => s.(grid := on)
  }

  /** A state is fixed by its five flags. */
  lemma FlagsDetermineState(s: ModeState, t: ModeState)
    requires forall m :: Flag(s, m) == Flag(t, m)
    ensures s == t
  {
    assert Flag(s, Wire) == Flag(t, Wire) && Flag(s, Grid) == Flag(t, Grid) && Flag(s, Tags) == Flag(t, Tags);
    assert Flag(s, Highlight) == Flag(t, Highlight) && Flag(s, StyleInfo) == Flag(t, StyleInfo);
  }

  lemma AllOffFlags()
    ensures forall m :: !Flag(AllOff, m)
  {
  }

  /** Setting a flag twice keeps the last value. */
  lemma SetTwice(s: ModeState, m: Mode, a: bool, b: bool)
    ensures WithFlag(WithFlag(s, m, a), m, b) == WithFlag(s, m, b)
  {
    FlagsDetermineState(WithFlag(WithFlag(s, m, a), m, b), WithFlag(s, m, b));
  }

  /** Setting two different flags gives the same state in either order. */
  lemma SetsCommute(s: ModeState, m: Mode, a: bool, m': Mode, c: bool)
    requires m != m'
    ensures WithFlag(WithFlag(s, m, a), m', c) == WithFlag(WithFlag(s, m', c), m, a)
  {
    FlagsDetermineState(WithFlag(WithFlag(s, m, a), m', c), WithFlag(WithFlag(s, m', c), m, a));
  }

  /** Flipping a flag twice gives back the state: toggleMode is its own inverse on the flags. */
  lemma FlipTwice(s: ModeState, m: Mode)
    ensures var once := WithFlag(s, m, !Flag(s, m)); WithFlag(once, m, !Flag(once, m)) == s
  {
    var once := WithFlag(s, m, !Flag(s, m));
    FlagsDetermineState(WithFlag(once, m, !Flag(once, m)), s);
  }

  /** The key string a mode has in `state` and in a toolbar button's `data-mode`. */
  function ModeKey(m: Mode): string
  {
    match m
    case Wire => "wire"
    case Highlight => "highlight"
    case StyleInfo => "styleInfo"
    case Tags => "tags"
    case Grid => "grid"
  }

  lemma ModeKeyInjective(m: Mode, m': Mode)
    ensures ModeKey(m) == ModeKey(m') ==> m == m'
  {
    if m != m' {
      assert ModeKey(m)[0] != ModeKey(m')[0] || |ModeKey(m)| != |ModeKey(m')|;
    }
  }

  /** The toolbar's buttons, in order, and their captions. */
  const ToolbarModes: seq<Mode> := [Wire, Highlight, StyleInfo, Tags, Grid]

  function Caption(m: Mode): string
  {
    match m
    case Wire => "Wireframe"
    case Highlight => "Highlight"
    case StyleInfo => "Style Info"
    case Tags => "Tags"
    case Grid => "Grid"
  }

  /** `Object.keys(state)`: the keys in the order the record declares them. */
  const StateKeys: seq<Mode> := [Wire, Grid, Tags, Highlight, StyleInfo]

  /** Both lists name every mode exactly once. */
  lemma ModeListsComplete(m: Mode)
    ensures m in ToolbarModes && m in StateKeys
    ensures forall i, j :: 0 <= i < j < |ToolbarModes| ==> ToolbarModes[i] != ToolbarModes[j]
    ensures forall i, j :: 0 <= i < j < |StateKeys| ==> StateKeys[i] != StateKeys[j]
  {
  }
}

/**
 * The constructor's options: every field optional, each missing one taken from the
 * defaults (grid of 12 columns, accent #ff6b6b, no panel, no shortcuts, prefix "pdk-").
 * The options type itself is declared in src/types.ts, which is not part of this model;
 * its fields here are the ones the defaults name.
 */
module Options {
  import opened Wrappers

  datatype DebugOptions = DebugOptions(
    gridColumns: Option<int>, accent: Option<string>, panel: Option<bool>,
    shortcuts: Option<bool>, prefix: Option<string>)

  /** `this.opts` after the constructor: every field present. */
  datatype Config = Config(gridColumns: int, accent: string, panel: bool, shortcuts: bool, prefix: string)

  const Defaults := Config(12, "#ff6b6b", false, false, "pdk-")

  function Pick<T>(o: Option<T>, default: T): T
  {
    if o.Some? then o.value else default
  }

  /** `{ ...defaults, ...(options || {}) }` */
  function Resolve(options: Option<DebugOptions>): (c: Config)
    ensures options.None? ==> c == Defaults
    ensures options.Some? ==> var o := options.value;
      (o.gridColumns.Some? ==> c.gridColumns == o.gridColumns.value) && (o.gridColumns.None? ==> c.gridColumns == 12)
      && (o.accent.Some? ==> c.accent == o.accent.value) && (o.accent.None? ==> c.accent == "#ff6b6b")
      && (o.panel.Some? ==> c.panel == o.panel.value) && (o.panel.None? ==> !c.panel)
      && (o.shortcuts.Some? ==> c.shortcuts == o.shortcuts.value) && (o.shortcuts.None? ==> !c.shortcuts)
      && (o.prefix.Some? ==> c.prefix == o.prefix.value) && (o.prefix.None? ==> c.prefix == "pdk-")
  {
    if options.None? then Defaults
    else
      var o := options.value;
      Config(Pick(o.gridColumns, Defaults.gridColumns), Pick(o.accent, Defaults.accent),
             Pick(o.panel, Defaults.panel), Pick(o.shortcuts, Defaults.shortcuts), Pick(o.prefix, Defaults.prefix))
  }

  /** buildGrid's `gridColumns || 12`: a zero count falls back to twelve. */
  function ColumnCount(c: Config): (n: int)
    ensures n != 0
    ensures c.gridColumns != 0 ==> n == c.gridColumns
  {
    if c.gridColumns == 0 then 12 else c.gridColumns
  }
}
