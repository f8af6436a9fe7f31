/**
 * The earlier overlay controller of src/index.ts. It builds the same elements as the
 * newer one and keeps the same five flags, but its mode switches walk
 * `querySelectorAll("body *")` (every element strictly below body, each checked for
 * the internal marker on its own), turning tags off keeps the labels, it has no memo
 * tables and no debounce, its shortcut reset clears the toolbar's buttons with
 * `querySelectorAll("button")`, and destroy leaves the keydown handler bound.
 * Handlers are methods called directly: `OnHover` for mouseover, `HideHover` for
 * mouseout, `OnKeyDown` for keydown.
 */
module LegacyKit {
  import opened Wrappers
  import opened Dom
  import opened Geometry
  import opened Traversal
  import opened Modes
  import opened Options
  import opened Browser
  import opened Builders
  import opened Effects
  import Memo
  import DebugKit

  /** A reference that is set names an element createElement has already handed out. */
  predicate Below(o: Option<Uid>, bound: Uid)
  {
    o.Some? ==> o.value < bound
  }

  /** updateHighlight's box: the margins and paddings parsed from the declaration h as the page reports them now. */
  function RawBox(h: Memo.StyleHandle, rect: Rect, read: (Memo.StyleHandle, string) -> real): (r: Layers)
    ensures r == DebugKit.HighlightBox(map[], h, rect, read)
    ensures r.padding.width == Round(rect.width) && r.padding.height == Round(rect.height)
  {
    BoxModel(rect,
      Sides(read(h, "margin-top"), read(h, "margin-right"), read(h, "margin-bottom"), read(h, "margin-left")),
      Sides(read(h, "padding-top"), read(h, "padding-right"), read(h, "padding-bottom"), read(h, "padding-left")))
  }

  /**
   * The two controllers place the overlay at the same box whenever the newer one's
   * memo table agrees with what the page reports, in particular on a first hover,
   * when the table is empty.
   */
  lemma SameBoxWhenCacheAgrees(cache: map<Memo.StyleHandle, map<string, real>>, h: Memo.StyleHandle, rect: Rect,
                               read: (Memo.StyleHandle, string) -> real)
    requires forall p :: p in Memo.Was(cache, h) ==> Memo.Was(cache, h)[p] == read(h, p)
    ensures DebugKit.HighlightBox(cache, h, rect, read) == RawBox(h, rect, read)
    ensures DebugKit.HighlightBox(map[], h, rect, read) == RawBox(h, rect, read)
  {
  }

  class PseudoDebugKit {
    const opts: Config
    /** buildUI's column count, `gridColumns || 12`, fixed with the options. */
    const columns: int
    const page: Page
    var root: Option<Uid>
    var styleEl: Option<Uid>
    var gridEl: Option<Uid>
    var toolbarEl: Option<Uid>
    var state: ModeState
    var overlayRoot: Option<Uid>
    var overlayContent: Option<Uid>
    var overlayPadding: Option<Uid>
    var overlayMargin: Option<Uid>
    var stylePanel: Option<Uid>

    /**
     * An attached controller holds its style element, overlay and panel, and the
     * toolbar and grid when the panel option is on. Every reference was handed out by
     * createElement; the toolbar and grid exist only with the panel option; the
     * overlay's four layers and the panel are distinct elements.
     */
    ghost predicate Valid()
      reads this`root, this`styleEl, this`toolbarEl, this`gridEl, this`overlayRoot, this`overlayContent
      reads this`overlayPadding, this`overlayMargin, this`stylePanel, page
    {
      page.Valid()
      && Below(styleEl, page.nextUid) && Below(gridEl, page.nextUid) && Below(toolbarEl, page.nextUid)
      && Below(overlayRoot, page.nextUid) && Below(overlayContent, page.nextUid)
      && Below(overlayPadding, page.nextUid) && Below(overlayMargin, page.nextUid) && Below(stylePanel, page.nextUid)
      && (!opts.panel ==> toolbarEl.None? && gridEl.None?)
      && (toolbarEl.Some? && gridEl.Some? ==> toolbarEl.value != gridEl.value)
      && OverlayRefs()
      && (overlayRoot.Some? && stylePanel.Some? ==> stylePanel.value != overlayRoot.value)
      && (root.Some? ==> styleEl.Some? && overlayRoot.Some? && stylePanel.Some?)
      && (root.Some? && opts.panel ==> toolbarEl.Some? && gridEl.Some?)
    }

    /** The overlay's four layers, when it is built, are distinct references. */
    ghost predicate OverlayRefs()
      reads this`overlayRoot, this`overlayContent, this`overlayPadding, this`overlayMargin
    {
      overlayRoot.Some? ==>
        overlayContent.Some? && overlayPadding.Some? && overlayMargin.Some?
        && Distinct4(overlayRoot.value, overlayMargin.value, overlayPadding.value, overlayContent.value)
    }

    /** The options over the defaults; nothing attached, every flag off. */
    constructor (options: Option<DebugOptions>, page: Page)
      requires page.Valid()
      ensures Valid() && opts == Resolve(options) && columns == ColumnCount(opts) && this.page == page
      ensures root.None? && styleEl.None? && gridEl.None? && toolbarEl.None? && stylePanel.None?
      ensures overlayRoot.None? && overlayContent.None? && overlayPadding.None? && overlayMargin.None?
      ensures state == AllOff
    {
      opts := Resolve(options);
      columns := ColumnCount(Resolve(options));
      this.page := page;
      root := None;
      styleEl := None;
      gridEl := None;
      toolbarEl := None;
      state := AllOff;
      overlayRoot := None;
      overlayContent := None;
      overlayPadding := None;
      overlayMargin := None;
      stylePanel := None;
    }

    /** isEnabled: true exactly while init has set the root and destroy has not cleared it. */
    function IsEnabled(): (r: bool)
      reads this`root
      ensures r <==> root.Some?
    {
      root.Some?
    }

    /** getState: a copy of the flags. */
    function GetState(): (r: ModeState)
      reads this`state
      ensures forall m: Mode :: Flag(r, m) == Flag(state, m)
    {
      state
    }

    // ----- init and the elements it builds -----

    /**
     * What init's builders leave, from the page's allocation counter, head and body
     * before them: the style element in head; with the panel option the toolbar and the
     * grid (uids next + 1 and next + 7) appended to body; then the overlay's four
     * layers and the style panel, on consecutive uids, appended after them.
     */
    ghost predicate Built(next: Uid, head: seq<Node>, body: Node)
      reads this`styleEl, this`toolbarEl, this`gridEl, this`overlayRoot, this`overlayContent, this`overlayPadding
      reads this`overlayMargin, this`stylePanel, page`head, page`body, page`nextUid
    {
      styleEl == Some(next) && page.head == head + [StyleElement(next)]
      && overlayRoot.Some? && overlayRoot.value + 5 == page.nextUid && next < overlayRoot.value
      && (opts.panel ==> toolbarEl == Some(next + 1) && gridEl == Some(next + 7) && next + 7 < overlayRoot.value)
      && overlayContent == Some(overlayRoot.value + 1) && overlayPadding == Some(overlayRoot.value + 2)
      && overlayMargin == Some(overlayRoot.value + 3) && stylePanel == Some(overlayRoot.value + 4)
      && body.Element? && page.body == body.(children := body.children
           + InitElements(opts.prefix, opts.panel, columns, next + 1, next + 7, overlayRoot.value, stylePanel.value))
    }

    /**
     * init: a second call changes nothing. The first sets the root, builds the
     * elements (Built) and, when asked to, binds a keydown handler, whose id
     * (handler) the controller does not keep.
     */
    method Init(r: Uid)
      requires Valid()
      modifies this`root, this`styleEl, this`toolbarEl, this`gridEl, this`overlayRoot
      modifies this`overlayContent, this`overlayPadding, this`overlayMargin, this`stylePanel
      modifies page`head, page`body, page`nextUid, page`keydown, page`nextHandler
      ensures Valid()
      ensures old(root).Some? ==> unchanged(this) && unchanged(page)
      ensures old(root).None? ==>
                Attached(r, old(page.nextUid), old(page.head), old(page.body), old(page.keydown), old(page.nextHandler))
    {
      if root.Some? {
        return;
      }
      Attach(r);
    }

    /** What the first init call leaves: the root set, the elements built, handler bound when asked to. */
    ghost predicate Attached(r: Uid, next: Uid, head: seq<Node>, body: Node, keydown: set<nat>, handler: nat)
      reads this`root, this`styleEl, this`toolbarEl, this`gridEl, this`overlayRoot
      reads this`overlayContent, this`overlayPadding, this`overlayMargin, this`stylePanel
      reads page`head, page`body, page`nextUid, page`keydown
    {
      root == Some(r) && IsEnabled() && Built(next, head, body)
      && (opts.shortcuts ==> handler !in keydown && page.keydown == keydown + {handler})
      && (!opts.shortcuts ==> page.keydown == keydown)
    }

    /** init past its guard. */
    method Attach(r: Uid)
      requires Valid() && root.None?
      modifies this`root, this`styleEl, this`toolbarEl, this`gridEl, this`overlayRoot
      modifies this`overlayContent, this`overlayPadding, this`overlayMargin, this`stylePanel
      modifies page`head, page`body, page`nextUid, page`keydown, page`nextHandler
      ensures Valid()
      ensures Attached(r, old(page.nextUid), old(page.head), old(page.body), old(page.keydown), old(page.nextHandler))
    {
      ghost var next, head, body := page.nextUid, page.head, page.body;
      BuildElements();
      SetRoot(r, next, head, body);
    }

    /** init's last steps, once the elements exist: the root stored, then bindShortcuts when asked to. */
    method SetRoot(r: Uid, ghost next: Uid, ghost head: seq<Node>, ghost body: Node)
      requires Valid() && root.None? && Built(next, head, body)
      requires opts.panel ==> toolbarEl.Some? && gridEl.Some?
      modifies this`root, page`keydown, page`nextHandler
      ensures Valid() && Attached(r, next, head, body, old(page.keydown), old(page.nextHandler))
    {
      root := Some(r);
      if opts.shortcuts {
        BindShortcuts();
      }
    }

    /** bindShortcuts: the handler registered on window; nothing keeps a way to remove it. */
    method BindShortcuts()
      requires Valid()
      modifies page`keydown, page`nextHandler
      ensures Valid()
      ensures old(page.nextHandler) !in old(page.keydown) && page.keydown == old(page.keydown) + {old(page.nextHandler)}
    {
      var h := page.AddKeydownListener();
    }

    /** init's four builder calls: the style element, the toolbar and grid, the overlay, the panel. */
    method BuildElements()
      requires Valid() && root.None?
      modifies this`styleEl, this`toolbarEl, this`gridEl, this`overlayRoot, this`overlayContent, this`overlayPadding
      modifies this`overlayMargin, this`stylePanel, page`head, page`body, page`nextUid
      ensures Valid()
      ensures Built(old(page.nextUid), old(page.head), old(page.body))
      ensures !opts.panel ==> toolbarEl == old(toolbarEl) && gridEl == old(gridEl)
    {
      InjectStyle();
      BuildBodyElements();
    }

    /** init's appends to body: buildUI, buildHighlightOverlay, buildStylePanel. */
    method BuildBodyElements()
      requires page.Valid()
      modifies this`toolbarEl, this`gridEl, this`overlayRoot, this`overlayContent, this`overlayPadding
      modifies this`overlayMargin, this`stylePanel, page`body, page`nextUid
      ensures page.Valid()
      ensures toolbarEl == (if opts.panel then Some(old(page.nextUid)) else old(toolbarEl))
      ensures gridEl == (if opts.panel then Some(old(page.nextUid) + 6) else old(gridEl))
      ensures overlayRoot.Some? && overlayRoot.value + 5 == page.nextUid && old(page.nextUid) <= overlayRoot.value
      ensures overlayContent == Some(overlayRoot.value + 1) && overlayPadding == Some(overlayRoot.value + 2)
      ensures overlayMargin == Some(overlayRoot.value + 3) && stylePanel == Some(overlayRoot.value + 4)
      ensures opts.panel ==> old(page.nextUid) + 6 < overlayRoot.value
      ensures page.body == old(page.body).(children := old(page.body).children
                + InitElements(opts.prefix, opts.panel, columns, old(page.nextUid), old(page.nextUid) + 6,
                               overlayRoot.value, stylePanel.value))
    {
      ghost var b0 := page.body;
      BuildUI();
      ghost var b1 := page.body;
      ghost var chrome := if opts.panel then [Toolbar(opts.prefix, toolbarEl.value), FilledGrid(opts.prefix, gridEl.value, columns)] else [];
      BuildHoverElements();
      InitAppends(b0, b1, page.body, chrome, Overlay(opts.prefix, overlayRoot.value), StylePanel(opts.prefix, stylePanel.value));
    }

    /** The second half of init: buildHighlightOverlay, then buildStylePanel. */
    method BuildHoverElements()
      requires page.Valid()
      modifies this`overlayRoot, this`overlayContent, this`overlayPadding, this`overlayMargin, this`stylePanel
      modifies page`body, page`nextUid
      ensures page.Valid()
      ensures overlayRoot == Some(old(page.nextUid)) && page.nextUid == old(page.nextUid) + 5
      ensures overlayContent == Some(overlayRoot.value + 1) && overlayPadding == Some(overlayRoot.value + 2)
      ensures overlayMargin == Some(overlayRoot.value + 3) && stylePanel == Some(overlayRoot.value + 4)
      ensures page.body == old(page.body).(children := old(page.body).children
                + [Overlay(opts.prefix, overlayRoot.value), StylePanel(opts.prefix, stylePanel.value)])
    {
      BuildHighlightOverlay();
      BuildStylePanel();
      assert old(page.body).children + [Overlay(opts.prefix, overlayRoot.value)] + [StylePanel(opts.prefix, stylePanel.value)]
          == old(page.body).children + [Overlay(opts.prefix, overlayRoot.value), StylePanel(opts.prefix, stylePanel.value)];
    }

    /** injectStyle: a new style element appended to head. */
    method InjectStyle()
      requires page.Valid()
      modifies this`styleEl, page`head, page`nextUid
      ensures page.Valid()
      ensures styleEl == Some(old(page.nextUid)) && page.nextUid == old(page.nextUid) + 1
      ensures page.head == old(page.head) + [StyleElement(old(page.nextUid))]
    {
      var u := page.Allocate(1);
      page.AppendToHead(StyleElement(u));
      styleEl := Some(u);
    }

    /**
     * buildUI: without the panel option nothing happens; with it, the toolbar and its
     * five buttons, then the grid and its cols container, each appended to body, and
     * then setGridColumns(gridColumns || 12).
     */
    method BuildUI()
      requires page.Valid()
      modifies this`toolbarEl, this`gridEl, page`body, page`nextUid
      ensures page.Valid()
      ensures !opts.panel ==>
                toolbarEl == old(toolbarEl) && gridEl == old(gridEl)
                && page.body == old(page.body) && page.nextUid == old(page.nextUid)
      ensures opts.panel ==>
                toolbarEl == Some(old(page.nextUid)) && gridEl == Some(old(page.nextUid) + 6)
                && page.nextUid == old(page.nextUid) + 8 + |Columns(opts.prefix, old(page.nextUid) + 8, columns)|
                && page.body == old(page.body).(children := old(page.body).children
                     + [Toolbar(opts.prefix, old(page.nextUid)), FilledGrid(opts.prefix, old(page.nextUid) + 6, columns)])
    {
      if !opts.panel {
        return;
      }
      AppendToolbar();
      AppendGrid();
    }

    /** buildUI's toolbar part. */
    method AppendToolbar()
      requires page.Valid()
      modifies this`toolbarEl, page`body, page`nextUid
      ensures page.Valid()
      ensures toolbarEl == Some(old(page.nextUid)) && page.nextUid == old(page.nextUid) + 6
      ensures page.body == old(page.body).(children := old(page.body).children + [Toolbar(opts.prefix, old(page.nextUid))])
    {
      var base := page.Allocate(1 + |ToolbarModes|);
      var bar := Builders.BuildToolbar(opts.prefix, base);
      ToolbarLayout(opts.prefix, base);
      page.AppendToBody(bar);
      toolbarEl := Some(base);
    }

    /** buildUI's grid part, ending with setGridColumns(gridColumns || 12). */
    method AppendGrid()
      requires page.Valid()
      modifies this`gridEl, page`body, page`nextUid
      ensures page.Valid()
      ensures gridEl == Some(old(page.nextUid))
      ensures page.nextUid == old(page.nextUid) + 2 + |Columns(opts.prefix, old(page.nextUid) + 2, columns)|
      ensures page.body == old(page.body).(children := old(page.body).children + [FilledGrid(opts.prefix, old(page.nextUid), columns)])
    {
      var base := page.Allocate(2);
      GridAppended(opts.prefix, page.body, base, columns);
      page.AppendToBody(GridShell(opts.prefix, base));
      gridEl := Some(base);
      SetGridColumns(columns);
    }

    /**
     * setGridColumns(n): when the grid reference is set and its `<prefix>cols` container
     * is found, the container's children are replaced by n fresh marked columns (none
     * when n is not positive); otherwise nothing changes.
     */
    method SetGridColumns(n: int)
      requires page.Valid()
      modifies page`body, page`nextUid
      ensures page.Valid()
      ensures var g := if gridEl.Some? then Find(old(page.body), gridEl.value) else None;
              var c := if g.Some? then QueryClassIn(g.value.children, opts.prefix + "cols") else None;
              (c.None? ==> page.body == old(page.body) && page.nextUid == old(page.nextUid))
              && (c.Some? ==>
                    page.nextUid == old(page.nextUid) + |Columns(opts.prefix, old(page.nextUid), n)|
                    && page.body == Update(old(page.body), c.value.uid, SetChildren(Columns(opts.prefix, old(page.nextUid), n))))
    {
      if gridEl.None? {
        return;
      }
      var g := Find(page.body, gridEl.value);
      if g.None? {
        return;
      }
      var c := QueryClassIn(g.value.children, opts.prefix + "cols");
      if c.None? {
        return;
      }
      var base := page.Allocate(if n > 0 then n else 0);
      var kids := BuildColumns(opts.prefix, c.value.children, n, base);
      ColumnsLayout(opts.prefix, base, n);
      SetChildrenKeepsUids(kids, page.nextUid);
      UpdateKeepsUidsNode(page.body, c.value.uid, SetChildren(kids), page.nextUid);
      page.SetBody(Update(page.body, c.value.uid, SetChildren(kids)));
    }

    /** buildHighlightOverlay: the overlay (root, then content, padding and margin layers) appended to body. */
    method BuildHighlightOverlay()
      requires page.Valid()
      modifies this`overlayRoot, this`overlayContent, this`overlayPadding, this`overlayMargin, page`body, page`nextUid
      ensures page.Valid()
      ensures overlayRoot == Some(old(page.nextUid)) && overlayContent == Some(old(page.nextUid) + 1)
      ensures overlayPadding == Some(old(page.nextUid) + 2) && overlayMargin == Some(old(page.nextUid) + 3)
      ensures page.nextUid == old(page.nextUid) + 4
      ensures page.body == old(page.body).(children := old(page.body).children + [Overlay(opts.prefix, old(page.nextUid))])
    {
      var u := page.Allocate(4);
      page.AppendToBody(Overlay(opts.prefix, u));
      overlayRoot := Some(u);
      overlayContent := Some(u + 1);
      overlayPadding := Some(u + 2);
      overlayMargin := Some(u + 3);
    }

    /** buildStylePanel: the hidden panel appended to body. */
    method BuildStylePanel()
      requires page.Valid()
      modifies this`stylePanel, page`body, page`nextUid
      ensures page.Valid()
      ensures stylePanel == Some(old(page.nextUid)) && page.nextUid == old(page.nextUid) + 1
      ensures page.body == old(page.body).(children := old(page.body).children + [StylePanel(opts.prefix, old(page.nextUid))])
    {
      var u := page.Allocate(1);
      page.AppendToBody(StylePanel(opts.prefix, u));
      stylePanel := Some(u);
    }

    // ----- visibility -----

    /**
     * What show(on) does to an attached controller's chrome: the body is the old one
     * with the toolbar's display set and then the grid's, so the toolbar is a flex row
     * iff on, the grid is shown iff on and the grid mode is on, and every other element
     * and every text node is as it was.
     */
    ghost predicate Shown(before: Node, after: Node, on: bool)
      reads this`toolbarEl, this`gridEl, this`state
    {
      after == Styled(Styled(before, toolbarEl, Display(if on then "flex" else "none")),
                      gridEl, Display(if on && state.grid then "block" else "none"))
      && (toolbarEl.Some? ==> Seen(after, toolbarEl.value) == Restyled(Seen(before, toolbarEl.value), Display(if on then "flex" else "none")))
      && (gridEl.Some? ==> Seen(after, gridEl.value) == Restyled(Seen(before, gridEl.value), Display(if on && state.grid then "block" else "none")))
      && forall u :: (toolbarEl.None? || u != toolbarEl.value) && (gridEl.None? || u != gridEl.value) ==> Seen(after, u) == Seen(before, u)
    }

    /** show(on): nothing while detached. */
    method Show(on: bool)
      requires Valid()
      modifies page`body
      ensures Valid()
      ensures root.None? ==> page.body == old(page.body)
      ensures root.Some? ==> Shown(old(page.body), page.body, on)
    {
      if root.None? {
        return;
      }
      StyledKeepsUids(page.body, toolbarEl, Display(if on then "flex" else "none"), page.nextUid);
      page.SetBody(Styled(page.body, toolbarEl, Display(if on then "flex" else "none")));
      StyledKeepsUids(page.body, gridEl, Display(if on && state.grid then "block" else "none"), page.nextUid);
      page.SetBody(Styled(page.body, gridEl, Display(if on && state.grid then "block" else "none")));
    }

    method Enable()
      requires Valid()
      modifies page`body
      ensures Valid()
      ensures root.None? ==> page.body == old(page.body)
      ensures root.Some? ==> Shown(old(page.body), page.body, true)
    {
      Show(true);
    }

    method Disable()
      requires Valid()
      modifies page`body
      ensures Valid()
      ensures root.None? ==> page.body == old(page.body)
      ensures root.Some? ==> Shown(old(page.body), page.body, false)
    {
      Show(false);
    }

    /** toggle: show(!isEnabled()), so while attached it always hides. */
    method Toggle()
      requires Valid()
      modifies page`body
      ensures Valid()
      ensures root.None? ==> page.body == old(page.body)
      ensures root.Some? ==> Shown(old(page.body), page.body, false)
    {
      Show(!IsEnabled());
    }

    // ----- modes -----

    /** The page effect of applyWire, applyGrid or applyTags for a mode; highlight and styleInfo have none. */
    ghost function Applied(body: Node, m: Mode, on: bool): Node
      reads this`gridEl
    {
      match m
      case Wire => ForEachBelow(opts.prefix, Outline(on), body)
      case Grid => Styled(body, gridEl, Display(if on then "block" else "none"))
      case Tags => ForEachBelow(opts.prefix, TagMark(on, false), body)
      case Highlight => body
      case StyleInfo => body
    }

    /** applyWire: the outline class set to on on every non-internal element below body. */
    method ApplyWire(on: bool)
      requires Valid()
      modifies this`state, page`body
      ensures Valid()
      ensures page.body == ForEachBelow(opts.prefix, Outline(on), old(page.body))
      ensures state == WithFlag(old(state), Wire, on)
    {
      ForEachBelowKeepsUids(opts.prefix, Outline(on), page.nextUid);
      page.SetBody(ForEachBelow(opts.prefix, Outline(on), page.body));
      state := WithFlag(state, Wire, on);
    }

    /** applyGrid: the grid shown iff on (when the reference is set). */
    method ApplyGrid(on: bool)
      requires Valid()
      modifies this`state, page`body
      ensures Valid()
      ensures page.body == Styled(old(page.body), gridEl, Display(if on then "block" else "none"))
      ensures state == WithFlag(old(state), Grid, on)
    {
      StyledKeepsUids(page.body, gridEl, Display(if on then "block" else "none"), page.nextUid);
      page.SetBody(Styled(page.body, gridEl, Display(if on then "block" else "none")));
      state := WithFlag(state, Grid, on);
    }

    /** applyTags: labels written (on only, none ever removed) and the tag class set to on, below body. */
    method ApplyTags(on: bool)
      requires Valid()
      modifies this`state, page`body
      ensures Valid()
      ensures page.body == ForEachBelow(opts.prefix, TagMark(on, false), old(page.body))
      ensures state == WithFlag(old(state), Tags, on)
    {
      ForEachBelowKeepsUids(opts.prefix, TagMark(on, false), page.nextUid);
      page.SetBody(ForEachBelow(opts.prefix, TagMark(on, false), page.body));
      state := WithFlag(state, Tags, on);
    }

    method SetWire(on: bool)
      requires Valid()
      modifies this`state, page`body
      ensures Valid()
      ensures page.body == Applied(old(page.body), Wire, on) && state == WithFlag(old(state), Wire, on)
    {
      ApplyWire(on);
    }

    method SetGrid(on: bool)
      requires Valid()
      modifies this`state, page`body
      ensures Valid()
      ensures page.body == Applied(old(page.body), Grid, on) && state == WithFlag(old(state), Grid, on)
    {
      ApplyGrid(on);
    }

    method SetTags(on: bool)
      requires Valid()
      modifies this`state, page`body
      ensures Valid()
      ensures page.body == Applied(old(page.body), Tags, on) && state == WithFlag(old(state), Tags, on)
    {
      ApplyTags(on);
    }

    method SetHighlight(on: bool)
      requires Valid()
      modifies this`state
      ensures Valid()
      ensures state == WithFlag(old(state), Highlight, on)
    {
      state := WithFlag(state, Highlight, on);
    }

    method SetStyleInfo(on: bool)
      requires Valid()
      modifies this`state
      ensures Valid()
      ensures state == WithFlag(old(state), StyleInfo, on)
    {
      state := WithFlag(state, StyleInfo, on);
    }

    /** The record of setters toggleMode dispatches through: the mode's effect with value on. */
    method ApplyMode(m: Mode, on: bool)
      requires Valid()
      modifies this`state, page`body
      ensures Valid()
      ensures page.body == Applied(old(page.body), m, on) && state == WithFlag(old(state), m, on)
    {
      match m {
        case Wire => ApplyWire(on);
        case Highlight => state := WithFlag(state, Highlight, on);
        case Grid => ApplyGrid(on);
        case Tags => ApplyTags(on);
        case StyleInfo => state := WithFlag(state, StyleInfo, on);
      }
    }

    /**
     * toggleMode(m, btn): the flag of m is flipped and the other four kept, the mode's
     * page effect is applied with the new value, and the button (when given and in the
     * page) then carries `<prefix>active` exactly when the flag is on.
     */
    method ToggleMode(m: Mode, btn: Option<Uid>)
      requires Valid()
      modifies this`state, page`body
      ensures Valid()
      ensures state == WithFlag(old(state), m, !Flag(old(state), m))
      ensures page.body == Classed(Applied(old(page.body), m, Flag(state, m)), btn, ActiveClass(opts.prefix), Flag(state, m))
      ensures btn.Some? && Seen(page.body, btn.value).Some? ==>
                (ActiveClass(opts.prefix) in Seen(page.body, btn.value).value.classes) == Flag(state, m)
    {
      var next := !Flag(state, m);
      ApplyMode(m, next);
      ClassedKeepsUids(page.body, btn, ActiveClass(opts.prefix), next, page.nextUid);
      page.SetBody(Classed(page.body, btn, ActiveClass(opts.prefix), next));
    }

    // ----- destroy -----

    /** The references destroy removes, in the order it removes them. */
    function Created(): seq<Option<Uid>>
      reads this`styleEl, this`toolbarEl, this`gridEl, this`overlayRoot, this`stylePanel
    {
      [styleEl, toolbarEl, gridEl, overlayRoot, stylePanel]
    }

    /**
     * destroy: the five created elements removed from the page wherever they are, and
     * nothing else, and the root cleared; the keydown handler stays registered. Safe before init and
     * when repeated.
     */
    method Destroy()
      requires Valid()
      modifies this`root, page`head, page`body
      ensures Valid() && root.None? && !IsEnabled()
      ensures page.head == RemoveEachIn(old(page.head), Created()) && page.body == RemoveEach(old(page.body), Created())
      ensures page.body.uid == old(page.body).uid && Gone(page.head, page.body, Created())
      ensures page.keydown == old(page.keydown)
    {
      page.RemoveAll(Created());
      root := None;
    }

    // ----- hover -----

    /**
     * What the mouse-over handler leaves on a target el with declaration h: with
     * highlight on (and the overlay built) the overlay placed at the raw box; then with
     * styleInfo on the panel shown.
     */
    ghost predicate Hovered(body: Node, h: Memo.StyleHandle, rect: Rect, read: (Memo.StyleHandle, string) -> real)
      requires OverlayRefs()
      reads this`state, this`overlayRoot, this`overlayContent, this`overlayPadding, this`overlayMargin
      reads this`stylePanel, page`body
    {
      var placed := Placed(body, h, rect, read);
      page.body == (if state.styleInfo then Styled(placed, stylePanel, Display("block")) else placed)
    }

    /** The body after the highlight half of a hover. */
    ghost function Placed(body: Node, h: Memo.StyleHandle, rect: Rect, read: (Memo.StyleHandle, string) -> real): Node
      requires OverlayRefs()
      reads this`state, this`overlayRoot, this`overlayContent, this`overlayPadding, this`overlayMargin
    {
      if state.highlight && overlayRoot.Some?
      then PlaceOverlay(body, overlayRoot.value, overlayMargin.value, overlayPadding.value,
                        overlayContent.value, RawBox(h, rect, read))
      else body
    }

    /**
     * updateHighlight(el): nothing without the overlay. Otherwise the overlay is shown
     * at the box model of el's rectangle and its margins and paddings as read now, and
     * the margin, padding and content layers are placed inside it.
     */
    method UpdateHighlight(rect: Rect, computed: Memo.StyleHandle, read: (Memo.StyleHandle, string) -> real)
      requires Valid()
      modifies page`body
      ensures Valid()
      ensures overlayRoot.None? ==> page.body == old(page.body)
      ensures overlayRoot.Some? ==>
                page.body == PlaceOverlay(old(page.body), overlayRoot.value, overlayMargin.value, overlayPadding.value,
                                          overlayContent.value, RawBox(computed, rect, read))
    {
      if overlayRoot.None? {
        return;
      }
      var pad := Sides(read(computed, "padding-top"), read(computed, "padding-right"),
                       read(computed, "padding-bottom"), read(computed, "padding-left"));
      var mar := Sides(read(computed, "margin-top"), read(computed, "margin-right"),
                       read(computed, "margin-bottom"), read(computed, "margin-left"));
      PlaceLayers(BoxModel(rect, mar, pad));
    }

    /** updateHighlight's writes: the overlay shown and its layers placed at b. */
    method PlaceLayers(b: Layers)
      requires Valid() && overlayRoot.Some?
      modifies page`body
      ensures Valid()
      ensures page.body == PlaceOverlay(old(page.body), overlayRoot.value, overlayMargin.value, overlayPadding.value,
                                        overlayContent.value, b)
    {
      PlaceOverlayKeepsUids(page.body, overlayRoot.value, overlayMargin.value, overlayPadding.value, overlayContent.value, b, page.nextUid);
      page.SetBody(PlaceOverlay(page.body, overlayRoot.value, overlayMargin.value, overlayPadding.value, overlayContent.value, b));
    }

    /** updateStyleInfo(el): nothing without the panel; otherwise the panel shown. */
    method UpdateStyleInfo()
      requires Valid()
      modifies page`body
      ensures Valid()
      ensures page.body == Styled(old(page.body), stylePanel, Display("block"))
    {
      if stylePanel.None? {
        return;
      }
      StyledKeepsUids(page.body, stylePanel, Display("block"), page.nextUid);
      page.SetBody(Styled(page.body, stylePanel, Display("block")));
    }

    /**
     * The mouse-over handler: nothing unless highlight or styleInfo is on and the
     * target is an element without the internal marker; then updateHighlight when
     * highlight is on and updateStyleInfo when styleInfo is on.
     */
    method OnHover(target: Option<ElementNode>, rect: Rect, computed: Memo.StyleHandle, read: (Memo.StyleHandle, string) -> real)
      requires Valid()
      modifies page`body
      ensures Valid()
      ensures (!state.highlight && !state.styleInfo) || target.None? || IsInternal(target.value, opts.prefix) ==>
                page.body == old(page.body)
      ensures (state.highlight || state.styleInfo) && target.Some? && !IsInternal(target.value, opts.prefix) ==>
                Hovered(old(page.body), computed, rect, read)
    {
      if !state.highlight && !state.styleInfo {
        return;
      }
      if target.None? || IsInternal(target.value, opts.prefix) {
        return;
      }
      if state.highlight {
        UpdateHighlight(rect, computed, read);
      }
      if state.styleInfo {
        UpdateStyleInfo();
      }
    }

    /** The mouse-out handler, and the shortcut handler's two hides: the overlay and the panel hidden. */
    method HideHover()
      requires Valid()
      modifies page`body
      ensures Valid()
      ensures page.body == Styled(Styled(old(page.body), overlayRoot, Display("none")), stylePanel, Display("none"))
      ensures overlayRoot.Some? && Seen(page.body, overlayRoot.value).Some? ==>
                Seen(page.body, overlayRoot.value).value.style["display"] == Keyword("none")
      ensures stylePanel.Some? && Seen(page.body, stylePanel.value).Some? ==>
                Seen(page.body, stylePanel.value).value.style["display"] == Keyword("none")
    {
      StyledKeepsUids(page.body, overlayRoot, Display("none"), page.nextUid);
      page.SetBody(Styled(page.body, overlayRoot, Display("none")));
      StyledKeepsUids(page.body, stylePanel, Display("none"), page.nextUid);
      page.SetBody(Styled(page.body, stylePanel, Display("none")));
    }

    // ----- the shortcut handler -----

    /**
     * The keydown handler bindShortcuts registers. Any key but Ctrl+Alt+Pause changes
     * nothing. That one turns wire, grid and tags off below body, clears
     * `<prefix>active` from every button inside the toolbar, hides the overlay and the
     * panel, and replaces the flags with an all-false record.
     */
    method OnKeyDown(ctrl: bool, alt: bool, code: string) returns (ghost cleared: Option<Node>)
      requires Valid()
      modifies this`state, page`body
      ensures Valid()
      ensures !(ctrl && alt && code == "Pause") ==> state == old(state) && page.body == old(page.body)
      ensures ctrl && alt && code == "Pause" ==> state == AllOff && ResetFrom(ModesOff(old(page.body)), cleared)
    {
      cleared := None;
      if !(ctrl && alt && code == "Pause") {
        return;
      }
      TurnModesOff();
      cleared := ResetChrome();
      state := AllOff;
    }

    /** wire, grid and tags: applyWire, applyGrid and applyTags, each off, in that order. */
    ghost function ModesOff(body: Node): Node
      reads this`gridEl
    {
      ForEachBelow(opts.prefix, TagMark(false, false), Styled(ForEachBelow(opts.prefix, Outline(false), body), gridEl, Display("none")))
    }

    /** The shortcut's first five writes: the three page effects off, then highlight and styleInfo off. */
    method TurnModesOff()
      requires Valid()
      modifies this`state, page`body
      ensures Valid()
      ensures page.body == ModesOff(old(page.body)) && state == AllOff
    {
      ApplyWire(false);
      ApplyGrid(false);
      ApplyTags(false);
      state := WithFlag(state, Highlight, false);
      state := WithFlag(state, StyleInfo, false);
      forall m: Mode ensures Flag(state, m) == Flag(AllOff, m) {
        AllOffFlags();
      }
      FlagsDetermineState(state, AllOff);
    }

    /**
     * The body the shortcut leaves, from b3, the body once the page effects are off:
     * b4 is b3 with the toolbar's buttons cleared (cleared is the toolbar then, and
     * none of its buttons is active), and the page is b4 with the overlay and the
     * panel hidden. Hiding them leaves the cleared toolbar as it was unless one of
     * them sits inside it.
     */
    ghost predicate ResetFrom(b3: Node, cleared: Option<Node>)
      reads this`toolbarEl, this`overlayRoot, this`stylePanel, page`body
    {
      var b4 := if toolbarEl.Some? then ClearToolbar(opts.prefix, b3, toolbarEl.value) else b3;
      page.body == Styled(Styled(b4, overlayRoot, Display("none")), stylePanel, Display("none"))
      && (toolbarEl.Some? ==> cleared == Find(b4, toolbarEl.value))
      && (toolbarEl.Some? && cleared.Some? ==>
            NoActiveButtonBelow(opts.prefix, cleared.value)
            && ((overlayRoot.None? || Find(cleared.value, overlayRoot.value) == None)
                && (stylePanel.None? || Find(cleared.value, stylePanel.value) == None)
                ==> Find(page.body, toolbarEl.value) == cleared))
      && (overlayRoot.Some? && Seen(page.body, overlayRoot.value).Some? ==>
            Seen(page.body, overlayRoot.value).value.style["display"] == Keyword("none"))
      && (stylePanel.Some? && Seen(page.body, stylePanel.value).Some? ==>
            Seen(page.body, stylePanel.value).value.style["display"] == Keyword("none"))
    }

    /** The shortcut's toolbar reset and its two hides. */
    method ResetChrome() returns (ghost cleared: Option<Node>)
      requires Valid()
      modifies page`body
      ensures Valid()
      ensures ResetFrom(old(page.body), cleared)
    {
      cleared := ClearToolbarButtons();
      ghost var b4 := page.body;
      HideHover();
      if toolbarEl.Some? && cleared.Some? {
        if (overlayRoot.None? || Find(cleared.value, overlayRoot.value) == None)
           && (stylePanel.None? || Find(cleared.value, stylePanel.value) == None) {
          HiddenKeepsSubtree(b4, overlayRoot, stylePanel, toolbarEl.value);
        }
      }
    }

    /**
     * `toolbarEl?.querySelectorAll("button").forEach(b => b.classList.remove(<prefix>active))`:
     * every button inside the toolbar loses the active class. The toolbar after it is
     * returned for the contract.
     */
    method ClearToolbarButtons() returns (ghost cleared: Option<Node>)
      requires Valid()
      modifies page`body
      ensures Valid()
      ensures toolbarEl.None? ==> page.body == old(page.body) && cleared.None?
      ensures toolbarEl.Some? ==>
                page.body == ClearToolbar(opts.prefix, old(page.body), toolbarEl.value)
                && cleared == Find(page.body, toolbarEl.value)
      ensures cleared.Some? ==> NoActiveButtonBelow(opts.prefix, cleared.value)
    {
      cleared := None;
      if toolbarEl.Some? {
        ClearToolbarKeepsUids(opts.prefix, page.body, toolbarEl.value, page.nextUid);
        page.SetBody(ClearToolbar(opts.prefix, page.body, toolbarEl.value));
        cleared := Find(page.body, toolbarEl.value);
      }
    }
  }
}
