/**
 * The overlay controller of src/PseudoDebugKit.ts. It holds references (uids) to the
 * elements it created, the five mode flags and the two memo tables, and it works on
 * the page through `Browser.Page`. Event handlers are methods called directly: the
 * hover handler is `OnHover`, the mouse-out handler `HideHover`, the shortcut handler
 * `OnKeyDown`; browser measurements are their parameters.
 */
module DebugKit {
  import opened Wrappers
  import opened Dom
  import opened Geometry
  import opened Traversal
  import opened Modes
  import opened Options
  import opened Browser
  import opened Builders
  import opened Effects
  import opened Memo

  /** A reference that is set names an element createElement has already handed out. */
  predicate Below(o: Option<Uid>, bound: Uid)
  {
    o.Some? ==> o.value < bound
  }

  /**
   * The box updateHighlight computes from the memo table as it was before the call:
   * on a declaration never parsed, the box of the numbers the page reports now; once
   * all eight sides are cached, the box of the cached numbers, whatever the page reports.
   */
  function HighlightBox(cache: map<StyleHandle, map<string, real>>, h: StyleHandle, rect: Rect,
                        read: (StyleHandle, string) -> real): (r: Layers)
    ensures h !in cache ==>
              r == BoxModel(rect,
                     Sides(read(h, "margin-top"), read(h, "margin-right"), read(h, "margin-bottom"), read(h, "margin-left")),
                     Sides(read(h, "padding-top"), read(h, "padding-right"), read(h, "padding-bottom"), read(h, "padding-left")))
    ensures (forall p :: p in PaddingProps + MarginProps ==> p in Was(cache, h)) ==>
              var w := Was(cache, h);
              r == BoxModel(rect, Sides(w["margin-top"], w["margin-right"], w["margin-bottom"], w["margin-left"]),
                                  Sides(w["padding-top"], w["padding-right"], w["padding-bottom"], w["padding-left"]))
  {
    assert (forall p :: p in PaddingProps + MarginProps ==> p in Was(cache, h)) ==>
             "margin-top" in Was(cache, h) && "margin-right" in Was(cache, h) && "margin-bottom" in Was(cache, h)
             && "margin-left" in Was(cache, h) && "padding-top" in Was(cache, h) && "padding-right" in Was(cache, h)
             && "padding-bottom" in Was(cache, h) && "padding-left" in Was(cache, h) by {
      assert PaddingProps + MarginProps == ["padding-top", "padding-right", "padding-bottom", "padding-left",
                                            "margin-top", "margin-right", "margin-bottom", "margin-left"];
    }
    BoxModel(rect,
      Sides(Parsed(cache, h, "margin-top", read), Parsed(cache, h, "margin-right", read),
            Parsed(cache, h, "margin-bottom", read), Parsed(cache, h, "margin-left", read)),
      Sides(Parsed(cache, h, "padding-top", read), Parsed(cache, h, "padding-right", read),
            Parsed(cache, h, "padding-bottom", read), Parsed(cache, h, "padding-left", read)))
  }

  class PseudoDebugKit {
    const opts: Config
    /** buildGrid's column count, `gridColumns || 12`, fixed with the options. */
    const columns: int
    const page: Page
    var root: Option<Uid>
    var styleEl: Option<Uid>
    var gridEl: Option<Uid>
    var toolbarEl: Option<Uid>
    var state: ModeState
    var overlayRoot: Option<Uid>
    var overlayContent: Option<Uid>
    var overlayPadding: Option<Uid>
    var overlayMargin: Option<Uid>
    var stylePanel: Option<Uid>
    /** The registered keydown handler that the cleanup closure removes. */
    var shortcutCleanup: Option<nat>
    var styleCache: map<Uid, StyleHandle>
    var parsedValuesCache: map<StyleHandle, map<string, real>>

    /**
     * An attached controller holds its style element, overlay and panel, and the
     * toolbar and grid when the panel option is on. Every reference was handed out by
     * createElement; the toolbar and grid exist only with the panel option; the
     * overlay's four layers and the panel are distinct elements.
     */
    ghost predicate Valid()
      reads this`root, this`styleEl, this`toolbarEl, this`gridEl, this`overlayRoot, this`overlayContent
      reads this`overlayPadding, this`overlayMargin, this`stylePanel, this`shortcutCleanup, page
    {
      page.Valid()
      && Below(styleEl, page.nextUid) && Below(gridEl, page.nextUid) && Below(toolbarEl, page.nextUid)
      && Below(overlayRoot, page.nextUid) && Below(overlayContent, page.nextUid)
      && Below(overlayPadding, page.nextUid) && Below(overlayMargin, page.nextUid) && Below(stylePanel, page.nextUid)
      && (!opts.panel ==> toolbarEl.None? && gridEl.None?)
      && (toolbarEl.Some? && gridEl.Some? ==> toolbarEl.value != gridEl.value)
      && (overlayRoot.Some? ==>
            overlayContent.Some? && overlayPadding.Some? && overlayMargin.Some?
            && Distinct4(overlayRoot.value, overlayMargin.value, overlayPadding.value, overlayContent.value))
      && (overlayRoot.Some? && stylePanel.Some? ==> stylePanel.value != overlayRoot.value)
      && (root.Some? ==> styleEl.Some? && overlayRoot.Some? && stylePanel.Some?)
      && (root.Some? && opts.panel ==> toolbarEl.Some? && gridEl.Some?)
      && (!opts.shortcuts ==> shortcutCleanup.None?)
    }

    /** The options over the defaults; nothing attached, every flag off, empty caches. */
    constructor (options: Option<DebugOptions>, page: Page)
      requires page.Valid()
      ensures Valid() && opts == Resolve(options) && columns == ColumnCount(opts) && this.page == page
      ensures root.None? && styleEl.None? && gridEl.None? && toolbarEl.None? && stylePanel.None?
      ensures overlayRoot.None? && overlayContent.None? && overlayPadding.None? && overlayMargin.None?
      ensures shortcutCleanup.None? && state == AllOff && styleCache == map[] && parsedValuesCache == map[]
    {
      opts := Resolve(options);
      columns := ColumnCount(Resolve(options));
      this.page := page;
      root := None;
      styleEl := None;
      gridEl := None;
      toolbarEl := None;
      state := AllOff;
      overlayRoot := None;
      overlayContent := None;
      overlayPadding := None;
      overlayMargin := None;
      stylePanel := None;
      shortcutCleanup := None;
      styleCache := map[];
      parsedValuesCache := map[];
    }

    /** isEnabled: true exactly while init has set the root and destroy has not cleared it. */
    function IsEnabled(): (r: bool)
      reads this`root
      ensures r <==> root.Some?
    {
      root.Some?
    }

    /** getState: a copy, so a caller cannot change the record the controller holds. */
    function GetState(): (r: ModeState)
      reads this
      ensures forall m: Mode :: Flag(r, m) == Flag(state, m)
    {
      state
    }

    // ----- init and the elements it builds -----

    /**
     * What init's builders leave, from the page's allocation counter, head and body
     * before them: the style element in head; with the panel option the toolbar and the
     * grid (uids next + 1 and next + 7) appended to body; then the overlay's four
     * layers and the style panel, on consecutive uids, appended after them.
     */
    ghost predicate Built(next: Uid, head: seq<Node>, body: Node)
      reads this`styleEl, this`toolbarEl, this`gridEl, this`overlayRoot, this`overlayContent, this`overlayPadding
      reads this`overlayMargin, this`stylePanel, page`head, page`body, page`nextUid
    {
      styleEl == Some(next) && page.head == head + [StyleElement(next)]
      && overlayRoot.Some? && overlayRoot.value + 5 == page.nextUid && next < overlayRoot.value
      && (opts.panel ==> toolbarEl == Some(next + 1) && gridEl == Some(next + 7) && next + 7 < overlayRoot.value)
      && overlayContent == Some(overlayRoot.value + 1) && overlayPadding == Some(overlayRoot.value + 2)
      && overlayMargin == Some(overlayRoot.value + 3) && stylePanel == Some(overlayRoot.value + 4)
      && body.Element? && page.body == body.(children := body.children
           + InitElements(opts.prefix, opts.panel, columns, next + 1, next + 7, overlayRoot.value, stylePanel.value))
    }

    /**
     * init: a second call changes nothing. The first sets the root, builds the
     * elements (Built) and binds the shortcut handler when asked to.
     */
    method Init(r: Uid)
      requires Valid()
      modifies this`root, this`shortcutCleanup, this`styleEl, this`toolbarEl, this`gridEl, this`overlayRoot
      modifies this`overlayContent, this`overlayPadding, this`overlayMargin, this`stylePanel
      modifies page`head, page`body, page`nextUid, page`keydown, page`nextHandler
      ensures Valid()
      ensures old(root).Some? ==> unchanged(this) && unchanged(page)
      ensures old(root).None? ==> Attached(r, old(page.nextUid), old(page.head), old(page.body), old(page.keydown))
    {
      if root.Some? {
        return;
      }
      Attach(r);
    }

    /** What the first init call leaves: the root set, the elements built, the shortcut handler bound when asked to. */
    ghost predicate Attached(r: Uid, next: Uid, head: seq<Node>, body: Node, keydown: set<nat>)
      reads this`root, this`shortcutCleanup, this`styleEl, this`toolbarEl, this`gridEl, this`overlayRoot
      reads this`overlayContent, this`overlayPadding, this`overlayMargin, this`stylePanel
      reads page`head, page`body, page`nextUid, page`keydown
    {
      root == Some(r) && IsEnabled() && Built(next, head, body)
      && (opts.shortcuts ==> shortcutCleanup.Some? && shortcutCleanup.value !in keydown && page.keydown == keydown + {shortcutCleanup.value})
      && (!opts.shortcuts ==> page.keydown == keydown)
    }

    /** init past its guard. */
    method Attach(r: Uid)
      requires Valid() && root.None?
      modifies this`root, this`shortcutCleanup, this`styleEl, this`toolbarEl, this`gridEl, this`overlayRoot
      modifies this`overlayContent, this`overlayPadding, this`overlayMargin, this`stylePanel
      modifies page`head, page`body, page`nextUid, page`keydown, page`nextHandler
      ensures Valid() && Attached(r, old(page.nextUid), old(page.head), old(page.body), old(page.keydown))
    {
      ghost var next, head, body := page.nextUid, page.head, page.body;
      BuildElements();
      SetRoot(r, next, head, body);
    }

    /** init's last steps, once the elements exist: the root stored, then the shortcut handler bound when asked to. */
    method SetRoot(r: Uid, ghost next: Uid, ghost head: seq<Node>, ghost body: Node)
      requires Valid() && root.None? && Built(next, head, body)
      requires opts.panel ==> toolbarEl.Some? && gridEl.Some?
      modifies this`root, this`shortcutCleanup, page`keydown, page`nextHandler
      ensures Valid() && Attached(r, next, head, body, old(page.keydown))
    {
      root := Some(r);
      if opts.shortcuts {
        var h := page.AddKeydownListener();
        shortcutCleanup := Some(h);
      }
    }

    /** init's four builder calls: the style element, the toolbar and grid, the overlay, the panel. */
    method BuildElements()
      requires Valid() && root.None?
      modifies this`styleEl, this`toolbarEl, this`gridEl, this`overlayRoot, this`overlayContent, this`overlayPadding
      modifies this`overlayMargin, this`stylePanel, page`head, page`body, page`nextUid
      ensures Valid()
      ensures Built(old(page.nextUid), old(page.head), old(page.body))
      ensures !opts.panel ==> toolbarEl == old(toolbarEl) && gridEl == old(gridEl)
    {
      InjectStyle();
      BuildBodyElements();
    }

    /** init's appends to body: buildUI, buildHighlightOverlay, buildStylePanel. */
    method BuildBodyElements()
      requires page.Valid()
      modifies this`toolbarEl, this`gridEl, this`overlayRoot, this`overlayContent, this`overlayPadding
      modifies this`overlayMargin, this`stylePanel, page`body, page`nextUid
      ensures page.Valid()
      ensures toolbarEl == (if opts.panel then Some(old(page.nextUid)) else old(toolbarEl))
      ensures gridEl == (if opts.panel then Some(old(page.nextUid) + 6) else old(gridEl))
      ensures overlayRoot.Some? && overlayRoot.value + 5 == page.nextUid && old(page.nextUid) <= overlayRoot.value
      ensures overlayContent == Some(overlayRoot.value + 1) && overlayPadding == Some(overlayRoot.value + 2)
      ensures overlayMargin == Some(overlayRoot.value + 3) && stylePanel == Some(overlayRoot.value + 4)
      ensures opts.panel ==> old(page.nextUid) + 6 < overlayRoot.value
      ensures page.body == old(page.body).(children := old(page.body).children
                + InitElements(opts.prefix, opts.panel, columns, old(page.nextUid), old(page.nextUid) + 6,
                               overlayRoot.value, stylePanel.value))
    {
      ghost var b0 := page.body;
      BuildUI();
      ghost var b1 := page.body;
      ghost var chrome := if opts.panel then [Toolbar(opts.prefix, toolbarEl.value), FilledGrid(opts.prefix, gridEl.value, columns)] else [];
      BuildHoverElements();
      InitAppends(b0, b1, page.body, chrome, Overlay(opts.prefix, overlayRoot.value), StylePanel(opts.prefix, stylePanel.value));
    }

    /** The second half of init: buildHighlightOverlay, then buildStylePanel. */
    method BuildHoverElements()
      requires page.Valid()
      modifies this`overlayRoot, this`overlayContent, this`overlayPadding, this`overlayMargin, this`stylePanel
      modifies page`body, page`nextUid
      ensures page.Valid()
      ensures overlayRoot == Some(old(page.nextUid)) && page.nextUid == old(page.nextUid) + 5
      ensures overlayContent == Some(overlayRoot.value + 1) && overlayPadding == Some(overlayRoot.value + 2)
      ensures overlayMargin == Some(overlayRoot.value + 3) && stylePanel == Some(overlayRoot.value + 4)
      ensures page.body == old(page.body).(children := old(page.body).children
                + [Overlay(opts.prefix, overlayRoot.value), StylePanel(opts.prefix, stylePanel.value)])
    {
      BuildHighlightOverlay();
      BuildStylePanel();
      assert old(page.body).children + [Overlay(opts.prefix, overlayRoot.value)] + [StylePanel(opts.prefix, stylePanel.value)]
          == old(page.body).children + [Overlay(opts.prefix, overlayRoot.value), StylePanel(opts.prefix, stylePanel.value)];
    }

    /** injectStyle: a new style element appended to head. */
    method InjectStyle()
      requires page.Valid()
      modifies this`styleEl, page`head, page`nextUid
      ensures page.Valid()
      ensures styleEl == Some(old(page.nextUid)) && page.nextUid == old(page.nextUid) + 1
      ensures page.head == old(page.head) + [StyleElement(old(page.nextUid))]
    {
      var u := page.Allocate(1);
      page.AppendToHead(StyleElement(u));
      styleEl := Some(u);
    }

    /** buildUI: without the panel option nothing happens; with it, the toolbar and then the grid. */
    method BuildUI()
      requires page.Valid()
      modifies this`toolbarEl, this`gridEl, page`body, page`nextUid
      ensures page.Valid()
      ensures !opts.panel ==>
                toolbarEl == old(toolbarEl) && gridEl == old(gridEl)
                && page.body == old(page.body) && page.nextUid == old(page.nextUid)
      ensures opts.panel ==>
                toolbarEl == Some(old(page.nextUid)) && gridEl == Some(old(page.nextUid) + 6)
                && page.nextUid == old(page.nextUid) + 8 + |Columns(opts.prefix, old(page.nextUid) + 8, columns)|
                && page.body == old(page.body).(children := old(page.body).children
                     + [Toolbar(opts.prefix, old(page.nextUid)), FilledGrid(opts.prefix, old(page.nextUid) + 6, columns)])
    {
      if !opts.panel {
        return;
      }
      BuildToolbar();
      BuildGrid();
    }

    /** buildToolbar: the toolbar appended to body. */
    method BuildToolbar()
      requires page.Valid()
      modifies this`toolbarEl, page`body, page`nextUid
      ensures page.Valid()
      ensures toolbarEl == Some(old(page.nextUid)) && page.nextUid == old(page.nextUid) + 6
      ensures page.body == old(page.body).(children := old(page.body).children + [Toolbar(opts.prefix, old(page.nextUid))])
    {
      var base := page.Allocate(1 + |ToolbarModes|);
      var bar := Builders.BuildToolbar(opts.prefix, base);
      ToolbarLayout(opts.prefix, base);
      page.AppendToBody(bar);
      toolbarEl := Some(base);
    }

    /** buildGrid: the grid shell appended to body, then filled by setGridColumns(gridColumns || 12). */
    method BuildGrid()
      requires page.Valid()
      modifies this`gridEl, page`body, page`nextUid
      ensures page.Valid()
      ensures gridEl == Some(old(page.nextUid))
      ensures page.nextUid == old(page.nextUid) + 2 + |Columns(opts.prefix, old(page.nextUid) + 2, columns)|
      ensures page.body == old(page.body).(children := old(page.body).children + [FilledGrid(opts.prefix, old(page.nextUid), columns)])
    {
      var base := page.Allocate(2);
      GridAppended(opts.prefix, page.body, base, columns);
      page.AppendToBody(GridShell(opts.prefix, base));
      gridEl := Some(base);
      SetGridColumns(columns);
    }

    /**
     * setGridColumns(n): when the grid reference is set and its `<prefix>cols` container
     * is found, the container's children are replaced by n fresh marked columns (none
     * when n is not positive); otherwise nothing changes.
     */
    method SetGridColumns(n: int)
      requires page.Valid()
      modifies page`body, page`nextUid
      ensures page.Valid()
      ensures var g := if gridEl.Some? then Find(old(page.body), gridEl.value) else None;
              var c := if g.Some? then QueryClassIn(g.value.children, opts.prefix + "cols") else None;
              (c.None? ==> page.body == old(page.body) && page.nextUid == old(page.nextUid))
              && (c.Some? ==>
                    page.nextUid == old(page.nextUid) + |Columns(opts.prefix, old(page.nextUid), n)|
                    && page.body == Update(old(page.body), c.value.uid, SetChildren(Columns(opts.prefix, old(page.nextUid), n))))
    {
      if gridEl.None? {
        return;
      }
      var g := Find(page.body, gridEl.value);
      if g.None? {
        return;
      }
      var c := QueryClassIn(g.value.children, opts.prefix + "cols");
      if c.None? {
        return;
      }
      var base := page.Allocate(if n > 0 then n else 0);
      var kids := BuildColumns(opts.prefix, c.value.children, n, base);
      ColumnsLayout(opts.prefix, base, n);
      SetChildrenKeepsUids(kids, page.nextUid);
      UpdateKeepsUidsNode(page.body, c.value.uid, SetChildren(kids), page.nextUid);
      page.SetBody(Update(page.body, c.value.uid, SetChildren(kids)));
    }

    /** buildHighlightOverlay: the overlay (root, then content, padding and margin layers) appended to body. */
    method BuildHighlightOverlay()
      requires page.Valid()
      modifies this`overlayRoot, this`overlayContent, this`overlayPadding, this`overlayMargin, page`body, page`nextUid
      ensures page.Valid()
      ensures overlayRoot == Some(old(page.nextUid)) && overlayContent == Some(old(page.nextUid) + 1)
      ensures overlayPadding == Some(old(page.nextUid) + 2) && overlayMargin == Some(old(page.nextUid) + 3)
      ensures page.nextUid == old(page.nextUid) + 4
      ensures page.body == old(page.body).(children := old(page.body).children + [Overlay(opts.prefix, old(page.nextUid))])
    {
      var u := page.Allocate(4);
      page.AppendToBody(Overlay(opts.prefix, u));
      overlayRoot := Some(u);
      overlayContent := Some(u + 1);
      overlayPadding := Some(u + 2);
      overlayMargin := Some(u + 3);
    }

    /** buildStylePanel: the hidden panel appended to body. */
    method BuildStylePanel()
      requires page.Valid()
      modifies this`stylePanel, page`body, page`nextUid
      ensures page.Valid()
      ensures stylePanel == Some(old(page.nextUid)) && page.nextUid == old(page.nextUid) + 1
      ensures page.body == old(page.body).(children := old(page.body).children + [StylePanel(opts.prefix, old(page.nextUid))])
    {
      var u := page.Allocate(1);
      page.AppendToBody(StylePanel(opts.prefix, u));
      stylePanel := Some(u);
    }

    // ----- visibility -----

    /**
     * What show(on) does to an attached controller's chrome: the body is the old one
     * with the toolbar's display set and then the grid's, so the toolbar is a flex row
     * iff on, the grid is shown iff on and the grid mode is on, and every other element
     * and every text node is as it was.
     */
    ghost predicate Shown(before: Node, after: Node, on: bool)
      reads this
    {
      after == Styled(Styled(before, toolbarEl, Display(if on then "flex" else "none")),
                      gridEl, Display(if on && state.grid then "block" else "none"))
      && (toolbarEl.Some? ==> Seen(after, toolbarEl.value) == Restyled(Seen(before, toolbarEl.value), Display(if on then "flex" else "none")))
      && (gridEl.Some? ==> Seen(after, gridEl.value) == Restyled(Seen(before, gridEl.value), Display(if on && state.grid then "block" else "none")))
      && forall u :: (toolbarEl.None? || u != toolbarEl.value) && (gridEl.None? || u != gridEl.value) ==> Seen(after, u) == Seen(before, u)
    }

    /** show(on): nothing while detached. */
    method Show(on: bool)
      requires Valid()
      modifies page`body
      ensures Valid()
      ensures root.None? ==> page.body == old(page.body)
      ensures root.Some? ==> Shown(old(page.body), page.body, on)
    {
      if root.None? {
        return;
      }
      StyledKeepsUids(page.body, toolbarEl, Display(if on then "flex" else "none"), page.nextUid);
      page.SetBody(Styled(page.body, toolbarEl, Display(if on then "flex" else "none")));
      StyledKeepsUids(page.body, gridEl, Display(if on && state.grid then "block" else "none"), page.nextUid);
      page.SetBody(Styled(page.body, gridEl, Display(if on && state.grid then "block" else "none")));
    }

    method Enable()
      requires Valid()
      modifies page`body
      ensures Valid()
      ensures root.None? ==> page.body == old(page.body)
      ensures root.Some? ==> Shown(old(page.body), page.body, true)
    {
      Show(true);
    }

    method Disable()
      requires Valid()
      modifies page`body
      ensures Valid()
      ensures root.None? ==> page.body == old(page.body)
      ensures root.Some? ==> Shown(old(page.body), page.body, false)
    {
      Show(false);
    }

    /**
     * toggle: show(!isEnabled()). Attached, that is show(false), so the chrome is hidden
     * whatever it showed before; detached, show returns at once.
     */
    method Toggle()
      requires Valid()
      modifies page`body
      ensures Valid()
      ensures root.None? ==> page.body == old(page.body)
      ensures root.Some? ==> Shown(old(page.body), page.body, false)
    {
      Show(!IsEnabled());
    }

    // ----- modes -----

    /** The page effect of applyWire, applyGrid or applyTags for a mode; highlight and styleInfo have none. */
    ghost function Applied(body: Node, m: Mode, on: bool): Node
      reads this
    {
      match m
      case Wire => Traverse(opts.prefix, Outline(on), body)
      case Grid => Styled(body, gridEl, Display(if on then "block" else "none"))
      case Tags => Traverse(opts.prefix, TagMark(on, true), body)
      case Highlight => body
      case StyleInfo => body
    }

    /** applyWire: the outline class set to on on every element traverseDOM reaches from body. */
    method ApplyWire(on: bool)
      requires Valid()
      modifies this`state, page`body
      ensures Valid()
      ensures page.body == Traverse(opts.prefix, Outline(on), old(page.body))
      ensures state == WithFlag(old(state), Wire, on)
    {
      TraverseKeepsUids(opts.prefix, Outline(on), page.body, page.nextUid);
      page.SetBody(Traverse(opts.prefix, Outline(on), page.body));
      state := WithFlag(state, Wire, on);
    }

    /** applyGrid: the grid shown iff on (when the reference is set). */
    method ApplyGrid(on: bool)
      requires Valid()
      modifies this`state, page`body
      ensures Valid()
      ensures page.body == Styled(old(page.body), gridEl, Display(if on then "block" else "none"))
      ensures state == WithFlag(old(state), Grid, on)
    {
      StyledKeepsUids(page.body, gridEl, Display(if on then "block" else "none"), page.nextUid);
      page.SetBody(Styled(page.body, gridEl, Display(if on then "block" else "none")));
      state := WithFlag(state, Grid, on);
    }

    /** applyTags: labels written (on) or dropped (off), and the tag class set to on, on every element reached. */
    method ApplyTags(on: bool)
      requires Valid()
      modifies this`state, page`body
      ensures Valid()
      ensures page.body == Traverse(opts.prefix, TagMark(on, true), old(page.body))
      ensures state == WithFlag(old(state), Tags, on)
    {
      TraverseKeepsUids(opts.prefix, TagMark(on, true), page.body, page.nextUid);
      page.SetBody(Traverse(opts.prefix, TagMark(on, true), page.body));
      state := WithFlag(state, Tags, on);
    }

    method SetWire(on: bool)
      requires Valid()
      modifies this`state, page`body
      ensures Valid()
      ensures page.body == Applied(old(page.body), Wire, on) && state == WithFlag(old(state), Wire, on)
    {
      ApplyWire(on);
    }

    method SetGrid(on: bool)
      requires Valid()
      modifies this`state, page`body
      ensures Valid()
      ensures page.body == Applied(old(page.body), Grid, on) && state == WithFlag(old(state), Grid, on)
    {
      ApplyGrid(on);
    }

    method SetTags(on: bool)
      requires Valid()
      modifies this`state, page`body
      ensures Valid()
      ensures page.body == Applied(old(page.body), Tags, on) && state == WithFlag(old(state), Tags, on)
    {
      ApplyTags(on);
    }

    method SetHighlight(on: bool)
      requires Valid()
      modifies this`state
      ensures Valid()
      ensures state == WithFlag(old(state), Highlight, on)
    {
      state := WithFlag(state, Highlight, on);
    }

    method SetStyleInfo(on: bool)
      requires Valid()
      modifies this`state
      ensures Valid()
      ensures state == WithFlag(old(state), StyleInfo, on)
    {
      state := WithFlag(state, StyleInfo, on);
    }

    /** The record of setters toggleMode dispatches through: the mode's effect with value on. */
    method ApplyMode(m: Mode, on: bool)
      requires Valid()
      modifies this`state, page`body
      ensures Valid()
      ensures page.body == Applied(old(page.body), m, on) && state == WithFlag(old(state), m, on)
    {
      match m {
        case Wire => ApplyWire(on);
        case Highlight => state := WithFlag(state, Highlight, on);
        case Grid => ApplyGrid(on);
        case Tags => ApplyTags(on);
        case StyleInfo => state := WithFlag(state, StyleInfo, on);
      }
    }

    /**
     * toggleMode(m, btn): the flag of m is flipped and the other four kept, the mode's
     * page effect is applied with the new value, and the button (when given and in the
     * page) then carries `<prefix>active` exactly when the flag is on.
     */
    method ToggleMode(m: Mode, btn: Option<Uid>)
      requires Valid()
      modifies this`state, page`body
      ensures Valid()
      ensures state == WithFlag(old(state), m, !Flag(old(state), m))
      ensures page.body == Classed(Applied(old(page.body), m, Flag(state, m)), btn, ActiveClass(opts.prefix), Flag(state, m))
      ensures btn.Some? && Seen(page.body, btn.value).Some? ==>
                (ActiveClass(opts.prefix) in Seen(page.body, btn.value).value.classes) == Flag(state, m)
    {
      var next := !Flag(state, m);
      ApplyMode(m, next);
      ClassedKeepsUids(page.body, btn, ActiveClass(opts.prefix), next, page.nextUid);
      page.SetBody(Classed(page.body, btn, ActiveClass(opts.prefix), next));
    }

    // ----- destroy -----

    /** The references destroy removes, in the order it removes them. */
    function Created(): seq<Option<Uid>>
      reads this`styleEl, this`toolbarEl, this`gridEl, this`overlayRoot, this`stylePanel
    {
      [styleEl, toolbarEl, gridEl, overlayRoot, stylePanel]
    }

    /**
     * destroy: the five created elements removed from the page wherever they are and
     * nothing else, the shortcut handler unbound, the root cleared. Safe before init and when repeated.
     */
    method Destroy()
      requires Valid()
      modifies this`root, page`head, page`body, page`keydown
      ensures Valid() && root.None? && !IsEnabled()
      ensures page.head == RemoveEachIn(old(page.head), Created()) && page.body == RemoveEach(old(page.body), Created())
      ensures page.body.uid == old(page.body).uid && Gone(page.head, page.body, Created())
      ensures shortcutCleanup.Some? ==> page.keydown == old(page.keydown) - {shortcutCleanup.value}
      ensures shortcutCleanup.None? ==> page.keydown == old(page.keydown)
    {
      page.RemoveAll(Created());
      ghost var head, body := page.head, page.body;
      if shortcutCleanup.Some? {
        page.RemoveKeydownListener(shortcutCleanup.value);
      }
      assert page.head == head && page.body == body;
      root := None;
    }

    // ----- hover -----

    /** getStyleCache(el): the declaration cached for el, or the one computed now, which is then cached. */
    method GetStyleCache(el: Uid, computed: StyleHandle) returns (h: StyleHandle)
      modifies this`styleCache
      ensures h == Cached(old(styleCache), el, computed)
      ensures styleCache == old(styleCache)[el := h]
    {
      if el !in styleCache {
        styleCache := styleCache[el := computed];
      }
      h := styleCache[el];
    }

    /** parseCSSValue(style, prop): the cached number, or the one read now, which is then cached. */
    method ParseCssValue(style: StyleHandle, prop: string, read: (StyleHandle, string) -> real) returns (v: real)
      modifies this`parsedValuesCache
      ensures v == Parsed(old(parsedValuesCache), style, prop, read)
      ensures parsedValuesCache == Remember(old(parsedValuesCache), style, prop, read)
    {
      if style !in parsedValuesCache {
        parsedValuesCache := parsedValuesCache[style := map[]];
      }
      var cache := parsedValuesCache[style];
      if prop !in cache {
        cache := cache[prop := read(style, prop)];
        parsedValuesCache := parsedValuesCache[style := cache];
      }
      v := parsedValuesCache[style][prop];
      assert Was(old(parsedValuesCache), style)[prop := v] == parsedValuesCache[style];
    }

    /**
     * The object literal `{ top: parseCSSValue(style, top), right: …, bottom: …, left: … }`:
     * four parses in that order. The numbers are the ones the table before would give,
     * the table only grows and answers as before, and all four are cached afterwards.
     */
    method ParseSides(style: StyleHandle, top: string, right: string, bottom: string, left: string,
                      read: (StyleHandle, string) -> real) returns (sides: Sides)
      modifies this`parsedValuesCache
      ensures sides == Sides(Parsed(old(parsedValuesCache), style, top, read), Parsed(old(parsedValuesCache), style, right, read),
                             Parsed(old(parsedValuesCache), style, bottom, read), Parsed(old(parsedValuesCache), style, left, read))
      ensures CacheExtends(old(parsedValuesCache), parsedValuesCache)
      ensures forall t, q :: Parsed(parsedValuesCache, t, q, read) == Parsed(old(parsedValuesCache), t, q, read)
      ensures forall q :: q in [top, right, bottom, left] ==> q in Was(parsedValuesCache, style)
    {
      ghost var c0, c, done := parsedValuesCache, parsedValuesCache, {};
      var t := ParseCssValue(style, top, read);
      RememberStep(c0, c, style, top, read, done);
      c, done := parsedValuesCache, done + {top};
      var r := ParseCssValue(style, right, read);
      RememberStep(c0, c, style, right, read, done);
      c, done := parsedValuesCache, done + {right};
      var b := ParseCssValue(style, bottom, read);
      RememberStep(c0, c, style, bottom, read, done);
      c, done := parsedValuesCache, done + {bottom};
      var l := ParseCssValue(style, left, read);
      RememberStep(c0, c, style, left, read, done);
      c, done := parsedValuesCache, done + {left};
      sides := Sides(t, r, b, l);
    }

    /**
     * updateHighlight's measurements: el's declaration looked up, its paddings and then
     * its margins parsed, and the three boxes computed from them and the rectangle.
     */
    method MeasureBox(el: Uid, rect: Rect, computed: StyleHandle, read: (StyleHandle, string) -> real) returns (b: Layers)
      modifies this`styleCache, this`parsedValuesCache
      ensures var h := Cached(old(styleCache), el, computed);
              styleCache == old(styleCache)[el := h]
              && CacheExtends(old(parsedValuesCache), parsedValuesCache)
              && (forall p :: p in PaddingProps + MarginProps ==>
                    p in Was(parsedValuesCache, h) && Was(parsedValuesCache, h)[p] == Parsed(old(parsedValuesCache), h, p, read))
              && b == HighlightBox(old(parsedValuesCache), h, rect, read)
    {
      var style := GetStyleCache(el, computed);
      ghost var c0 := parsedValuesCache;
      var pad := ParseSides(style, "padding-top", "padding-right", "padding-bottom", "padding-left", read);
      ghost var c1 := parsedValuesCache;
      var mar := ParseSides(style, "margin-top", "margin-right", "margin-bottom", "margin-left", read);
      TwoRuns(c0, c1, parsedValuesCache, style, read, PaddingProps, MarginProps);
      b := BoxModel(rect, mar, pad);
    }

    /**
     * updateHighlight(el): nothing without the overlay. Otherwise the overlay is shown
     * at the box model of el's rectangle and its (memoised) margins and paddings, and
     * the margin, padding and content layers are placed inside it.
     */
    method UpdateHighlight(el: ElementNode, rect: Rect, computed: StyleHandle, read: (StyleHandle, string) -> real)
      requires Valid()
      modifies this`styleCache, this`parsedValuesCache, page`body
      ensures Valid()
      ensures overlayRoot.None? ==>
                page.body == old(page.body) && styleCache == old(styleCache) && parsedValuesCache == old(parsedValuesCache)
      ensures overlayRoot.Some? ==>
                var h := Cached(old(styleCache), el.uid, computed);
                styleCache == old(styleCache)[el.uid := h]
                && CacheExtends(old(parsedValuesCache), parsedValuesCache)
                && (forall p :: p in PaddingProps + MarginProps ==>
                      p in Was(parsedValuesCache, h) && Was(parsedValuesCache, h)[p] == Parsed(old(parsedValuesCache), h, p, read))
                && page.body == PlaceOverlay(old(page.body), overlayRoot.value, overlayMargin.value, overlayPadding.value,
                                             overlayContent.value, HighlightBox(old(parsedValuesCache), h, rect, read))
    {
      if overlayRoot.None? {
        return;
      }
      var b := MeasureBox(el.uid, rect, computed, read);
      PlaceLayers(b);
    }

    /** updateHighlight's writes: the overlay shown and its layers placed at b. */
    method PlaceLayers(b: Layers)
      requires Valid() && overlayRoot.Some?
      modifies page`body
      ensures Valid()
      ensures page.body == PlaceOverlay(old(page.body), overlayRoot.value, overlayMargin.value, overlayPadding.value,
                                        overlayContent.value, b)
    {
      PlaceOverlayKeepsUids(page.body, overlayRoot.value, overlayMargin.value, overlayPadding.value, overlayContent.value, b, page.nextUid);
      page.SetBody(PlaceOverlay(page.body, overlayRoot.value, overlayMargin.value, overlayPadding.value, overlayContent.value, b));
    }

    /** updateStyleInfo(el): nothing without the panel; otherwise el's declaration is looked up and the panel shown. */
    method UpdateStyleInfo(el: ElementNode, computed: StyleHandle)
      requires Valid()
      modifies this`styleCache, page`body
      ensures Valid()
      ensures stylePanel.None? ==> page.body == old(page.body) && styleCache == old(styleCache)
      ensures stylePanel.Some? ==>
                styleCache == old(styleCache)[el.uid := Cached(old(styleCache), el.uid, computed)]
                && page.body == Styled(old(page.body), stylePanel, Display("block"))
    {
      if stylePanel.None? {
        return;
      }
      var style := GetStyleCache(el.uid, computed);
      StyledKeepsUids(page.body, stylePanel, Display("block"), page.nextUid);
      page.SetBody(Styled(page.body, stylePanel, Display("block")));
    }

    /**
     * The debounced mouse-over handler: nothing unless highlight or styleInfo is on and
     * the target is an element without the internal marker; then HoverOn.
     */
    method OnHover(target: Option<ElementNode>, rect: Rect, computed: StyleHandle, read: (StyleHandle, string) -> real)
      requires Valid()
      modifies this`styleCache, this`parsedValuesCache, page`body
      ensures Valid()
      ensures (!state.highlight && !state.styleInfo) || target.None? || IsInternal(target.value, opts.prefix) ==>
                page.body == old(page.body) && styleCache == old(styleCache) && parsedValuesCache == old(parsedValuesCache)
      ensures (state.highlight || state.styleInfo) && target.Some? && !IsInternal(target.value, opts.prefix) ==>
                Hovered(old(page.body), old(styleCache), old(parsedValuesCache), target.value.uid, rect, computed, read)
    {
      if !state.highlight && !state.styleInfo {
        return;
      }
      if target.None? || IsInternal(target.value, opts.prefix) {
        return;
      }
      HoverOn(target.value, rect, computed, read);
    }

    /**
     * The page and tables after hovering el, from the ones before: with highlight on
     * (and the overlay built) the overlay placed at el's box; with styleInfo on the
     * panel shown; el's declaration cached when either ran; parsed numbers only added.
     */
    ghost predicate Hovered(body: Node, sc: map<Uid, StyleHandle>, pvc: map<StyleHandle, map<string, real>>,
                            el: Uid, rect: Rect, computed: StyleHandle, read: (StyleHandle, string) -> real)
      requires OverlayRefs()
      reads this`state, this`overlayRoot, this`overlayContent, this`overlayPadding, this`overlayMargin
      reads this`stylePanel, this`styleCache, this`parsedValuesCache, page`body
    {
      var h := Cached(sc, el, computed);
      var placed := Placed(body, pvc, h, rect, read);
      page.body == (if state.styleInfo then Styled(placed, stylePanel, Display("block")) else placed)
      && styleCache == (if (state.highlight && overlayRoot.Some?) || (state.styleInfo && stylePanel.Some?) then sc[el := h] else sc)
      && CacheExtends(pvc, parsedValuesCache)
    }

    /** The overlay's four layers, when it is built, are distinct references. */
    ghost predicate OverlayRefs()
      reads this`overlayRoot, this`overlayContent, this`overlayPadding, this`overlayMargin
    {
      overlayRoot.Some? ==>
        overlayContent.Some? && overlayPadding.Some? && overlayMargin.Some?
        && Distinct4(overlayRoot.value, overlayMargin.value, overlayPadding.value, overlayContent.value)
    }

    /** The body after the highlight half of a hover: the overlay placed at the box measured with h, when it runs. */
    ghost function Placed(body: Node, pvc: map<StyleHandle, map<string, real>>, h: StyleHandle, rect: Rect,
                          read: (StyleHandle, string) -> real): Node
      requires OverlayRefs()
      reads this`state, this`overlayRoot, this`overlayContent, this`overlayPadding, this`overlayMargin
    {
      if state.highlight && overlayRoot.Some?
      then PlaceOverlay(body, overlayRoot.value, overlayMargin.value, overlayPadding.value,
                        overlayContent.value, HighlightBox(pvc, h, rect, read))
      else body
    }

    /** The two updates of the mouse-over handler, each when its flag is on. */
    method HoverOn(el: ElementNode, rect: Rect, computed: StyleHandle, read: (StyleHandle, string) -> real)
      requires Valid()
      modifies this`styleCache, this`parsedValuesCache, page`body
      ensures Valid()
      ensures Hovered(old(page.body), old(styleCache), old(parsedValuesCache), el.uid, rect, computed, read)
    {
      ghost var sc0 := styleCache;
      HighlightIfOn(el, rect, computed, read);
      CachedSticks(sc0, el.uid, computed, computed);
      if state.styleInfo {
        UpdateStyleInfo(el, computed);
      }
    }

    /** The first half of a hover: updateHighlight when highlight is on. */
    method HighlightIfOn(el: ElementNode, rect: Rect, computed: StyleHandle, read: (StyleHandle, string) -> real)
      requires Valid()
      modifies this`styleCache, this`parsedValuesCache, page`body
      ensures Valid()
      ensures page.body == Placed(old(page.body), old(parsedValuesCache), Cached(old(styleCache), el.uid, computed), rect, read)
      ensures styleCache == if state.highlight && overlayRoot.Some? then old(styleCache)[el.uid := Cached(old(styleCache), el.uid, computed)] else old(styleCache)
      ensures CacheExtends(old(parsedValuesCache), parsedValuesCache)
    {
      if state.highlight {
        UpdateHighlight(el, rect, computed, read);
      }
    }

    /**
     * The debounced mouse-out handler, and the shortcut handler's last two writes: the
     * overlay and the panel hidden.
     */
    method HideHover()
      requires Valid()
      modifies page`body
      ensures Valid()
      ensures page.body == Styled(Styled(old(page.body), overlayRoot, Display("none")), stylePanel, Display("none"))
      ensures overlayRoot.Some? && Seen(page.body, overlayRoot.value).Some? ==>
                Seen(page.body, overlayRoot.value).value.style["display"] == Keyword("none")
      ensures stylePanel.Some? && Seen(page.body, stylePanel.value).Some? ==>
                Seen(page.body, stylePanel.value).value.style["display"] == Keyword("none")
    {
      StyledKeepsUids(page.body, overlayRoot, Display("none"), page.nextUid);
      page.SetBody(Styled(page.body, overlayRoot, Display("none")));
      StyledKeepsUids(page.body, stylePanel, Display("none"), page.nextUid);
      page.SetBody(Styled(page.body, stylePanel, Display("none")));
    }

    // ----- the shortcut handler -----

    /**
     * The keydown handler. Any key but Ctrl+Alt+Pause changes nothing. That one turns
     * wire, grid and tags off on the page, runs the toolbar reset as written (which
     * leaves an internal toolbar, and so every `<prefix>active` on its buttons, as it
     * was: see the finding in README), hides the overlay and the panel, and leaves every
     * flag false.
     */
    method OnKeyDown(ctrl: bool, alt: bool, code: string)
      requires Valid()
      modifies this`state, page`body
      ensures Valid()
      ensures !(ctrl && alt && code == "Pause") ==> state == old(state) && page.body == old(page.body)
      ensures ctrl && alt && code == "Pause" ==> state == AllOff && ResetFrom(ModesOff(old(page.body)))
    {
      if !(ctrl && alt && code == "Pause") {
        return;
      }
      TurnModesOff();
      ResetChrome();
      ClearFlags();
    }

    /** The toolbar as the reference finds it in b is internal, and neither the overlay nor the panel is inside it. */
    ghost predicate ToolbarApart(b: Node)
      reads this`toolbarEl, this`overlayRoot, this`stylePanel
    {
      toolbarEl.Some? && Find(b, toolbarEl.value).Some? && IsInternal(Find(b, toolbarEl.value).value, opts.prefix)
      && (overlayRoot.None? || Find(Find(b, toolbarEl.value).value, overlayRoot.value) == None)
      && (stylePanel.None? || Find(Find(b, toolbarEl.value).value, stylePanel.value) == None)
    }

    /**
     * The body the shortcut leaves, from b3, the body once the page effects are off:
     * b4 is b3 after the toolbar reset as written, and the page is b4 with the overlay
     * and the panel hidden. When the toolbar is internal and holds neither of them, it
     * comes out exactly as it was in b3, active buttons included.
     */
    ghost predicate ResetFrom(b3: Node)
      reads this`toolbarEl, this`overlayRoot, this`stylePanel, page`body
    {
      var b4 := if toolbarEl.Some? then ResetToolbarAsWritten(opts.prefix, b3, toolbarEl.value) else b3;
      page.body == Styled(Styled(b4, overlayRoot, Display("none")), stylePanel, Display("none"))
      && (ToolbarApart(b3) ==> Find(page.body, toolbarEl.value) == Find(b3, toolbarEl.value))
      && (overlayRoot.Some? && Seen(page.body, overlayRoot.value).Some? ==>
            Seen(page.body, overlayRoot.value).value.style["display"] == Keyword("none"))
      && (stylePanel.Some? && Seen(page.body, stylePanel.value).Some? ==>
            Seen(page.body, stylePanel.value).value.style["display"] == Keyword("none"))
    }

    /** The shortcut's toolbar reset and its two hides. */
    method ResetChrome()
      requires Valid()
      modifies page`body
      ensures Valid()
      ensures ResetFrom(old(page.body))
    {
      ghost var b3 := page.body;
      ClearToolbarButtons();
      ghost var b4 := page.body;
      HideHover();
      if ToolbarApart(b3) {
        HiddenKeepsSubtree(b4, overlayRoot, stylePanel, toolbarEl.value);
      }
    }

    /** wire, grid and tags: applyWire, applyGrid and applyTags, each off, in that order. */
    ghost function ModesOff(body: Node): Node
      reads this
    {
      Traverse(opts.prefix, TagMark(false, true), Styled(Traverse(opts.prefix, Outline(false), body), gridEl, Display("none")))
    }

    /** The shortcut's first five writes: the three page effects off, then highlight and styleInfo off. */
    method TurnModesOff()
      requires Valid()
      modifies this`state, page`body
      ensures Valid()
      ensures page.body == ModesOff(old(page.body)) && state == AllOff
    {
      ApplyWire(false);
      ApplyGrid(false);
      ApplyTags(false);
      state := WithFlag(state, Highlight, false);
      state := WithFlag(state, StyleInfo, false);
      forall m: Mode ensures Flag(state, m) == Flag(AllOff, m) {
        AllOffFlags();
      }
      FlagsDetermineState(state, AllOff);
    }

    /**
     * The shortcut's toolbar reset as written: traverseDOM from the toolbar, clearing
     * `<prefix>active` on the buttons it reaches. The walk stops at once on the
     * internal toolbar, so that toolbar is returned unchanged.
     */
    method ClearToolbarButtons()
      requires Valid()
      modifies page`body
      ensures Valid()
      ensures toolbarEl.None? ==> page.body == old(page.body)
      ensures toolbarEl.Some? ==> page.body == ResetToolbarAsWritten(opts.prefix, old(page.body), toolbarEl.value)
      ensures toolbarEl.Some? && Find(old(page.body), toolbarEl.value).Some?
              && IsInternal(Find(old(page.body), toolbarEl.value).value, opts.prefix) ==>
                Find(page.body, toolbarEl.value) == Find(old(page.body), toolbarEl.value)
    {
      if toolbarEl.Some? {
        ResetToolbarKeepsUids(opts.prefix, page.body, toolbarEl.value, page.nextUid);
        page.SetBody(ResetToolbarAsWritten(opts.prefix, page.body, toolbarEl.value));
      }
    }

    /** `Object.keys(state).forEach(k => state[k] = false)` */
    method ClearFlags()
      modifies this`state
      ensures state == AllOff
    {
      for i := 0 to |StateKeys|
        invariant forall j :: 0 <= j < i ==> !Flag(state, StateKeys[j])
      {
        state := WithFlag(state, StateKeys[i], false);
      }
      forall m: Mode ensures Flag(state, m) == Flag(AllOff, m) {
        ModeListsComplete(m);
        AllOffFlags();
      }
      FlagsDetermineState(state, AllOff);
    }
  }
}
