/**
 * The elements the controller creates. Each is a fresh element (its uid handed out by
 * createElement) that carries the internal marker, so the mode walks leave it alone;
 * the one exception is the style element, which goes into head.
 */
module Builders {
  import opened Wrappers
  import opened Dom
  import opened Modes

  /** injectStyle: `<style data-pseudo-debugkit-style="">`; its CSS text is not modelled. */
  function StyleElement(u: Uid): (r: Node)
    ensures r.Element? && r.uid == u && r.tag == "STYLE" && UidsBelow(r, u + 1)
    ensures "data-pseudo-debugkit-style" in r.attrs && r.children == []
  {
    Element(u, "STYLE", "", [], map["data-pseudo-debugkit-style" := ""], map[], [])
  }

  /** A toolbar button: `data-mode` names the mode, its text is the caption, and it is marked. */
  function Button(prefix: string, u: Uid, m: Mode): Node
  {
    MarkInternal(Element(u, "BUTTON", "", [], map["data-mode" := ModeKey(m)], map[], [Text(Caption(m))]), prefix)
  }

  /**
   * buildToolbar's element: the marked toolbar `<prefix>dbg-toolbar` with one marked
   * button per mode, in the toolbar's order, the toolbar taking uid base and the
   * buttons the next five (ToolbarLayout).
   */
  function Toolbar(prefix: string, base: Uid): (bar: Node)
    ensures bar.Element? && bar.uid == base
  {
    var kids := seq(|ToolbarModes|, i requires 0 <= i < |ToolbarModes| => Button(prefix, base + 1 + i, ToolbarModes[i]));
    MarkInternal(Element(base, "DIV", prefix + "dbg-toolbar", [], map[], map[], kids), prefix)
  }

  lemma ToolbarLayout(prefix: string, base: Uid)
    ensures var bar := Toolbar(prefix, base);
            bar.tag == "DIV" && bar.id == prefix + "dbg-toolbar" && |bar.children| == |ToolbarModes|
            && (forall i :: 0 <= i < |ToolbarModes| ==>
                  var b := bar.children[i];
                  b == Button(prefix, base + 1 + i, ToolbarModes[i]) && b.Element? && b.uid == base + 1 + i && b.tag == "BUTTON"
                  && b.attrs["data-mode"] == ModeKey(ToolbarModes[i]) && b.children == [Text(Caption(ToolbarModes[i]))])
            && AllInternal(bar, prefix) && UidsBelow(bar, base + 1 + |ToolbarModes|)
  {
    var kids := Toolbar(prefix, base).children;
    forall i | 0 <= i < |kids| ensures AllInternal(kids[i], prefix) && UidsBelow(kids[i], base + 1 + |ToolbarModes|) {
      assert AllInternal(kids[i].children[0], prefix);
    }
  }

  /** buildToolbar's loop: one button appended per entry of the mode list. */
  method BuildToolbar(prefix: string, base: Uid) returns (bar: Node)
    ensures bar == Toolbar(prefix, base)
  {
    var kids: seq<Node> := [];
    for i := 0 to |ToolbarModes|
      invariant |kids| == i
      invariant forall j :: 0 <= j < i ==> kids[j] == Button(prefix, base + 1 + j, ToolbarModes[j])
    {
      kids := kids + [Button(prefix, base + 1 + i, ToolbarModes[i])];
    }
    bar := MarkInternal(Element(base, "DIV", prefix + "dbg-toolbar", [], map[], map[], kids), prefix);
    assert kids == Toolbar(prefix, base).children;
  }

  /** buildGrid before its columns: the marked grid `<prefix>dbg-grid` holding one marked `<prefix>cols` container. */
  function GridShell(prefix: string, u: Uid): (r: Node)
    ensures r.Element? && r.uid == u && r.id == prefix + "dbg-grid" && AllInternal(r, prefix) && UidsBelow(r, u + 2)
    ensures |r.children| == 1 && r.children[0].Element? && r.children[0].uid == u + 1
    ensures QueryClassIn(r.children, prefix + "cols") == Some(r.children[0])
  {
    var cols := MarkInternal(Element(u + 1, "DIV", "", [prefix + "cols"], map[], map[], []), prefix);
    var r := MarkInternal(Element(u, "DIV", prefix + "dbg-grid", [], map[], map[], [cols]), prefix);
    assert r.children == [cols] && AllInternal(cols, prefix) && UidsBelow(cols, u + 2);
    r
  }

  /** One grid column: a marked div with the class `<prefix>col`. */
  function Column(prefix: string, u: Uid): Node
  {
    MarkInternal(Element(u, "DIV", "", [prefix + "col"], map[], map[], []), prefix)
  }

  /** n grid columns with consecutive uids from base (none when n is not positive); see ColumnsLayout. */
  function Columns(prefix: string, base: Uid, n: int): (cs: seq<Node>)
    ensures |cs| == if n > 0 then n else 0
    decreases n
  {
    if n <= 0 then [] else Columns(prefix, base, n - 1) + [Column(prefix, base + n - 1)]
  }

  lemma {:induction false} ColumnsLayout(prefix: string, base: Uid, n: int)
    ensures var cs := Columns(prefix, base, n);
            (forall i :: 0 <= i < |cs| ==>
               cs[i] == Column(prefix, base + i) && cs[i].Element? && cs[i].uid == base + i && cs[i].tag == "DIV"
               && cs[i].classes == [prefix + "col"] && AllInternal(cs[i], prefix))
            && UidsBelowIn(cs, base + |cs|)
    decreases n
  {
    if n > 0 {
      ColumnsLayout(prefix, base, n - 1);
      var cs := Columns(prefix, base, n);
      var init := Columns(prefix, base, n - 1);
      forall i | 0 <= i < |cs| ensures cs[i] == Column(prefix, base + i) && AllInternal(cs[i], prefix) && UidsBelow(cs[i], base + |cs|) {
        if i < |cs| - 1 {
          assert cs[i] == init[i];
          UidsBelowMonoNode(cs[i], base + |init|, base + |cs|);
        } else {
          assert AllInternal(Column(prefix, base + i), prefix) && UidsBelow(Column(prefix, base + i), base + i + 1);
        }
      }
    }
  }

  /**
   * setGridColumns' two loops: the container's children removed one at a time, then n
   * new columns appended.
   */
  method BuildColumns(prefix: string, existing: seq<Node>, n: int, base: Uid) returns (kids: seq<Node>)
    ensures kids == Columns(prefix, base, n)
  {
    kids := existing;
    while kids != []
      decreases |kids|
    {
      kids := kids[1..];
    }
    var i := 0;
    while i < n
      invariant 0 <= i <= (if n > 0 then n else 0) && kids == Columns(prefix, base, i)
      decreases n - i
    {
      kids := kids + [Column(prefix, base + i)];
      i := i + 1;
    }
  }

  /** buildGrid once setGridColumns has run: the grid whose container holds n columns, uids from u + 2 (FilledGridLayout). */
  function FilledGrid(prefix: string, u: Uid, n: int): (r: Node)
    ensures r.Element? && r.uid == u
  {
    var cols := MarkInternal(Element(u + 1, "DIV", "", [prefix + "cols"], map[], map[], Columns(prefix, u + 2, n)), prefix);
    MarkInternal(Element(u, "DIV", prefix + "dbg-grid", [], map[], map[], [cols]), prefix)
  }

  lemma FilledGridLayout(prefix: string, u: Uid, n: int)
    ensures var r := FilledGrid(prefix, u, n);
            r.id == prefix + "dbg-grid" && AllInternal(r, prefix) && UidsBelow(r, u + 2 + |Columns(prefix, u + 2, n)|)
            && |r.children| == 1 && r.children[0].Element? && r.children[0].uid == u + 1
            && r.children[0].children == Columns(prefix, u + 2, n)
  {
    var shell := GridShell(prefix, u);
    var cs := Columns(prefix, u + 2, n);
    var cols := shell.children[0].(children := cs);
    var b := u + 2 + |cs|;
    ColumnsLayout(prefix, u + 2, n);
    assert AllInternal(cols, prefix);
    assert UidsBelow(cols, b);
    assert FilledGrid(prefix, u, n).children == [cols];
  }

  /**
   * Appending the grid shell to a body whose uids are all below base and then filling
   * its container gives the body with the finished grid appended: the reference
   * buildGrid holds is found, and the container it finds is the shell's own.
   */
  lemma GridAppended(prefix: string, body: Node, base: Uid, n: int)
    requires body.Element? && UidsBelow(body, base)
    ensures var b1 := body.(children := body.children + [GridShell(prefix, base)]);
            Find(b1, base) == Some(GridShell(prefix, base))
            && Update(b1, base + 1, SetChildren(Columns(prefix, base + 2, n))) == body.(children := body.children + [FilledGrid(prefix, base, n)])
  {
    var shell := GridShell(prefix, base);
    FreshAbsent(body.children, base, base);
    FindInAppend(body.children, [shell], base);
    assert FindIn([shell], base) == Find(shell, base);
    FreshAbsent(body.children, base, base + 1);
    ShellFilled(prefix, body.children, base, n);
  }

  lemma ShellFilled(prefix: string, cs: seq<Node>, base: Uid, n: int)
    requires FindIn(cs, base + 1) == None
    ensures UpdateIn(cs + [GridShell(prefix, base)], base + 1, SetChildren(Columns(prefix, base + 2, n))) == cs + [FilledGrid(prefix, base, n)]
  {
    var shell := GridShell(prefix, base);
    var f := SetChildren(Columns(prefix, base + 2, n));
    UpdateInAppend(cs, [shell], base + 1, f);
    UpdateAbsent(cs, base + 1, f);
    assert UpdateIn([shell], base + 1, f) == [Update(shell, base + 1, f)] by {
      assert [shell][1..] == [];
    }
    assert UpdateIn(shell.children, base + 1, f) == [f(shell.children[0])] by {
      assert shell.children[1..] == [];
    }
  }

  /**
   * buildHighlightOverlay: the marked overlay root (uid u) holding the margin, padding
   * and content layers in that order; they were created content first, so they have
   * uids u + 3, u + 2 and u + 1.
   */
  function Overlay(prefix: string, u: Uid): (r: Node)
    ensures r.Element? && r.uid == u && r.id == prefix + "dbg-hover-overlay" && AllInternal(r, prefix) && UidsBelow(r, u + 4)
    ensures |r.children| == 3
    ensures r.children[0].Element? && r.children[0].uid == u + 3 && r.children[0].id == prefix + "dbg-hover-margin"
    ensures r.children[1].Element? && r.children[1].uid == u + 2 && r.children[1].id == prefix + "dbg-hover-padding"
    ensures r.children[2].Element? && r.children[2].uid == u + 1 && r.children[2].id == prefix + "dbg-hover-content"
  {
    var content := MarkInternal(Element(u + 1, "DIV", prefix + "dbg-hover-content", [], map[], map[], []), prefix);
    var padding := MarkInternal(Element(u + 2, "DIV", prefix + "dbg-hover-padding", [], map[], map[], []), prefix);
    var margin := MarkInternal(Element(u + 3, "DIV", prefix + "dbg-hover-margin", [], map[], map[], []), prefix);
    var r := MarkInternal(Element(u, "DIV", prefix + "dbg-hover-overlay", [], map[], map[], [margin, padding, content]), prefix);
    assert r.children == [margin, padding, content];
    assert AllInternal(margin, prefix) && AllInternal(padding, prefix) && AllInternal(content, prefix);
    assert UidsBelow(margin, u + 4) && UidsBelow(padding, u + 4) && UidsBelow(content, u + 4);
    r
  }

  /**
   * What init appends to body, in order: the toolbar (uid t) and the grid (uid g) when
   * the panel option is on, then the overlay (uid o) and the style panel (uid p).
   */
  function InitElements(prefix: string, panel: bool, columns: int, t: Uid, g: Uid, o: Uid, p: Uid): seq<Node>
  {
    (if panel then [Toolbar(prefix, t), FilledGrid(prefix, g, columns)] else []) + [Overlay(prefix, o), StylePanel(prefix, p)]
  }

  /** Everything init appends carries the internal marker, so the mode walks never enter it. */
  lemma InitElementsMarked(prefix: string, panel: bool, columns: int, t: Uid, g: Uid, o: Uid, p: Uid)
    ensures var es := InitElements(prefix, panel, columns, t, g, o, p);
            |es| == (if panel then 4 else 2) && forall i :: 0 <= i < |es| ==> es[i].Element? && AllInternal(es[i], prefix)
  {
    ToolbarLayout(prefix, t);
    FilledGridLayout(prefix, g, columns);
  }

  /** The style panel's fixed look; it starts hidden. */
  const PanelStyle: map<string, CssValue> := map[
    "position" := Keyword("fixed"), "top" := Px(12), "right" := Px(12),
    "background" := Keyword("rgba(0,0,0,0.75)"), "color" := Keyword("#fff"), "fontSize" := Px(12),
    "padding" := Keyword("6px 8px"), "borderRadius" := Px(6), "pointerEvents" := Keyword("none"),
    "zIndex" := Keyword("2147483601"), "display" := Keyword("none")]

  /** buildStylePanel: the marked, hidden panel `<prefix>dbg-style-panel`. */
  function StylePanel(prefix: string, u: Uid): (r: Node)
    ensures r.Element? && r.uid == u && r.id == prefix + "dbg-style-panel" && AllInternal(r, prefix) && UidsBelow(r, u + 1)
    ensures "display" in r.style && r.style["display"] == Keyword("none")
  {
    MarkInternal(Element(u, "DIV", prefix + "dbg-style-panel", [], map[], PanelStyle, []), prefix)
  }
}
