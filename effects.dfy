/**
 * The edits the controller makes to elements it holds references to, as functions
 * from the document body before to the body after. What a reference sees of an
 * element is `Seen`: the element with that uid, without its children.
 */
module Effects {
  import opened Wrappers
  import opened Dom
  import opened Geometry
  import opened Traversal
  import Builders

  /** `style.display = v` */
  function Display(v: string): map<string, CssValue>
  {
    map["display" := Keyword(v)]
  }

  function Restyled(o: Option<Node>, props: map<string, CssValue>): Option<Node>
  {
    if o.Some? && o.value.Element? then Some(o.value.(style := o.value.style + props)) else o
  }

  function Reclassed(o: Option<Node>, c: string, on: bool): Option<Node>
  {
    if o.Some? && o.value.Element? then Some(o.value.(classes := ToggleClass(o.value.classes, c, on))) else o
  }

  /** `if (el) el.style.p = v` for every entry of props: that element is restyled and no other changes. */
  function Styled(body: Node, el: Option<Uid>, props: map<string, CssValue>): (r: Node)
    ensures el.None? ==> r == body
    ensures el.Some? ==> Seen(r, el.value) == Restyled(Seen(body, el.value), props)
    ensures forall u :: el.Some? && u != el.value ==> Seen(r, u) == Seen(body, u)
    ensures body.Element? ==> r.Element?
  {
    if el.None? then body
    else
      SetStylesShape(props);
      SeenUpdated(body, el.value, SetStyles(props));
      Update(body, el.value, SetStyles(props))
  }

  lemma StyledKeepsUids(body: Node, el: Option<Uid>, props: map<string, CssValue>, b: Uid)
    requires UidsBelow(body, b)
    ensures UidsBelow(Styled(body, el, props), b)
  {
    if el.Some? {
      SetStylesShape(props);
      ShapeKeepsUids(SetStyles(props), b);
      UpdateKeepsUidsNode(body, el.value, SetStyles(props), b);
    }
  }

  /** `if (el) el.classList.toggle(c, on)`: that element's class c is on and no other element changes. */
  function Classed(body: Node, el: Option<Uid>, c: string, on: bool): (r: Node)
    ensures el.None? ==> r == body
    ensures el.Some? ==> Seen(r, el.value) == Reclassed(Seen(body, el.value), c, on)
    ensures el.Some? && Find(body, el.value).Some? ==> Seen(r, el.value).Some? && (c in Seen(r, el.value).value.classes) == on
    ensures forall u :: el.Some? && u != el.value ==> Seen(r, u) == Seen(body, u)
    ensures body.Element? ==> r.Element?
  {
    if el.None? then body
    else
      SetClassShape(c, on);
      SeenUpdated(body, el.value, SetClass(c, on));
      Update(body, el.value, SetClass(c, on))
  }

  lemma ClassedKeepsUids(body: Node, el: Option<Uid>, c: string, on: bool, b: Uid)
    requires UidsBelow(body, b)
    ensures UidsBelow(Classed(body, el, c, on), b)
  {
    if el.Some? {
      SetClassShape(c, on);
      ShapeKeepsUids(SetClass(c, on), b);
      UpdateKeepsUidsNode(body, el.value, SetClass(c, on), b);
    }
  }

  /** Four different uids. */
  predicate Distinct4(a: Uid, b: Uid, c: Uid, d: Uid)
  {
    a != b && a != c && a != d && b != c && b != d && c != d
  }

  /**
   * updateHighlight's writes: the outer box shown and placed, the margin layer filling
   * it and the padding and content layers placed inside it; nothing else changes.
   */
  function PlaceOverlay(body: Node, root: Uid, margin: Uid, padding: Uid, content: Uid, b: Layers): (r: Node)
    requires Distinct4(root, margin, padding, content)
    ensures Seen(r, root) == Restyled(Seen(body, root), OuterStyle(b.outer))
    ensures Seen(r, margin) == Restyled(Seen(body, margin), MarginLayerStyle)
    ensures Seen(r, padding) == Restyled(Seen(body, padding), BoxStyle(b.padding))
    ensures Seen(r, content) == Restyled(Seen(body, content), BoxStyle(b.content))
    ensures forall u :: u != root && u != margin && u != padding && u != content ==> Seen(r, u) == Seen(body, u)
    ensures body.Element? ==> r.Element?
  {
    var b1 := Styled(body, Some(root), OuterStyle(b.outer));
    var b2 := Styled(b1, Some(margin), MarginLayerStyle);
    var b3 := Styled(b2, Some(padding), BoxStyle(b.padding));
    Styled(b3, Some(content), BoxStyle(b.content))
  }

  lemma PlaceOverlayKeepsUids(body: Node, root: Uid, margin: Uid, padding: Uid, content: Uid, b: Layers, bound: Uid)
    requires Distinct4(root, margin, padding, content) && UidsBelow(body, bound)
    ensures UidsBelow(PlaceOverlay(body, root, margin, padding, content, b), bound)
  {
    var b1 := Styled(body, Some(root), OuterStyle(b.outer));
    var b2 := Styled(b1, Some(margin), MarginLayerStyle);
    var b3 := Styled(b2, Some(padding), BoxStyle(b.padding));
    StyledKeepsUids(body, Some(root), OuterStyle(b.outer), bound);
    StyledKeepsUids(b1, Some(margin), MarginLayerStyle, bound);
    StyledKeepsUids(b2, Some(padding), BoxStyle(b.padding), bound);
    StyledKeepsUids(b3, Some(content), BoxStyle(b.content), bound);
  }

  // ----- what init appends to the body -----

  /** after is before with k more children, all marked, and nothing else changed. */
  predicate Extended(before: Node, after: Node, k: nat, prefix: string)
  {
    before.Element? && after.Element? && Own(after) == Own(before)
    && |after.children| == |before.children| + k && after.children[..|before.children|] == before.children
    && forall i :: |before.children| <= i < |after.children| ==> AllInternal(after.children[i], prefix)
  }

  lemma AppendedExtended(before: Node, added: seq<Node>, prefix: string)
    requires before.Element? && forall i :: 0 <= i < |added| ==> AllInternal(added[i], prefix)
    ensures Extended(before, before.(children := before.children + added), |added|, prefix)
  {
    var after := before.(children := before.children + added);
    forall i | |before.children| <= i < |after.children| ensures AllInternal(after.children[i], prefix) {
      assert after.children[i] == added[i - |before.children|];
    }
    assert after.children[..|before.children|] == before.children;
  }

  /**
   * init leaves what body held as it was and only appends elements that carry the
   * internal marker throughout (two, or four with the panel option), so the mode walks
   * never enter what it built.
   */
  lemma InitOnlyAddsMarked(body: Node, prefix: string, panel: bool, columns: int, t: Uid, g: Uid, o: Uid, p: Uid)
    requires body.Element?
    ensures var es := Builders.InitElements(prefix, panel, columns, t, g, o, p);
            |es| == (if panel then 4 else 2) && Extended(body, body.(children := body.children + es), |es|, prefix)
  {
    Builders.InitElementsMarked(prefix, panel, columns, t, g, o, p);
    AppendedExtended(body, Builders.InitElements(prefix, panel, columns, t, g, o, p), prefix);
  }

  /** init's appends to body: the chrome (if any), then the overlay and the panel. */
  lemma InitAppends(b0: Node, b1: Node, b2: Node, chrome: seq<Node>, o: Node, p: Node)
    requires b0.Element? && b1 == b0.(children := b0.children + chrome)
    requires b2 == b1.(children := b1.children + [o, p])
    ensures b2 == b0.(children := b0.children + (chrome + [o, p]))
  {
    assert b0.children + chrome + [o, p] == b0.children + (chrome + [o, p]);
  }

  // ----- clearing the toolbar's buttons -----

  /** No BUTTON strictly below n carries the active class. */
  ghost predicate NoActiveButtonBelow(prefix: string, n: Node)
  {
    forall p :: ValidPath(n, p) && p != [] && At(n, p).Element? && At(n, p).tag == "BUTTON" ==> ActiveClass(prefix) !in At(n, p).classes
  }

  function ClearBelow(prefix: string): Node -> Node
  {
    (x: Node) => ForEachBelow(prefix, ClearActive, x)
  }

  function WalkFrom(prefix: string): Node -> Node
  {
    (x: Node) => Traverse(prefix, ClearActive, x)
  }

  /**
   * The newer shortcut reset as written: traverseDOM from the toolbar. When the toolbar
   * the reference finds is internal, as the one buildToolbar makes is, nothing changes.
   */
  function ResetToolbarAsWritten(prefix: string, body: Node, toolbar: Uid): (r: Node)
    ensures var t := Find(body, toolbar); t.Some? && IsInternal(t.value, prefix) ==> Find(r, toolbar) == t
    ensures body.Element? ==> r.Element?
  {
    assert KeepsUid(WalkFrom(prefix)) by {
      forall x: Node | x.Element? ensures WalkFrom(prefix)(x).Element? && WalkFrom(prefix)(x).uid == x.uid {}
    }
    FindUpdatedNode(body, toolbar, WalkFrom(prefix));
    Update(body, toolbar, WalkFrom(prefix))
  }

  lemma ResetToolbarKeepsUids(prefix: string, body: Node, toolbar: Uid, b: Uid)
    requires UidsBelow(body, b)
    ensures UidsBelow(ResetToolbarAsWritten(prefix, body, toolbar), b)
  {
    forall x: Node | UidsBelow(x, b) ensures UidsBelow(WalkFrom(prefix)(x), b) {
      TraverseKeepsUids(prefix, ClearActive, x, b);
    }
    UpdateKeepsUidsNode(body, toolbar, WalkFrom(prefix), b);
  }

  /**
   * `toolbar.querySelectorAll("button").forEach(b => b.classList.remove(<prefix>active))`:
   * the older controller's reset, and what the newer one's is evidently meant to do.
   */
  function ClearToolbar(prefix: string, body: Node, toolbar: Uid): (r: Node)
    ensures var t := Find(body, toolbar);
            Find(r, toolbar) == if t.Some? then Some(ForEachBelow(prefix, ClearActive, t.value)) else None
    ensures Find(r, toolbar).Some? ==> NoActiveButtonBelow(prefix, Find(r, toolbar).value)
    ensures body.Element? ==> r.Element?
  {
    assert KeepsUid(ClearBelow(prefix));
    FindUpdatedNode(body, toolbar, ClearBelow(prefix));
    if Find(body, toolbar).Some? then
      ClearedButtons(prefix, Find(body, toolbar).value);
      Update(body, toolbar, ClearBelow(prefix))
    else
      Update(body, toolbar, ClearBelow(prefix))
  }

  lemma ClearedButtons(prefix: string, t: Node)
    ensures NoActiveButtonBelow(prefix, ForEachBelow(prefix, ClearActive, t))
  {
    var r := ForEachBelow(prefix, ClearActive, t);
    forall p | ValidPath(r, p) && p != [] && At(r, p).Element? && At(r, p).tag == "BUTTON"
      ensures ActiveClass(prefix) !in At(r, p).classes
    {
      ForEachBelowValidPath(prefix, ClearActive, t, p);
      ClearActiveBelow(prefix, t, p);
    }
  }

  lemma ClearToolbarKeepsUids(prefix: string, body: Node, toolbar: Uid, b: Uid)
    requires UidsBelow(body, b)
    ensures UidsBelow(ClearToolbar(prefix, body, toolbar), b)
  {
    ForEachBelowKeepsUids(prefix, ClearActive, b);
    UpdateKeepsUidsNode(body, toolbar, ClearBelow(prefix), b);
  }

  /** An edit elsewhere leaves the cleared toolbar as it is, when the edited element is not inside it. */
  lemma StyledKeepsSubtree(body: Node, el: Uid, props: map<string, CssValue>, t: Uid)
    requires el != t && (Find(body, t).Some? ==> Find(Find(body, t).value, el) == None)
    ensures Find(Styled(body, Some(el), props), t) == Find(body, t)
  {
    SetStylesShape(props);
    FindUntouchedNode(body, el, t, SetStyles(props));
  }

  /** Hiding the overlay and the panel leaves the toolbar as it is when neither is inside it. */
  lemma HiddenKeepsSubtree(body: Node, o: Option<Uid>, p: Option<Uid>, t: Uid)
    requires Find(body, t).Some?
    requires o.None? || Find(Find(body, t).value, o.value) == None
    requires p.None? || Find(Find(body, t).value, p.value) == None
    ensures Find(Styled(Styled(body, o, Display("none")), p, Display("none")), t) == Find(body, t)
  {
    var n := Find(body, t).value;
    assert Find(n, t) == Some(n);
    var b1 := Styled(body, o, Display("none"));
    if o.Some? {
      StyledKeepsSubtree(body, o.value, Display("none"), t);
    }
    if p.Some? {
      StyledKeepsSubtree(b1, p.value, Display("none"), t);
    }
  }
}
