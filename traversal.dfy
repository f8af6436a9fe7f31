/**
 * The tree walks of the mode switches, and the per-element callbacks they run.
 *
 * The newer controller walks with traverseDOM: from a start node, in document order,
 * returning at once from any internal node, so a whole internal subtree is skipped.
 * The earlier one runs `querySelectorAll("body *").forEach`: every element strictly
 * below body, each checked for the marker on its own. Both are functions from the
 * old tree to the new one; the callbacks only touch the element's classes and its
 * `data-dbg` attribute, never its children.
 */
module Traversal {
  import opened Dom
  import opened Labels

  /** A tree-walk callback. */
  datatype Action =
    | Outline(on: bool)                   // applyWire: toggles <prefix>dbg-outline on non-internal elements
    | TagMark(on: bool, dropLabel: bool)  // applyTags: writes data-dbg, or deletes it when dropLabel; toggles <prefix>dbg-tag
    | ClearActive                         // shortcut reset: removes <prefix>active from BUTTON elements

  /** The attribute behind `dataset.dbg`. */
  const DbgAttr := "data-dbg"

  function OutlineClass(prefix: string): string { prefix + "dbg-outline" }
  function TagClass(prefix: string): string { prefix + "dbg-tag" }
  function ActiveClass(prefix: string): string { prefix + "active" }

  lemma DbgAttrNotInternal(prefix: string)
    ensures InternalAttr(prefix) != DbgAttr
  {
    assert |InternalAttr(prefix)| >= 13 > |DbgAttr|;
  }

  /** One callback on one node. Text nodes are never passed to it. */
  function Apply(prefix: string, a: Action, n: Node): (r: Node)
    ensures n.Element? <==> r.Element?
    ensures n.Text? ==> r == n
    ensures n.Element? ==> r.uid == n.uid && r.tag == n.tag && r.id == n.id && r.style == n.style && r.children == n.children
    ensures IsInternal(r, prefix) <==> IsInternal(n, prefix)
    ensures a.Outline? || a.TagMark? ==> IsInternal(n, prefix) ==> r == n
  {
    if !n.Element? then n
    else match a
      case Outline(on) =>
        if IsInternal(n, prefix) then n
        else n.(classes := ToggleClass(n.classes, OutlineClass(prefix), on))
      case TagMark(on, dropLabel) =>
        if IsInternal(n, prefix) then n
        else
          DbgAttrNotInternal(prefix);
          var attrs := if on then n.attrs[DbgAttr := TagLabel(n.tag, n.id, n.classes, prefix)]
                       else if dropLabel then n.attrs - {DbgAttr} else n.attrs;
          n.(attrs := attrs, classes := ToggleClass(n.classes, TagClass(prefix), on))
      case ClearActive =>
        if n.tag == "BUTTON" then n.(classes := RemoveClass(n.classes, ActiveClass(prefix))) else n
  }

  /**
   * traverseDOM(node, callback): an internal node comes back as it is; any other keeps
   * its kind, its uid and its number of children.
   */
  function Traverse(prefix: string, a: Action, n: Node): (r: Node)
    ensures IsInternal(n, prefix) ==> r == n
    ensures n.Element? <==> r.Element?
    ensures n.Element? ==> r.uid == n.uid && r.tag == n.tag && |r.children| == |n.children|
    decreases n
  {
    if IsInternal(n, prefix) then n
    else match n
      case Text(_) => n
      case Element(_, _, _, _, _, _, cs) =>
        Apply(prefix, a, n).(children := seq(|cs|, i requires 0 <= i < |cs| => Traverse(prefix, a, cs[i])))
  }

  /** The callback on the node and every element below it, internal or not: kind, uid, marker and child count kept. */
  function ApplyAll(prefix: string, a: Action, n: Node): (r: Node)
    ensures n.Element? <==> r.Element?
    ensures n.Element? ==> r.uid == n.uid && r.tag == n.tag && |r.children| == |n.children|
    ensures IsInternal(r, prefix) <==> IsInternal(n, prefix)
    decreases n
  {
    match n
    case Text(_) => n
    case Element(_, _, _, _, _, _, cs) =>
      Apply(prefix, a, n).(children := seq(|cs|, i requires 0 <= i < |cs| => ApplyAll(prefix, a, cs[i])))
  }

  /** `n.querySelectorAll("*").forEach(callback)`: every element strictly below n; n's own fields are kept. */
  function ForEachBelow(prefix: string, a: Action, n: Node): (r: Node)
    ensures n.Text? ==> r == n
    ensures n.Element? ==> r.Element? && Own(r) == Own(n) && |r.children| == |n.children|
  {
    match n
    case Text(_) => n
    case Element(_, _, _, _, _, _, cs) =>
      n.(children := seq(|cs|, i requires 0 <= i < |cs| => ApplyAll(prefix, a, cs[i])))
  }

  // ----- the walks keep every uid in place -----

  lemma {:induction false} TraverseKeepsUids(prefix: string, a: Action, n: Node, b: Uid)
    requires UidsBelow(n, b)
    ensures UidsBelow(Traverse(prefix, a, n), b)
    decreases n
  {
    if !IsInternal(n, prefix) && n.Element? {
      var cs := n.children;
      forall i | 0 <= i < |cs| ensures UidsBelow(Traverse(prefix, a, cs[i]), b) {
        TraverseKeepsUids(prefix, a, cs[i], b);
      }
    }
  }

  lemma {:induction false} ApplyAllKeepsUids(prefix: string, a: Action, n: Node, b: Uid)
    requires UidsBelow(n, b)
    ensures UidsBelow(ApplyAll(prefix, a, n), b)
    decreases n
  {
    if n.Element? {
      var cs := n.children;
      forall i | 0 <= i < |cs| ensures UidsBelow(ApplyAll(prefix, a, cs[i]), b) {
        ApplyAllKeepsUids(prefix, a, cs[i], b);
      }
    }
  }

  lemma ForEachBelowKeepsUids(prefix: string, a: Action, b: Uid)
    ensures forall x: Node :: UidsBelow(x, b) ==> UidsBelow(ForEachBelow(prefix, a, x), b)
  {
    forall x: Node | UidsBelow(x, b) ensures UidsBelow(ForEachBelow(prefix, a, x), b) {
      if x.Element? {
        var cs := x.children;
        assert UidsBelowIn(cs, b);
        forall i | 0 <= i < |cs| ensures UidsBelow(ApplyAll(prefix, a, cs[i]), b) {
          ApplyAllKeepsUids(prefix, a, cs[i], b);
        }
      }
    }
  }

  // ----- positions in a tree -----

  /** p is a path of child indexes from n down to some node. */
  predicate ValidPath(n: Node, p: seq<nat>)
    decreases p
  {
    p == [] || (n.Element? && p[0] < |n.children| && ValidPath(n.children[p[0]], p[1..]))
  }

  function At(n: Node, p: seq<nat>): Node
    requires ValidPath(n, p)
    decreases p
  {
    if p == [] then n else At(n.children[p[0]], p[1..])
  }

  /** traverseDOM reaches the node at p: nothing on the way there, the node included, is internal. */
  predicate Reached(prefix: string, n: Node, p: seq<nat>)
    requires ValidPath(n, p)
    decreases p
  {
    !IsInternal(n, prefix) && (p == [] || Reached(prefix, n.children[p[0]], p[1..]))
  }

  /** The node at a reached path is not internal. */
  lemma {:induction false} ReachedAt(prefix: string, n: Node, p: seq<nat>)
    requires ValidPath(n, p) && Reached(prefix, n, p)
    ensures !IsInternal(At(n, p), prefix)
    decreases p
  {
    if p != [] {
      ReachedAt(prefix, n.children[p[0]], p[1..]);
    }
  }

  lemma {:induction false} TraverseValidPath(prefix: string, a: Action, n: Node, p: seq<nat>)
    ensures ValidPath(Traverse(prefix, a, n), p) <==> ValidPath(n, p)
    decreases p
  {
    if p != [] && !IsInternal(n, prefix) && n.Element? && p[0] < |n.children| {
      TraverseValidPath(prefix, a, n.children[p[0]], p[1..]);
    }
  }

  /**
   * traverseDOM runs the callback on exactly the nodes it reaches: the node at a
   * reached path is the callback's result (children aside), and every other subtree,
   * an internal node's included, comes back as it was.
   */
  lemma {:induction false} TraverseAt(prefix: string, a: Action, n: Node, p: seq<nat>)
    requires ValidPath(n, p)
    ensures ValidPath(Traverse(prefix, a, n), p)
    ensures Reached(prefix, n, p) ==> Own(At(Traverse(prefix, a, n), p)) == Own(Apply(prefix, a, At(n, p)))
    ensures !Reached(prefix, n, p) ==> At(Traverse(prefix, a, n), p) == At(n, p)
    decreases p
  {
    TraverseValidPath(prefix, a, n, p);
    if p != [] && !IsInternal(n, prefix) {
      TraverseAt(prefix, a, n.children[p[0]], p[1..]);
    }
  }

  /** The start node gets the callback when it is a non-internal element. */
  lemma TraverseStart(prefix: string, a: Action, n: Node)
    requires n.Element? && !IsInternal(n, prefix)
    ensures Own(Traverse(prefix, a, n)) == Own(Apply(prefix, a, n))
  {
  }

  /** An internal start node, like the toolbar, is returned as it was: nothing below it is visited. */
  lemma TraverseInternal(prefix: string, a: Action, n: Node)
    requires IsInternal(n, prefix)
    ensures Traverse(prefix, a, n) == n
  {
  }

  lemma {:induction false} TraverseKeepsReached(prefix: string, a: Action, n: Node, p: seq<nat>)
    requires ValidPath(n, p)
    ensures ValidPath(Traverse(prefix, a, n), p)
    ensures Reached(prefix, Traverse(prefix, a, n), p) == Reached(prefix, n, p)
    decreases p
  {
    TraverseValidPath(prefix, a, n, p);
    if p != [] && !IsInternal(n, prefix) {
      TraverseKeepsReached(prefix, a, n.children[p[0]], p[1..]);
    }
  }

  lemma {:induction false} ApplyAllValidPath(prefix: string, a: Action, n: Node, p: seq<nat>)
    ensures ValidPath(ApplyAll(prefix, a, n), p) <==> ValidPath(n, p)
    decreases p
  {
    if p != [] && n.Element? && p[0] < |n.children| {
      ApplyAllValidPath(prefix, a, n.children[p[0]], p[1..]);
    }
  }

  lemma {:induction false} ApplyAllAt(prefix: string, a: Action, n: Node, p: seq<nat>)
    requires ValidPath(n, p)
    ensures ValidPath(ApplyAll(prefix, a, n), p)
    ensures Own(At(ApplyAll(prefix, a, n), p)) == Own(Apply(prefix, a, At(n, p)))
    decreases p
  {
    ApplyAllValidPath(prefix, a, n, p);
    if p != [] {
      ApplyAllAt(prefix, a, n.children[p[0]], p[1..]);
    }
  }

  lemma ForEachBelowValidPath(prefix: string, a: Action, n: Node, p: seq<nat>)
    ensures ValidPath(ForEachBelow(prefix, a, n), p) <==> ValidPath(n, p)
  {
    if p != [] && n.Element? && p[0] < |n.children| {
      ApplyAllValidPath(prefix, a, n.children[p[0]], p[1..]);
    }
  }

  /**
   * `querySelectorAll("body *").forEach`: body itself is left alone and every node
   * strictly below it is the callback's result (children aside), whatever its ancestors are.
   */
  lemma ForEachBelowAt(prefix: string, a: Action, n: Node, p: seq<nat>)
    requires ValidPath(n, p)
    ensures ValidPath(ForEachBelow(prefix, a, n), p)
    ensures p == [] ==> Own(ForEachBelow(prefix, a, n)) == Own(n)
    ensures p != [] ==> Own(At(ForEachBelow(prefix, a, n), p)) == Own(Apply(prefix, a, At(n, p)))
  {
    ForEachBelowValidPath(prefix, a, n, p);
    if p != [] {
      ApplyAllAt(prefix, a, n.children[p[0]], p[1..]);
    }
  }

  // ----- what the mode switches leave behind -----

  /** applyWire(on) in the newer controller: every reached element's outline class is on; nothing else changes. */
  lemma WireAt(prefix: string, on: bool, n: Node, p: seq<nat>)
    requires ValidPath(n, p)
    ensures ValidPath(Traverse(prefix, Outline(on), n), p)
    ensures var m, m' := At(n, p), At(Traverse(prefix, Outline(on), n), p);
            if Reached(prefix, n, p) && m.Element? then
              m'.Element? && (OutlineClass(prefix) in m'.classes) == on
              && (forall c :: c != OutlineClass(prefix) ==> (c in m'.classes <==> c in m.classes))
              && m'.attrs == m.attrs
            else Own(m') == Own(m)
  {
    TraverseAt(prefix, Outline(on), n, p);
  }

  /** applyWire(on) in the earlier controller: below body, every non-internal element's outline class is on. */
  lemma LegacyWireAt(prefix: string, on: bool, n: Node, p: seq<nat>)
    requires ValidPath(n, p)
    ensures ValidPath(ForEachBelow(prefix, Outline(on), n), p)
    ensures var m, m' := At(n, p), At(ForEachBelow(prefix, Outline(on), n), p);
            if p != [] && m.Element? && !IsInternal(m, prefix) then
              m'.Element? && (OutlineClass(prefix) in m'.classes) == on
              && (forall c :: c != OutlineClass(prefix) ==> (c in m'.classes <==> c in m.classes))
            else Own(m') == Own(m)
  {
    ForEachBelowAt(prefix, Outline(on), n, p);
  }

  /**
   * applyTags(true): every reached element carries the tag class and a `data-dbg`
   * label built from its tag, id and the classes that do not start with the prefix.
   */
  lemma TagsOnAt(prefix: string, n: Node, p: seq<nat>)
    requires ValidPath(n, p) && Reached(prefix, n, p) && At(n, p).Element?
    ensures ValidPath(Traverse(prefix, TagMark(true, true), n), p)
    ensures var m, m' := At(n, p), At(Traverse(prefix, TagMark(true, true), n), p);
            m'.Element? && TagClass(prefix) in m'.classes
            && DbgAttr in m'.attrs && m'.attrs[DbgAttr] == TagLabel(m.tag, m.id, m.classes, prefix)
  {
    TraverseAt(prefix, TagMark(true, true), n, p);
  }

  /**
   * applyTags(false) after applyTags(true) in the newer controller: no reached element
   * keeps a `data-dbg` label or the tag class.
   */
  lemma {:induction false} TagsOnOffAt(prefix: string, n: Node, p: seq<nat>)
    requires ValidPath(n, p) && Reached(prefix, n, p) && At(n, p).Element?
    ensures var t := Traverse(prefix, TagMark(false, true), Traverse(prefix, TagMark(true, true), n));
            ValidPath(t, p) && At(t, p).Element? && DbgAttr !in At(t, p).attrs && TagClass(prefix) !in At(t, p).classes
  {
    var on := Traverse(prefix, TagMark(true, true), n);
    TraverseAt(prefix, TagMark(true, true), n, p);
    TraverseKeepsReached(prefix, TagMark(true, true), n, p);
    TraverseAt(prefix, TagMark(false, true), on, p);
    ReachedAt(prefix, on, p);
  }

  /**
   * The same sequence in the earlier controller keeps every label: below body each
   * non-internal element still has `data-dbg`, as applyTags(true) wrote it.
   */
  lemma {:induction false} LegacyTagsOffKeepsLabel(prefix: string, n: Node, p: seq<nat>)
    requires ValidPath(n, p) && p != [] && At(n, p).Element? && !IsInternal(At(n, p), prefix)
    ensures var t := ForEachBelow(prefix, TagMark(false, false), ForEachBelow(prefix, TagMark(true, false), n));
            var m := At(n, p);
            ValidPath(t, p) && At(t, p).Element? && TagClass(prefix) !in At(t, p).classes
            && DbgAttr in At(t, p).attrs && At(t, p).attrs[DbgAttr] == TagLabel(m.tag, m.id, m.classes, prefix)
  {
    var on := ForEachBelow(prefix, TagMark(true, false), n);
    ForEachBelowAt(prefix, TagMark(true, false), n, p);
    ForEachBelowAt(prefix, TagMark(false, false), on, p);
  }

  /** No element the newer walk reaches carries the outline class, the tag class or a label. */
  predicate Unmarked(prefix: string, n: Node)
    decreases n
  {
    IsInternal(n, prefix) ||
    match n
    case Text(_) => true
    case Element(_, _, _, cls, attrs, _, cs) =>
      OutlineClass(prefix) !in cls && TagClass(prefix) !in cls && DbgAttr !in attrs
      && forall i :: 0 <= i < |cs| ==> Unmarked(prefix, cs[i])
  }

  /** applyWire(true) then applyWire(false) restores a page the controller had not marked. */
  lemma {:induction false} WireRoundTrip(prefix: string, n: Node)
    requires Unmarked(prefix, n)
    ensures Traverse(prefix, Outline(false), Traverse(prefix, Outline(true), n)) == n
    decreases n
  {
    if !IsInternal(n, prefix) && n.Element? {
      var cs := n.children;
      forall i | 0 <= i < |cs| ensures Traverse(prefix, Outline(false), Traverse(prefix, Outline(true), cs[i])) == cs[i] {
        WireRoundTrip(prefix, cs[i]);
      }
      ToggleRoundTrip(n.classes, OutlineClass(prefix));
      var back := Traverse(prefix, Outline(false), Traverse(prefix, Outline(true), n));
      assert back.children == cs;
    }
  }

  /** applyTags(true) then applyTags(false) in the newer controller restores a page it had not marked. */
  lemma {:induction false} TagsRoundTrip(prefix: string, n: Node)
    requires Unmarked(prefix, n)
    ensures Traverse(prefix, TagMark(false, true), Traverse(prefix, TagMark(true, true), n)) == n
    decreases n
  {
    if !IsInternal(n, prefix) && n.Element? {
      var cs := n.children;
      forall i | 0 <= i < |cs| ensures Traverse(prefix, TagMark(false, true), Traverse(prefix, TagMark(true, true), cs[i])) == cs[i] {
        TagsRoundTrip(prefix, cs[i]);
      }
      ToggleRoundTrip(n.classes, TagClass(prefix));
      var info := TagLabel(n.tag, n.id, n.classes, prefix);
      assert n.attrs[DbgAttr := info] - {DbgAttr} == n.attrs;
      var back := Traverse(prefix, TagMark(false, true), Traverse(prefix, TagMark(true, true), n));
      assert back.children == cs;
    }
  }

  // ----- the two walks differ on an internal element's descendants -----

  /**
   * body > div[internal] > span: turning wireframe on outlines the span in the earlier
   * controller but not in the newer one, which skips the internal div's whole subtree.
   */
  lemma WalksDifferBelowInternal(prefix: string)
    ensures var span := Element(2, "SPAN", "", [], map[], map[], []);
            var div := Element(1, "DIV", "", [], map[InternalAttr(prefix) := "1"], map[], [span]);
            var body := Element(0, "BODY", "", [], map[], map[], [div]);
            var newer := Traverse(prefix, Outline(true), body);
            var older := ForEachBelow(prefix, Outline(true), body);
            ValidPath(newer, [0, 0]) && ValidPath(older, [0, 0]) && At(newer, [0, 0]).Element? && At(older, [0, 0]).Element?
            && OutlineClass(prefix) !in At(newer, [0, 0]).classes && OutlineClass(prefix) in At(older, [0, 0]).classes
  {
    var span := Element(2, "SPAN", "", [], map[], map[], []);
    var div := Element(1, "DIV", "", [], map[InternalAttr(prefix) := "1"], map[], [span]);
    var body := Element(0, "BODY", "", [], map[], map[], [div]);
    assert !IsInternal(span, prefix);
    TraverseAt(prefix, Outline(true), body, [0, 0]);
    ForEachBelowAt(prefix, Outline(true), body, [0, 0]);
  }

  // ----- clearing the toolbar buttons -----

  /**
   * The newer shortcut reset as written walks the toolbar with traverseDOM; the toolbar
   * is internal, so the walk returns at once and every button keeps its active class.
   */
  lemma {:induction false} ResetKeepsActiveButton(prefix: string, toolbar: Node, p: seq<nat>)
    requires IsInternal(toolbar, prefix) && ValidPath(toolbar, p)
    ensures Traverse(prefix, ClearActive, toolbar) == toolbar
    ensures At(Traverse(prefix, ClearActive, toolbar), p) == At(toolbar, p)
  {
  }

  /** A toolbar with one active button: after the reset as written the button is still active. */
  lemma ResetMissesButtonExample()
    ensures var btn := Element(1, "BUTTON", "", ["pdk-active"], map[InternalAttr("pdk-") := "1"], map[], []);
            var bar := Element(0, "DIV", "pdk-dbg-toolbar", [], map[InternalAttr("pdk-") := "1"], map[], [btn]);
            var t := Traverse("pdk-", ClearActive, bar);
            t.Element? && |t.children| == 1 && ActiveClass("pdk-") in t.children[0].classes
  {
    assert ActiveClass("pdk-") == "pdk-active";
  }

  /** Clearing every button below the toolbar, as `querySelectorAll("button")` does: none stays active. */
  lemma ClearActiveBelow(prefix: string, toolbar: Node, p: seq<nat>)
    requires ValidPath(toolbar, p) && p != []
    ensures var t := ForEachBelow(prefix, ClearActive, toolbar);
            ValidPath(t, p) && (At(t, p).Element? && At(t, p).tag == "BUTTON" ==> ActiveClass(prefix) !in At(t, p).classes)
  {
    ForEachBelowAt(prefix, ClearActive, toolbar, p);
  }
}
