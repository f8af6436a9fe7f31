/**
 * The part of the browser's document tree that the overlay controller reads and
 * writes, as values. An element is a record of its upper-case tag name, its id,
 * its class list, its other attributes (so `dataset.x` is the attribute "data-x"),
 * its inline style and its child nodes; every other kind of node is a `Text`.
 *
 * The source holds references to the elements it creates. Here an element carries a
 * `uid` that stands for that reference, and "the element the field points to" is
 * the first element with that uid in document order.
 */
module Dom {
  import opened Wrappers

  /** The identity of an element, standing for a JavaScript object reference. */
  type Uid = nat

  /** An inline CSS value as the controller writes it ("flex", "12px", "100%"). */
  datatype CssValue = Keyword(word: string) | Px(pixels: int) | Percent(percent: int)

  datatype Node =
    | Element(uid: Uid, tag: string, id: string, classes: seq<string>,
              attrs: map<string, string>, style: map<string, CssValue>, children: seq<Node>)
    | Text(data: string)

  type ElementNode = n: Node | n.Element? witness Element(0, "BODY", "", [], map[], map[], [])

  /** `document.createElement(tag)`: a fresh element with nothing set. */
  function NewElement(uid: Uid, tag: string): ElementNode
  {
    Element(uid, tag, "", [], map[], map[], [])
  }

  /** The node without its children: what a callback on this one element can see or change. */
  function Own(n: Node): Node
  {
    if n.Element? then n.(children := []) else n
  }

  function OwnOf(o: Option<Node>): Option<Node>
  {
    if o.Some? then Some(Own(o.value)) else None
  }

  // ----- the internal marker -----

  /** The attribute `data-<prefix>internal` that tags every element the controller builds. */
  function InternalAttr(prefix: string): string
  {
    "data-" + prefix + "internal"
  }

  /** isInternal: an element that carries the marker attribute (never a text node). */
  predicate IsInternal(n: Node, prefix: string)
  {
    n.Element? && InternalAttr(prefix) in n.attrs
  }

  /** markInternal: sets the marker attribute to "1" and changes nothing else. */
  function MarkInternal(n: Node, prefix: string): (r: Node)
    ensures IsInternal(r, prefix) <==> n.Element?
    ensures n.Element? ==> r.Element? && r.attrs[InternalAttr(prefix)] == "1" && r.(attrs := n.attrs) == n
    ensures n.Text? ==> r == n
  {
    if n.Element? then n.(attrs := n.attrs[InternalAttr(prefix) := "1"]) else n
  }

  /** Every element of the subtree carries the marker. */
  predicate AllInternal(n: Node, prefix: string)
    decreases n
  {
    match n
    case Text(_) => true
    case Element(_, _, _, _, _, _, cs) =>
      IsInternal(n, prefix) && forall i :: 0 <= i < |cs| ==> AllInternal(cs[i], prefix)
  }

  // ----- class lists (DOMTokenList) -----

  /** classList.remove(c) */
  function RemoveClass(cs: seq<string>, c: string): (r: seq<string>)
    ensures forall x :: x in r <==> x in cs && x != c
    ensures c !in cs ==> r == cs
  {
    if cs == [] then []
    else (if cs[0] == c then [] else [cs[0]]) + RemoveClass(cs[1..], c)
  }

  /** classList.toggle(c, on): adds c at the end when absent and on, removes it when off. */
  function ToggleClass(cs: seq<string>, c: string, on: bool): (r: seq<string>)
    ensures (c in r) == on
    ensures forall x :: x != c ==> (x in r <==> x in cs)
    ensures (c in cs) == on ==> r == cs
  {
    if on then (if c in cs then cs else cs + [c]) else RemoveClass(cs, c)
  }

  lemma {:induction false} RemoveClassAppended(cs: seq<string>, c: string)
    ensures RemoveClass(cs + [c], c) == RemoveClass(cs, c)
  {
    if cs == [] {
      assert [] + [c] == [c];
    } else {
      assert (cs + [c])[1..] == cs[1..] + [c];
      RemoveClassAppended(cs[1..], c);
    }
  }

  /** Toggling a class on and then off restores a list that did not hold it. */
  lemma ToggleRoundTrip(cs: seq<string>, c: string)
    requires c !in cs
    ensures ToggleClass(ToggleClass(cs, c, true), c, false) == cs
  {
    RemoveClassAppended(cs, c);
  }

  // ----- identity: finding, updating and removing an element by its uid -----

  /** The first element with uid u in the subtree, in document order. */
  function Find(n: Node, u: Uid): (r: Option<Node>)
    ensures r.Some? ==> r.value.Element? && r.value.uid == u
    decreases n
  {
    match n
    case Text(_) => None
    case Element(v, _, _, _, _, _, cs) => if v == u then Some(n) else FindIn(cs, u)
  }

  function FindIn(cs: seq<Node>, u: Uid): (r: Option<Node>)
    ensures r.Some? ==> r.value.Element? && r.value.uid == u
    decreases cs
  {
    if cs == [] then None
    else if Find(cs[0], u).Some? then Find(cs[0], u)
    else FindIn(cs[1..], u)
  }

  /**
   * Applies f to the element with uid u (to every outermost such element): an edit
   * through a reference. Without such an element nothing changes.
   */
  function Update(n: Node, u: Uid, f: Node -> Node): (r: Node)
    ensures Find(n, u) == None ==> r == n
    ensures n.Element? && n.uid != u ==> r.Element? && Own(r) == Own(n) && |r.children| == |n.children|
    decreases n
  {
    match n
    case Text(_) => n
    case Element(v, _, _, _, _, _, cs) => if v == u then f(n) else n.(children := UpdateIn(cs, u, f))
  }

  function UpdateIn(cs: seq<Node>, u: Uid, f: Node -> Node): (r: seq<Node>)
    ensures |r| == |cs|
    ensures FindIn(cs, u) == None ==> r == cs
    decreases cs
  {
    if cs == [] then []
    else
      assert cs == [cs[0]] + cs[1..];
      [Update(cs[0], u, f)] + UpdateIn(cs[1..], u, f)
  }

  /**
   * `el.remove()` for every element with uid u below the node: none is left, the node
   * itself stays, and without such an element nothing changes.
   */
  function Remove(n: Node, u: Uid): (r: Node)
    ensures n.Element? <==> r.Element?
    ensures n.Element? ==> Own(r) == Own(n)
    ensures !(n.Element? && n.uid == u) ==> Find(r, u) == None
    ensures Find(n, u) == None ==> r == n
    decreases n
  {
    match n
    case Text(_) => n
    case Element(_, _, _, _, _, _, cs) => n.(children := RemoveIn(cs, u))
  }

  function RemoveIn(cs: seq<Node>, u: Uid): (r: seq<Node>)
    ensures FindIn(r, u) == None
    ensures FindIn(cs, u) == None ==> r == cs
    decreases cs
  {
    if cs == [] then []
    else
      var first := if cs[0].Element? && cs[0].uid == u then [] else [Remove(cs[0], u)];
      assert first != [] ==> first[1..] == [];
      assert FindIn(cs, u) == None ==> Find(cs[0], u) == None && FindIn(cs[1..], u) == None;
      assert Find(cs[0], u) == None ==> !(cs[0].Element? && cs[0].uid == u) && Remove(cs[0], u) == cs[0];
      FindInAppend(first, RemoveIn(cs[1..], u), u);
      assert cs == [cs[0]] + cs[1..];
      first + RemoveIn(cs[1..], u)
  }

  /** An edit that keeps the element's identity. */
  ghost predicate KeepsUid(f: Node -> Node)
  {
    forall x: Node :: x.Element? ==> f(x).Element? && f(x).uid == x.uid
  }

  /** An edit of the element's own attributes that keeps its identity and its children. */
  ghost predicate KeepsShape(f: Node -> Node)
  {
    forall x: Node :: if x.Element? then f(x).Element? && f(x).uid == x.uid && f(x).children == x.children else f(x) == x
  }

  lemma {:induction false} FindInAppend(a: seq<Node>, b: seq<Node>, u: Uid)
    ensures FindIn(a + b, u) == if FindIn(a, u).Some? then FindIn(a, u) else FindIn(b, u)
  {
    if a == [] {
      assert a + b == b;
    } else {
      assert (a + b)[0] == a[0];
      assert (a + b)[1..] == a[1..] + b;
      FindInAppend(a[1..], b, u);
    }
  }

  lemma {:induction false} UpdateInAppend(a: seq<Node>, b: seq<Node>, u: Uid, f: Node -> Node)
    ensures UpdateIn(a + b, u, f) == UpdateIn(a, u, f) + UpdateIn(b, u, f)
  {
    if a == [] {
      assert a + b == b;
    } else {
      assert (a + b)[0] == a[0];
      assert (a + b)[1..] == a[1..] + b;
      UpdateInAppend(a[1..], b, u, f);
    }
  }

  lemma {:induction false} FindUpdatedNode(n: Node, u: Uid, f: Node -> Node)
    requires KeepsUid(f)
    ensures var r := Find(n, u); Find(Update(n, u, f), u) == if r.Some? then Some(f(r.value)) else None
    decreases n
  {
    match n
    case Text(_) =>
    case Element(v, _, _, _, _, _, cs) =>
      if v != u {
        FindUpdated(cs, u, f);
      }
  }

  /** After an update of u, the element found under u is the edited one. */
  lemma {:induction false} FindUpdated(cs: seq<Node>, u: Uid, f: Node -> Node)
    requires KeepsUid(f)
    ensures var r := FindIn(cs, u); FindIn(UpdateIn(cs, u, f), u) == if r.Some? then Some(f(r.value)) else None
    decreases cs
  {
    if cs != [] {
      var up := UpdateIn(cs, u, f);
      assert up[0] == Update(cs[0], u, f);
      assert up[1..] == UpdateIn(cs[1..], u, f);
      FindUpdatedNode(cs[0], u, f);
      FindUpdated(cs[1..], u, f);
    }
  }

  lemma {:induction false} FindOtherNode(n: Node, v: Uid, u: Uid, f: Node -> Node)
    requires KeepsShape(f) && v != u
    ensures OwnOf(Find(Update(n, v, f), u)) == OwnOf(Find(n, u))
    decreases n
  {
    match n
    case Text(_) =>
    case Element(w, _, _, _, _, _, cs) =>
      if w == v {
        assert f(n).children == cs;
      } else if w != u {
        FindOther(cs, v, u, f);
      }
  }

  /** An edit of one element that keeps shape leaves what is seen of every other element. */
  lemma {:induction false} FindOther(cs: seq<Node>, v: Uid, u: Uid, f: Node -> Node)
    requires KeepsShape(f) && v != u
    ensures OwnOf(FindIn(UpdateIn(cs, v, f), u)) == OwnOf(FindIn(cs, u))
    decreases cs
  {
    if cs != [] {
      var up := UpdateIn(cs, v, f);
      assert up[0] == Update(cs[0], v, f);
      assert up[1..] == UpdateIn(cs[1..], v, f);
      FindOtherNode(cs[0], v, u, f);
      FindOther(cs[1..], v, u, f);
    }
  }

  lemma {:induction false} UpdateAbsentNode(n: Node, u: Uid, f: Node -> Node)
    requires Find(n, u) == None
    ensures Update(n, u, f) == n
    decreases n
  {
    match n
    case Text(_) =>
    case Element(_, _, _, _, _, _, cs) => UpdateAbsent(cs, u, f);
  }

  /** Updating an element that is not there changes nothing. */
  lemma {:induction false} UpdateAbsent(cs: seq<Node>, u: Uid, f: Node -> Node)
    requires FindIn(cs, u) == None
    ensures UpdateIn(cs, u, f) == cs
    decreases cs
  {
    if cs != [] {
      UpdateAbsentNode(cs[0], u, f);
      UpdateAbsent(cs[1..], u, f);
    }
  }

  lemma {:induction false} RemovedGoneNode(n: Node, u: Uid)
    requires !(n.Element? && n.uid == u)
    ensures Find(Remove(n, u), u) == None
    decreases n
  {
    match n
    case Text(_) =>
    case Element(_, _, _, _, _, _, cs) => RemovedGone(cs, u);
  }

  /** After `remove()`, no element with that uid is left. */
  lemma {:induction false} RemovedGone(cs: seq<Node>, u: Uid)
    ensures FindIn(RemoveIn(cs, u), u) == None
    decreases cs
  {
    if cs != [] {
      var head := if cs[0].Element? && cs[0].uid == u then [] else [Remove(cs[0], u)];
      RemovedGone(cs[1..], u);
      if head != [] {
        RemovedGoneNode(cs[0], u);
      }
      FindInAppend(head, RemoveIn(cs[1..], u), u);
    }
  }

  lemma {:induction false} RemoveKeepsGoneNode(n: Node, v: Uid, u: Uid)
    requires Find(n, u) == None
    ensures Find(Remove(n, v), u) == None
    decreases n
  {
    match n
    case Text(_) =>
    case Element(_, _, _, _, _, _, cs) => RemoveKeepsGone(cs, v, u);
  }

  /** Removing something never brings an absent element back. */
  lemma {:induction false} RemoveKeepsGone(cs: seq<Node>, v: Uid, u: Uid)
    requires FindIn(cs, u) == None
    ensures FindIn(RemoveIn(cs, v), u) == None
    decreases cs
  {
    if cs != [] {
      var head := if cs[0].Element? && cs[0].uid == v then [] else [Remove(cs[0], v)];
      RemoveKeepsGone(cs[1..], v, u);
      if head != [] {
        RemoveKeepsGoneNode(cs[0], v, u);
      }
      FindInAppend(head, RemoveIn(cs[1..], v), u);
    }
  }

  lemma {:induction false} RemoveAbsentNode(n: Node, u: Uid)
    requires Find(n, u) == None
    ensures Remove(n, u) == n
    decreases n
  {
    match n
    case Text(_) =>
    case Element(_, _, _, _, _, _, cs) => RemoveAbsent(cs, u);
  }

  /** Removing an element that is not in the forest leaves the forest as it was. */
  lemma {:induction false} RemoveAbsent(cs: seq<Node>, u: Uid)
    requires FindIn(cs, u) == None
    ensures RemoveIn(cs, u) == cs
    decreases cs
  {
    if cs != [] {
      RemoveAbsentNode(cs[0], u);
      RemoveAbsent(cs[1..], u);
      assert cs == [cs[0]] + cs[1..];
    }
  }

  /** The forest after `el?.remove()` for each reference of us in turn; an unset reference removes nothing. */
  function RemoveEachIn(cs: seq<Node>, us: seq<Option<Uid>>): seq<Node>
    decreases |us|
  {
    if us == [] then cs
    else
      var rest := RemoveEachIn(cs, us[..|us| - 1]);
      if us[|us| - 1].Some? then RemoveIn(rest, us[|us| - 1].value) else rest
  }

  /** The same below an element, which itself stays. */
  function RemoveEach(n: Node, us: seq<Option<Uid>>): Node
    decreases |us|
  {
    if us == [] then n
    else
      var rest := RemoveEach(n, us[..|us| - 1]);
      if us[|us| - 1].Some? then Remove(rest, us[|us| - 1].value) else rest
  }

  /** After the removals no referenced element is left in the forest. */
  lemma {:induction false} RemoveEachInGone(cs: seq<Node>, us: seq<Option<Uid>>)
    ensures forall o :: o in us && o.Some? ==> FindIn(RemoveEachIn(cs, us), o.value) == None
    decreases |us|
  {
    if us != [] {
      var init, last := us[..|us| - 1], us[|us| - 1];
      var rest := RemoveEachIn(cs, init);
      RemoveEachInGone(cs, init);
      if last.Some? {
        forall o | o in init && o.Some? ensures FindIn(RemoveIn(rest, last.value), o.value) == None {
          RemoveKeepsGone(rest, last.value, o.value);
        }
      }
      assert forall o :: o in us ==> o in init || o == last;
    }
  }

  /** Below an element, every referenced element other than that element itself is gone, and the element keeps its uid. */
  lemma {:induction false} RemoveEachGone(n: Node, us: seq<Option<Uid>>)
    ensures n.Element? <==> RemoveEach(n, us).Element?
    ensures n.Element? ==> RemoveEach(n, us).uid == n.uid
    ensures forall o :: o in us && o.Some? && !(n.Element? && n.uid == o.value) ==> Find(RemoveEach(n, us), o.value) == None
    decreases |us|
  {
    if us != [] {
      var init, last := us[..|us| - 1], us[|us| - 1];
      var rest := RemoveEach(n, init);
      RemoveEachGone(n, init);
      if last.Some? {
        forall o | o in init && o.Some? && !(n.Element? && n.uid == o.value)
          ensures Find(Remove(rest, last.value), o.value) == None
        {
          RemoveKeepsGoneNode(rest, last.value, o.value);
        }
      }
      assert forall o :: o in us ==> o in init || o == last;
    }
  }

  // ----- uid freshness -----

  /** Every element of the subtree has a uid below the bound (the allocator's next value). */
  predicate UidsBelow(n: Node, bound: Uid)
    decreases n
  {
    match n
    case Text(_) => true
    case Element(v, _, _, _, _, _, cs) => v < bound && UidsBelowIn(cs, bound)
  }

  predicate UidsBelowIn(cs: seq<Node>, bound: Uid)
    decreases cs
  {
    forall i :: 0 <= i < |cs| ==> UidsBelow(cs[i], bound)
  }

  lemma {:induction false} UidsBelowMonoNode(n: Node, b: Uid, b': Uid)
    requires UidsBelow(n, b) && b <= b'
    ensures UidsBelow(n, b')
    decreases n
  {
    match n
    case Text(_) =>
    case Element(_, _, _, _, _, _, cs) => UidsBelowMono(cs, b, b');
  }

  lemma {:induction false} UidsBelowMono(cs: seq<Node>, b: Uid, b': Uid)
    requires UidsBelowIn(cs, b) && b <= b'
    ensures UidsBelowIn(cs, b')
    decreases cs
  {
    forall i | 0 <= i < |cs| ensures UidsBelow(cs[i], b') {
      UidsBelowMonoNode(cs[i], b, b');
    }
  }

  lemma {:induction false} FreshAbsentNode(n: Node, b: Uid, u: Uid)
    requires UidsBelow(n, b) && b <= u
    ensures Find(n, u) == None
    decreases n
  {
    match n
    case Text(_) =>
    case Element(_, _, _, _, _, _, cs) => FreshAbsent(cs, b, u);
  }

  /** A uid at or above the allocator's bound is not in the forest. */
  lemma {:induction false} FreshAbsent(cs: seq<Node>, b: Uid, u: Uid)
    requires UidsBelowIn(cs, b) && b <= u
    ensures FindIn(cs, u) == None
    decreases cs
  {
    if cs != [] {
      FreshAbsentNode(cs[0], b, u);
      assert UidsBelowIn(cs[1..], b) by {
        forall i | 0 <= i < |cs[1..]| ensures UidsBelow(cs[1..][i], b) {
          assert cs[1..][i] == cs[i + 1];
        }
      }
      FreshAbsent(cs[1..], b, u);
    }
  }

  lemma {:induction false} UidsBelowAppend(a: seq<Node>, b: seq<Node>, bound: Uid)
    requires UidsBelowIn(a, bound) && UidsBelowIn(b, bound)
    ensures UidsBelowIn(a + b, bound)
  {
    forall i | 0 <= i < |a + b| ensures UidsBelow((a + b)[i], bound) {
      if i < |a| {
        assert (a + b)[i] == a[i];
      } else {
        assert (a + b)[i] == b[i - |a|];
      }
    }
  }

  lemma {:induction false} UpdateKeepsUidsNode(n: Node, u: Uid, f: Node -> Node, b: Uid)
    requires UidsBelow(n, b)
    requires forall x: Node :: UidsBelow(x, b) ==> UidsBelow(f(x), b)
    ensures UidsBelow(Update(n, u, f), b)
    decreases n
  {
    match n
    case Text(_) =>
    case Element(v, _, _, _, _, _, cs) =>
      if v != u {
        UpdateKeepsUids(cs, u, f, b);
      }
  }

  /** An update with an edit that keeps uids below the bound keeps the whole forest below it. */
  lemma {:induction false} UpdateKeepsUids(cs: seq<Node>, u: Uid, f: Node -> Node, b: Uid)
    requires UidsBelowIn(cs, b)
    requires forall x: Node :: UidsBelow(x, b) ==> UidsBelow(f(x), b)
    ensures UidsBelowIn(UpdateIn(cs, u, f), b)
    decreases cs
  {
    var up := UpdateIn(cs, u, f);
    forall i | 0 <= i < |cs| ensures UidsBelow(up[i], b) {
      UpdateInAt(cs, u, f, i);
      UpdateKeepsUidsNode(cs[i], u, f, b);
    }
  }

  lemma {:induction false} UpdateInAt(cs: seq<Node>, u: Uid, f: Node -> Node, i: nat)
    requires i < |cs|
    ensures UpdateIn(cs, u, f)[i] == Update(cs[i], u, f)
    decreases cs
  {
    if i > 0 {
      UpdateInAt(cs[1..], u, f, i - 1);
    }
  }

  lemma ShapeKeepsUids(f: Node -> Node, b: Uid)
    requires KeepsShape(f)
    ensures forall x: Node :: UidsBelow(x, b) ==> UidsBelow(f(x), b)
  {
    forall x: Node | UidsBelow(x, b) ensures UidsBelow(f(x), b) {
      if x.Element? {
        assert f(x).children == x.children;
      }
    }
  }

  lemma {:induction false} RemoveKeepsUidsNode(n: Node, u: Uid, b: Uid)
    requires UidsBelow(n, b)
    ensures UidsBelow(Remove(n, u), b)
    decreases n
  {
    match n
    case Text(_) =>
    case Element(_, _, _, _, _, _, cs) => RemoveKeepsUids(cs, u, b);
  }

  lemma {:induction false} RemoveKeepsUids(cs: seq<Node>, u: Uid, b: Uid)
    requires UidsBelowIn(cs, b)
    ensures UidsBelowIn(RemoveIn(cs, u), b)
    decreases cs
  {
    if cs != [] {
      var head := if cs[0].Element? && cs[0].uid == u then [] else [Remove(cs[0], u)];
      if head != [] {
        RemoveKeepsUidsNode(cs[0], u, b);
      }
      assert UidsBelowIn(cs[1..], b) by {
        forall i | 0 <= i < |cs[1..]| ensures UidsBelow(cs[1..][i], b) {
          assert cs[1..][i] == cs[i + 1];
        }
      }
      RemoveKeepsUids(cs[1..], u, b);
      UidsBelowAppend(head, RemoveIn(cs[1..], u), b);
    }
  }

  // ----- edits used with Update -----

  /** `el.style.p = v` for every entry of props. */
  function SetStyles(props: map<string, CssValue>): Node -> Node
  {
    (x: Node) => if x.Element? then x.(style := x.style + props) else x
  }

  /** `el.classList.toggle(c, on)` */
  function SetClass(c: string, on: bool): Node -> Node
  {
    (x: Node) => if x.Element? then x.(classes := ToggleClass(x.classes, c, on)) else x
  }

  /** Replaces the element's children. */
  function SetChildren(kids: seq<Node>): Node -> Node
  {
    (x: Node) => if x.Element? then x.(children := kids) else x
  }

  lemma SetStylesShape(props: map<string, CssValue>)
    ensures KeepsShape(SetStyles(props))
  {
  }

  lemma SetClassShape(c: string, on: bool)
    ensures KeepsShape(SetClass(c, on))
  {
  }

  lemma SetChildrenKeepsUids(kids: seq<Node>, b: Uid)
    requires UidsBelowIn(kids, b)
    ensures KeepsUid(SetChildren(kids))
    ensures forall x: Node :: UidsBelow(x, b) ==> UidsBelow(SetChildren(kids)(x), b)
  {
  }

  // ----- what the controller sees of an element -----

  /** The element a reference points to, without its children (None: not in the tree). */
  function Seen(n: Node, u: Uid): Option<Node>
  {
    OwnOf(Find(n, u))
  }

  /** An in-place edit of one element: that element is edited and every other looks as before. */
  lemma SeenUpdated(n: Node, v: Uid, f: Node -> Node)
    requires KeepsShape(f)
    ensures Seen(Update(n, v, f), v) == if Find(n, v).Some? then Some(Own(f(Find(n, v).value))) else None
    ensures forall u :: u != v ==> Seen(Update(n, v, f), u) == Seen(n, u)
  {
    FindUpdatedNode(n, v, f);
    forall u | u != v ensures Seen(Update(n, v, f), u) == Seen(n, u) {
      FindOtherNode(n, v, u, f);
    }
  }

  lemma {:induction false} FindUntouchedNode(n: Node, v: Uid, u: Uid, f: Node -> Node)
    requires KeepsShape(f) && v != u
    requires Find(n, u).Some? ==> Find(Find(n, u).value, v) == None
    ensures Find(Update(n, v, f), u) == Find(n, u)
    decreases n
  {
    match n
    case Text(_) =>
    case Element(w, _, _, _, _, _, cs) =>
      if w == v {
        assert f(n).children == cs;
      } else if w == u {
        UpdateAbsent(cs, v, f);
      } else {
        FindUntouched(cs, v, u, f);
      }
  }

  /** An edit of v leaves the whole subtree of u as it was when v is not inside it. */
  lemma {:induction false} FindUntouched(cs: seq<Node>, v: Uid, u: Uid, f: Node -> Node)
    requires KeepsShape(f) && v != u
    requires FindIn(cs, u).Some? ==> Find(FindIn(cs, u).value, v) == None
    ensures FindIn(UpdateIn(cs, v, f), u) == FindIn(cs, u)
    decreases cs
  {
    if cs != [] {
      var up := UpdateIn(cs, v, f);
      assert up[0] == Update(cs[0], v, f);
      assert up[1..] == UpdateIn(cs[1..], v, f);
      if Find(cs[0], u).Some? {
        FindUntouchedNode(cs[0], v, u, f);
      } else {
        FindOtherNode(cs[0], v, u, f);
        FindUntouched(cs[1..], v, u, f);
      }
    }
  }

  // ----- querySelector(".c") -----

  predicate Carries(n: Node, c: string)
  {
    n.Element? && c in n.classes
  }

  /** The elements of a subtree in document order: the element itself, then each child's subtree in turn. */
  function Preorder(n: Node): seq<Node>
    decreases n
  {
    match n
    case Text(_) => []
    case Element(_, _, _, _, _, _, cs) => [n] + PreorderIn(cs)
  }

  function PreorderIn(cs: seq<Node>): seq<Node>
    decreases cs
  {
    if cs == [] then [] else Preorder(cs[0]) + PreorderIn(cs[1..])
  }

  /** The position of the first element of es that carries c; |es| when none does. */
  function FirstCarrying(es: seq<Node>, c: string): (k: nat)
    ensures k <= |es|
    ensures k < |es| ==> Carries(es[k], c)
    ensures forall j :: 0 <= j < k ==> !Carries(es[j], c)
  {
    if es == [] then 0 else if Carries(es[0], c) then 0 else 1 + FirstCarrying(es[1..], c)
  }

  /** The first element of es that carries c, if any. */
  function FirstOf(es: seq<Node>, c: string): Option<Node>
  {
    var k := FirstCarrying(es, c);
    if k < |es| then Some(es[k]) else None
  }

  lemma {:induction false} FirstCarryingAppend(a: seq<Node>, b: seq<Node>, c: string)
    ensures FirstCarrying(a + b, c) == if FirstCarrying(a, c) < |a| then FirstCarrying(a, c) else |a| + FirstCarrying(b, c)
    decreases |a|
  {
    if a == [] {
      assert a + b == b;
    } else {
      assert (a + b)[0] == a[0];
      assert (a + b)[1..] == a[1..] + b;
      FirstCarryingAppend(a[1..], b, c);
    }
  }

  lemma FirstOfAppend(a: seq<Node>, b: seq<Node>, c: string)
    ensures FirstOf(a + b, c) == if FirstOf(a, c).Some? then FirstOf(a, c) else FirstOf(b, c)
  {
    FirstCarryingAppend(a, b, c);
  }

  /**
   * The inclusive class query: the node itself when it carries c, otherwise the first
   * carrier among its descendants in document order; None exactly when no element of
   * the subtree carries c. `el.querySelector(".c")` searches only the descendants, so it
   * is `QueryClassIn(el.children, c)`.
   */
  function QueryClass(n: Node, c: string): (r: Option<Node>)
    ensures r == FirstOf(Preorder(n), c)
    ensures r.Some? ==> r.value.Element? && c in r.value.classes
    ensures r.None? <==> forall e :: e in Preorder(n) ==> !Carries(e, c)
    decreases n
  {
    match n
    case Text(_) => None
    case Element(_, _, _, cls, _, _, cs) =>
      FirstOfAppend([n], PreorderIn(cs), c);
      if c in cls then Some(n) else QueryClassIn(cs, c)
  }

  /**
   * The query over a list of nodes, in document order. On an element's children this is
   * `el.querySelector(".c")`.
   */
  function QueryClassIn(cs: seq<Node>, c: string): (r: Option<Node>)
    ensures r == FirstOf(PreorderIn(cs), c)
    ensures r.Some? ==> r.value.Element? && c in r.value.classes
    ensures r.None? <==> forall e :: e in PreorderIn(cs) ==> !Carries(e, c)
    decreases cs
  {
    if cs == [] then None
    else
      FirstOfAppend(Preorder(cs[0]), PreorderIn(cs[1..]), c);
      if QueryClass(cs[0], c).Some? then QueryClass(cs[0], c)
      else QueryClassIn(cs[1..], c)
  }
}
