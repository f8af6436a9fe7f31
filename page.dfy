/**
 * The browser state the controller works on: `document.head`, `document.body`, the
 * allocation of new element references by `document.createElement`, and the window's
 * keydown listeners (each registered handler is a number).
 */
module Browser {
  import opened Wrappers
  import opened Dom

  /** None of the referenced elements is left in head, nor anywhere below body (body itself stays). */
  predicate Gone(head: seq<Node>, body: Node, elements: seq<Option<Uid>>)
  {
    forall o :: o in elements && o.Some? ==>
      FindIn(head, o.value) == None && (!(body.Element? && body.uid == o.value) ==> Find(body, o.value) == None)
  }

  class Page {
    var head: seq<Node>
    var body: Node
    /** Every element in the page has a uid below this; createElement hands out the next ones. */
    var nextUid: Uid
    var keydown: set<nat>
    var nextHandler: nat

    ghost predicate Valid()
      reads this
    {
      body.Element? && UidsBelowIn(head, nextUid) && UidsBelow(body, nextUid)
      && forall h :: h in keydown ==> h < nextHandler
    }

    constructor (head: seq<Node>, body: Node, nextUid: Uid)
      requires body.Element? && UidsBelowIn(head, nextUid) && UidsBelow(body, nextUid)
      ensures Valid()
      ensures this.head == head && this.body == body && this.nextUid == nextUid
      ensures keydown == {} && nextHandler == 0
    {
      this.head := head;
      this.body := body;
      this.nextUid := nextUid;
      keydown := {};
      nextHandler := 0;
    }

    /** k calls of document.createElement: the references base, base + 1, ..., base + k - 1. */
    method Allocate(k: nat) returns (base: Uid)
      requires Valid()
      modifies this`nextUid
      ensures Valid()
      ensures base == old(nextUid) && nextUid == base + k
    {
      base := nextUid;
      nextUid := nextUid + k;
      UidsBelowMono(head, base, nextUid);
      UidsBelowMonoNode(body, base, nextUid);
    }

    /** document.head.appendChild(n) */
    method AppendToHead(n: Node)
      requires Valid() && UidsBelow(n, nextUid)
      modifies this`head
      ensures Valid()
      ensures head == old(head) + [n]
    {
      UidsBelowAppend(head, [n], nextUid);
      head := head + [n];
    }

    /** document.body.appendChild(n) */
    method AppendToBody(n: Node)
      requires Valid() && UidsBelow(n, nextUid)
      modifies this`body
      ensures Valid()
      ensures body == old(body).(children := old(body).children + [n])
    {
      UidsBelowAppend(body.children, [n], nextUid);
      body := body.(children := body.children + [n]);
    }

    /** The document after an edit made through element references. */
    method SetBody(b: Node)
      requires Valid() && b.Element? && UidsBelow(b, nextUid)
      modifies this`body
      ensures Valid() && body == b
    {
      body := b;
    }

    /** el.remove(), wherever the element is: afterwards no element with that uid is left below head or body. */
    method RemoveElement(u: Uid)
      requires Valid()
      modifies this`head, this`body
      ensures Valid()
      ensures head == RemoveIn(old(head), u) && body == Remove(old(body), u)
      ensures FindIn(head, u) == None && (body.uid != u ==> Find(body, u) == None)
    {
      RemoveKeepsUids(head, u, nextUid);
      RemoveKeepsUidsNode(body, u, nextUid);
      RemovedGone(head, u);
      RemovedGone(body.children, u);
      head := RemoveIn(head, u);
      body := Remove(body, u);
    }

    /**
     * `el?.remove()` for each reference in turn: head and body are exactly the old ones
     * with those elements taken out, so none of the elements that were set is left.
     */
    method RemoveAll(elements: seq<Option<Uid>>)
      requires Valid()
      modifies this`head, this`body
      ensures Valid()
      ensures head == RemoveEachIn(old(head), elements) && body == RemoveEach(old(body), elements)
      ensures body.uid == old(body).uid && Gone(head, body, elements)
    {
      for i := 0 to |elements|
        invariant Valid()
        invariant head == RemoveEachIn(old(head), elements[..i]) && body == RemoveEach(old(body), elements[..i])
      {
        assert elements[..i + 1][..i] == elements[..i];
        if elements[i].Some? {
          RemoveElement(elements[i].value);
        }
      }
      assert elements[..|elements|] == elements;
      RemoveEachInGone(old(head), elements);
      RemoveEachGone(old(body), elements);
    }

    /** window.addEventListener("keydown", handler): a new handler id, now registered. */
    method AddKeydownListener() returns (h: nat)
      requires Valid()
      modifies this`keydown, this`nextHandler
      ensures Valid()
      ensures h == old(nextHandler) && h !in old(keydown)
      ensures keydown == old(keydown) + {h} && nextHandler == h + 1
    {
      h := nextHandler;
      keydown := keydown + {h};
      nextHandler := nextHandler + 1;
    }

    /** window.removeEventListener("keydown", handler): a no-op for a handler that is not registered. */
    method RemoveKeydownListener(h: nat)
      requires Valid()
      modifies this`keydown
      ensures Valid()
      ensures keydown == old(keydown) - {h}
    {
      keydown := keydown - {h};
    }
  }
}
