/**
 * The tag label that tags mode attaches to an element as `data-dbg`: the lower-cased
 * tag name, then `#id` when the element has an id, then ` .` and the element's classes
 * that do not start with the prefix, joined by `.`.
 */
module Labels {
  import opened Dom

  predicate StartsWith(s: string, p: string)
  {
    |p| <= |s| && s[..|p|] == p
  }

  lemma StartsWithConcat(p: string, x: string)
    ensures StartsWith(p + x, p)
  {
    assert (p + x)[..|p|] == p;
  }

  function LowerChar(c: char): char
  {
    if 'A' <= c <= 'Z' then (c as int + 32) as char else c
  }

  /** String.prototype.toLowerCase on the ASCII letters tag names are made of. */
  function Lower(s: string): (r: string)
    ensures |r| == |s|
    ensures forall i :: 0 <= i < |s| ==> r[i] == LowerChar(s[i])
    ensures forall i :: 0 <= i < |r| ==> !('A' <= r[i] <= 'Z')
  {
    if s == [] then [] else [LowerChar(s[0])] + Lower(s[1..])
  }

  lemma StartsWithPrepend(p: string, s: string, x: string)
    requires StartsWith(s, x)
    ensures StartsWith(p + s, p + x)
  {
    assert (p + s)[..|p + x|] == p + s[..|x|];
  }

  /** Array.prototype.join(sep): empty for no strings, the string itself for one, otherwise the first, sep, the join of the rest. */
  function Join(xs: seq<string>, sep: string): (r: string)
    ensures xs == [] ==> r == ""
    ensures |xs| == 1 ==> r == xs[0]
    ensures |xs| >= 1 ==> StartsWith(r, xs[0])
    ensures |xs| >= 2 ==> StartsWith(r, xs[0] + sep)
  {
    if xs == [] then "" else if |xs| == 1 then xs[0]
    else
      StartsWithConcat(xs[0] + sep, Join(xs[1..], sep));
      StartsWithConcat(xs[0], sep + Join(xs[1..], sep));
      assert xs[0] + sep + Join(xs[1..], sep) == xs[0] + (sep + Join(xs[1..], sep));
      xs[0] + sep + Join(xs[1..], sep)
  }

  /** `Array.from(classList).filter(c => !c.startsWith(prefix))` */
  function KeptClasses(cs: seq<string>, prefix: string): (r: seq<string>)
    ensures forall c :: c in r <==> c in cs && !StartsWith(c, prefix)
    ensures |r| <= |cs|
    ensures (forall i :: 0 <= i < |cs| ==> !StartsWith(cs[i], prefix)) ==> r == cs
  {
    if cs == [] then []
    else (if StartsWith(cs[0], prefix) then [] else [cs[0]]) + KeptClasses(cs[1..], prefix)
  }

  /** `h.id ? "#" + h.id : ""`: nothing without an id, otherwise a `#` followed by the id. */
  function IdPart(id: string): (r: string)
    ensures r == "" <==> id == ""
    ensures id != "" ==> |r| == |id| + 1 && r[0] == '#' && r[1..] == id
  {
    if id != "" then "#" + id else ""
  }

  /** `classList.length ? " ." + classList.join(".") : ""`: nothing without classes, otherwise ` .` and the first class first. */
  function ClassPart(kept: seq<string>): (r: string)
    ensures r == "" <==> kept == []
    ensures kept != [] ==> StartsWith(r, " ." + kept[0])
  {
    if |kept| > 0 then
      StartsWithPrepend(" .", Join(kept, "."), kept[0]);
      " ." + Join(kept, ".")
    else ""
  }

  /**
   * The label string of an element with this tag name, id and class list: it starts
   * with the lower-cased tag name, and is just that name for an element with no id
   * whose classes the filter drops.
   */
  function TagLabel(tag: string, id: string, cs: seq<string>, prefix: string): (r: string)
    ensures StartsWith(r, Lower(tag))
    ensures id == "" && KeptClasses(cs, prefix) == [] ==> r == Lower(tag)
  {
    var rest := IdPart(id) + ClassPart(KeptClasses(cs, prefix));
    StartsWithConcat(Lower(tag), rest);
    assert id == "" && KeptClasses(cs, prefix) == [] ==> rest == [];
    Lower(tag) + rest
  }

  lemma {:induction false} KeptAppend(cs: seq<string>, c: string, prefix: string)
    ensures KeptClasses(cs + [c], prefix) == KeptClasses(cs, prefix) + (if StartsWith(c, prefix) then [] else [c])
  {
    if cs == [] {
      assert cs + [c] == [c];
    } else {
      assert (cs + [c])[0] == cs[0];
      assert (cs + [c])[1..] == cs[1..] + [c];
      KeptAppend(cs[1..], c, prefix);
    }
  }

  lemma {:induction false} KeptRemove(cs: seq<string>, c: string, prefix: string)
    requires StartsWith(c, prefix)
    ensures KeptClasses(RemoveClass(cs, c), prefix) == KeptClasses(cs, prefix)
  {
    if cs != [] {
      KeptRemove(cs[1..], c, prefix);
      var head := if cs[0] == c then [] else [cs[0]];
      KeptConcat(head, RemoveClass(cs[1..], c), prefix);
      KeptConcat([cs[0]], cs[1..], prefix);
      assert [cs[0]] + cs[1..] == cs;
    }
  }

  lemma {:induction false} KeptConcat(a: seq<string>, b: seq<string>, prefix: string)
    ensures KeptClasses(a + b, prefix) == KeptClasses(a, prefix) + KeptClasses(b, prefix)
  {
    if a == [] {
      assert a + b == b;
    } else {
      assert (a + b)[0] == a[0];
      assert (a + b)[1..] == a[1..] + b;
      KeptConcat(a[1..], b, prefix);
    }
  }

  /**
   * The controller's own classes (outline, tag, active: all start with the prefix)
   * never change an element's label: adding or removing one leaves it as it was.
   */
  lemma TagLabelIgnoresOwnClasses(tag: string, id: string, cs: seq<string>, prefix: string, x: string, on: bool)
    ensures TagLabel(tag, id, ToggleClass(cs, prefix + x, on), prefix) == TagLabel(tag, id, cs, prefix)
  {
    var c := prefix + x;
    StartsWithConcat(prefix, x);
    assert KeptClasses(ToggleClass(cs, c, on), prefix) == KeptClasses(cs, prefix) by {
      if on && c !in cs {
        KeptAppend(cs, c, prefix);
        assert KeptClasses(cs, prefix) + [] == KeptClasses(cs, prefix);
      } else if !on {
        KeptRemove(cs, c, prefix);
      }
    }
  }

  lemma KeptExample()
    ensures KeptClasses(["card", "pdk-dbg-outline", "wide"], "pdk-") == ["card", "wide"]
  {
    var cs := ["card", "pdk-dbg-outline", "wide"];
    assert !StartsWith("wide", "pdk-") by { assert "wide"[..4][0] == 'w'; }
    assert StartsWith("pdk-dbg-outline", "pdk-");
    assert !StartsWith("card", "pdk-") by { assert "card"[..4][0] == 'c'; }
    assert cs[1..] == ["pdk-dbg-outline", "wide"];
    assert cs[1..][1..] == ["wide"];
  }

  lemma LowerExample()
    ensures Lower("DIV") == "div"
  {
    var low := Lower("DIV");
    assert low[0] == 'd' && low[1] == 'i' && low[2] == 'v';
  }

  lemma ClassPartExample()
    ensures ClassPart(["card", "wide"]) == " .card.wide"
  {
    assert ["card", "wide"][1..] == ["wide"];
  }

  lemma TagLabelParts(tag: string, id: string, cs: seq<string>, prefix: string)
    ensures TagLabel(tag, id, cs, prefix) == Lower(tag) + (IdPart(id) + ClassPart(KeptClasses(cs, prefix)))
  {
  }

  /** With the default prefix: `div#main .card.wide`. */
  lemma TagLabelExample()
    ensures TagLabel("DIV", "main", ["card", "pdk-dbg-outline", "wide"], "pdk-") == "div" + "#main" + " .card.wide"
  {
    TagLabelParts("DIV", "main", ["card", "pdk-dbg-outline", "wide"], "pdk-");
    LowerExample();
    KeptExample();
    ClassPartExample();
    assert IdPart("main") == "#main";
  }
}
