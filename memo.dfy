/**
 * The two memo tables of the hover highlight: element to computed style, and computed
 * style to the numbers parsed from it. A CSSStyleDeclaration is named by a handle;
 * what getComputedStyle and parseFloat(getPropertyValue) would give now are inputs.
 */
module Memo {
  import opened Dom

  type StyleHandle = nat

  /** getStyleCache: the declaration stored for the element, and the one computed now only when none is stored. */
  function Cached(cache: map<Uid, StyleHandle>, el: Uid, computed: StyleHandle): (r: StyleHandle)
    ensures el in cache ==> r == cache[el]
    ensures el !in cache ==> r == computed
  {
    if el in cache then cache[el] else computed
  }

  /** The parsed values cached for a declaration so far: an empty map for a declaration never parsed. */
  function Was(cache: map<StyleHandle, map<string, real>>, s: StyleHandle): (r: map<string, real>)
    ensures s in cache ==> r == cache[s]
    ensures s !in cache ==> r == map[]
  {
    if s in cache then cache[s] else map[]
  }

  /** parseCSSValue: the cached number whatever the page reports now, and the number read now only when none is cached. */
  function Parsed(cache: map<StyleHandle, map<string, real>>, s: StyleHandle, prop: string, read: (StyleHandle, string) -> real): (r: real)
    ensures prop in Was(cache, s) ==> r == Was(cache, s)[prop]
    ensures prop !in Was(cache, s) ==> r == read(s, prop)
  {
    if prop in Was(cache, s) then Was(cache, s)[prop] else read(s, prop)
  }

  /**
   * The table after one parseCSSValue call: it only adds, it now holds the number the
   * call returned, and no other declaration's entry changes.
   */
  function Remember(cache: map<StyleHandle, map<string, real>>, s: StyleHandle, prop: string, read: (StyleHandle, string) -> real): (r: map<StyleHandle, map<string, real>>)
    ensures CacheExtends(cache, r)
    ensures r.Keys == cache.Keys + {s}
    ensures prop in r[s] && r[s][prop] == Parsed(cache, s, prop, read)
    ensures forall t :: t in cache && t != s ==> r[t] == cache[t]
  {
    cache[s := Was(cache, s)[prop := Parsed(cache, s, prop, read)]]
  }

  /** Entries are only ever added: every cached number stays as it was. */
  predicate CacheExtends(before: map<StyleHandle, map<string, real>>, after: map<StyleHandle, map<string, real>>)
  {
    forall s :: s in before ==> s in after && forall p :: p in before[s] ==> p in after[s] && after[s][p] == before[s][p]
  }

  /**
   * A parse only adds, and it makes the value stick: asking again, whatever the page
   * would now report, gives the number first returned.
   */
  lemma RememberSticks(cache: map<StyleHandle, map<string, real>>, s: StyleHandle, prop: string,
                       read: (StyleHandle, string) -> real, later: (StyleHandle, string) -> real)
    ensures CacheExtends(cache, Remember(cache, s, prop, read))
    ensures Parsed(Remember(cache, s, prop, read), s, prop, later) == Parsed(cache, s, prop, read)
    ensures Remember(Remember(cache, s, prop, read), s, prop, later) == Remember(cache, s, prop, read)
  {
    var c' := Remember(cache, s, prop, read);
    assert Was(c', s) == Was(cache, s)[prop := Parsed(cache, s, prop, read)];
    assert Was(c', s)[prop := Parsed(c', s, prop, later)] == Was(c', s);
  }

  /**
   * While the page reports the same numbers, the table never changes an answer: after
   * a parse every property of every declaration parses to what it did before.
   */
  lemma RememberKeepsParsed(cache: map<StyleHandle, map<string, real>>, s: StyleHandle, prop: string,
                            read: (StyleHandle, string) -> real)
    ensures forall t, q :: Parsed(Remember(cache, s, prop, read), t, q, read) == Parsed(cache, t, q, read)
  {
    var c' := Remember(cache, s, prop, read);
    forall t, q ensures Parsed(c', t, q, read) == Parsed(cache, t, q, read) {
      if t == s {
        assert Was(c', s) == Was(cache, s)[prop := Parsed(cache, s, prop, read)];
      } else {
        assert Was(c', t) == Was(cache, t);
      }
    }
  }

  /**
   * One parse of a run that started from c0: the table still extends c0 and still
   * answers as c0 did, and the properties parsed so far, and now prop, are cached.
   */
  lemma RememberStep(c0: map<StyleHandle, map<string, real>>, cache: map<StyleHandle, map<string, real>>, s: StyleHandle,
                     prop: string, read: (StyleHandle, string) -> real, done: set<string>)
    requires CacheExtends(c0, cache) && forall t, q :: Parsed(cache, t, q, read) == Parsed(c0, t, q, read)
    requires forall q :: q in done ==> q in Was(cache, s)
    ensures var c' := Remember(cache, s, prop, read);
            CacheExtends(c0, c') && (forall t, q :: Parsed(c', t, q, read) == Parsed(c0, t, q, read))
            && forall q :: q in done + {prop} ==> q in Was(c', s)
  {
    RememberKeepsParsed(cache, s, prop, read);
    RememberSticks(cache, s, prop, read, read);
  }

  lemma ExtendsTrans(a: map<StyleHandle, map<string, real>>, b: map<StyleHandle, map<string, real>>,
                      c: map<StyleHandle, map<string, real>>)
    requires CacheExtends(a, b) && CacheExtends(b, c)
    ensures CacheExtends(a, c)
  {
  }

  /**
   * Two runs of parses on one declaration, each answering as the table before it did:
   * everything either run parsed is cached afterwards, with the number the first
   * table would have given.
   */
  lemma TwoRuns(c0: map<StyleHandle, map<string, real>>, c1: map<StyleHandle, map<string, real>>,
                c2: map<StyleHandle, map<string, real>>, s: StyleHandle, read: (StyleHandle, string) -> real,
                ps1: seq<string>, ps2: seq<string>)
    requires CacheExtends(c0, c1) && CacheExtends(c1, c2)
    requires forall t, q :: Parsed(c1, t, q, read) == Parsed(c0, t, q, read)
    requires forall t, q :: Parsed(c2, t, q, read) == Parsed(c1, t, q, read)
    requires forall q :: q in ps1 ==> q in Was(c1, s)
    requires forall q :: q in ps2 ==> q in Was(c2, s)
    ensures CacheExtends(c0, c2)
    ensures forall q :: q in ps1 + ps2 ==> q in Was(c2, s) && Was(c2, s)[q] == Parsed(c0, s, q, read)
  {
    ExtendsTrans(c0, c1, c2);
    forall q | q in ps1 + ps2 ensures q in Was(c2, s) && Was(c2, s)[q] == Parsed(c0, s, q, read) {
      assert q in ps1 || q in ps2;
      assert Parsed(c2, s, q, read) == Parsed(c0, s, q, read);
    }
  }

  /** A style lookup caches what it returns, and the element keeps that declaration afterwards. */
  lemma CachedSticks(cache: map<Uid, StyleHandle>, el: Uid, computed: StyleHandle, later: StyleHandle)
    ensures var c' := cache[el := Cached(cache, el, computed)];
            Cached(c', el, later) == Cached(cache, el, computed) && c'[el := Cached(c', el, later)] == c'
            && forall e :: e in cache ==> e in c' && c'[e] == cache[e]
  {
  }

  /** The eight properties updateHighlight reads. */
  const PaddingProps: seq<string> := ["padding-top", "padding-right", "padding-bottom", "padding-left"]
  const MarginProps: seq<string> := ["margin-top", "margin-right", "margin-bottom", "margin-left"]
}
