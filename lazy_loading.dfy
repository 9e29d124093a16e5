/** The lazy loader of assets/js/lazy_loading.js.

    A loader keeps two watch lists (`images`, `iframes`) and, when the
    browser offers an intersection observer, an observer with its set of
    observed targets. Deferred elements move from "discovered" (they carry
    `data-src` / `data-srcset`) to "observed" (they get the loading class),
    then, once they intersect the viewport, to "loaded" (the `data-*`
    values are promoted to `src` / `srcset` / `sizes` and the `data-*`
    attributes are stripped), and finally the load or error event adds the
    loaded or error class.

    Elements are values held by a `Document`; an element's identity is its
    position in `Document.elements`. Browser callbacks (intersection
    batches, load and error events, mutation records) are methods the
    environment calls one at a time. */
module LazyLoading {
  import opened Wrappers
  import opened Text

  // ---------------------------------------------------------------------
  // Options

  datatype Options = Options(
    rootMargin: string,
    threshold: real,
    loadingClass: string,
    loadedClass: string,
    errorClass: string)

  /** The keys a caller passes to the constructor; `None` is a key left out. */
  datatype Overrides = Overrides(
    rootMargin: Option<string>,
    threshold: Option<real>,
    loadingClass: Option<string>,
    loadedClass: Option<string>,
    errorClass: Option<string>)

  /** `{ ...defaults, ...options }`: every supplied key wins, every other key
      keeps its default. */
  function MergeOptions(o: Overrides): (r: Options)
    ensures r.rootMargin == if o.rootMargin.Some? then o.rootMargin.value else "200px 0px"
    ensures r.threshold == if o.threshold.Some? then o.threshold.value else 0.1
    ensures r.loadingClass == if o.loadingClass.Some? then o.loadingClass.value else "lazy-loading"
    ensures r.loadedClass == if o.loadedClass.Some? then o.loadedClass.value else "lazy-loaded"
    ensures r.errorClass == if o.errorClass.Some? then o.errorClass.value else "lazy-error"
  {
    Options(
      o.rootMargin.GetOr("200px 0px"),
      o.threshold.GetOr(0.1),
      o.loadingClass.GetOr("lazy-loading"),
      o.loadedClass.GetOr("lazy-loaded"),
      o.errorClass.GetOr("lazy-error"))
  }

  // ---------------------------------------------------------------------
  // Elements and the document

  /** A DOM element as the loader sees it. `listening` records that load and
      error handlers are attached; `writes` lists the live attributes
      (`sizes`, `srcset`, `src`) the loader has assigned, in order. */
  datatype Element = Element(
    tag: string,
    attrs: map<string, string>,
    classes: set<string>,
    listening: bool,
    writes: seq<string>)

  /** `getAttribute(name)` read through JavaScript truthiness: a missing
      attribute reads as the empty string. */
  function Pending(e: Element, name: string): string {
    if name in e.attrs then e.attrs[name] else ""
  }

  /** `img[data-src], img[data-srcset], source[data-srcset]` */
  predicate IsLazyImage(e: Element)
    ensures IsLazyImage(e) ==> "data-src" in e.attrs || "data-srcset" in e.attrs
  {
    || (Lower(e.tag) == "img" && ("data-src" in e.attrs || "data-srcset" in e.attrs))
    || (Lower(e.tag) == "source" && "data-srcset" in e.attrs)
  }

  /** `iframe[data-src]` */
  predicate IsLazyIframe(e: Element)
    ensures IsLazyIframe(e) ==> "data-src" in e.attrs && !IsLazyImage(e)
  {
    Lower(e.tag) == "iframe" && "data-src" in e.attrs
  }

  /** `querySelectorAll`: the positions of the matching elements, in
      document order. */
  function IndicesWhere(els: seq<Element>, p: Element -> bool): (r: seq<nat>)
    ensures forall a :: 0 <= a < |r| ==> r[a] < |els|
    ensures forall j: nat :: j in r <==> j < |els| && p(els[j])
    ensures forall a, b :: 0 <= a < b < |r| ==> r[a] < r[b]
  {
    if els == [] then []
    else IndicesWhere(els[..|els| - 1], p) + (if p(els[|els| - 1]) then [|els| - 1] else [])
  }

  /** The matches depend on nothing but the predicate's verdicts. */
  lemma {:induction false} IndicesWhereSameVerdicts(a: seq<Element>, b: seq<Element>, p: Element -> bool)
    requires |a| == |b|
    requires forall j :: 0 <= j < |a| ==> p(a[j]) == p(b[j])
    ensures IndicesWhere(a, p) == IndicesWhere(b, p)
  {
    if a != [] {
      IndicesWhereSameVerdicts(a[..|a| - 1], b[..|b| - 1], p);
    }
  }

  // ---------------------------------------------------------------------
  // Loader state

  /** The intersection observer: its options and the targets it observes. */
  datatype Observer = Observer(rootMargin: string, threshold: real, targets: set<nat>)

  datatype LoaderState = LoaderState(
    els: seq<Element>,
    images: seq<nat>,
    iframes: seq<nat>,
    observer: Option<Observer>)

  predicate ListsInRange(s: LoaderState) {
    && (forall i :: 0 <= i < |s.images| ==> s.images[i] < |s.els|)
    && (forall i :: 0 <= i < |s.iframes| ==> s.iframes[i] < |s.els|)
  }

  /** `findElements`: both lists are replaced by fresh query results. */
  function FindAll(s: LoaderState): (r: LoaderState)
    ensures ListsInRange(r)
    ensures r.els == s.els && r.observer == s.observer
    ensures forall j: nat :: j in r.images <==> j < |s.els| && IsLazyImage(s.els[j])
    ensures forall j: nat :: j in r.iframes <==> j < |s.els| && IsLazyIframe(s.els[j])
  {
    s.(images := IndicesWhere(s.els, IsLazyImage), iframes := IndicesWhere(s.els, IsLazyIframe))
  }

  // ---------------------------------------------------------------------
  // Observing

  predicate Eligible(o: Options, e: Element) {
    o.loadedClass !in e.classes
  }

  function MarkLoading(o: Options, e: Element): Element {
    e.(classes := e.classes + {o.loadingClass})
  }

  /** One step of `observeElements`. */
  function ObserveOne(o: Options, s: LoaderState, id: nat): LoaderState
    requires id < |s.els|
  {
    if s.observer.Some? && Eligible(o, s.els[id]) then
      s.(els := s.els[id := MarkLoading(o, s.els[id])],
         observer := Some(s.observer.value.(targets := s.observer.value.targets + {id})))
    else s
  }

  /** One `forEach` of `observeElements` over a watch list. */
  function ObserveList(o: Options, s: LoaderState, ids: seq<nat>): (r: LoaderState)
    requires forall i :: 0 <= i < |ids| ==> ids[i] < |s.els|
    ensures |r.els| == |s.els| && r.images == s.images && r.iframes == s.iframes
    ensures r.observer.Some? == s.observer.Some?
  {
    if ids == [] then s
    else ObserveOne(o, ObserveList(o, s, ids[..|ids| - 1]), ids[|ids| - 1])
  }

  /** `observeElements`: images first, then iframes. */
  function ObserveAll(o: Options, s: LoaderState): (r: LoaderState)
    requires ListsInRange(s)
    ensures |r.els| == |s.els| && r.images == s.images && r.iframes == s.iframes
  {
    ObserveList(o, ObserveList(o, s, s.images), s.iframes)
  }

  /** `refresh` (and the rescan of the mutation callback):
      `findElements` then `observeElements`. */
  function Refreshed(o: Options, s: LoaderState): (r: LoaderState)
    ensures ListsInRange(r) && |r.els| == |s.els|
    ensures r.images == IndicesWhere(s.els, IsLazyImage) && r.iframes == IndicesWhere(s.els, IsLazyIframe)
  {
    ObserveAll(o, FindAll(s))
  }

  /** The effect of observing a set of positions, stated without order:
      with an observer, every listed element lacking the loaded class gets
      the loading class and becomes a target; nothing else changes; with no
      observer nothing changes at all. */
  function Observed(o: Options, s: LoaderState, ids: set<nat>): (r: LoaderState)
    ensures |r.els| == |s.els| && r.images == s.images && r.iframes == s.iframes
    ensures r.observer.Some? == s.observer.Some?
  {
    match s.observer
    case None => s
    case Some(obs) =>
      s.(els := seq(|s.els|, j requires 0 <= j < |s.els| =>
                      if j in ids && Eligible(o, s.els[j]) then MarkLoading(o, s.els[j]) else s.els[j]),
         observer := Some(obs.(targets := obs.targets + NewTargets(o, s.els, ids))))
  }

  function NewTargets(o: Options, els: seq<Element>, ids: set<nat>): set<nat> {
    set j: nat | j in ids && j < |els| && Eligible(o, els[j])
  }

  function SetOf(ids: seq<nat>): set<nat> {
    set i | i in ids
  }

  lemma ObservedEmpty(o: Options, s: LoaderState)
    ensures Observed(o, s, {}) == s
  {
    if s.observer.Some? {
      var obs := s.observer.value;
      var r := Observed(o, s, {});
      assert r.els == s.els;
      assert NewTargets(o, s.els, {}) == {};
      assert obs.targets + {} == obs.targets;
      assert r.observer == Some(obs);
    }
  }

  /** Observing one more position extends the set by that position. */
  lemma ObserveOneStep(o: Options, s: LoaderState, ids: set<nat>, x: nat)
    requires x < |s.els|
    ensures ObserveOne(o, Observed(o, s, ids), x) == Observed(o, s, ids + {x})
  {
    if s.observer.Some? {
      var obs := s.observer.value;
      var t := Observed(o, s, ids);
      var u := ObserveOne(o, t, x);
      var v := Observed(o, s, ids + {x});
      var nt := NewTargets(o, s.els, ids);
      assert t.observer == Some(obs.(targets := obs.targets + nt));
      assert Eligible(o, t.els[x]) ==> Eligible(o, s.els[x]);
      assert u.els == v.els by {
        forall j | 0 <= j < |s.els| ensures u.els[j] == v.els[j] {
          if j == x && Eligible(o, s.els[x]) && x in ids {
            assert MarkLoading(o, MarkLoading(o, s.els[x])) == MarkLoading(o, s.els[x]);
          }
        }
      }
      if Eligible(o, t.els[x]) {
        assert NewTargets(o, s.els, ids + {x}) == nt + {x};
        assert obs.targets + nt + {x} == obs.targets + (nt + {x});
        assert u.observer == Some(obs.(targets := obs.targets + nt + {x}));
      } else {
        assert NewTargets(o, s.els, ids + {x}) == nt by {
          if Eligible(o, s.els[x]) {
            assert x in ids;
          }
        }
      }
    }
  }

  /** Walking a list one element at a time is observing the set of its
      positions: duplicates and order make no difference. */
  lemma {:induction false} ObserveListIsObserved(o: Options, s: LoaderState, ids: seq<nat>)
    requires forall i :: 0 <= i < |ids| ==> ids[i] < |s.els|
    ensures ObserveList(o, s, ids) == Observed(o, s, SetOf(ids))
  {
    if ids == [] {
      assert SetOf(ids) == {};
      ObservedEmpty(o, s);
    } else {
      var p, x := ids[..|ids| - 1], ids[|ids| - 1];
      ObserveListIsObserved(o, s, p);
      ObserveOneStep(o, s, SetOf(p), x);
      assert SetOf(ids) == SetOf(p) + {x} by {
        assert ids == p + [x];
      }
    }
  }

  /** Observing `a` and then `b` is observing `a + b` at once. */
  lemma ObservedCompose(o: Options, s: LoaderState, a: set<nat>, b: set<nat>)
    ensures Observed(o, Observed(o, s, a), b) == Observed(o, s, a + b)
  {
    if s.observer.Some? {
      var obs := s.observer.value;
      var t := Observed(o, s, a);
      var u := Observed(o, t, b);
      var v := Observed(o, s, a + b);
      assert u.els == v.els by {
        forall j | 0 <= j < |s.els| ensures u.els[j] == v.els[j] {
          if j in a && Eligible(o, s.els[j]) {
            assert MarkLoading(o, MarkLoading(o, s.els[j])) == MarkLoading(o, s.els[j]);
          }
        }
      }
      var na, nb, nab := NewTargets(o, s.els, a), NewTargets(o, t.els, b), NewTargets(o, s.els, a + b);
      assert t.observer == Some(obs.(targets := obs.targets + na));
      assert u.observer == Some(obs.(targets := obs.targets + na + nb));
      assert na + nb == nab by {
        forall j | j in nb ensures j in nab {
          if !(j in a && Eligible(o, s.els[j])) {
            assert t.els[j] == s.els[j];
          }
        }
        forall j | j in nab ensures j in na + nb {
          if j !in a {
            assert t.els[j] == s.els[j];
          }
        }
      }
      assert obs.targets + na + nb == obs.targets + nab;
    }
  }

  /** The set of positions `refresh` observes: every deferred element. */
  function LazySet(els: seq<Element>): set<nat> {
    set j: nat | j < |els| && (IsLazyImage(els[j]) || IsLazyIframe(els[j]))
  }

  /** `observeElements` observes the positions on either list, whatever
      their order and repetitions. */
  lemma ObserveAllIsObserved(o: Options, s: LoaderState)
    requires ListsInRange(s)
    ensures ObserveAll(o, s) == Observed(o, s, SetOf(s.images) + SetOf(s.iframes))
  {
    ObserveListIsObserved(o, s, s.images);
    var t := ObserveList(o, s, s.images);
    ObserveListIsObserved(o, t, s.iframes);
    ObservedCompose(o, s, SetOf(s.images), SetOf(s.iframes));
  }

  lemma RefreshedIsObserved(o: Options, s: LoaderState)
    ensures Refreshed(o, s) == Observed(o, FindAll(s), LazySet(s.els))
  {
    var f := FindAll(s);
    ObserveAllIsObserved(o, f);
    assert SetOf(f.images) + SetOf(f.iframes) == LazySet(s.els);
  }

  /** Observing changes only classes, so the queries of `findElements`
      find the same elements afterwards. */
  lemma ObservedKeepsQueries(o: Options, s: LoaderState, ids: set<nat>)
    ensures var r := Observed(o, s, ids);
      && IndicesWhere(r.els, IsLazyImage) == IndicesWhere(s.els, IsLazyImage)
      && IndicesWhere(r.els, IsLazyIframe) == IndicesWhere(s.els, IsLazyIframe)
      && LazySet(r.els) == LazySet(s.els)
  {
    var r := Observed(o, s, ids);
    assert forall j :: 0 <= j < |s.els| ==> r.els[j].tag == s.els[j].tag && r.els[j].attrs == s.els[j].attrs;
    IndicesWhereSameVerdicts(r.els, s.els, IsLazyImage);
    IndicesWhereSameVerdicts(r.els, s.els, IsLazyIframe);
  }

  /** `refresh` twice in a row, with no document change in between, leaves
      the watch lists, the observed targets and every element as one
      `refresh` left them. */
  lemma RefreshIdempotent(o: Options, s: LoaderState)
    ensures Refreshed(o, Refreshed(o, s)) == Refreshed(o, s)
  {
    var f := FindAll(s);
    var lazy := LazySet(s.els);
    var r := Refreshed(o, s);
    RefreshedIsObserved(o, s);
    ObservedKeepsQueries(o, f, lazy);
    assert FindAll(r) == r;
    RefreshedIsObserved(o, r);
    ObservedCompose(o, f, lazy, lazy);
    assert lazy + lazy == lazy;
  }

  // ---------------------------------------------------------------------
  // Loading

  /** The attributes the image path strips once it has read them. */
  const DataAttrs: set<string> := {"data-src", "data-srcset", "data-sizes"}

  /** Assigning a live attribute when the value read is truthy. */
  function Assign(e: Element, name: string, value: string): Element {
    if value != "" then e.(attrs := e.attrs[name := value], writes := e.writes + [name]) else e
  }

  /** After loading, live attribute `n` holds the pending `data-n` value when
      that value is non-empty, and is as it was otherwise. */
  predicate Promoted(e: Element, r: Element, n: string) {
    var v := Pending(e, "data-" + n);
    if v != "" then n in r.attrs && r.attrs[n] == v
    else (n in r.attrs <==> n in e.attrs) && (n in e.attrs ==> r.attrs[n] == e.attrs[n])
  }

  /** The attributes outside `names` are the same in `a` and `b`. */
  ghost predicate SameOutside(a: map<string, string>, b: map<string, string>, names: set<string>) {
    forall k :: k !in names ==> (k in a <==> k in b) && (k in a ==> a[k] == b[k])
  }

  /** The position of a live attribute in the image path's assignment order. */
  function AssignRank(n: string): nat {
    if n == "sizes" then 0 else if n == "srcset" then 1 else 2
  }

  /** `w` assigns `sizes`, `srcset`, `src` in that order, each one exactly
      when its `data-*` value in `e` is non-empty. */
  predicate AssignedInOrder(e: Element, w: seq<string>) {
    && (forall i :: 0 <= i < |w| ==> w[i] == "sizes" || w[i] == "srcset" || w[i] == "src")
    && (forall i, k :: 0 <= i < k < |w| ==> AssignRank(w[i]) < AssignRank(w[k]))
    && ("sizes" in w <==> Pending(e, "data-sizes") != "")
    && ("srcset" in w <==> Pending(e, "data-srcset") != "")
    && ("src" in w <==> Pending(e, "data-src") != "")
  }

  /** `loadImage`: handlers attached; `sizes`, `srcset`, `src` assigned in
      that order from their non-empty `data-*` values; then all three
      `data-*` attributes removed. */
  function ImageLoaded(e: Element): (r: Element)
    ensures r.tag == e.tag && r.classes == e.classes && r.listening
    ensures "data-src" !in r.attrs && "data-srcset" !in r.attrs && "data-sizes" !in r.attrs
    ensures Promoted(e, r, "sizes") && Promoted(e, r, "srcset") && Promoted(e, r, "src")
  {
    var e1 := e.(listening := true);
    var e2 := Assign(e1, "sizes", Pending(e, "data-sizes"));
    var e3 := Assign(e2, "srcset", Pending(e, "data-srcset"));
    var e4 := Assign(e3, "src", Pending(e, "data-src"));
    assert "data-" + "sizes" == "data-sizes" && "data-" + "srcset" == "data-srcset" && "data-" + "src" == "data-src";
    e4.(attrs := e4.attrs - DataAttrs)
  }

  /** The image path touches no attribute besides the three `data-*` ones
      and the three live ones they feed. */
  lemma ImageLoadedKeepsOthers(e: Element)
    ensures SameOutside(e.attrs, ImageLoaded(e).attrs, DataAttrs + {"sizes", "srcset", "src"})
  {
  }

  /** The image path appends to the write log exactly the live attributes
      it assigns, in the order `sizes`, `srcset`, `src`. */
  lemma ImageLoadedWrites(e: Element)
    ensures var r := ImageLoaded(e);
      && |e.writes| <= |r.writes| && r.writes[..|e.writes|] == e.writes
      && AssignedInOrder(e, r.writes[|e.writes|..])
  {
    var w1: seq<string> := if Pending(e, "data-sizes") != "" then ["sizes"] else [];
    var w2: seq<string> := if Pending(e, "data-srcset") != "" then ["srcset"] else [];
    var w3: seq<string> := if Pending(e, "data-src") != "" then ["src"] else [];
    var e2 := Assign(e.(listening := true), "sizes", Pending(e, "data-sizes"));
    var e3 := Assign(e2, "srcset", Pending(e, "data-srcset"));
    var e4 := Assign(e3, "src", Pending(e, "data-src"));
    assert ImageLoaded(e).writes == e4.writes;
    assert e2.writes == e.writes + w1;
    assert e3.writes == e.writes + w1 + w2;
    assert e4.writes == e.writes + (w1 + w2 + w3);
    ThreeInOrder(e, w1, w2, w3);
  }

  lemma ThreeInOrder(e: Element, w1: seq<string>, w2: seq<string>, w3: seq<string>)
    requires w1 == if Pending(e, "data-sizes") != "" then ["sizes"] else []
    requires w2 == if Pending(e, "data-srcset") != "" then ["srcset"] else []
    requires w3 == if Pending(e, "data-src") != "" then ["src"] else []
    ensures AssignedInOrder(e, w1 + w2 + w3)
  {
    assert "sizes"[1] == 'i' && "srcset"[1] == 'r' && |"src"| == 3 && |"sizes"| == 5 && |"srcset"| == 6;
    var w := w1 + w2 + w3;
    assert "sizes" in w <==> "sizes" in w1;
    assert "srcset" in w <==> "srcset" in w2;
    assert "src" in w <==> "src" in w3;
  }

  /** `loadIframe`: handlers attached; `src` writes from a non-empty
      `data-src`; `data-src` removed; no other attribute touched. */
  function IframeLoaded(e: Element): (r: Element)
    ensures r.tag == e.tag && r.classes == e.classes && r.listening
    ensures "data-src" !in r.attrs && Promoted(e, r, "src")
    ensures SameOutside(e.attrs, r.attrs, {"data-src", "src"})
    ensures r.writes == e.writes + (if Pending(e, "data-src") != "" then ["src"] else [])
  {
    var e1 := Assign(e.(listening := true), "src", Pending(e, "data-src"));
    assert "data-" + "src" == "data-src";
    e1.(attrs := e1.attrs - {"data-src"})
  }

  /** `loadElement`: the loading class removed, then the iframe path for a
      tag whose lower case is `iframe` and the image path for every other
      tag (`source` included). */
  function ElementLoaded(o: Options, e: Element): (r: Element)
    ensures r.tag == e.tag && r.classes == e.classes - {o.loadingClass} && r.listening
    ensures "data-src" !in r.attrs && Promoted(e, r, "src")
    ensures Lower(e.tag) == "iframe" ==> SameOutside(e.attrs, r.attrs, {"data-src", "src"})
    ensures Lower(e.tag) != "iframe" ==>
              && "data-srcset" !in r.attrs && "data-sizes" !in r.attrs
              && Promoted(e, r, "srcset") && Promoted(e, r, "sizes")
  {
    var e1 := e.(classes := e.classes - {o.loadingClass});
    if Lower(e.tag) == "iframe" then IframeLoaded(e1) else ImageLoaded(e1)
  }

  lemma ImageLoadedIdempotent(e: Element)
    ensures ImageLoaded(ImageLoaded(e)) == ImageLoaded(e)
  {
    var r := ImageLoaded(e);
    assert Pending(r, "data-src") == "" && Pending(r, "data-srcset") == "" && Pending(r, "data-sizes") == "";
    assert r.attrs - DataAttrs == r.attrs;
  }

  lemma IframeLoadedIdempotent(e: Element)
    ensures IframeLoaded(IframeLoaded(e)) == IframeLoaded(e)
  {
    var r := IframeLoaded(e);
    assert Pending(r, "data-src") == "";
    assert r.attrs - {"data-src"} == r.attrs;
  }

  /** Fire-once: loading an element that was already loaded changes nothing,
      because its `data-*` values are gone. */
  lemma ElementLoadedIdempotent(o: Options, e: Element)
    ensures ElementLoaded(o, ElementLoaded(o, e)) == ElementLoaded(o, e)
  {
    var e1 := e.(classes := e.classes - {o.loadingClass});
    var r := ElementLoaded(o, e);
    var r1 := r.(classes := r.classes - {o.loadingClass});
    assert r1 == r;
    if Lower(e.tag) == "iframe" {
      IframeLoadedIdempotent(e1);
    } else {
      ImageLoadedIdempotent(e1);
    }
  }

  /** A loaded element matches neither query of `findElements`, so no later
      rescan lists it again. */
  lemma LoadedNotRescanned(o: Options, e: Element)
    ensures !IsLazyImage(ElementLoaded(o, e)) && !IsLazyIframe(ElementLoaded(o, e))
  {
    var r := ElementLoaded(o, e);
    if Lower(e.tag) == "iframe" {
      assert Lower(r.tag) != "img" by { assert Lower(r.tag)[0] == 'i' && Lower(r.tag)[1] == 'f'; }
      assert Lower(r.tag) != "source" by { assert Lower(r.tag)[0] == 'i'; }
    }
  }

  // ---------------------------------------------------------------------
  // Intersection batches

  /** One entry of an intersection batch. */
  datatype Entry = Entry(target: nat, isIntersecting: bool)

  /** One step of `onIntersection`: an intersecting entry loads its target
      and unobserves it; any other entry changes nothing. */
  function IntersectOne(o: Options, s: LoaderState, en: Entry): LoaderState
    requires en.target < |s.els| && s.observer.Some?
  {
    if en.isIntersecting then
      s.(els := s.els[en.target := ElementLoaded(o, s.els[en.target])],
         observer := Some(s.observer.value.(targets := s.observer.value.targets - {en.target})))
    else s
  }

  predicate TargetsInRange(s: LoaderState, entries: seq<Entry>) {
    forall i :: 0 <= i < |entries| ==> entries[i].target < |s.els|
  }

  /** `onIntersection` over a whole batch, in delivery order. */
  function IntersectList(o: Options, s: LoaderState, entries: seq<Entry>): (r: LoaderState)
    requires s.observer.Some? && TargetsInRange(s, entries)
    ensures |r.els| == |s.els| && r.images == s.images && r.iframes == s.iframes
    ensures r.observer.Some?
  {
    if entries == [] then s
    else IntersectOne(o, IntersectList(o, s, entries[..|entries| - 1]), entries[|entries| - 1])
  }

  /** The targets of the intersecting entries of a batch. */
  function Intersecting(entries: seq<Entry>): set<nat> {
    set i | 0 <= i < |entries| && entries[i].isIntersecting :: entries[i].target
  }

  /** The effect of loading a set of positions: each is loaded once and
      leaves the observed targets; every other element is unchanged. */
  function Intersected(o: Options, s: LoaderState, loaded: set<nat>): (r: LoaderState)
    requires s.observer.Some?
  {
    s.(els := seq(|s.els|, j requires 0 <= j < |s.els| =>
                    if j in loaded then ElementLoaded(o, s.els[j]) else s.els[j]),
       observer := Some(s.observer.value.(targets := s.observer.value.targets - loaded)))
  }

  lemma {:induction false} IntersectListIsIntersected(o: Options, s: LoaderState, entries: seq<Entry>)
    requires s.observer.Some? && TargetsInRange(s, entries)
    ensures IntersectList(o, s, entries) == Intersected(o, s, Intersecting(entries))
  {
    if entries == [] {
      assert Intersected(o, s, {}).els == s.els;
      assert Intersecting(entries) == {};
      assert s.observer.value.targets - {} == s.observer.value.targets;
    } else {
      var p, x := entries[..|entries| - 1], entries[|entries| - 1];
      assert TargetsInRange(s, p);
      IntersectListIsIntersected(o, s, p);
      var t := Intersected(o, s, Intersecting(p));
      var u := IntersectOne(o, t, x);
      if x.isIntersecting {
        assert Intersecting(entries) == Intersecting(p) + {x.target};
        var v := Intersected(o, s, Intersecting(entries));
        var obs := s.observer.value;
        assert obs.targets - Intersecting(p) - {x.target} == obs.targets - Intersecting(entries);
        assert u.els == v.els by {
          forall j | 0 <= j < |s.els| ensures u.els[j] == v.els[j] {
            if j == x.target && j in Intersecting(p) {
              ElementLoadedIdempotent(o, s.els[j]);
            }
          }
        }
      } else {
        assert Intersecting(entries) == Intersecting(p);
      }
    }
  }

  /** A batch loads exactly its intersecting targets, each once whatever
      the number of entries naming it, and unobserves them; entries that do
      not intersect change nothing. */
  lemma BatchLoadsIntersectingOnce(o: Options, s: LoaderState, entries: seq<Entry>, j: nat)
    requires s.observer.Some? && TargetsInRange(s, entries) && j < |s.els|
    ensures var r := IntersectList(o, s, entries);
      && (j in Intersecting(entries) ==> r.els[j] == ElementLoaded(o, s.els[j]) && j !in r.observer.value.targets)
      && (j !in Intersecting(entries) ==>
            r.els[j] == s.els[j] && (j in r.observer.value.targets <==> j in s.observer.value.targets))
  {
    IntersectListIsIntersected(o, s, entries);
  }

  /** A later batch naming an element an earlier batch loaded cannot load
      it again: the element stays exactly as the first load left it. */
  lemma LaterBatchCannotReload(o: Options, s: LoaderState, first: seq<Entry>, later: seq<Entry>, j: nat)
    requires s.observer.Some? && TargetsInRange(s, first) && TargetsInRange(s, later)
    requires j in Intersecting(first) && j < |s.els|
    ensures var t := IntersectList(o, s, first);
      IntersectList(o, t, later).els[j] == t.els[j]
  {
    var t := IntersectList(o, s, first);
    BatchLoadsIntersectingOnce(o, s, first, j);
    assert TargetsInRange(t, later);
    BatchLoadsIntersectingOnce(o, t, later, j);
    ElementLoadedIdempotent(o, s.els[j]);
  }

  // ---------------------------------------------------------------------
  // Load and error events

  /** The load handler: adds the loaded class, once handlers are attached. */
  function LoadFired(o: Options, e: Element): (r: Element)
    ensures e.listening ==> r.classes == e.classes + {o.loadedClass}
    ensures !e.listening ==> r == e
    ensures r.tag == e.tag && r.attrs == e.attrs && r.listening == e.listening && r.writes == e.writes
  {
    if e.listening then e.(classes := e.classes + {o.loadedClass}) else e
  }

  /** The error handler: adds the error class, once handlers are attached. */
  function ErrorFired(o: Options, e: Element): (r: Element)
    ensures e.listening ==> r.classes == e.classes + {o.errorClass}
    ensures !e.listening ==> r == e
    ensures r.tag == e.tag && r.attrs == e.attrs && r.listening == e.listening && r.writes == e.writes
  {
    if e.listening then e.(classes := e.classes + {o.errorClass}) else e
  }

  /** The fallback loop of `loadAllElements` over one list. */
  function ApplyAt(els: seq<Element>, ids: seq<nat>, f: Element -> Element): (r: seq<Element>)
    requires forall i :: 0 <= i < |ids| ==> ids[i] < |els|
    ensures |r| == |els|
  {
    if ids == [] then els
    else
      var p := ApplyAt(els, ids[..|ids| - 1], f);
      var x := ids[|ids| - 1];
      p[x := f(p[x])]
  }

  /** For a step that is idempotent, the fallback loop applies it once to
      each listed element and leaves the others alone. */
  lemma {:induction false} ApplyAtOnce(els: seq<Element>, ids: seq<nat>, f: Element -> Element, j: nat)
    requires forall i :: 0 <= i < |ids| ==> ids[i] < |els|
    requires forall e :: f(f(e)) == f(e)
    requires j < |els|
    ensures ApplyAt(els, ids, f)[j] == if j in ids then f(els[j]) else els[j]
  {
    if ids != [] {
      var p := ids[..|ids| - 1];
      ApplyAtOnce(els, p, f, j);
      assert j in ids <==> j in p || j == ids[|ids| - 1] by {
        assert ids == p + [ids[|ids| - 1]];
      }
    }
  }

  lemma FallbackLoadsEachImageOnce(els: seq<Element>, ids: seq<nat>, j: nat)
    requires forall i :: 0 <= i < |ids| ==> ids[i] < |els|
    requires j < |els|
    ensures ApplyAt(els, ids, ImageLoaded)[j] == if j in ids then ImageLoaded(els[j]) else els[j]
  {
    forall e ensures ImageLoaded(ImageLoaded(e)) == ImageLoaded(e) {
      ImageLoadedIdempotent(e);
    }
    ApplyAtOnce(els, ids, ImageLoaded, j);
  }

  // ---------------------------------------------------------------------
  // Mutation records

  /** A node added to the document, as the mutation callback inspects it. */
  datatype AddedNode =
    | TextNode
    | ElementNode(attrs: set<string>, children: seq<AddedNode>)

  datatype MutationKind = ChildList | Attributes | CharacterData

  datatype MutationRecord = MutationRecord(kind: MutationKind, addedNodes: seq<AddedNode>)

  /** `node.hasAttribute('data-src') || node.hasAttribute('data-srcset')` */
  predicate CarriesPending(n: AddedNode) {
    n.ElementNode? && ("data-src" in n.attrs || "data-srcset" in n.attrs)
  }

  /** `node.querySelector('[data-src], [data-srcset]') != null` */
  predicate HasPendingDescendant(n: AddedNode)
    decreases n
  {
    n.ElementNode? &&
    exists i :: 0 <= i < |n.children| &&
      (CarriesPending(n.children[i]) || HasPendingDescendant(n.children[i]))
  }

  /** The test the callback applies to one added node. */
  predicate TriggersRescan(n: AddedNode) {
    n.ElementNode? && (CarriesPending(n) || HasPendingDescendant(n))
  }

  /** The callback's `needsUpdate`: some `childList` record added an element
      that carries a pending attribute or contains one that does. */
  predicate RescanNeeded(records: seq<MutationRecord>)
    ensures RescanNeeded(records) ==>
      exists k :: 0 <= k < |records| && records[k].kind == ChildList && records[k].addedNodes != []
  {
    exists k, i :: 0 <= k < |records| && records[k].kind == ChildList
      && 0 <= i < |records[k].addedNodes| && TriggersRescan(records[k].addedNodes[i])
  }

  predicate AnyTriggers(nodes: seq<AddedNode>) {
    exists i :: 0 <= i < |nodes| && TriggersRescan(nodes[i])
  }

  lemma RescanNeededStep(records: seq<MutationRecord>, k: nat)
    requires k < |records|
    ensures RescanNeeded(records[..k + 1]) <==>
              RescanNeeded(records[..k]) || (records[k].kind == ChildList && AnyTriggers(records[k].addedNodes))
  {
    var p, q := records[..k], records[..k + 1];
    if RescanNeeded(q) {
      var k', i :| 0 <= k' < |q| && q[k'].kind == ChildList
        && 0 <= i < |q[k'].addedNodes| && TriggersRescan(q[k'].addedNodes[i]);
      if k' < k {
        assert p[k'] == q[k'];
      }
    }
    if RescanNeeded(p) {
      var k', i :| 0 <= k' < |p| && p[k'].kind == ChildList
        && 0 <= i < |p[k'].addedNodes| && TriggersRescan(p[k'].addedNodes[i]);
      assert q[k'] == p[k'];
    }
    if records[k].kind == ChildList && AnyTriggers(records[k].addedNodes) {
      var i :| 0 <= i < |records[k].addedNodes| && TriggersRescan(records[k].addedNodes[i]);
      assert q[k] == records[k];
    }
  }

  /** The loop of the mutation callback that computes `needsUpdate`, with its
      `break` out of the inner loop. */
  method ScanMutations(records: seq<MutationRecord>) returns (needsUpdate: bool)
    ensures needsUpdate == RescanNeeded(records)
  {
    needsUpdate := false;
    for k := 0 to |records|
      invariant needsUpdate <==> RescanNeeded(records[..k])
    {
      var mutation := records[k];
      if mutation.kind == ChildList && |mutation.addedNodes| > 0 {
        var i := 0;
        while i < |mutation.addedNodes|
          invariant 0 <= i <= |mutation.addedNodes|
          invariant needsUpdate <==> RescanNeeded(records[..k]) || AnyTriggers(mutation.addedNodes[..i])
        {
          var node := mutation.addedNodes[i];
          if node.ElementNode? {
            if CarriesPending(node) || HasPendingDescendant(node) {
              needsUpdate := true;
              break;
            }
          }
          i := i + 1;
        }
        assert needsUpdate <==> RescanNeeded(records[..k]) || AnyTriggers(mutation.addedNodes) by {
          if !needsUpdate {
            assert mutation.addedNodes[..i] == mutation.addedNodes;
          }
        }
      }
      RescanNeededStep(records, k);
    }
    assert records[..|records|] == records;
  }

  // ---------------------------------------------------------------------
  // The end-to-end path of one inserted image

  /** An eligible lazy image appended to the document is observed by the
      next rescan, with the loading class added. */
  lemma RefreshObservesAppended(o: Options, s: LoaderState, e: Element)
    requires s.observer.Some? && IsLazyImage(e) && Eligible(o, e)
    ensures var t := Refreshed(o, s.(els := s.els + [e]));
      && |s.els| < |t.els| && t.observer.Some?
      && |s.els| in t.observer.value.targets && t.els[|s.els|] == MarkLoading(o, e)
  {
    var s1 := s.(els := s.els + [e]);
    var id := |s.els|;
    RefreshedIsObserved(o, s1);
    assert s1.els[id] == e;
    assert id in LazySet(s1.els);
    assert id in NewTargets(o, s1.els, LazySet(s1.els));
  }

  /** A batch holding one intersecting entry for an observed target loads
      it and stops observing it. */
  lemma SingleEntryLoads(o: Options, t: LoaderState, id: nat)
    requires t.observer.Some? && id < |t.els|
    ensures var u := IntersectList(o, t, [Entry(id, true)]);
      && id !in u.observer.value.targets && u.els[id] == ElementLoaded(o, t.els[id])
  {
    assert [Entry(id, true)][..0] == [];
  }

  /** Appending an element that carries `data-src` (or `data-srcset`) is a
      childList record that makes the callback rescan. */
  lemma AppendedLazyNodeTriggersRescan(records: seq<MutationRecord>, k: nat, i: nat)
    requires k < |records| && records[k].kind == ChildList
    requires i < |records[k].addedNodes| && CarriesPending(records[k].addedNodes[i])
    ensures RescanNeeded(records)
  {
    assert TriggersRescan(records[k].addedNodes[i]);
  }

  /** An image with `data-src` appended after construction is observed by the
      next rescan; once its entry intersects it is loaded and no longer
      observed; its load event then marks it loaded. */
  lemma InsertedImageIsLoaded(o: Options, s: LoaderState, e: Element)
    requires s.observer.Some? && IsLazyImage(e) && Eligible(o, e)
    ensures var id := |s.els|;
      var t := Refreshed(o, s.(els := s.els + [e]));
      && id < |t.els| && t.observer.Some?
      && id in t.observer.value.targets && t.els[id] == MarkLoading(o, e)
      && var u := IntersectList(o, t, [Entry(id, true)]);
         && id !in u.observer.value.targets
         && o.loadingClass !in u.els[id].classes
         && !IsLazyImage(u.els[id]) && !IsLazyIframe(u.els[id])
         && o.loadedClass in LoadFired(o, u.els[id]).classes
  {
    var id := |s.els|;
    RefreshObservesAppended(o, s, e);
    var t := Refreshed(o, s.(els := s.els + [e]));
    SingleEntryLoads(o, t, id);
    LoadedNotRescanned(o, t.els[id]);
  }

  // ---------------------------------------------------------------------
  // The loader

  class Document {
    var elements: seq<Element>

    constructor(elements: seq<Element>)
      ensures this.elements == elements
    {
      this.elements := elements;
    }
  }

  class LazyLoader {
    const doc: Document
    const options: Options
    var images: seq<nat>
    var iframes: seq<nat>
    var observer: Option<Observer>

    function State(): LoaderState
      reads this, doc
    {
      LoaderState(doc.elements, images, iframes, observer)
    }

    ghost predicate Valid()
      reads this, doc
    {
      ListsInRange(State())
    }

    /** `new LazyLoader(options)` followed by `init`. With an intersection
        observer, the document is scanned and observed. Without one,
        `loadAllElements` runs over the still-empty lists, so nothing is
        loaded. */
    constructor(doc: Document, overrides: Overrides, intersectionSupported: bool)
      modifies doc
      ensures this.doc == doc && options == MergeOptions(overrides) && Valid()
      ensures intersectionSupported ==>
                State() == Refreshed(options, LoaderState(old(doc.elements), [], [],
                                       Some(Observer(options.rootMargin, options.threshold, {}))))
      ensures !intersectionSupported ==> State() == LoaderState(old(doc.elements), [], [], None)
    {
      this.doc := doc;
      options := MergeOptions(overrides);
      images := [];
      iframes := [];
      observer := None;
      new;
      if intersectionSupported {
        observer := Some(Observer(options.rootMargin, options.threshold, {}));
        FindElements();
        ObserveElements();
      } else {
        LoadAllElements();
      }
    }

    method FindElements()
      modifies this`images, this`iframes
      ensures State() == FindAll(old(State()))
      ensures Valid()
    {
      images := IndicesWhere(doc.elements, IsLazyImage);
      iframes := IndicesWhere(doc.elements, IsLazyIframe);
    }

    method ObserveElements()
      requires Valid()
      modifies this`observer, doc
      ensures State() == ObserveAll(options, old(State()))
      ensures Valid()
    {
      ghost var s0 := State();
      for i := 0 to |images|
        invariant State() == ObserveList(options, s0, images[..i])
      {
        assert images[..i + 1][..i] == images[..i];
        var id := images[i];
        if observer.Some? && options.loadedClass !in doc.elements[id].classes {
          observer := Some(observer.value.(targets := observer.value.targets + {id}));
          doc.elements := doc.elements[id := doc.elements[id].(classes := doc.elements[id].classes + {options.loadingClass})];
        }
      }
      assert images[..|images|] == images;
      ghost var s1 := State();
      for i := 0 to |iframes|
        invariant State() == ObserveList(options, s1, iframes[..i])
      {
        assert iframes[..i + 1][..i] == iframes[..i];
        var id := iframes[i];
        if observer.Some? && options.loadedClass !in doc.elements[id].classes {
          observer := Some(observer.value.(targets := observer.value.targets + {id}));
          doc.elements := doc.elements[id := doc.elements[id].(classes := doc.elements[id].classes + {options.loadingClass})];
        }
      }
      assert iframes[..|iframes|] == iframes;
    }

    method OnIntersection(entries: seq<Entry>)
      requires Valid() && observer.Some? && TargetsInRange(State(), entries)
      modifies this`observer, doc
      ensures State() == IntersectList(options, old(State()), entries)
      ensures Valid()
    {
      ghost var s0 := State();
      for i := 0 to |entries|
        invariant State() == IntersectList(options, s0, entries[..i])
      {
        assert entries[..i + 1][..i] == entries[..i];
        var entry := entries[i];
        if entry.isIntersecting {
          LoadElement(entry.target);
          observer := Some(observer.value.(targets := observer.value.targets - {entry.target}));
        }
      }
      assert entries[..|entries|] == entries;
    }

    method LoadElement(id: nat)
      requires id < |doc.elements|
      modifies doc
      ensures doc.elements == old(doc.elements)[id := ElementLoaded(options, old(doc.elements[id]))]
    {
      var e := doc.elements[id];
      doc.elements := doc.elements[id := e.(classes := e.classes - {options.loadingClass})];
      if Lower(e.tag) == "iframe" {
        LoadIframe(id);
      } else {
        LoadImage(id);
      }
    }

    method LoadImage(id: nat)
      requires id < |doc.elements|
      modifies doc
      ensures doc.elements == old(doc.elements)[id := ImageLoaded(old(doc.elements[id]))]
    {
      var image := doc.elements[id];
      ghost var e0 := image;
      var src := Pending(image, "data-src");
      var srcset := Pending(image, "data-srcset");
      var sizes := Pending(image, "data-sizes");
      image := image.(listening := true);
      if sizes != "" {
        image := image.(attrs := image.attrs["sizes" := sizes], writes := image.writes + ["sizes"]);
      }
      assert image == Assign(e0.(listening := true), "sizes", sizes);
      ghost var e2 := image;
      if srcset != "" {
        image := image.(attrs := image.attrs["srcset" := srcset], writes := image.writes + ["srcset"]);
      }
      assert image == Assign(e2, "srcset", srcset);
      ghost var e3 := image;
      if src != "" {
        image := image.(attrs := image.attrs["src" := src], writes := image.writes + ["src"]);
      }
      assert image == Assign(e3, "src", src);
      image := image.(attrs := image.attrs - {"data-src"} - {"data-srcset"} - {"data-sizes"});
      assert image == ImageLoaded(e0);
      doc.elements := doc.elements[id := image];
    }

    method LoadIframe(id: nat)
      requires id < |doc.elements|
      modifies doc
      ensures doc.elements == old(doc.elements)[id := IframeLoaded(old(doc.elements[id]))]
    {
      var iframe := doc.elements[id];
      var src := Pending(iframe, "data-src");
      iframe := iframe.(listening := true);
      if src != "" {
        iframe := iframe.(attrs := iframe.attrs["src" := src], writes := iframe.writes + ["src"]);
      }
      iframe := iframe.(attrs := iframe.attrs - {"data-src"});
      doc.elements := doc.elements[id := iframe];
    }

    /** `loadAllElements`: the image path over `images`, then the iframe
        path over `iframes`. */
    method LoadAllElements()
      requires Valid()
      modifies doc
      ensures doc.elements == ApplyAt(ApplyAt(old(doc.elements), images, ImageLoaded), iframes, IframeLoaded)
      ensures Valid()
    {
      LoadEach(images, ImageLoaded, true);
      LoadEach(iframes, IframeLoaded, false);
    }

    /** One `forEach` of `loadAllElements`: `LoadImage` (`image`) or
        `LoadIframe` on every listed element in turn. */
    method LoadEach(ids: seq<nat>, ghost f: Element -> Element, image: bool)
      requires forall i :: 0 <= i < |ids| ==> ids[i] < |doc.elements|
      requires f == if image then ImageLoaded else IframeLoaded
      modifies doc
      ensures doc.elements == ApplyAt(old(doc.elements), ids, f)
    {
      ghost var els0 := doc.elements;
      for i := 0 to |ids|
        invariant |doc.elements| == |els0|
        invariant doc.elements == ApplyAt(els0, ids[..i], f)
      {
        assert ids[..i + 1][..i] == ids[..i];
        if image {
          LoadImage(ids[i]);
        } else {
          LoadIframe(ids[i]);
        }
      }
      assert ids[..|ids|] == ids;
    }

    /** The callback of the mutation observer. */
    method OnMutations(records: seq<MutationRecord>)
      requires Valid()
      modifies this`images, this`iframes, this`observer, doc
      ensures State() == if RescanNeeded(records) then Refreshed(options, old(State())) else old(State())
      ensures Valid()
    {
      var needsUpdate := ScanMutations(records);
      if needsUpdate {
        FindElements();
        ObserveElements();
      }
    }

    method Refresh()
      modifies this`images, this`iframes, this`observer, doc
      ensures State() == Refreshed(options, old(State()))
      ensures Valid()
    {
      FindElements();
      ObserveElements();
    }

    /** The `load` event of element `id`. */
    method OnLoadEvent(id: nat)
      requires id < |doc.elements|
      modifies doc
      ensures doc.elements == old(doc.elements)[id := LoadFired(options, old(doc.elements[id]))]
    {
      var e := doc.elements[id];
      if e.listening {
        doc.elements := doc.elements[id := e.(classes := e.classes + {options.loadedClass})];
      }
    }

    /** The `error` event of element `id`. */
    method OnErrorEvent(id: nat)
      requires id < |doc.elements|
      modifies doc
      ensures doc.elements == old(doc.elements)[id := ErrorFired(options, old(doc.elements[id]))]
    {
      var e := doc.elements[id];
      if e.listening {
        doc.elements := doc.elements[id := e.(classes := e.classes + {options.errorClass})];
      }
    }
  }
}
