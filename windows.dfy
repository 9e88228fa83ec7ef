/** The window system as the overlay sees it: a tree of windows with class
    hints, and per-window geometry queries that may fail. */
module WindowTree {
  import opened Common

  /** A window as `XQueryTree` and `XGetClassHint` report it. `resClass` is
      `None` when `XGetClassHint` fails or `res_class` is null; a window whose
      `XQueryTree` fails is a window without children. */
  datatype Window = Window(id: nat, resClass: Option<string>, children: seq<Window>)

  /** One snapshot of the X server, taken at the moment of a call: the
      tree under the default root window and the answers of the queries the
      overlay issues. A window is absent from `attributes` when
      `XGetWindowAttributes` fails for it (or raises an X error), and absent
      from `origins` when `XTranslateCoordinates` does. */
  datatype Desktop = Desktop(
    displayAvailable: bool,            // XOpenDisplay(0) succeeds
    root: Window,                      // DefaultRootWindow and its subtree
    attributes: map<nat, (int, int)>,  // XGetWindowAttributes: width, height
    origins: map<nat, (int, int)>,     // XTranslateCoordinates to the root: x, y
    argbVisual: bool)                  // XMatchVisualInfo finds 32-bit TrueColor

  /** Position and size of a window relative to the root. */
  datatype Geometry = Geometry(x: int, y: int, w: int, h: int)

  /** The geometry after `getWindowGeometry(win)`: the target's origin and
      size when the display is open, `win` is set and both queries succeed;
      the previous geometry otherwise. */
  function GeometryAfter(d: Desktop, displayOpen: bool, win: nat, g: Geometry): (r: Geometry)
    ensures r != g ==> displayOpen && win != 0 && win in d.attributes && win in d.origins
  {
    if displayOpen && win != 0 && win in d.attributes && win in d.origins then
      Geometry(d.origins[win].0, d.origins[win].1, d.attributes[win].0, d.attributes[win].1)
    else g
  }

  /** The windows strictly below `w`, in the order the search visits them:
      each child, then that child's own subtree, then the next child. */
  function Descendants(w: Window): seq<Window>
    decreases w, 1
  {
    ChildrenFrom(w, 0)
  }

  /** The part of `Descendants(w)` that starts at the `k`-th child. */
  function ChildrenFrom(w: Window, k: nat): seq<Window>
    decreases w, 0, |w.children| - k
  {
    if k >= |w.children| then []
    else [w.children[k]] + Descendants(w.children[k]) + ChildrenFrom(w, k + 1)
  }

  predicate HasClass(w: Window, cls: string)
  {
    w.resClass == Some(cls)
  }

  /** The id of the first window of `ws` whose class hint is `cls`. */
  function FirstMatch(ws: seq<Window>, cls: string): Option<nat>
  {
    if ws == [] then None
    else if HasClass(ws[0], cls) then Some(ws[0].id)
    else FirstMatch(ws[1..], cls)
  }

  /** There is no match exactly when no window of the list carries the class. */
  lemma {:induction false} FirstMatchNone(ws: seq<Window>, cls: string)
    ensures FirstMatch(ws, cls).None? <==> forall k :: 0 <= k < |ws| ==> !HasClass(ws[k], cls)
  {
    if ws != [] {
      FirstMatchNone(ws[1..], cls);
      if !HasClass(ws[0], cls) {
        assert forall k :: 1 <= k < |ws| ==> ws[k] == ws[1..][k - 1];
      }
    }
  }

  /** A reported id belongs to a matching window that no earlier window of
      the list precedes with a match. */
  lemma {:induction false} FirstMatchIsFirst(ws: seq<Window>, cls: string)
    requires FirstMatch(ws, cls).Some?
    ensures exists k :: 0 <= k < |ws| && HasClass(ws[k], cls) && ws[k].id == FirstMatch(ws, cls).value
                        && forall j :: 0 <= j < k ==> !HasClass(ws[j], cls)
  {
    if !HasClass(ws[0], cls) {
      FirstMatchIsFirst(ws[1..], cls);
      var k :| 0 <= k < |ws[1..]| && HasClass(ws[1..][k], cls) && ws[1..][k].id == FirstMatch(ws, cls).value
               && forall j :: 0 <= j < k ==> !HasClass(ws[1..][j], cls);
      assert HasClass(ws[k + 1], cls) && forall j :: 0 <= j < k + 1 ==> !HasClass(ws[j], cls);
    }
  }

  /** The first match in a concatenation is the first match of the front
      part if it has one, and otherwise that of the back part. */
  lemma {:induction false} FirstMatchConcat(a: seq<Window>, b: seq<Window>, cls: string)
    ensures FirstMatch(a + b, cls) == if FirstMatch(a, cls).Some? then FirstMatch(a, cls) else FirstMatch(b, cls)
  {
    if a != [] {
      assert (a + b)[0] == a[0] && (a + b)[1..] == a[1..] + b;
      FirstMatchConcat(a[1..], b, cls);
    } else {
      assert a + b == b;
    }
  }

  /** `findWindowByClass(root, target_class, outWin)`, identical in
      draw/draw_cairo.cpp, draw/draw_x11.cpp and overlay.cpp: the loop over
      `XQueryTree`'s children checks each child's class, then searches that
      child's subtree, before moving to the next sibling. `Some(id)` is the
      `true` return with `outWin == id`. The root itself is never compared. */
  method FindWindowByClass(root: Window, cls: string) returns (found: Option<nat>)
    ensures found == FirstMatch(Descendants(root), cls)
    decreases root
  {
    var i := 0;
    while i < |root.children|
      invariant 0 <= i <= |root.children|
      invariant FirstMatch(Descendants(root), cls) == FirstMatch(ChildrenFrom(root, i), cls)
    {
      var child := root.children[i];
      FirstMatchConcat([child] + Descendants(child), ChildrenFrom(root, i + 1), cls);
      FirstMatchConcat([child], Descendants(child), cls);
      if child.resClass.Some? && child.resClass.value == cls {
        return Some(child.id);
      }
      var sub := FindWindowByClass(child, cls);
      if sub.Some? {
        return sub;
      }
      i := i + 1;
    }
    return None;
  }

  /** The search only ever reports a window that is in the tree below the
      root and carries the requested class, no earlier window in search
      order carries it, and it reports one whenever such a window exists. */
  lemma FindSoundAndComplete(root: Window, cls: string)
    ensures FirstMatch(Descendants(root), cls).Some? <==>
            exists k :: 0 <= k < |Descendants(root)| && HasClass(Descendants(root)[k], cls)
    ensures FirstMatch(Descendants(root), cls).Some? ==>
            exists k :: 0 <= k < |Descendants(root)| && HasClass(Descendants(root)[k], cls)
                        && Descendants(root)[k].id == FirstMatch(Descendants(root), cls).value
                        && forall j :: 0 <= j < k ==> !HasClass(Descendants(root)[j], cls)
  {
    FirstMatchNone(Descendants(root), cls);
    if FirstMatch(Descendants(root), cls).Some? {
      FirstMatchIsFirst(Descendants(root), cls);
    }
  }

  /** Depth first: a match inside the subtree of an earlier child wins over
      a later sibling that matches too. */
  lemma {:induction false} SubtreeBeforeLaterSibling(root: Window, cls: string, k: nat)
    requires k < |root.children|
    requires forall j :: 0 <= j <= k ==> !HasClass(root.children[j], cls)
    requires forall j :: 0 <= j < k ==> FirstMatch(Descendants(root.children[j]), cls).None?
    requires FirstMatch(Descendants(root.children[k]), cls).Some?
    ensures FirstMatch(Descendants(root), cls) == FirstMatch(Descendants(root.children[k]), cls)
  {
    SkipNonMatching(root, cls, 0, k);
    var c := root.children[k];
    FirstMatchConcat([c] + Descendants(c), ChildrenFrom(root, k + 1), cls);
    FirstMatchConcat([c], Descendants(c), cls);
  }

  /** Children before `k` that neither match nor hold a match in their
      subtree do not affect the result. */
  lemma {:induction false} SkipNonMatching(root: Window, cls: string, i: nat, k: nat)
    requires i <= k <= |root.children|
    requires forall j :: i <= j < k ==> !HasClass(root.children[j], cls)
    requires forall j :: i <= j < k ==> FirstMatch(Descendants(root.children[j]), cls).None?
    ensures FirstMatch(ChildrenFrom(root, i), cls) == FirstMatch(ChildrenFrom(root, k), cls)
    decreases k - i
  {
    if i < k {
      SkipOne(root, cls, i);
      SkipNonMatching(root, cls, i + 1, k);
    }
  }

  /** One child that neither matches nor holds a match is skipped. */
  lemma SkipOne(root: Window, cls: string, i: nat)
    requires i < |root.children|
    requires !HasClass(root.children[i], cls) && FirstMatch(Descendants(root.children[i]), cls).None?
    ensures FirstMatch(ChildrenFrom(root, i), cls) == FirstMatch(ChildrenFrom(root, i + 1), cls)
  {
    var c := root.children[i];
    FirstMatchConcat([c], Descendants(c), cls);
    FirstMatchConcat([c] + Descendants(c), ChildrenFrom(root, i + 1), cls);
  }
}
