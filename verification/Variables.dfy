/** Variable access: a lexical address reads and writes the variable that the name denotes. */
module Variables {
  import opened Util
  import opened Syntax
  import opened Relation
  import Builtins
  import S = Source
  import A = Analyzer
  import C = Codegen
  import H = HeapMachine

  /** Searching frames by name and scopes by distance meet in the same place; a climb along
      contexts from there arrives at the context of that frame. */
  lemma {:induction false} FindFrameDistance(w: World, frames: seq<S.Frame>, cxts: seq<H.Context>, f: nat, x: Name)
    requires FramesOk(w, frames) && ContextsOk(w, frames, cxts) && f < |frames|
    ensures var r := S.FindFrame(frames, f, x);
            match A.Distance(w.scopes[f], x)
            case None => r == None
            case Some(d) =>
              && r.Some? && A.Outer(w.scopes[f], d) == Some(w.scopes[r.value])
              && (d == 0 <==> r.value == f)
              && (d > 0 ==> r.value < f && r.value in w.beta
                            && H.Climb(cxts, UpContext(w, frames[f].up), d) == Some(w.beta[r.value]))
    decreases f
  {
    assert FrameOk(w, frames, f);
    if x !in frames[f].names && frames[f].up.Some? {
      var p := frames[f].up.value;
      FindFrameDistance(w, frames, cxts, p, x);
      assert ContextOk(w, frames, cxts, p);
    }
  }

  /** The slot that code generation gives to a variable of the current frame. */
  lemma OwnSlot(w: World, frames: seq<S.Frame>, f: nat, fr: H.Frame, x: Name)
    requires FramesOk(w, frames) && f < |frames| && TopOk(w, frames, f, fr) && x in frames[f].names
    ensures var sc := w.scopes[f];
            C.IndexOwn(sc, x) ==
            if x in sc.captures then Some(IndexOf(sc.captures, x) + |fr.slots|)
            else Some(1 + IndexOf(frames[f].names, x))
  {
    assert FrameOk(w, frames, f);
  }

  /** Reading a local variable. */
  lemma ReadOwn(w: World, s: S.Store, h: H.State, f: nat, x: Name)
    requires Inv(w, s, h, f) && x in s.frames[f].names
    ensures var n := C.IndexOwn(w.scopes[f], x);
            var v := S.Lookup(s, f, x);
            n.Some? && v.Some? && H.ReadSlot(h, H.Top(h), n.value).Some? &&
            ValRel(w, v.value, H.ReadSlot(h, H.Top(h), n.value).value)
  {
    assert FrameOk(w, s.frames, f);
    OwnSlot(w, s.frames, f, H.Top(h), x);
    var sc := w.scopes[f];
    if x in sc.captures {
      var i := IndexOf(sc.captures, x);
      assert CaptureSlot(sc, i) == IndexOf(s.frames[f].names, x);
      if f in w.beta {
        assert ContextOk(w, s.frames, h.cxts, f);
      }
    } else {
      var j := IndexOf(s.frames[f].names, x);
      assert s.frames[f].names[j] == x;
    }
  }

  /** Reading a captured variable of an outer frame. */
  lemma ReadOuter(w: World, s: S.Store, h: H.State, f: nat, x: Name, d: nat)
    requires Inv(w, s, h, f) && d > 0 && A.AddressedRef(w.scopes[f], x, CRef(d, x))
    ensures var i := C.IndexCapture(w.scopes[f], x, d);
            var c := H.Climb(h.cxts, H.Top(h).up, d);
            var v := S.Lookup(s, f, x);
            i.Some? && c.Some? && v.Some? && i.value < |h.cxts[c.value].vals| &&
            ValRel(w, v.value, h.cxts[c.value].vals[i.value])
  {
    FindFrameDistance(w, s.frames, h.cxts, f, x);
    var g := S.FindFrame(s.frames, f, x).value;
    assert FrameOk(w, s.frames, g);
    assert ContextOk(w, s.frames, h.cxts, g);
    var i := C.IndexCapture(w.scopes[f], x, d).value;
    assert CaptureSlot(w.scopes[g], i) == IndexOf(s.frames[g].names, x);
  }

  // ---------- assignment ----------

  /** The frames after an assignment to variable `x` of frame `g`. */
  function Assigned(frames: seq<S.Frame>, g: nat, x: Name, v: S.SVal): seq<S.Frame>
    requires g < |frames| && x in frames[g].names && |frames[g].vals| == |frames[g].names|
  {
    frames[g := frames[g].(vals := frames[g].vals[IndexOf(frames[g].names, x) := v])]
  }

  lemma AssignedFramesOk(w: World, frames: seq<S.Frame>, g: nat, x: Name, v: S.SVal)
    requires FramesOk(w, frames) && g < |frames| && x in frames[g].names
    ensures FrameOk(w, frames, g) && FramesOk(w, Assigned(frames, g, x, v))
  {
    assert FrameOk(w, frames, g);
    var frames1 := Assigned(frames, g, x, v);
    forall f | 0 <= f < |frames1| ensures FrameOk(w, frames1, f) {
      assert FrameOk(w, frames, f);
    }
  }

  /** Assigning a captured variable writes exactly its entry of the capture area. */
  lemma AssignedCaptures(w: World, frames: seq<S.Frame>, g: nat, x: Name, v: S.SVal, file: seq<H.VVal>, y: H.VVal)
    requires FramesOk(w, frames) && g < |frames| && FrameOk(w, frames, g)
    requires x in w.scopes[g].captures && CapturesRel(w, frames, g, file) && ValRel(w, v, y)
    ensures var i := IndexOf(w.scopes[g].captures, x);
            x in frames[g].names && i < |file| &&
            CapturesRel(w, Assigned(frames, g, x, v), g, file[i := y])
  {
    var caps := w.scopes[g].captures;
    var i := IndexOf(caps, x);
    var frames1 := Assigned(frames, g, x, v);
    var file1 := file[i := y];
    forall k | 0 <= k < |file1|
      ensures CaptureSlot(w.scopes[g], k) < |frames1[g].vals| &&
              ValRel(w, frames1[g].vals[CaptureSlot(w.scopes[g], k)], file1[k])
    {
      if k != i {
        assert caps[k] != x;
        assert frames[g].names[CaptureSlot(w.scopes[g], k)] == caps[k];
      }
    }
  }

  /** Assigning an uncaptured variable leaves the capture area as it was. */
  lemma AssignedElsewhere(w: World, frames: seq<S.Frame>, g: nat, x: Name, v: S.SVal, file: seq<H.VVal>)
    requires FramesOk(w, frames) && g < |frames| && FrameOk(w, frames, g)
    requires x in frames[g].names && x !in w.scopes[g].captures && CapturesRel(w, frames, g, file)
    ensures CapturesRel(w, Assigned(frames, g, x, v), g, file)
  {
    var frames1 := Assigned(frames, g, x, v);
    forall k | 0 <= k < |file|
      ensures CaptureSlot(w.scopes[g], k) < |frames1[g].vals| &&
              ValRel(w, frames1[g].vals[CaptureSlot(w.scopes[g], k)], file[k])
    {
      assert frames[g].names[CaptureSlot(w.scopes[g], k)] == w.scopes[g].captures[k];
    }
  }

  /** Writing a captured variable through a context. */
  lemma WriteCaptured(w: World, s: S.Store, h: H.State, g: nat, x: Name, v: S.SVal, y: H.VVal)
    requires Base(w, s, h) && g < |s.frames| && g in w.beta && x in w.scopes[g].captures && ValRel(w, v, y)
    ensures FrameOk(w, s.frames, g) && x in s.frames[g].names
    ensures var h1 := H.WriteContext(h, w.beta[g], IndexOf(w.scopes[g].captures, x), y);
            h1.Some? && h1.value.frames == h.frames && h1.value.ip == h.ip &&
            Base(w, s.(frames := Assigned(s.frames, g, x, v)), h1.value)
  {
    assert FrameOk(w, s.frames, g);
    assert ContextOk(w, s.frames, h.cxts, g);
    AssignedFramesOk(w, s.frames, g, x, v);
    AssignedCaptures(w, s.frames, g, x, v, h.cxts[w.beta[g]].vals, y);
    var h1 := H.WriteContext(h, w.beta[g], IndexOf(w.scopes[g].captures, x), y).value;
    var frames1 := Assigned(s.frames, g, x, v);
    forall f | f in w.beta ensures ContextOk(w, frames1, h1.cxts, f) {
      assert ContextOk(w, s.frames, h.cxts, f);
    }
  }

  /** A frame other than the assigned one looks the same from the machine. */
  lemma TopOkElsewhere(w: World, frames: seq<S.Frame>, f: nat, fr: H.Frame, g: nat, x: Name, v: S.SVal)
    requires FramesOk(w, frames) && f < |frames| && TopOk(w, frames, f, fr)
    requires g < |frames| && g != f && x in frames[g].names && FrameOk(w, frames, g)
    ensures TopOk(w, Assigned(frames, g, x, v), f, fr)
  {
  }

  /** `Assigned` only disturbs frame `g`, and another frame's view only through its captures. */
  lemma AssignedKeeps(w: World, s: S.Store, f: nat, g: nat, x: Name, v: S.SVal)
    requires FramesOk(w, s.frames) && g < |s.frames| && x in s.frames[g].names && FrameOk(w, s.frames, g)
    requires g == f || (g in w.beta && x in w.scopes[g].captures)
    ensures Keeps(w, s, w, s.(frames := Assigned(s.frames, g, x, v)), {f})
  {
    var s1 := s.(frames := Assigned(s.frames, g, x, v));
    forall k | 0 <= k < |s.frames| && k !in {f} ensures KeepsFrame(w, s, w, s1, k) {
      assert FrameOk(w, s.frames, k);
      assert s.frames[g].names[IndexOf(s.frames[g].names, x)] == x;
    }
  }

  /** An assignment that the contexts do not see keeps the heap's meaning. */
  lemma UnownedBase(w: World, s: S.Store, h: H.State, h1: H.State, f: nat, x: Name, v: S.SVal)
    requires Base(w, s, h) && f < |s.frames| && x in s.frames[f].names && FrameOk(w, s.frames, f)
    requires h1.cxts == h.cxts && h1.globals == h.globals
    requires f in w.beta ==> w.beta[f] < |h.cxts| && CapturesRel(w, Assigned(s.frames, f, x, v), f,
      h.cxts[w.beta[f]].vals)
    ensures Base(w, s.(frames := Assigned(s.frames, f, x, v)), h1)
  {
    AssignedFramesOk(w, s.frames, f, x, v);
    var frames1 := Assigned(s.frames, f, x, v);
    forall g | g in w.beta ensures ContextOk(w, frames1, h1.cxts, g) {
      assert ContextOk(w, s.frames, h.cxts, g);
    }
  }

  /** `h1` is `h` after writing a slot of the top frame, and represents the new store. */
  ghost predicate Wrote(w: World, s1: S.Store, h: H.State, h1: H.State, f: nat) {
    && h.frames != [] && Inv(w, s1, h1, f) && h1.ip == h.ip
    && h1.frames == h.frames[|h.frames| - 1 := H.Top(h1)]
    && H.Top(h1) == H.Top(h).(slots := H.Top(h1).slots, file := H.Top(h1).file)
  }

  lemma WriteOwnInContext(w: World, s: S.Store, h: H.State, f: nat, x: Name, v: S.SVal, y: H.VVal)
    requires Inv(w, s, h, f) && x in w.scopes[f].captures && f in w.beta && ValRel(w, v, y)
    ensures FrameOk(w, s.frames, f) && x in s.frames[f].names
    ensures var h1 := H.WriteContext(h, w.beta[f], IndexOf(w.scopes[f].captures, x), y);
            h1.Some? && Wrote(w, s.(frames := Assigned(s.frames, f, x, v)), h, h1.value, f)
  {
    hide SlotsRel, CapturesRel, ContextOk, GlobalsRel, ValRel, FrameOk;
    FrameIs(w, s.frames, f);
    WriteCaptured(w, s, h, f, x, v, y);
    SlotsAfter(w, s.frames, f, H.Top(h).slots, x, v);
  }

  lemma FrameIs(w: World, frames: seq<S.Frame>, f: nat)
    requires FramesOk(w, frames) && f < |frames|
    ensures FrameOk(w, frames, f)
  {
  }

  lemma WriteOwnInFile(w: World, s: S.Store, h: H.State, f: nat, x: Name, v: S.SVal, y: H.VVal)
    requires Inv(w, s, h, f) && x in w.scopes[f].captures && f !in w.beta && ValRel(w, v, y)
    ensures FrameOk(w, s.frames, f) && x in s.frames[f].names
    ensures var i := IndexOf(w.scopes[f].captures, x);
            var fr := H.Top(h);
            i < |fr.file| &&
            Wrote(w, s.(frames := Assigned(s.frames, f, x, v)), h, H.WithTop(h, fr.(file := fr.file[i := y])), f)
  {
    assert FrameOk(w, s.frames, f);
    var fr := H.Top(h);
    AssignedCaptures(w, s.frames, f, x, v, fr.file, y);
    SlotsAfter(w, s.frames, f, fr.slots, x, v);
    var h1 := H.WithTop(h, fr.(file := fr.file[IndexOf(w.scopes[f].captures, x) := y]));
    UnownedBase(w, s, h, h1, f, x, v);
  }

  lemma WriteOwnSlot(w: World, s: S.Store, h: H.State, f: nat, x: Name, v: S.SVal, y: H.VVal)
    requires Inv(w, s, h, f) && x !in w.scopes[f].captures && x in s.frames[f].names && ValRel(w, v, y)
    ensures FrameOk(w, s.frames, f)
    ensures var n := 1 + IndexOf(s.frames[f].names, x);
            var fr := H.Top(h);
            n < |fr.slots| &&
            Wrote(w, s.(frames := Assigned(s.frames, f, x, v)), h, H.WithTop(h, fr.(slots := fr.slots[n := y])), f)
  {
    hide TopOk, FrameOk, ContextsOk, GlobalsRel, ValRel;
    FrameIs(w, s.frames, f);
    SlotsLength(w, s.frames, f, H.Top(h));
    var fr := H.Top(h);
    var fr1 := fr.(slots := fr.slots[1 + IndexOf(s.frames[f].names, x) := y]);
    PlainTopOk(w, s.frames, f, fr, x, v, y);
    PlainBase(w, s, h, H.WithTop(h, fr1), f, x, v);
  }

  lemma SlotsLength(w: World, frames: seq<S.Frame>, f: nat, fr: H.Frame)
    requires f < |frames| == |w.scopes| && TopOk(w, frames, f, fr)
    ensures |fr.slots| == 1 + |frames[f].names| && |frames[f].vals| == |frames[f].names|
  {
    hide ValRel;
  }

  lemma PlainTopOk(w: World, frames: seq<S.Frame>, f: nat, fr: H.Frame, x: Name, v: S.SVal, y: H.VVal)
    requires FramesOk(w, frames) && f < |frames| && FrameOk(w, frames, f) && TopOk(w, frames, f, fr)
    requires x !in w.scopes[f].captures && x in frames[f].names && ValRel(w, v, y)
    ensures TopOk(w, Assigned(frames, f, x, v), f, fr.(slots := fr.slots[1 + IndexOf(frames[f].names, x) := y]))
  {
    hide SlotsRel;
    hide CapturesRel;
    SlotsWrite(w, frames, f, fr.slots, x, v, y);
    if f !in w.beta {
      AssignedElsewhere(w, frames, f, x, v, fr.file);
    }
  }

  lemma PlainBase(w: World, s: S.Store, h: H.State, h1: H.State, f: nat, x: Name, v: S.SVal)
    requires Base(w, s, h) && f < |s.frames| && x in s.frames[f].names && FrameOk(w, s.frames, f)
    requires h1.cxts == h.cxts && h1.globals == h.globals && x !in w.scopes[f].captures
    ensures Base(w, s.(frames := Assigned(s.frames, f, x, v)), h1)
  {
    if f in w.beta {
      assert ContextOk(w, s.frames, h.cxts, f);
      AssignedElsewhere(w, s.frames, f, x, v, h.cxts[w.beta[f]].vals);
    }
    UnownedBase(w, s, h, h1, f, x, v);
  }

  /** Assigning an uncaptured variable writes its slot. */
  lemma SlotsWrite(w: World, frames: seq<S.Frame>, f: nat, slots: seq<H.VVal>, x: Name, v: S.SVal, y: H.VVal)
    requires FramesOk(w, frames) && f < |frames| && FrameOk(w, frames, f)
    requires x in frames[f].names && SlotsRel(w, frames, f, slots) && ValRel(w, v, y)
    ensures SlotsRel(w, Assigned(frames, f, x, v), f, slots[1 + IndexOf(frames[f].names, x) := y])
  {
    hide ValRel;
  }

  /** Assigning a captured variable is invisible in the ordinary slots. */
  lemma SlotsAfter(w: World, frames: seq<S.Frame>, f: nat, slots: seq<H.VVal>, x: Name, v: S.SVal)
    requires FramesOk(w, frames) && f < |frames| && FrameOk(w, frames, f)
    requires x in w.scopes[f].captures && SlotsRel(w, frames, f, slots)
    ensures x in frames[f].names && SlotsRel(w, Assigned(frames, f, x, v), f, slots)
  {
  }

  /** Writing a local variable. */
  lemma WriteOwn(w: World, s: S.Store, h: H.State, f: nat, x: Name, v: S.SVal, y: H.VVal)
    requires Inv(w, s, h, f) && x in s.frames[f].names && ValRel(w, v, y)
    ensures var n := C.IndexOwn(w.scopes[f], x);
            var s1 := S.Update(s, f, x, v);
            n.Some? && s1.Some? && H.WriteSlot(h, n.value, y).Some? &&
            Wrote(w, s1.value, h, H.WriteSlot(h, n.value, y).value, f) && Keeps(w, s, w, s1.value, {f})
  {
    hide Wrote;
    hide Keeps;
    hide SlotsRel;
    hide CapturesRel;
    hide ContextsOk;
    hide GlobalsRel;
    hide ValRel;
    assert FrameOk(w, s.frames, f);
    OwnSlot(w, s.frames, f, H.Top(h), x);
    AssignedKeeps(w, s, f, f, x, v);
    assert S.Update(s, f, x, v) == Some(s.(frames := Assigned(s.frames, f, x, v)));
    if x !in w.scopes[f].captures {
      WriteOwnSlot(w, s, h, f, x, v, y);
    } else if f in w.beta {
      WriteOwnInContext(w, s, h, f, x, v, y);
    } else {
      WriteOwnInFile(w, s, h, f, x, v, y);
    }
  }

  /** Writing a captured variable of an outer frame. */
  lemma WriteOuter(w: World, s: S.Store, h: H.State, f: nat, x: Name, d: nat, v: S.SVal, y: H.VVal)
    requires Inv(w, s, h, f) && d > 0 && A.AddressedRef(w.scopes[f], x, CRef(d, x)) && ValRel(w, v, y)
    ensures var i := C.IndexCapture(w.scopes[f], x, d);
            var c := H.Climb(h.cxts, H.Top(h).up, d);
            var s1 := S.Update(s, f, x, v);
            i.Some? && c.Some? && s1.Some? && H.WriteContext(h, c.value, i.value, y).Some? &&
            (var h1 := H.WriteContext(h, c.value, i.value, y).value;
             Inv(w, s1.value, h1, f) && h1.ip == h.ip && h1.frames == h.frames && Keeps(w, s, w, s1.value, {f}))
  {
    hide SlotsRel, CapturesRel, ContextOk, GlobalsRel, ValRel, TopOk, Keeps;
    FindFrameDistance(w, s.frames, h.cxts, f, x);
    var g := S.FindFrame(s.frames, f, x).value;
    assert FrameOk(w, s.frames, g);
    WriteCaptured(w, s, h, g, x, v, y);
    TopOkElsewhere(w, s.frames, f, H.Top(h), g, x, v);
    AssignedKeeps(w, s, f, g, x, v);
  }

  /** Writing a global variable. */
  lemma WriteGlobal(w: World, s: S.Store, h: H.State, f: nat, x: Name, v: S.SVal, y: H.VVal)
    requires Inv(w, s, h, f) && x in s.globals && Builtins.InlineName(x).None? && ValRel(w, v, y)
    ensures var s1 := s.(globals := s.globals[x := Some(v)]);
            var h1 := h.(globals := h.globals[x := Some(y)]);
            Inv(w, s1, h1, f) && Keeps(w, s, w, s1, {f})
  {
    hide FrameOk, ContextOk, TopOk, ValRel;
    var g1, hg1 := s.globals[x := Some(v)], h.globals[x := Some(y)];
    assert g1.Keys == hg1.Keys;
  }
}
