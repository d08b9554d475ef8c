/** The property-based convergence engine: normalisation of an object to its ensured
    and not ignored properties, and the loop that writes ensured properties into the
    live object. */
module Engine {
  import opened JsonTree

  // ----- normalisation -----

  /** The first stage of normalisation: copy every ensured property that t has into an empty object. */
  function Project(t: Json, ensured: seq<Path>): Result<Json> {
    if ensured == [] then Ok(EMPTY)
    else
      var e := ensured[|ensured| - 1];
      match Project(t, ensured[..|ensured| - 1])
      case Failed => Failed
      case Ok(acc) => if Get(t, e).None? then Ok(acc) else Set(acc, e, Get(t, e).value)
  }

  /** The second stage: delete every ignored property. */
  function DelAll(t: Json, ignored: seq<Pattern>): Json {
    if ignored == [] then t
    else Del(DelAll(t, ignored[..|ignored| - 1]), ignored[|ignored| - 1])
  }

  function Normalize(t: Json, ensured: seq<Path>, ignored: seq<Pattern>): Result<Json> {
    match Project(t, ensured)
    case Failed => Failed
    case Ok(p) => Ok(DelAll(p, ignored))
  }

  lemma {:induction false} ProjectStuck(o: Json, ensured: seq<Path>, n: nat)
    requires n <= |ensured| && Project(o, ensured[..n]).Failed?
    ensures Project(o, ensured) == Project(o, ensured[..n])
    decreases |ensured|
  {
    if n < |ensured| {
      var front := ensured[..|ensured| - 1];
      assert front[..n] == ensured[..n];
      ProjectStuck(o, front, n);
    } else {
      assert ensured[..n] == ensured;
    }
  }

  // ----- what normalisation keeps -----

  /** q is an ensured location or lies below one. */
  ghost predicate Covered(ensured: seq<Path>, q: Loc) {
    exists e :: e in ensured && e <= q
  }

  /** q is a proper parent of an ensured location that is present in t. */
  ghost predicate Above(t: Json, ensured: seq<Path>, q: Loc) {
    exists e :: e in ensured && q < e && Get(t, e).Some?
  }

  ghost predicate Ignored(ignored: seq<Pattern>, q: Loc) {
    exists p :: p in ignored && Hits(p, q)
  }

  lemma {:induction false} LookProject(t: Json, ensured: seq<Path>)
    requires t.Obj? && [] !in ensured
    ensures Project(t, ensured).Ok?
    ensures forall q: Loc :: Look(Project(t, ensured).value, q) ==
                             if Covered(ensured, q) then Look(t, q)
                             else if q == [] || Above(t, ensured, q) then Some(ObjectNode)
                             else None
    decreases |ensured|
  {
    if ensured != [] {
      var front, e := ensured[..|ensured| - 1], ensured[|ensured| - 1];
      LookProject(t, front);
      var acc := Project(t, front).value;
      Snoc(ensured);
      forall q: Loc { CoverSnoc(t, ensured, q); }
      if Get(t, e).None? {
        forall q: Loc | e <= q ensures Look(t, q).None? {
          if Get(t, q).Some? { GetPrefix(t, e, q); }
        }
        forall q: Loc | e <= q && !Covered(front, q) ensures Look(acc, q).None? {
          if Above(t, front, q) {
            var f :| f in front && q < f && Get(t, f).Some?;
            GetPrefix(t, e, f);
          }
        }
      } else {
        var v := Get(t, e).value;
        forall n | 0 <= n < |e| && Get(acc, e[..n]).Some?
          ensures Get(acc, e[..n]).value.Obj?
        {
          GetPrefix(t, e[..n], e);
          assert Look(acc, e[..n]).Some?;
        }
        SetSucceeds(acc, e, v);
        forall q: Loc
          ensures Look(Project(t, ensured).value, q) ==
                  if Covered(ensured, q) then Look(t, q)
                  else if q == [] || Above(t, ensured, q) then Some(ObjectNode)
                  else None
        {
          LookAfterSet(acc, e, v, q);
          if e <= q {
            LookBelow(t, e, v, q[|e|..]);
            assert e + q[|e|..] == q;
          } else if q <= e {
            GetPrefix(t, q, e);
          }
        }
      }
    }
  }

  /** Membership in a list in terms of its front and its last element. */
  lemma Snoc<T>(s: seq<T>)
    requires s != []
    ensures forall x :: x in s <==> x in s[..|s| - 1] || x == s[|s| - 1]
  {
  }

  lemma CoverSnoc(t: Json, ensured: seq<Path>, q: Loc)
    requires ensured != []
    ensures var front, e := ensured[..|ensured| - 1], ensured[|ensured| - 1];
            && (Covered(ensured, q) <==> Covered(front, q) || e <= q)
            && (Above(t, ensured, q) <==> Above(t, front, q) || (q < e && Get(t, e).Some?))
  {
    Snoc(ensured);
    var front := ensured[..|ensured| - 1];
    assert ensured[|ensured| - 1] in ensured;
    if Covered(ensured, q) {
      var f :| f in ensured && f <= q;
      assert f in front || f == ensured[|ensured| - 1];
    }
    if Covered(front, q) {
      var f :| f in front && f <= q;
      assert f in ensured;
    }
    if Above(t, front, q) {
      var f :| f in front && q < f && Get(t, f).Some?;
      assert f in ensured;
    }
    if Above(t, ensured, q) {
      var f :| f in ensured && q < f && Get(t, f).Some?;
      assert f in front || f == ensured[|ensured| - 1];
    }
  }

  lemma {:induction false} LookDelAll(t: Json, ignored: seq<Pattern>, q: Loc)
    ensures Look(DelAll(t, ignored), q) == if Ignored(ignored, q) then None else Look(t, q)
    decreases |ignored|
  {
    if ignored != [] {
      Snoc(ignored);
      LookDelAll(t, ignored[..|ignored| - 1], q);
      LookAfterDel(DelAll(t, ignored[..|ignored| - 1]), ignored[|ignored| - 1], q);
    }
  }

  lemma CoveredAbove(done: seq<Path>, q: Loc, e: Loc)
    requires q <= e
    ensures Covered(done, q) ==> Covered(done, e)
  {
  }

  /** Normalisation fails only for an ensured root, and its result is given location by location:
      ignored locations go, locations under an ensured path stay as they were, parents of present
      ensured paths become objects, and nothing else is there. */
  lemma LookNormalize(t: Json, ensured: seq<Path>, ignored: seq<Pattern>)
    requires t.Obj?
    ensures Normalize(t, ensured, ignored).Ok? <==> [] !in ensured
    ensures [] !in ensured ==>
              forall q: Loc :: Look(Normalize(t, ensured, ignored).value, q) ==
                               if Ignored(ignored, q) then None
                               else if Covered(ensured, q) then Look(t, q)
                               else if q == [] || Above(t, ensured, q) then Some(ObjectNode)
                               else None
    ensures [] !in ensured ==> Normalize(t, ensured, ignored).value.Obj?
  {
    if [] in ensured {
      ProjectRootFails(t, ensured);
    } else {
      LookProject(t, ensured);
      var p := Project(t, ensured).value;
      forall q: Loc { LookDelAll(p, ignored, q); }
      assert Look(DelAll(p, ignored), []) == Look(p, []);
    }
  }

  lemma {:induction false} ProjectRootFails(t: Json, ensured: seq<Path>)
    requires [] in ensured
    ensures Project(t, ensured).Failed?
    decreases |ensured|
  {
    if ensured[|ensured| - 1] != [] {
      Snoc(ensured);
      ProjectRootFails(t, ensured[..|ensured| - 1]);
    }
  }

  /** The order and the repetition of both lists do not matter. */
  lemma NormalizeOrderFree(t: Json, e1: seq<Path>, e2: seq<Path>, i1: seq<Pattern>, i2: seq<Pattern>)
    requires t.Obj?
    requires forall e :: e in e1 <==> e in e2
    requires forall p :: p in i1 <==> p in i2
    ensures [] in e1 ==> Normalize(t, e1, i1).Failed? && Normalize(t, e2, i2).Failed?
    ensures [] !in e1 ==> Normalize(t, e1, i1) == Normalize(t, e2, i2)
  {
    LookNormalize(t, e1, i1);
    LookNormalize(t, e2, i2);
    if [] !in e1 {
      Extensional(Normalize(t, e1, i1).value, Normalize(t, e2, i2).value);
    }
  }

  /** An ensured path below one already listed adds nothing. */
  lemma NormalizeExtendedPath(t: Json, ensured: seq<Path>, ignored: seq<Pattern>, e: Path)
    requires t.Obj? && [] !in ensured && Covered(ensured, e)
    ensures Normalize(t, ensured + [e], ignored) == Normalize(t, ensured, ignored)
  {
    LookNormalize(t, ensured, ignored);
    LookNormalize(t, ensured + [e], ignored);
    var a, b := Normalize(t, ensured, ignored).value, Normalize(t, ensured + [e], ignored).value;
    var f :| f in ensured && f <= e;
    forall q: Loc ensures Look(a, q) == Look(b, q) {
      CoverSnoc(t, ensured + [e], q);
      assert (ensured + [e])[..|ensured|] == ensured;
      if e <= q { assert f <= q; }
      if !Covered(ensured, q) && q < e && Get(t, e).Some? {
        assert q < f;
        GetPrefix(t, f, e);
      }
    }
    Extensional(a, b);
  }

  // ----- the property loop -----

  /** One ensured property, from the normalised desired tree to the live tree. */
  function ReconcileOne(live: Json, desired: Json, e: Path): Result<Json> {
    match (Get(desired, e), Get(live, e))
    case (None, None) => Ok(live)
    case (None, Some(_)) => Ok(Del(live, Literal(e)))
    case (Some(v), None) => Set(live, e, v)
    case (Some(v), Some(w)) => if v == w then Ok(live) else Set(live, e, v)
  }

  function ReconcileAll(live: Json, desired: Json, ensured: seq<Path>): (r: Result<Json>)
    ensures live.Obj? && r.Ok? ==> r.value.Obj?
  {
    if ensured == [] then Ok(live)
    else match ReconcileAll(live, desired, ensured[..|ensured| - 1])
      case Failed => Failed
      case Ok(acc) => ReconcileOne(acc, desired, ensured[|ensured| - 1])
  }

  lemma {:induction false} ReconcileStuck(live: Json, desired: Json, ensured: seq<Path>, n: nat)
    requires n <= |ensured| && ReconcileAll(live, desired, ensured[..n]).Failed?
    ensures ReconcileAll(live, desired, ensured) == ReconcileAll(live, desired, ensured[..n])
    decreases |ensured|
  {
    if n < |ensured| {
      var front := ensured[..|ensured| - 1];
      assert front[..n] == ensured[..n];
      ReconcileStuck(live, desired, front, n);
    } else {
      assert ensured[..n] == ensured;
    }
  }

  ghost predicate IsMerged(r: Json, live: Json, desired: Json, ensured: seq<Path>) {
    forall q: Loc :: Look(r, q) ==
                     if Covered(ensured, q) then Look(desired, q)
                     else if Above(desired, ensured, q) then Some(ObjectNode)
                     else Look(live, q)
  }

  /** The whole effect of the loop, location by location, for ensured paths that may repeat,
      overlap and come in any order. */
  lemma {:induction false} LoopMerges(live: Json, desired: Json, ensured: seq<Path>)
    requires ReconcileAll(live, desired, ensured).Ok?
    ensures IsMerged(ReconcileAll(live, desired, ensured).value, live, desired, ensured)
    decreases |ensured|
  {
    if ensured != [] {
      var front, e := ensured[..|ensured| - 1], ensured[|ensured| - 1];
      LoopMerges(live, desired, front);
      Snoc(ensured);
      forall q: Loc { CoverSnoc(desired, ensured, q); }
      var acc := ReconcileAll(live, desired, front).value;
      var r := ReconcileAll(live, desired, ensured).value;
      SameGetLooks(acc, desired, e);
      if Get(acc, e) == Get(desired, e) {
        assert r == acc;
        forall q: Loc | q < e && Get(desired, e).Some? ensures Look(acc, q) == Some(ObjectNode) {
          GetPrefix(acc, q, e);
        }
      } else {
        StepSplices(acc, desired, e);
        CoveredAgrees(acc, live, desired, front, e);
        forall q: Loc
          ensures Look(r, q) == if Covered(ensured, q) then Look(desired, q)
                                else if Above(desired, ensured, q) then Some(ObjectNode)
                                else Look(live, q)
        {
        }
      }
    }
  }

  /** Wherever an earlier property covers a path, live and desired already agree on it. */
  lemma CoveredAgrees(acc: Json, live: Json, desired: Json, ensured: seq<Path>, e: Loc)
    requires IsMerged(acc, live, desired, ensured)
    ensures Covered(ensured, e) ==> Get(acc, e) == Get(desired, e)
  {
    if Covered(ensured, e) {
      var f :| f in ensured && f <= e;
      forall q: Loc | e <= q ensures Look(acc, q) == Look(desired, q) { assert f <= q; }
      SameGetLooks(acc, desired, e);
    }
  }

  /** A step that writes replaces the subtree at e, puts objects above it, and changes nothing else. */
  lemma StepSplices(live: Json, desired: Json, e: Path)
    requires ReconcileOne(live, desired, e).Ok?
    requires Get(live, e) != Get(desired, e)
    ensures forall q: Loc :: Look(ReconcileOne(live, desired, e).value, q) ==
                             if e <= q then Look(desired, q)
                             else if q < e && Get(desired, e).Some? then Some(ObjectNode)
                             else Look(live, q)
  {
    forall q: Loc
      ensures Look(ReconcileOne(live, desired, e).value, q) ==
              if e <= q then Look(desired, q)
              else if q < e && Get(desired, e).Some? then Some(ObjectNode)
              else Look(live, q)
    {
      if Get(desired, e).Some? {
        LookAfterSet(live, e, Get(desired, e).value, q);
        if e <= q {
          LookBelow(desired, e, Get(desired, e).value, q[|e|..]);
          assert e + q[|e|..] == q;
        }
      } else {
        LookAfterDel(live, Literal(e), q);
        if e <= q && Get(desired, q).Some? { GetPrefix(desired, e, q); }
      }
    }
  }

  /** The loop never undoes its own work: at its end live and desired agree at every ensured path. */
  lemma LoopAgrees(live: Json, desired: Json, ensured: seq<Path>, e: Path)
    requires ReconcileAll(live, desired, ensured).Ok? && e in ensured
    ensures Get(ReconcileAll(live, desired, ensured).value, e) == Get(desired, e)
  {
    LoopMerges(live, desired, ensured);
    SameGetLooks(ReconcileAll(live, desired, ensured).value, desired, e);
  }

  /** Frame: a location that is neither above nor below an ensured path keeps its presence and its value. */
  lemma LoopFrame(live: Json, desired: Json, ensured: seq<Path>, q: Loc)
    requires ReconcileAll(live, desired, ensured).Ok?
    requires forall e :: e in ensured ==> !(e <= q) && !(q <= e)
    ensures Get(ReconcileAll(live, desired, ensured).value, q) == Get(live, q)
  {
    var r := ReconcileAll(live, desired, ensured).value;
    LoopMerges(live, desired, ensured);
    forall p: Loc | q <= p ensures Look(r, p) == Look(live, p) {
    }
    SameGetLooks(r, live, q);
  }

  /** The same presence and value at every ensured path. */
  ghost predicate AgreeAt(ensured: seq<Path>, a: Json, b: Json) {
    forall e :: e in ensured ==> Get(a, e) == Get(b, e)
  }

  /** Every key path that is neither above nor below an ensured one has what it had. */
  ghost predicate RestKept(ensured: seq<Path>, now: Json, was: Json) {
    forall q: Path :: q != [] && (forall e :: e in ensured ==> !(e <= q) && !(q <= e)) ==> Get(now, q) == Get(was, q)
  }

  /** Any two orders of the same ensured paths that both succeed write the same tree. */
  lemma LoopOrderFree(live: Json, desired: Json, e1: seq<Path>, e2: seq<Path>)
    requires forall e :: e in e1 <==> e in e2
    requires ReconcileAll(live, desired, e1).Ok? && ReconcileAll(live, desired, e2).Ok?
    ensures ReconcileAll(live, desired, e1) == ReconcileAll(live, desired, e2)
  {
    LoopMerges(live, desired, e1);
    LoopMerges(live, desired, e2);
    Extensional(ReconcileAll(live, desired, e1).value, ReconcileAll(live, desired, e2).value);
  }

  /** Running the loop again over its own result changes nothing. */
  lemma LoopIdempotent(live: Json, desired: Json, ensured: seq<Path>)
    requires ReconcileAll(live, desired, ensured).Ok?
    ensures var r := ReconcileAll(live, desired, ensured).value;
            ReconcileAll(r, desired, ensured) == Ok(r)
  {
    var r := ReconcileAll(live, desired, ensured).value;
    forall e | e in ensured ensures Get(r, e) == Get(desired, e) { LoopAgrees(live, desired, ensured, e); }
    AgreeingLoopSkips(r, desired, ensured);
  }

  lemma {:induction false} AgreeingLoopSkips(live: Json, desired: Json, ensured: seq<Path>)
    requires forall e :: e in ensured ==> Get(live, e) == Get(desired, e)
    ensures ReconcileAll(live, desired, ensured) == Ok(live)
    decreases |ensured|
  {
    if ensured != [] {
      Snoc(ensured);
      AgreeingLoopSkips(live, desired, ensured[..|ensured| - 1]);
    }
  }

  /** Property e is to be written, the live object has something other than an object at its parent
      e[..n], and no earlier property covers that parent. */
  ghost predicate Blocked(live: Json, desired: Json, earlier: seq<Path>, e: Path, n: nat)
  {
    && n < |e|
    && Get(desired, e).Some?
    && Get(live, e[..n]).Some?
    && !Get(live, e[..n]).value.Obj?
    && !Covered(earlier, e[..n])
  }

  ghost predicate NeverBlocked(live: Json, desired: Json, ensured: seq<Path>) {
    forall i, n: nat :: 0 <= i < |ensured| ==> !Blocked(live, desired, ensured[..i], ensured[i], n)
  }

  /** The loop fails exactly when some ensured property is blocked. */
  lemma {:induction false} LoopSucceeds(live: Json, desired: Json, ensured: seq<Path>)
    requires [] !in ensured
    ensures ReconcileAll(live, desired, ensured).Ok? <==> NeverBlocked(live, desired, ensured)
    decreases |ensured|
  {
    if ensured != [] {
      var front, e := ensured[..|ensured| - 1], ensured[|ensured| - 1];
      Snoc(ensured);
      LoopSucceeds(live, desired, front);
      NeverBlockedSnoc(live, desired, ensured);
      if NeverBlocked(live, desired, front) {
        LastStepSucceeds(live, desired, front, e);
      }
    }
  }

  lemma NeverBlockedSnoc(live: Json, desired: Json, ensured: seq<Path>)
    requires ensured != []
    ensures var front, e := ensured[..|ensured| - 1], ensured[|ensured| - 1];
            NeverBlocked(live, desired, ensured) <==>
            NeverBlocked(live, desired, front) && forall n: nat :: !Blocked(live, desired, front, e, n)
  {
    var front, e := ensured[..|ensured| - 1], ensured[|ensured| - 1];
    forall i | 0 <= i < |front|
      ensures front[..i] == ensured[..i] && front[i] == ensured[i]
    {
    }
    if NeverBlocked(live, desired, ensured) {
      forall n: nat ensures !Blocked(live, desired, front, e, n) {
        assert !Blocked(live, desired, ensured[..|front|], ensured[|front|], n);
      }
    }
  }

  lemma CoveredByMore(ensured: seq<Path>, i: nat, q: Loc)
    requires i <= |ensured|
    ensures Covered(ensured[..i], q) ==> Covered(ensured, q)
  {
    if Covered(ensured[..i], q) {
      var g :| g in ensured[..i] && g <= q;
      assert g in ensured;
    }
  }

  lemma LastStepSucceeds(live: Json, desired: Json, earlier: seq<Path>, e: Path)
    requires e != [] && NeverBlocked(live, desired, earlier)
    requires ReconcileAll(live, desired, earlier).Ok?
    ensures ReconcileOne(ReconcileAll(live, desired, earlier).value, desired, e).Ok? <==>
            forall n: nat :: !Blocked(live, desired, earlier, e, n)
  {
    var acc := ReconcileAll(live, desired, earlier).value;
    LoopMerges(live, desired, earlier);
    CoveredAgrees(acc, live, desired, earlier, e);
    forall n: nat | n < |e| { ParentInLoop(acc, live, desired, earlier, e, n); }
    if Get(desired, e).Some? {
      SetSucceeds(acc, e, Get(desired, e).value);
      if Get(acc, e) == Get(desired, e) {
        forall n: nat | n < |e| ensures !Blocked(live, desired, earlier, e, n) {
          GetPrefix(acc, e[..n], e);
        }
      }
    }
  }

  /** Whether a parent of e is something other than an object when the loop reaches e. */
  lemma ParentInLoop(acc: Json, live: Json, desired: Json, earlier: seq<Path>, e: Path, n: nat)
    requires IsMerged(acc, live, desired, earlier) && NeverBlocked(live, desired, earlier)
    requires n < |e|
    ensures Covered(earlier, e[..n]) ==> Covered(earlier, e)
    ensures Get(desired, e).Some? && !Covered(earlier, e[..n]) ==>
              (Blocked(live, desired, earlier, e, n) <==> Get(acc, e[..n]).Some? && !Get(acc, e[..n]).value.Obj?)
  {
    var p: Loc := e[..n];
    if Covered(earlier, p) {
      var f :| f in earlier && f <= p;
      assert f <= e;
    } else if Above(desired, earlier, p) {
      assert Look(acc, p) == Some(ObjectNode);
      var f :| f in earlier && p < f && Get(desired, f).Some?;
      var i :| 0 <= i < |earlier| && earlier[i] == f;
      assert f[..n] == p;
      assert !Blocked(live, desired, earlier[..i], f, n);
      CoveredByMore(earlier, i, p);
    } else {
      assert Look(acc, p) == Look(live, p);
    }
  }

  // ----- the comparison of typed objects -----

  /** The Go type of a kind, as far as its comparison goes: whether an empty value with this label at this
      location is the same Go value as none. True of structs held by value, of empty maps and lists, of nulls
      where a list, map or pointer can be nil, and of zero values in fields that are no pointers; false of an
      empty object behind a pointer, and of anything in a field of raw JSON. */
  type Blanks = (Loc, Label) -> bool

  predicate IsEmpty(l: Label) {
    l in [ObjectNode, ArrayOf(0), Leaf(Null), Leaf(Str("")), Leaf(Num(0)), Leaf(Bool(false))]
  }

  predicate IsBlank(blanks: Blanks, q: Loc, l: Label) {
    IsEmpty(l) && blanks(q, l)
  }

  /** What t has at q and below reads as nothing. */
  ghost predicate Hollow(t: Json, blanks: Blanks, q: Loc) {
    forall s: Loc :: q <= s && Look(t, s).Some? ==> IsBlank(blanks, s, Look(t, s).value)
  }

  /** Two normalised objects are equal after their conversion to typed objects. */
  ghost predicate SameTyped(a: Json, b: Json, blanks: Blanks) {
    forall q: Loc :: Look(a, q) == Look(b, q) || (Hollow(a, blanks, q) && Hollow(b, blanks, q))
  }

  /** Where nothing reads as none the comparison is equality of trees. */
  lemma SameTypedIsEquality(a: Json, b: Json, blanks: Blanks)
    requires forall q: Loc, l :: !blanks(q, l)
    ensures SameTyped(a, b, blanks) <==> a == b
  {
    if SameTyped(a, b, blanks) {
      forall q: Loc ensures Look(a, q) == Look(b, q) {
        assert Hollow(a, blanks, q) ==> Look(a, q) == None;
        assert Hollow(b, blanks, q) ==> Look(b, q) == None;
      }
      Extensional(a, b);
    }
  }

  /** The comparison does not distinguish more than transitivity allows: it is an equivalence. */
  lemma SameTypedTransitive(a: Json, b: Json, c: Json, blanks: Blanks)
    requires SameTyped(a, b, blanks) && SameTyped(b, c, blanks)
    ensures SameTyped(a, c, blanks)
  {
    forall q: Loc ensures Look(a, q) == Look(c, q) || (Hollow(a, blanks, q) && Hollow(c, blanks, q)) {
      if Hollow(a, blanks, q) && Hollow(b, blanks, q) { HollowSame(b, c, blanks, q); }
      if Hollow(b, blanks, q) && Hollow(c, blanks, q) { HollowSame(b, a, blanks, q); }
    }
  }

  lemma HollowSame(b: Json, c: Json, blanks: Blanks, q: Loc)
    requires Hollow(b, blanks, q) && (SameTyped(b, c, blanks) || SameTyped(c, b, blanks))
    ensures Hollow(c, blanks, q)
  {
    forall s: Loc | q <= s && Look(c, s).Some? ensures IsBlank(blanks, s, Look(c, s).value) {
      assert Look(b, s) == Look(c, s) || Hollow(c, blanks, s);
    }
  }

  /** When one tree only lacks some of the other, they are equal exactly when what it lacks reads as none. */
  lemma LackingSameTyped(a: Json, b: Json, blanks: Blanks)
    requires forall q: Loc :: Look(a, q) == None || Look(a, q) == Look(b, q)
    ensures SameTyped(a, b, blanks) <==>
            forall q: Loc :: Look(a, q) == None && Look(b, q).Some? ==> IsBlank(blanks, q, Look(b, q).value)
  {
    if forall q: Loc :: Look(a, q) == None && Look(b, q).Some? ==> IsBlank(blanks, q, Look(b, q).value) {
      forall q: Loc | Look(a, q) != Look(b, q) ensures Hollow(a, blanks, q) && Hollow(b, blanks, q) {
        forall s: Loc | q <= s ensures Look(a, s) == None {
          if Get(a, s).Some? { GetPrefix(a, q, s); }
        }
      }
    } else {
      var q: Loc :| Look(a, q) == None && Look(b, q).Some? && !IsBlank(blanks, q, Look(b, q).value);
      assert !Hollow(b, blanks, q);
    }
  }

  // the comparison as a recursion over both trees

  function Under(blanks: Blanks, step: Step): Blanks {
    (q: Loc, l: Label) => blanks([step] + q, l)
  }

  predicate ReadsAsNone(t: Json, blanks: Blanks) {
    IsBlank(blanks, [], LabelOf(t))
    && (t.Obj? ==> forall k :: k in t.members ==> ReadsAsNone(t.members[k], Under(blanks, Key(k))))
  }

  /** equality.Semantic.DeepEqual on the typed forms of two trees. */
  predicate EqualTyped(a: Json, b: Json, blanks: Blanks)
    decreases a
  {
    (ReadsAsNone(a, blanks) && ReadsAsNone(b, blanks)) ||
    match (a, b)
    case (Obj(m), Obj(n)) =>
      && (forall k :: k in m ==>
            if k in n then EqualTyped(m[k], n[k], Under(blanks, Key(k))) else ReadsAsNone(m[k], Under(blanks, Key(k))))
      && (forall k :: k in n && k !in m ==> ReadsAsNone(n[k], Under(blanks, Key(k))))
    case (Arr(x), Arr(y)) =>
      |x| == |y| && forall i :: 0 <= i < |x| ==> EqualTyped(x[i], y[i], Under(blanks, Index(i)))
    case _ => a == b
  }

  lemma ChildLook(t: Json, s: Step, q: Loc)
    ensures Get(t, [s]).Some? ==> Look(t, [s] + q) == Look(Get(t, [s]).value, q)
    ensures Get(t, [s]).None? ==> Look(t, [s] + q) == None
    ensures t.Obj? && s.Key? ==> Get(t, [s]) == if s.name in t.members then Some(t.members[s.name]) else None
    ensures t.Arr? && s.Index? ==> Get(t, [s]) == if s.i < |t.elems| then Some(t.elems[s.i]) else None
  {
    GetConcat(t, [s], q);
    assert [s][1..] == [];
  }

  /** Being hollow below a member. */
  lemma HollowUnder(t: Json, blanks: Blanks, s: Step, q: Loc)
    ensures Get(t, [s]).Some? ==> (Hollow(t, blanks, [s] + q) <==> Hollow(Get(t, [s]).value, Under(blanks, s), q))
    ensures Get(t, [s]).None? ==> Hollow(t, blanks, [s] + q)
  {
    forall u: Loc | [s] + q <= u ensures u == [s] + u[1..] && q <= u[1..] { ChildLook(t, s, u[1..]); }
    if Get(t, [s]).Some? {
      var x := Get(t, [s]).value;
      forall u: Loc ensures Look(t, [s] + u) == Look(x, u) { ChildLook(t, s, u); }
      if Hollow(t, blanks, [s] + q) {
        forall u: Loc | q <= u && Look(x, u).Some? ensures IsBlank(Under(blanks, s), u, Look(x, u).value) {
          assert [s] + q <= [s] + u;
        }
      }
    } else {
      forall u: Loc ensures Look(t, [s] + u) == None { ChildLook(t, s, u); }
    }
  }

  lemma {:induction false} ReadsAsNoneIsHollow(t: Json, blanks: Blanks)
    ensures ReadsAsNone(t, blanks) <==> Hollow(t, blanks, [])
    decreases t
  {
    assert Look(t, []) == Some(LabelOf(t));
    if t.Obj? {
      forall k | k in t.members
        ensures ReadsAsNone(t.members[k], Under(blanks, Key(k))) <==> Hollow(t, blanks, [Key(k)])
      {
        ReadsAsNoneIsHollow(t.members[k], Under(blanks, Key(k)));
        ChildLook(t, Key(k), []);
        HollowUnder(t, blanks, Key(k), []);
        assert [Key(k)] + [] == [Key(k)];
      }
    }
    if ReadsAsNone(t, blanks) {
      forall q: Loc | Look(t, q).Some? ensures IsBlank(blanks, q, Look(t, q).value) {
        if q != [] {
          assert q == [q[0]] + q[1..];
          ChildLook(t, q[0], q[1..]);
          assert Hollow(t, blanks, [q[0]]) && [q[0]] <= q;
        }
      }
    }
  }

  /** SameTyped, one step down. */
  ghost predicate SameBelow(a: Json, b: Json, blanks: Blanks, s: Step) {
    forall q: Loc :: Look(a, [s] + q) == Look(b, [s] + q) ||
                     (Hollow(a, blanks, [s] + q) && Hollow(b, blanks, [s] + q))
  }

  lemma SameTypedSteps(a: Json, b: Json, blanks: Blanks)
    ensures SameTyped(a, b, blanks) <==>
            || (Hollow(a, blanks, []) && Hollow(b, blanks, []))
            || (LabelOf(a) == LabelOf(b) && forall s: Step :: SameBelow(a, b, blanks, s))
  {
    assert Look(a, []) == Some(LabelOf(a)) && Look(b, []) == Some(LabelOf(b));
    if LabelOf(a) == LabelOf(b) && forall s: Step :: SameBelow(a, b, blanks, s) {
      forall q: Loc | q != [] ensures Look(a, q) == Look(b, q) || (Hollow(a, blanks, q) && Hollow(b, blanks, q)) {
        assert q == [q[0]] + q[1..] && SameBelow(a, b, blanks, q[0]);
      }
    }
    if Hollow(a, blanks, []) && Hollow(b, blanks, []) {
      forall q: Loc ensures Hollow(a, blanks, q) && Hollow(b, blanks, q) {}
    }
  }

  lemma SameBelowMembers(a: Json, b: Json, blanks: Blanks, s: Step)
    ensures Get(a, [s]).Some? && Get(b, [s]).Some? ==>
              (SameBelow(a, b, blanks, s) <==> SameTyped(Get(a, [s]).value, Get(b, [s]).value, Under(blanks, s)))
    ensures Get(a, [s]).Some? && Get(b, [s]).None? ==> (SameBelow(a, b, blanks, s) <==> Hollow(a, blanks, [s]))
    ensures Get(a, [s]).None? && Get(b, [s]).Some? ==> (SameBelow(a, b, blanks, s) <==> Hollow(b, blanks, [s]))
    ensures Get(a, [s]).None? && Get(b, [s]).None? ==> SameBelow(a, b, blanks, s)
  {
    forall q: Loc ensures AtStep(a, blanks, s, q) && AtStep(b, blanks, s, q) {
      ChildLook(a, s, q);
      ChildLook(b, s, q);
      HollowUnder(a, blanks, s, q);
      HollowUnder(b, blanks, s, q);
    }
    assert [s] + [] == [s];
    assert AtStep(a, blanks, s, []) && AtStep(b, blanks, s, []);
    if Get(a, [s]).Some? && Get(b, [s]).Some? {
      var x, y := Get(a, [s]).value, Get(b, [s]).value;
      if SameBelow(a, b, blanks, s) {
        forall q: Loc ensures Look(x, q) == Look(y, q) ||
                              (Hollow(x, Under(blanks, s), q) && Hollow(y, Under(blanks, s), q))
        {
          assert AtStep(a, blanks, s, q) && AtStep(b, blanks, s, q);
        }
      }
      if SameTyped(x, y, Under(blanks, s)) {
        forall q: Loc ensures Look(a, [s] + q) == Look(b, [s] + q) ||
                              (Hollow(a, blanks, [s] + q) && Hollow(b, blanks, [s] + q))
        {
          assert AtStep(a, blanks, s, q) && AtStep(b, blanks, s, q);
        }
      }
    }
  }

  /** What stands, and what is hollow, below a member. */
  ghost predicate AtStep(t: Json, blanks: Blanks, s: Step, q: Loc) {
    match Get(t, [s])
    case None => Look(t, [s] + q) == None && Hollow(t, blanks, [s] + q)
    case Some(x) => Look(t, [s] + q) == Look(x, q) && (Hollow(t, blanks, [s] + q) <==> Hollow(x, Under(blanks, s), q))
  }

  lemma HollowMember(t: Json, blanks: Blanks, s: Step)
    requires Get(t, [s]).Some?
    ensures Hollow(t, blanks, [s]) <==> ReadsAsNone(Get(t, [s]).value, Under(blanks, s))
  {
    HollowUnder(t, blanks, s, []);
    ReadsAsNoneIsHollow(Get(t, [s]).value, Under(blanks, s));
    assert [s] + [] == [s];
  }

  /** The recursion computes the comparison. */
  lemma {:induction false} EqualTypedIsSameTyped(a: Json, b: Json, blanks: Blanks)
    ensures EqualTyped(a, b, blanks) <==> SameTyped(a, b, blanks)
    decreases a, 1
  {
    ReadsAsNoneIsHollow(a, blanks);
    ReadsAsNoneIsHollow(b, blanks);
    SameTypedSteps(a, b, blanks);
    match (a, b)
    case (Obj(m), Obj(n)) => EqualMembers(a, b, blanks);
    case (Arr(x), Arr(y)) => if |x| == |y| { EqualElements(a, b, blanks); }
    case _ =>
      forall s: Step ensures LabelOf(a) == LabelOf(b) ==> SameBelow(a, b, blanks, s) {
        SameBelowMembers(a, b, blanks, s);
      }
  }

  lemma {:induction false} EqualMembers(a: Json, b: Json, blanks: Blanks)
    requires a.Obj? && b.Obj?
    ensures var m, n := a.members, b.members;
            (forall s: Step :: SameBelow(a, b, blanks, s)) <==>
            && (forall k :: k in m ==> if k in n then EqualTyped(m[k], n[k], Under(blanks, Key(k)))
                                       else ReadsAsNone(m[k], Under(blanks, Key(k))))
            && (forall k :: k in n && k !in m ==> ReadsAsNone(n[k], Under(blanks, Key(k))))
    decreases a, 0
  {
    var m, n := a.members, b.members;
    forall k
      ensures SameBelow(a, b, blanks, Key(k)) <==>
              if k in m then (if k in n then EqualTyped(m[k], n[k], Under(blanks, Key(k)))
                              else ReadsAsNone(m[k], Under(blanks, Key(k))))
              else k in n ==> ReadsAsNone(n[k], Under(blanks, Key(k)))
    {
      ChildLook(a, Key(k), []);
      ChildLook(b, Key(k), []);
      SameBelowMembers(a, b, blanks, Key(k));
      if k in m && k in n {
        EqualTypedIsSameTyped(m[k], n[k], Under(blanks, Key(k)));
      } else if k in m {
        HollowMember(a, blanks, Key(k));
      } else if k in n {
        HollowMember(b, blanks, Key(k));
      }
    }
    forall i: nat ensures SameBelow(a, b, blanks, Index(i)) { SameBelowMembers(a, b, blanks, Index(i)); }
    forall s: Step | s.Key? ensures s == Key(s.name) {}
  }

  lemma {:induction false} EqualElements(a: Json, b: Json, blanks: Blanks)
    requires a.Arr? && b.Arr? && |a.elems| == |b.elems|
    ensures (forall s: Step :: SameBelow(a, b, blanks, s)) <==>
            forall i :: 0 <= i < |a.elems| ==> EqualTyped(a.elems[i], b.elems[i], Under(blanks, Index(i)))
    decreases a, 0
  {
    forall i: nat
      ensures SameBelow(a, b, blanks, Index(i)) <==>
              (i < |a.elems| ==> EqualTyped(a.elems[i], b.elems[i], Under(blanks, Index(i))))
    {
      ChildLook(a, Index(i), []);
      ChildLook(b, Index(i), []);
      SameBelowMembers(a, b, blanks, Index(i));
      if i < |a.elems| { EqualTypedIsSameTyped(a.elems[i], b.elems[i], Under(blanks, Index(i))); }
    }
    forall k ensures SameBelow(a, b, blanks, Key(k)) { SameBelowMembers(a, b, blanks, Key(k)); }
    forall s: Step | s.Index? ensures s == Index(s.i) {}
  }

  lemma EqualTypedReflexive(t: Json, blanks: Blanks)
    ensures EqualTyped(t, t, blanks)
  {
    EqualTypedIsSameTyped(t, t, blanks);
  }

  /** A member that only one side has, without members of its own: the two sides are equal exactly when it is an
      empty object or list, a null, an empty string, a zero or a false, and the field does not show such a value. */
  lemma MissingOrEmpty(m: map<string, Json>, k: string, v: Json, blanks: Blanks)
    requires k !in m && (v.Obj? ==> v.members == map[])
    ensures EqualTyped(Obj(m), Obj(m[k := v]), blanks) <==>
            v in [EMPTY, Arr([]), Null, Str(""), Num(0), Bool(false)] && blanks([Key(k)], LabelOf(v))
  {
    var n := m[k := v];
    forall j | j in m ensures EqualTyped(m[j], n[j], Under(blanks, Key(j))) {
      EqualTypedReflexive(m[j], Under(blanks, Key(j)));
    }
    assert [Key(k)] + [] == [Key(k)];
    assert IsBlank(Under(blanks, Key(k)), [], LabelOf(v)) <==> IsEmpty(LabelOf(v)) && blanks([Key(k)], LabelOf(v));
    assert IsEmpty(LabelOf(v)) <==> v in [EMPTY, Arr([]), Null, Str(""), Num(0), Bool(false)];
    if ReadsAsNone(Obj(n), blanks) { assert ReadsAsNone(n[k], Under(blanks, Key(k))); }
  }

  // ----- the fixed point of a write -----

  /** q is a parent of ensured paths that the desired object has, every one of them is ignored or lost in
      the write, and nothing else keeps q: normalisation leaves an empty object there. */
  ghost predicate Stranded(desired: Json, ensured: seq<Path>, ignored: seq<Pattern>, lost: iset<Loc>, q: Loc) {
    && q != []
    && !Ignored(ignored, q)
    && !Covered(ensured, q)
    && Above(desired, ensured, q)
    && forall e :: e in ensured && q < e && Get(desired, e).Some? ==> Ignored(ignored, e) || e in lost
  }

  /** again has the normalised desired object under every ensured path, but for the lost locations. */
  ghost predicate HoldsBut(again: Json, nd: Json, ensured: seq<Path>, lost: iset<Loc>) {
    forall q: Loc :: Covered(ensured, q) ==> Look(again, q) == if q in lost then None else Look(nd, q)
  }

  /** What the next run sees: normalising the written object gives the normalised desired object
      without the lost locations and the stranded parents. */
  lemma LookSecondRun(desired: Json, ensured: seq<Path>, ignored: seq<Pattern>, again: Json, lost: iset<Loc>)
    requires again.Obj? && desired.Obj? && [] !in ensured && Normalize(desired, ensured, ignored).Ok?
    requires HoldsBut(again, Normalize(desired, ensured, ignored).value, ensured, lost)
    ensures Normalize(again, ensured, ignored).Ok?
    ensures forall q: Loc :: Look(Normalize(again, ensured, ignored).value, q) ==
                             if (Covered(ensured, q) && q in lost) || Stranded(desired, ensured, ignored, lost, q)
                             then None else Look(Normalize(desired, ensured, ignored).value, q)
  {
    var nd := Normalize(desired, ensured, ignored).value;
    LookNormalize(again, ensured, ignored);
    LookNormalize(desired, ensured, ignored);
    forall e | e in ensured
      ensures Get(again, e).Some? <==> Get(desired, e).Some? && !Ignored(ignored, e) && e !in lost
    {
      assert Covered(ensured, e);
      assert Look(again, e) == if e in lost then None else Look(nd, e);
    }
    forall q: Loc
      ensures Look(Normalize(again, ensured, ignored).value, q) ==
              if (Covered(ensured, q) && q in lost) || Stranded(desired, ensured, ignored, lost, q)
              then None else Look(nd, q)
    {
    }
  }

  /** So the next comparison is equal exactly when what was lost or stranded reads as none. */
  lemma SecondRunSameTyped(desired: Json, ensured: seq<Path>, ignored: seq<Pattern>, again: Json, lost: iset<Loc>,
                           blanks: Blanks)
    requires again.Obj? && desired.Obj? && [] !in ensured && Normalize(desired, ensured, ignored).Ok?
    requires HoldsBut(again, Normalize(desired, ensured, ignored).value, ensured, lost)
    requires forall q: Loc :: q in lost ==>
               Covered(ensured, q) && Look(Normalize(desired, ensured, ignored).value, q) == Some(Leaf(Null))
    ensures Normalize(again, ensured, ignored).Ok?
    ensures SameTyped(Normalize(again, ensured, ignored).value, Normalize(desired, ensured, ignored).value, blanks) <==>
            Unnoticed(desired, ensured, ignored, lost, blanks)
  {
    LookSecondRun(desired, ensured, ignored, again, lost);
    LookNormalize(desired, ensured, ignored);
    var a, nd := Normalize(again, ensured, ignored).value, Normalize(desired, ensured, ignored).value;
    LackingSameTyped(a, nd, blanks);
    forall q: Loc | Stranded(desired, ensured, ignored, lost, q)
      ensures Look(a, q) == None && Look(nd, q) == Some(ObjectNode)
    {
    }
    forall q: Loc | q in lost ensures Look(a, q) == None && Look(nd, q) == Some(Leaf(Null)) {
    }
  }

  /** The typed object does not show the lost nulls and the stranded parents. */
  ghost predicate Unnoticed(desired: Json, ensured: seq<Path>, ignored: seq<Pattern>, lost: iset<Loc>, blanks: Blanks) {
    && (forall q: Loc :: q in lost ==> blanks(q, Leaf(Null)))
    && forall q: Loc :: Stranded(desired, ensured, ignored, lost, q) ==> blanks(q, ObjectNode)
  }

  lemma WrittenHolds(live: Json, nd: Json, ensured: seq<Path>)
    requires ReconcileAll(live, nd, ensured).Ok?
    ensures HoldsBut(ReconcileAll(live, nd, ensured).value, nd, ensured, iset{})
  {
    LoopMerges(live, nd, ensured);
  }

  /** A run that finds the written object writes nothing exactly when every stranded parent is one
      that the typed object does not show. */
  lemma FixedPoint(live: Json, desired: Json, ensured: seq<Path>, ignored: seq<Pattern>, blanks: Blanks)
    requires live.Obj? && desired.Obj? && [] !in ensured
    requires var nd := Normalize(desired, ensured, ignored);
             nd.Ok? && ReconcileAll(live, nd.value, ensured).Ok?
    ensures var nd := Normalize(desired, ensured, ignored).value;
            var again := Normalize(ReconcileAll(live, nd, ensured).value, ensured, ignored);
            && again.Ok?
            && (SameTyped(again.value, nd, blanks) <==>
                forall q: Loc :: Stranded(desired, ensured, ignored, iset{}, q) ==> blanks(q, ObjectNode))
  {
    var nd := Normalize(desired, ensured, ignored).value;
    WrittenHolds(live, nd, ensured);
    SecondRunSameTyped(desired, ensured, ignored, ReconcileAll(live, nd, ensured).value, iset{}, blanks);
  }

  /** Normalising a normalised object gives it back, except for its stranded parents. */
  lemma NormalizeAgain(t: Json, ensured: seq<Path>, ignored: seq<Pattern>)
    requires t.Obj? && [] !in ensured && Normalize(t, ensured, ignored).Ok?
    ensures var n := Normalize(t, ensured, ignored).value;
            && n.Obj? && Normalize(n, ensured, ignored).Ok?
            && (forall q: Loc :: Look(Normalize(n, ensured, ignored).value, q) ==
                                 if Stranded(t, ensured, ignored, iset{}, q) then None else Look(n, q))
            && (Normalize(n, ensured, ignored) == Ok(n) <==>
                forall q: Loc :: !Stranded(t, ensured, ignored, iset{}, q))
  {
    LookNormalize(t, ensured, ignored);
    var n := Normalize(t, ensured, ignored).value;
    LookSecondRun(t, ensured, ignored, n, iset{});
    if forall q: Loc :: !Stranded(t, ensured, ignored, iset{}, q) {
      Extensional(Normalize(n, ensured, ignored).value, n);
    } else {
      var q: Loc :| Stranded(t, ensured, ignored, iset{}, q);
      assert Look(n, q) == Some(ObjectNode) && Look(Normalize(n, ensured, ignored).value, q) == None;
    }
  }

  /** A list in which no ensured path is ignored, nor lies below an ignored one, strands nothing. */
  lemma EnsuredNotIgnoredStrandsNothing(desired: Json, ensured: seq<Path>, ignored: seq<Pattern>)
    requires forall e :: e in ensured ==> !Ignored(ignored, e)
    ensures forall q: Loc :: !Stranded(desired, ensured, ignored, iset{}, q)
  {
  }

  /** With a stranded parent that the typed object shows, every later run writes again,
      and always the same object. */
  lemma StrandedWritesForever(live: Json, desired: Json, ensured: seq<Path>, ignored: seq<Pattern>,
                              blanks: Blanks, q: Loc)
    requires live.Obj? && desired.Obj? && [] !in ensured
    requires var nd := Normalize(desired, ensured, ignored);
             nd.Ok? && ReconcileAll(live, nd.value, ensured).Ok?
    requires Stranded(desired, ensured, ignored, iset{}, q) && !blanks(q, ObjectNode)
    ensures var nd := Normalize(desired, ensured, ignored).value;
            var written := ReconcileAll(live, nd, ensured).value;
            && Normalize(written, ensured, ignored).Ok?
            && !SameTyped(Normalize(written, ensured, ignored).value, nd, blanks)
            && ReconcileAll(written, nd, ensured) == Ok(written)
  {
    FixedPoint(live, desired, ensured, ignored, blanks);
    LoopIdempotent(live, Normalize(desired, ensured, ignored).value, ensured);
  }

  /** One property that is both ensured and ignored, that the desired object has and the live one has not. */
  lemma EnsuredAndIgnored(live: Json, desired: Json, e: Path, q: Path, blanks: Blanks)
    requires live.Obj? && desired.Obj? && q != [] && q < e && !blanks(q, ObjectNode)
    requires Get(desired, e).Some? && Get(live, e).None?
    ensures var ensured, ignored := [e], [Literal(e)];
            var nd, nl := Normalize(desired, ensured, ignored), Normalize(live, ensured, ignored);
            && nd.Ok? && nl.Ok?
            && !SameTyped(nl.value, nd.value, blanks)
            && ReconcileAll(live, nd.value, ensured) == Ok(live)
  {
    var ensured, ignored := [e], [Literal(e)];
    LookNormalize(desired, ensured, ignored);
    assert Hits(ignored[0], e) && !Hits(ignored[0], q) && e in ensured;
    var nd := Normalize(desired, ensured, ignored).value;
    assert Look(nd, e) == None;
    AgreeingLoopSkips(live, nd, ensured);
    assert Stranded(desired, ensured, ignored, iset{}, q);
    StrandedWritesForever(live, desired, ensured, ignored, blanks, q);
  }

  const ROLLING_UPDATE: Path := [Key("spec"), Key("strategy"), Key("rollingUpdate")]
  const MAX_SURGE: Path := ROLLING_UPDATE + [Key("maxSurge")]

  /** A Deployment spec with the given strategy. */
  function DeploymentWith(strategy: map<string, Json>): Json {
    Obj(map["spec" := Obj(map["strategy" := Obj(strategy)])])
  }

  lemma GetStrategy(strategy: map<string, Json>, q: Loc)
    ensures Get(DeploymentWith(strategy), [Key("spec"), Key("strategy")] + q) == Get(Obj(strategy), q)
  {
    var p: Loc := [Key("spec"), Key("strategy")];
    assert p[1..] == [Key("strategy")] && p[1..][1..] == [];
    assert Get(Obj(map["strategy" := Obj(strategy)]), p[1..]) == Some(Obj(strategy));
    assert Get(DeploymentWith(strategy), p) == Some(Obj(strategy));
    GetConcat(DeploymentWith(strategy), p, q);
  }

  lemma MaxSurgePresence()
    ensures Get(DeploymentWith(map["rollingUpdate" := Obj(map["maxSurge" := Str("25%")])]), MAX_SURGE).Some?
    ensures Get(DeploymentWith(map["type" := Str("Recreate")]), MAX_SURGE).None?
  {
    var below: Loc := [Key("rollingUpdate"), Key("maxSurge")];
    assert MAX_SURGE == [Key("spec"), Key("strategy")] + below && below[1..] == [Key("maxSurge")];
    GetStrategy(map["rollingUpdate" := Obj(map["maxSurge" := Str("25%")])], below);
    GetStrategy(map["type" := Str("Recreate")], below);
  }

  /** The plain claim "one write is enough" is false. A Deployment holds rollingUpdate by pointer; ensuring
      and ignoring its maxSurge leaves an empty rollingUpdate in the normalised desired object, which a live
      Recreate Deployment never shows, so every run sends it unchanged. */
  lemma OneWriteIsNotAlwaysEnough(blanks: Blanks)
    requires !blanks(ROLLING_UPDATE, ObjectNode)
    ensures var ensured, ignored := [MAX_SURGE], [Literal(MAX_SURGE)];
            var desired := DeploymentWith(map["rollingUpdate" := Obj(map["maxSurge" := Str("25%")])]);
            var live := DeploymentWith(map["type" := Str("Recreate")]);
            var nd, nl := Normalize(desired, ensured, ignored), Normalize(live, ensured, ignored);
            && nd.Ok? && nl.Ok?
            && !SameTyped(nl.value, nd.value, blanks)
            && ReconcileAll(live, nd.value, ensured) == Ok(live)
  {
    var ensured, ignored := [MAX_SURGE], [Literal(MAX_SURGE)];
    var desired := DeploymentWith(map["rollingUpdate" := Obj(map["maxSurge" := Str("25%")])]);
    var live := DeploymentWith(map["type" := Str("Recreate")]);
    MaxSurgePresence();
    EnsuredAndIgnored(live, desired, MAX_SURGE, ROLLING_UPDATE, blanks);
  }

  /** Edits of ignored or unmanaged locations never change what the decision compares: it depends only on which
      ensured paths are present and on what stands at covered locations that are not ignored. */
  lemma UnmanagedEditsIgnored(a: Json, b: Json, ensured: seq<Path>, ignored: seq<Pattern>)
    requires a.Obj? && b.Obj? && [] !in ensured
    requires forall q: Loc :: Covered(ensured, q) && !Ignored(ignored, q) ==> Look(a, q) == Look(b, q)
    requires forall e :: e in ensured ==> (Get(a, e).Some? <==> Get(b, e).Some?)
    ensures Normalize(a, ensured, ignored).Ok? && Normalize(a, ensured, ignored) == Normalize(b, ensured, ignored)
  {
    LookNormalize(a, ensured, ignored);
    LookNormalize(b, ensured, ignored);
    Extensional(Normalize(a, ensured, ignored).value, Normalize(b, ensured, ignored).value);
  }
}
