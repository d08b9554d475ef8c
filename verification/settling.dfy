/** When one pass over a template settles its object, so that the next pass finds nothing to do: exactly, for
    every way a pass can go, with inputs on which it does not. */
module Settling {
  import opened JsonTree
  import opened Engine
  import opened MergePatch
  import opened Cluster

  /** The build depends on nothing that the pass changes: on the object left it gives the same result, or for
      a disabled template any result. */
  predicate Stable(live: Option<Doc>, owner: Owner, t: Template) {
    var plan := Decide(live, owner, t);
    plan.Do? ==>
      var again := t.build(After(live, plan.change));
      if t.enabled then again == t.build(live) else again.Ok?
  }

  // ----- whether the owner reference of a created object shows in the comparison -----

  /** x at location p reads as nothing from s on, ignored locations apart. */
  ghost predicate HollowSeen(x: Json, t: Template, p: Loc, s: Loc) {
    forall u: Loc :: s <= u && Look(x, u).Some? && !Ignored(t.ignored, p + u) ==>
      IsBlank(t.blanks, p + u, Look(x, u).value)
  }

  /** x and y at location p are the same to a typed comparison that skips ignored locations. */
  ghost predicate SameSeen(x: Json, y: Json, t: Template, p: Loc) {
    forall s: Loc :: !Ignored(t.ignored, p + s) ==>
      Look(x, s) == Look(y, s) || (HollowSeen(x, t, p, s) && HollowSeen(y, t, p, s))
  }

  /** The references are ignored, or the owner's entry is refreshed with what it had. */
  ghost predicate RefsHidden(desired: Json, owner: Owner, t: Template) {
    || Ignored(t.ignored, OWNER_REFS)
    || var refs := ListAt(desired, OWNER_REFS);
       var i := IndexOf(refs, owner);
       i < |refs| && SameSeen(refs[i], OwnerRef(owner), t, OWNER_REFS + [Index(i)])
  }

  /** The reference brings a metadata object into the comparison. */
  ghost predicate NewMetadata(desired: Json, t: Template) {
    && !Ignored(t.ignored, METADATA)
    && if METADATA in t.ensured then Get(desired, METADATA).None?
       else OWNER_REFS in t.ensured && !Above(desired, t.ensured, METADATA)
  }

  /** The comparison does not show that the desired object got the owner's reference. */
  ghost predicate StampHidden(desired: Json, owner: Owner, t: Template) {
    && (Covered(t.ensured, OWNER_REFS) ==> RefsHidden(desired, owner, t))
    && (NewMetadata(desired, t) ==> t.blanks(METADATA, ObjectNode))
  }

  lemma LookStamped(desired: Doc, d: Doc, owner: Owner, q: Loc)
    requires WithOwner(desired, owner) == Ok(d)
    ensures Look(d, q) == if OWNER_REFS <= q then Look(Arr(Upsert(ListAt(desired, OWNER_REFS), owner)), q[2..])
                          else if q <= OWNER_REFS then Some(ObjectNode) else Look(desired, q)
  {
    LookAfterSet(desired, OWNER_REFS, Arr(Upsert(ListAt(desired, OWNER_REFS), owner)), q);
  }

  lemma NoKeysBelow(doc: Doc, e: Path)
    requires RefsAreList(doc) && OWNER_REFS < e
    ensures Get(doc, e) == None
  {
    assert e == OWNER_REFS + e[2..];
    GetConcat(doc, OWNER_REFS, e[2..]);
  }

  lemma StampedPresence(desired: Doc, d: Doc, owner: Owner, e: Path)
    requires WithOwner(desired, owner) == Ok(d)
    ensures Get(d, e).Some? <==> Get(desired, e).Some? || e == OWNER_REFS || e == METADATA
    ensures d.Obj? && RefsAreList(d)
  {
    LookStamped(desired, d, owner, e);
    LookStamped(desired, d, owner, OWNER_REFS);
    assert Look(d, OWNER_REFS).Some? && Look(d, OWNER_REFS).value.ArrayOf?;
    if OWNER_REFS < e {
      NoKeysBelow(desired, e);
      NoKeysBelow(d, e);
    }
  }

  /** a and b are the normalised forms of the stamped and of the desired object. */
  ghost predicate Compared(desired: Doc, d: Doc, owner: Owner, t: Template, a: Json, b: Json) {
    && WithOwner(desired, owner) == Ok(d) && [] !in t.ensured
    && Normalize(d, t.ensured, t.ignored) == Ok(a) && Normalize(desired, t.ensured, t.ignored) == Ok(b)
  }

  lemma OutsideStamp(desired: Doc, d: Doc, owner: Owner, t: Template, a: Json, b: Json, q: Loc)
    requires Compared(desired, d, owner, t, a, b) && !(OWNER_REFS <= q) && q != METADATA
    ensures Look(a, q) == Look(b, q)
  {
    LookNormalize(d, t.ensured, t.ignored);
    LookNormalize(desired, t.ensured, t.ignored);
    LookStamped(desired, d, owner, q);
    assert q <= OWNER_REFS ==> q == [];
    forall e | e in t.ensured && q < e && q != [] ensures Get(d, e).Some? <==> Get(desired, e).Some? {
      StampedPresence(desired, d, owner, e);
    }
  }

  lemma UncoveredRefs(desired: Doc, d: Doc, owner: Owner, t: Template, a: Json, b: Json, q: Loc)
    requires Compared(desired, d, owner, t, a, b) && OWNER_REFS <= q && !Covered(t.ensured, OWNER_REFS)
    ensures Look(a, q) == Look(b, q) == None
  {
    LookNormalize(d, t.ensured, t.ignored);
    LookNormalize(desired, t.ensured, t.ignored);
    StampedPresence(desired, d, owner, OWNER_REFS);
    NothingUnderRefs(desired, t, q);
    NothingUnderRefs(d, t, q);
  }

  /** Without an ensured path at or above the references, normalisation sees nothing of them. */
  lemma NothingUnderRefs(doc: Doc, t: Template, q: Loc)
    requires RefsAreList(doc) && OWNER_REFS <= q && !Covered(t.ensured, OWNER_REFS)
    ensures Covered(t.ensured, q) ==> Look(doc, q) == None
    ensures !Above(doc, t.ensured, q)
  {
    forall e | e in t.ensured && OWNER_REFS < e ensures Get(doc, e) == None { NoKeysBelow(doc, e); }
    if Covered(t.ensured, q) {
      var e :| e in t.ensured && e <= q;
      if Get(doc, q).Some? { GetPrefix(doc, e, q); }
    }
  }

  lemma CoveredRefs(desired: Doc, d: Doc, owner: Owner, t: Template, a: Json, b: Json, u: Loc)
    requires Compared(desired, d, owner, t, a, b) && Covered(t.ensured, OWNER_REFS)
    ensures Look(a, OWNER_REFS + u) == if Ignored(t.ignored, OWNER_REFS + u) then None
                                       else Look(Arr(Upsert(ListAt(desired, OWNER_REFS), owner)), u)
    ensures Look(b, OWNER_REFS + u) == if Ignored(t.ignored, OWNER_REFS + u) then None
                                       else Look(desired, OWNER_REFS + u)
  {
    var q := OWNER_REFS + u;
    LookNormalize(d, t.ensured, t.ignored);
    LookNormalize(desired, t.ensured, t.ignored);
    LookStamped(desired, d, owner, q);
    assert q[2..] == u;
    CoveredAbove(t.ensured, OWNER_REFS, q);
  }
  ghost predicate SameAt(a: Json, b: Json, t: Template, q: Loc) {
    Look(a, q) == Look(b, q) || (Hollow(a, t.blanks, q) && Hollow(b, t.blanks, q))
  }

  lemma IgnoredBelow(ignored: seq<Pattern>, p: Loc, q: Loc)
    requires Ignored(ignored, p) && p <= q
    ensures Ignored(ignored, q)
  {
    var x :| x in ignored && Hits(x, p);
    assert Hits(x, q);
  }

  lemma EntryAt(refs: seq<Json>, u: Loc)
    requires u != []
    ensures u == [u[0]] + u[1..]
    ensures Look(Arr(refs), u) == if u[0].Index? && u[0].i < |refs| then Look(refs[u[0].i], u[1..]) else None
  {
  }

  /** n is x at location p without the ignored parts. */
  ghost predicate ShowsAt(n: Json, x: Json, t: Template, p: Loc) {
    forall u: Loc :: Look(n, p + u) == if Ignored(t.ignored, p + u) then None else Look(x, u)
  }

  lemma ShownHollow(n: Json, x: Json, t: Template, p: Loc, s: Loc)
    requires ShowsAt(n, x, t, p)
    ensures Hollow(n, t.blanks, p + s) <==> HollowSeen(x, t, p, s)
  {
    if Hollow(n, t.blanks, p + s) {
      forall u: Loc | s <= u && Look(x, u).Some? && !Ignored(t.ignored, p + u)
        ensures IsBlank(t.blanks, p + u, Look(x, u).value)
      {
        assert p + s <= p + u && Look(n, p + u) == Look(x, u);
      }
    }
    if HollowSeen(x, t, p, s) {
      forall q: Loc | p + s <= q && Look(n, q).Some? ensures IsBlank(t.blanks, q, Look(n, q).value) {
        var u: Loc := q[|p|..];
        assert q == p + u && s <= u;
        assert Look(n, p + u) == Look(x, u) && !Ignored(t.ignored, p + u);
      }
    }
  }

  lemma ShownSame(a: Json, b: Json, x: Json, y: Json, t: Template, p: Loc)
    requires ShowsAt(a, x, t, p) && ShowsAt(b, y, t, p)
    ensures (forall s: Loc :: SameAt(a, b, t, p + s)) <==> SameSeen(x, y, t, p)
  {
    forall s: Loc
      ensures SameAt(a, b, t, p + s) <==>
              (!Ignored(t.ignored, p + s) ==>
                 Look(x, s) == Look(y, s) || (HollowSeen(x, t, p, s) && HollowSeen(y, t, p, s)))
    {
      ShownHollow(a, x, t, p, s);
      ShownHollow(b, y, t, p, s);
    }
  }

  ghost predicate RefsSameAt(a: Json, b: Json, t: Template) {
    forall q: Loc :: OWNER_REFS <= q ==> SameAt(a, b, t, q)
  }

  /** The owner references in the two normalised forms. */
  lemma RefsSame(desired: Doc, d: Doc, owner: Owner, t: Template, a: Json, b: Json)
    requires Compared(desired, d, owner, t, a, b) && Covered(t.ensured, OWNER_REFS)
    ensures RefsSameAt(a, b, t) <==> RefsHidden(desired, owner, t)
  {
    var refs := ListAt(desired, OWNER_REFS);
    var i := IndexOf(refs, owner);
    if Ignored(t.ignored, OWNER_REFS) {
      forall q: Loc | OWNER_REFS <= q ensures SameAt(a, b, t, q) {
        IgnoredRefs(desired, d, owner, t, a, b, q);
      }
    } else if i == |refs| {
      AddedRef(desired, d, owner, t, a, b);
    } else {
      RefreshedShows(desired, d, owner, t, a, b, i);
      RefreshedSame(a, b, OwnerRef(owner), refs[i], t, i);
      SameSeenSymmetric(refs[i], OwnerRef(owner), t, OWNER_REFS + [Index(i)]);
    }
  }

  lemma IgnoredRefs(desired: Doc, d: Doc, owner: Owner, t: Template, a: Json, b: Json, q: Loc)
    requires Compared(desired, d, owner, t, a, b) && Covered(t.ensured, OWNER_REFS)
    requires Ignored(t.ignored, OWNER_REFS) && OWNER_REFS <= q
    ensures Look(a, q) == Look(b, q)
  {
    IgnoredBelow(t.ignored, OWNER_REFS, q);
    assert q == OWNER_REFS + q[2..];
    CoveredRefs(desired, d, owner, t, a, b, q[2..]);
  }

  /** A longer list always shows. */
  lemma LongerListShows(a: Json, b: Json, t: Template, n: nat)
    requires Look(a, OWNER_REFS) == Some(ArrayOf(n)) && n > 0 && Look(b, OWNER_REFS) != Some(ArrayOf(n))
    ensures !RefsSameAt(a, b, t)
  {
    assert !IsEmpty(ArrayOf(n));
    assert !Hollow(a, t.blanks, OWNER_REFS);
    assert !SameAt(a, b, t, OWNER_REFS);
  }

  lemma ListLook(desired: Doc, owner: Owner)
    requires IndexOf(ListAt(desired, OWNER_REFS), owner) == |ListAt(desired, OWNER_REFS)|
    ensures var n := |ListAt(desired, OWNER_REFS)| + 1;
            && LabelOf(Arr(Upsert(ListAt(desired, OWNER_REFS), owner))) == ArrayOf(n)
            && Look(desired, OWNER_REFS) != Some(ArrayOf(n))
  {
  }

  lemma AddedRef(desired: Doc, d: Doc, owner: Owner, t: Template, a: Json, b: Json)
    requires Compared(desired, d, owner, t, a, b) && Covered(t.ensured, OWNER_REFS)
    requires !Ignored(t.ignored, OWNER_REFS)
    requires IndexOf(ListAt(desired, OWNER_REFS), owner) == |ListAt(desired, OWNER_REFS)|
    ensures !RefsSameAt(a, b, t)
  {
    ListLook(desired, owner);
    RefsLabel(desired, d, owner, t, a, b);
    LongerListShows(a, b, t, |ListAt(desired, OWNER_REFS)| + 1);
  }

  lemma RefsLabel(desired: Doc, d: Doc, owner: Owner, t: Template, a: Json, b: Json)
    requires Compared(desired, d, owner, t, a, b) && Covered(t.ensured, OWNER_REFS)
    requires !Ignored(t.ignored, OWNER_REFS)
    ensures Look(a, OWNER_REFS) == Some(LabelOf(Arr(Upsert(ListAt(desired, OWNER_REFS), owner))))
    ensures Look(b, OWNER_REFS) == Look(desired, OWNER_REFS)
  {
    var root: Loc := [];
    assert OWNER_REFS + root == OWNER_REFS;
    CoveredRefs(desired, d, owner, t, a, b, root);
    assert Look(Arr(Upsert(ListAt(desired, OWNER_REFS), owner)), root) ==
           Some(LabelOf(Arr(Upsert(ListAt(desired, OWNER_REFS), owner))));
  }

  /** The owner's entry in the two forms. */
  lemma EntryShows(desired: Doc, d: Doc, owner: Owner, t: Template, a: Json, b: Json, i: nat, u: Loc)
    requires Compared(desired, d, owner, t, a, b) && Covered(t.ensured, OWNER_REFS)
    requires var refs := ListAt(desired, OWNER_REFS); i == IndexOf(refs, owner) && i < |refs|
    ensures var q := OWNER_REFS + [Index(i)] + u;
            && Look(a, q) == (if Ignored(t.ignored, q) then None else Look(OwnerRef(owner), u))
            && Look(b, q) == (if Ignored(t.ignored, q) then None else Look(ListAt(desired, OWNER_REFS)[i], u))
  {
    var below: Loc := [Index(i)] + u;
    assert OWNER_REFS + [Index(i)] + u == OWNER_REFS + below && below[1..] == u;
    CoveredRefs(desired, d, owner, t, a, b, below);
    RefsAt(desired, owner, below);
  }

  /** Outside the owner's entry nothing changes; the entry itself shows in both forms. */
  lemma RefreshedShows(desired: Doc, d: Doc, owner: Owner, t: Template, a: Json, b: Json, i: nat)
    requires Compared(desired, d, owner, t, a, b) && Covered(t.ensured, OWNER_REFS)
    requires var refs := ListAt(desired, OWNER_REFS); i == IndexOf(refs, owner) && i < |refs|
    ensures ShowsAt(a, OwnerRef(owner), t, OWNER_REFS + [Index(i)])
    ensures ShowsAt(b, ListAt(desired, OWNER_REFS)[i], t, OWNER_REFS + [Index(i)])
    ensures forall q: Loc :: OWNER_REFS <= q && !(OWNER_REFS + [Index(i)] <= q) ==> Look(a, q) == Look(b, q)
  {
    forall u: Loc { EntryShows(desired, d, owner, t, a, b, i, u); }
    forall q: Loc | OWNER_REFS <= q && !(OWNER_REFS + [Index(i)] <= q) ensures Look(a, q) == Look(b, q) {
      OutsideEntry(desired, d, owner, t, a, b, i, q);
    }
  }

  lemma OutsideEntry(desired: Doc, d: Doc, owner: Owner, t: Template, a: Json, b: Json, i: nat, q: Loc)
    requires Compared(desired, d, owner, t, a, b) && Covered(t.ensured, OWNER_REFS)
    requires var refs := ListAt(desired, OWNER_REFS); i == IndexOf(refs, owner) && i < |refs|
    requires OWNER_REFS <= q && !(OWNER_REFS + [Index(i)] <= q)
    ensures Look(a, q) == Look(b, q)
  {
    assert q == OWNER_REFS + q[2..];
    CoveredRefs(desired, d, owner, t, a, b, q[2..]);
    RefsAt(desired, owner, q[2..]);
  }

  lemma RefreshedSame(a: Json, b: Json, x: Json, y: Json, t: Template, i: nat)
    requires ShowsAt(a, x, t, OWNER_REFS + [Index(i)]) && ShowsAt(b, y, t, OWNER_REFS + [Index(i)])
    requires forall q: Loc :: OWNER_REFS <= q && !(OWNER_REFS + [Index(i)] <= q) ==> Look(a, q) == Look(b, q)
    ensures RefsSameAt(a, b, t) <==> SameSeen(x, y, t, OWNER_REFS + [Index(i)])
  {
    var p: Loc := OWNER_REFS + [Index(i)];
    ShownSame(a, b, x, y, t, p);
    if RefsSameAt(a, b, t) {
      forall s: Loc ensures SameAt(a, b, t, p + s) { assert OWNER_REFS <= p + s; }
    }
    if forall s: Loc :: SameAt(a, b, t, p + s) {
      forall q: Loc | OWNER_REFS <= q ensures SameAt(a, b, t, q) { EntryOrOutside(a, b, t, p, q); }
    }
  }

  lemma EntryOrOutside(a: Json, b: Json, t: Template, p: Loc, q: Loc)
    requires forall s: Loc :: SameAt(a, b, t, p + s)
    requires !(p <= q) ==> Look(a, q) == Look(b, q)
    ensures SameAt(a, b, t, q)
  {
    if p <= q {
      assert q == p + q[|p|..];
      assert SameAt(a, b, t, p + q[|p|..]);
    }
  }

  lemma SameSeenSymmetric(x: Json, y: Json, t: Template, p: Loc)
    ensures SameSeen(x, y, t, p) <==> SameSeen(y, x, t, p)
  {
  }

  /** The references before and after, location by location, when the owner has an entry. */
  lemma RefsAt(desired: Doc, owner: Owner, u: Loc)
    requires IndexOf(ListAt(desired, OWNER_REFS), owner) < |ListAt(desired, OWNER_REFS)|
    ensures var refs := ListAt(desired, OWNER_REFS);
            var i := IndexOf(refs, owner);
            && Look(desired, OWNER_REFS + u) == Look(Arr(refs), u)
            && Look(Arr(Upsert(refs, owner)), u) ==
               (if [Index(i)] <= u then Look(OwnerRef(owner), u[1..]) else Look(Arr(refs), u))
            && ([Index(i)] <= u ==> Look(Arr(refs), u) == Look(refs[i], u[1..]))
  {
    var refs := ListAt(desired, OWNER_REFS);
    LookBelow(desired, OWNER_REFS, Arr(refs), u);
    if u != [] {
      EntryAt(refs, u);
      EntryAt(Upsert(refs, owner), u);
    }
  }

  /** The metadata in the two normalised forms, when the references do not show. */
  lemma MetadataSame(desired: Doc, d: Doc, owner: Owner, t: Template, a: Json, b: Json)
    requires Compared(desired, d, owner, t, a, b)
    ensures Look(a, METADATA) != Look(b, METADATA) <==> NewMetadata(desired, t)
    ensures NewMetadata(desired, t) ==>
              MetadataAdded(a, b)
  {
    LookNormalize(d, t.ensured, t.ignored);
    LookNormalize(desired, t.ensured, t.ignored);
    LookStamped(desired, d, owner, METADATA);
    StampSucceeds(desired, owner);
    MetadataAbove(desired, d, owner, t);
    if METADATA in t.ensured {
      assert Covered(t.ensured, METADATA);
    } else {
      assert !Covered(t.ensured, METADATA) by {
        forall e | e in t.ensured ensures !(e <= METADATA) { assert e <= METADATA ==> e == [] || e == METADATA; }
      }
    }
    if NewMetadata(desired, t) {
      forall s: Loc | METADATA <= s ensures Look(b, s) == None { NoMetadata(desired, t, b, s); }
    }
  }

  lemma MetadataAbove(desired: Doc, d: Doc, owner: Owner, t: Template)
    requires WithOwner(desired, owner) == Ok(d)
    ensures Above(d, t.ensured, METADATA) <==> OWNER_REFS in t.ensured || Above(desired, t.ensured, METADATA)
  {
    forall e | e in t.ensured && METADATA < e
      ensures Get(d, e).Some? <==> Get(desired, e).Some? || e == OWNER_REFS
    {
      StampedPresence(desired, d, owner, e);
    }
    assert METADATA < OWNER_REFS;
    StampedPresence(desired, d, owner, OWNER_REFS);
  }

  lemma NoMetadata(desired: Doc, t: Template, b: Json, s: Loc)
    requires [] !in t.ensured && Normalize(desired, t.ensured, t.ignored) == Ok(b)
    requires NewMetadata(desired, t) && METADATA <= s
    ensures Look(b, s) == None
  {
    LookNormalize(desired, t.ensured, t.ignored);
    if METADATA in t.ensured {
      assert Covered(t.ensured, s);
      if Get(desired, s).Some? { GetPrefix(desired, METADATA, s); }
    } else {
      forall e | e in t.ensured && METADATA < e ensures Get(desired, e).None? {}
      if Covered(t.ensured, s) {
        var e :| e in t.ensured && e <= s;
        assert METADATA < e by { assert e <= METADATA ==> e == [] || e == METADATA; }
        if Get(desired, s).Some? { GetPrefix(desired, e, s); }
      }
    }
  }

  /** The comparison of a created object with its desired object, in terms of the desired object. */
  lemma StampSeen(desired: Doc, d: Doc, owner: Owner, t: Template, a: Json, b: Json)
    requires Compared(desired, d, owner, t, a, b)
    ensures SameTyped(a, b, t.blanks) <==> StampHidden(desired, owner, t)
  {
    MetadataSame(desired, d, owner, t, a, b);
    forall q: Loc | OWNER_REFS <= q && !Covered(t.ensured, OWNER_REFS) ensures Look(a, q) == Look(b, q) == None {
      UncoveredRefs(desired, d, owner, t, a, b, q);
    }
    if Covered(t.ensured, OWNER_REFS) {
      RefsSame(desired, d, owner, t, a, b);
    } else {
      assert RefsSameAt(a, b, t);
    }
    forall q: Loc | !(OWNER_REFS <= q) && q != METADATA ensures Look(a, q) == Look(b, q) {
      OutsideStamp(desired, d, owner, t, a, b, q);
    }
    assert Covered(t.ensured, OWNER_REFS) ==> (RefsSameAt(a, b, t) <==> RefsHidden(desired, owner, t));
    OnlyStampDiffers(desired, t, a, b);
  }

  /** If the trees differ in the stamp only, they are the same exactly when neither part of it shows. */
  lemma OnlyStampDiffers(desired: Json, t: Template, a: Json, b: Json)
    requires forall q: Loc :: !(OWNER_REFS <= q) && q != METADATA ==> Look(a, q) == Look(b, q)
    requires Look(a, METADATA) != Look(b, METADATA) <==> NewMetadata(desired, t)
    requires NewMetadata(desired, t) ==> MetadataAdded(a, b)
    ensures SameTyped(a, b, t.blanks) <==>
            RefsSameAt(a, b, t) && (NewMetadata(desired, t) ==> t.blanks(METADATA, ObjectNode))
  {
    if SameTyped(a, b, t.blanks) {
      forall q: Loc ensures SameAt(a, b, t, q) {}
      if NewMetadata(desired, t) {
        assert Look(a, METADATA) == Some(ObjectNode);
        assert SameAt(a, b, t, METADATA) && Look(a, METADATA) != Look(b, METADATA);
        assert IsBlank(t.blanks, METADATA, ObjectNode);
      }
    }
    if RefsSameAt(a, b, t) && (NewMetadata(desired, t) ==> t.blanks(METADATA, ObjectNode)) {
      forall q: Loc ensures Look(a, q) == Look(b, q) || (Hollow(a, t.blanks, q) && Hollow(b, t.blanks, q)) {
        if OWNER_REFS <= q {
          assert SameAt(a, b, t, q);
        } else if q == METADATA && NewMetadata(desired, t) {
          NewMetadataHollow(a, b, t);
        }
      }
    }
  }

  ghost predicate MetadataAdded(a: Json, b: Json) {
    Look(a, METADATA) == Some(ObjectNode) && forall s: Loc :: METADATA <= s ==> Look(b, s) == None
  }

  lemma NewMetadataHollow(a: Json, b: Json, t: Template)
    requires MetadataAdded(a, b) && RefsSameAt(a, b, t) && t.blanks(METADATA, ObjectNode)
    requires forall q: Loc :: !(OWNER_REFS <= q) && q != METADATA ==> Look(a, q) == Look(b, q)
    ensures Hollow(a, t.blanks, METADATA) && Hollow(b, t.blanks, METADATA)
  {
    forall s: Loc | METADATA <= s && Look(a, s).Some? ensures IsBlank(t.blanks, s, Look(a, s).value) {
      if OWNER_REFS <= s {
        assert SameAt(a, b, t, s) && Look(b, s) == None;
      } else {
        assert s == METADATA && IsEmpty(ObjectNode);
      }
    }
  }

  // ----- when a pass settles its object -----

  /** The nulls that a patch from live takes from the normalised desired object. */
  ghost function LostNulls(live: Json, nd: Json, ensured: seq<Path>): iset<Loc> {
    iset q: Loc | Covered(ensured, q) && Lost(live, nd, q)
  }

  /** When one pass settles its object. A created object: the comparison does not show the owner's reference (a
      template of unknown mode may also keep the difference). A written object: the typed object shows no
      stranded parent and, after a patch, none of the lost nulls. A deleted object: it goes at once. */
  ghost predicate SettlesOn(live: Option<Doc>, owner: Owner, t: Template) {
    Decide(live, owner, t).Do? &&
    var desired := t.build(live).value;
    var nd := Normalize(desired, t.ensured, t.ignored);
    match Decide(live, owner, t).change
    case Keep => true
    case Create(d) =>
      nd.Ok? && (StampHidden(desired, owner, t) || (t.op.UnknownOp? && NeverBlocked(d, nd.value, t.ensured)))
    case Update(_) => Unnoticed(desired, t.ensured, t.ignored, iset{}, t.blanks)
    case Patch(_) => Unnoticed(desired, t.ensured, t.ignored, LostNulls(live.value, nd.value, t.ensured), t.blanks)
    case Delete => !HasFinalizers(live.value)
  }

  /** Keeping, for a template whose mode writes. */
  lemma KeepIsSameTyped(live: Doc, desired: Doc, t: Template)
    requires [] !in t.ensured
    ensures Normalize(live, t.ensured, t.ignored).Ok? && Normalize(desired, t.ensured, t.ignored).Ok?
    ensures var nl, nd := Normalize(live, t.ensured, t.ignored).value, Normalize(desired, t.ensured, t.ignored).value;
            && (SameTyped(nl, nd, t.blanks) ==> DecideModify(live, desired, t) == Do(Keep, true))
            && (DecideModify(live, desired, t) == Do(Keep, true) ==>
                  SameTyped(nl, nd, t.blanks) || (t.op.UnknownOp? && ReconcileAll(live, nd, t.ensured).Ok?))
            && (t.op.UnknownOp? && ReconcileAll(live, nd, t.ensured).Ok? ==>
                  DecideModify(live, desired, t) == Do(Keep, true))
  {
    LookNormalize(live, t.ensured, t.ignored);
    LookNormalize(desired, t.ensured, t.ignored);
    EqualTypedIsSameTyped(Normalize(live, t.ensured, t.ignored).value, Normalize(desired, t.ensured, t.ignored).value,
                          t.blanks);
  }

  /** The second pass over a created object. */
  lemma CreatedSettles(d: Doc, desired: Doc, owner: Owner, t: Template)
    requires WithOwner(desired, owner) == Ok(d)
    ensures DecideModify(d, desired, t) == Do(Keep, true) <==>
            var nd := Normalize(desired, t.ensured, t.ignored);
            nd.Ok? && (StampHidden(desired, owner, t) || (t.op.UnknownOp? && NeverBlocked(d, nd.value, t.ensured)))
  {
    LookNormalize(desired, t.ensured, t.ignored);
    if [] !in t.ensured {
      KeepIsSameTyped(d, desired, t);
      var a, b := Normalize(d, t.ensured, t.ignored).value, Normalize(desired, t.ensured, t.ignored).value;
      StampSeen(desired, d, owner, t, a, b);
      LoopSucceeds(d, b, t.ensured);
    }
  }

  /** The second pass over an updated object. */
  lemma UpdatedSettles(live: Doc, desired: Doc, t: Template, nd: Json)
    requires Normalize(desired, t.ensured, t.ignored) == Ok(nd) && ReconcileAll(live, nd, t.ensured).Ok?
    requires !t.op.UnknownOp?
    ensures DecideModify(ReconcileAll(live, nd, t.ensured).value, desired, t) == Do(Keep, true) <==>
            Unnoticed(desired, t.ensured, t.ignored, iset{}, t.blanks)
  {
    LookNormalize(desired, t.ensured, t.ignored);
    WrittenHolds(live, nd, t.ensured);
    HolderSettles(ReconcileAll(live, nd, t.ensured).value, desired, t, nd, iset{});
  }

  /** The second pass over a patched object. */
  lemma PatchedSettles(live: Doc, desired: Doc, t: Template, nd: Json)
    requires Normalize(desired, t.ensured, t.ignored) == Ok(nd) && ReconcileAll(live, nd, t.ensured).Ok?
    requires t.op.PatchOp?
    ensures var r := ReconcileAll(live, nd, t.ensured).value;
            DecideModify(Merge(live, Diff(live.members, r.members)), desired, t) == Do(Keep, true) <==>
            Unnoticed(desired, t.ensured, t.ignored, LostNulls(live, nd, t.ensured), t.blanks)
  {
    LookNormalize(desired, t.ensured, t.ignored);
    PatchedHolds(live, nd, t.ensured);
    var r := ReconcileAll(live, nd, t.ensured).value;
    HolderSettles(Merge(live, Diff(live.members, r.members)), desired, t, nd, LostNulls(live, nd, t.ensured));
  }

  /** A pass that finds the normalised desired object but for some lost nulls. */
  lemma HolderSettles(found: Doc, desired: Doc, t: Template, nd: Json, lost: iset<Loc>)
    requires [] !in t.ensured && Normalize(desired, t.ensured, t.ignored) == Ok(nd) && !t.op.UnknownOp?
    requires HoldsBut(found, nd, t.ensured, lost)
    requires forall q: Loc :: q in lost ==> Covered(t.ensured, q) && Look(nd, q) == Some(Leaf(Null))
    ensures DecideModify(found, desired, t) == Do(Keep, true) <==>
            Unnoticed(desired, t.ensured, t.ignored, lost, t.blanks)
  {
    KeepIsSameTyped(found, desired, t);
    SecondRunSameTyped(desired, t.ensured, t.ignored, found, lost, t.blanks);
  }

  lemma PatchedHolds(live: Doc, nd: Json, ensured: seq<Path>)
    requires nd.Obj? && ReconcileAll(live, nd, ensured).Ok?
    ensures var r := ReconcileAll(live, nd, ensured).value;
            HoldsBut(Merge(live, Diff(live.members, r.members)), nd, ensured, LostNulls(live, nd, ensured))
    ensures forall q: Loc :: q in LostNulls(live, nd, ensured) ==>
              Covered(ensured, q) && Look(nd, q) == Some(Leaf(Null))
  {
    var r := ReconcileAll(live, nd, ensured).value;
    LoopMerges(live, nd, ensured);
    forall q: Loc | Covered(ensured, q)
      ensures Look(Merge(live, Diff(live.members, r.members)), q) ==
              if q in LostNulls(live, nd, ensured) then None else Look(nd, q)
    {
      LookPatched(live, r, q);
      LostByLoop(live, nd, ensured, q);
    }
  }

  /** The object an enabled template leaves needs no further write for the same desired object if and only if
      the pass settles it. */
  lemma OnePass(live: Option<Doc>, owner: Owner, t: Template)
    requires t.enabled && Decide(live, owner, t).Do?
    ensures var after := After(live, Decide(live, owner, t).change);
            && after.Some?
            && (DecideModify(after.value, t.build(live).value, t) == Do(Keep, true) <==> SettlesOn(live, owner, t))
  {
    var desired := t.build(live).value;
    match Decide(live, owner, t).change
    case Keep =>
    case Create(d) => CreatedSettles(d, desired, owner, t);
    case Update(r) => UpdatedSettles(live.value, desired, t, Normalize(desired, t.ensured, t.ignored).value);
    case Patch(p) => PatchedSettles(live.value, desired, t, Normalize(desired, t.ensured, t.ignored).value);
  }

  /** The next pass over the object left writes nothing if and only if this pass settles it; the object of an
      enabled template then exists, that of a disabled one is gone. */
  lemma SecondPass(live: Option<Doc>, owner: Owner, t: Template)
    requires Decide(live, owner, t).Do? && Stable(live, owner, t)
    ensures var after := After(live, Decide(live, owner, t).change);
            && (Decide(after, owner, t) == Do(Keep, t.enabled) <==> SettlesOn(live, owner, t))
            && (SettlesOn(live, owner, t) ==> (t.enabled <==> after.Some?))
  {
    if t.enabled {
      OnePass(live, owner, t);
    } else if live.Some? {
      DeletedIsGoneOrMarked(live.value);
    }
  }

  /** Conditions on the template, and on finalizers where it is disabled, under which every pass settles. */
  lemma SettlesByTemplate(live: Option<Doc>, owner: Owner, t: Template)
    requires Decide(live, owner, t).Do?
    requires t.enabled && live.None? ==> [] !in t.ensured && StampHidden(t.build(live).value, owner, t)
    requires t.enabled && live.Some? ==> Unnoticed(t.build(live).value, t.ensured, t.ignored, iset{}, t.blanks)
    requires t.enabled && t.op.PatchOp? && Normalize(t.build(live).value, t.ensured, t.ignored).Ok? ==>
               NullFree(Normalize(t.build(live).value, t.ensured, t.ignored).value)
    requires !t.enabled && live.Some? ==> !HasFinalizers(live.value)
    ensures SettlesOn(live, owner, t)
  {
    if t.enabled {
      var desired := t.build(live).value;
      LookNormalize(desired, t.ensured, t.ignored);
      if t.op.PatchOp? && live.Some? && [] !in t.ensured {
        NothingLost(live.value, Normalize(desired, t.ensured, t.ignored).value, t.ensured);
      }
    }
  }

  lemma NothingLost(live: Doc, nd: Json, ensured: seq<Path>)
    requires NullFree(nd) && nd != Null
    ensures LostNulls(live, nd, ensured) == iset{}
  {
    forall q: Loc ensures q !in LostNulls(live, nd, ensured) { if q == [] { assert Get(nd, q) == Some(nd); } }
  }

  /** A template that ensures nothing at, above or below the owner references; and one that ensures the metadata
      and ignores the references, for objects built with metadata. */
  lemma UsualStampsAreHidden(desired: Doc, owner: Owner, t: Template)
    ensures (forall e :: e in t.ensured ==> !(e <= OWNER_REFS)) ==> StampHidden(desired, owner, t)
    ensures Ignored(t.ignored, OWNER_REFS) && OWNER_REFS !in t.ensured && Get(desired, METADATA).Some? ==>
              StampHidden(desired, owner, t)
  {
  }

  // ----- inputs on which a pass does not settle -----

  lemma OneKey(live: Doc, nd: Json, k: string)
    ensures ReconcileAll(live, nd, [[Key(k)]]).Ok?
  {
    var e: Path := [Key(k)];
    var ensured: seq<Path> := [e];
    forall i, n: nat | 0 <= i < |ensured| ensures !Blocked(live, nd, ensured[..i], ensured[i], n) {
      assert n < |ensured[i]| ==> ensured[i][..n] == [];
    }
    LoopSucceeds(live, nd, ensured);
  }

  /** In Update mode, a stranded parent that the typed object shows: the next pass sends the written object again,
      unchanged. */
  lemma StrandedIsSentAgain(live: Doc, desired: Doc, t: Template, nd: Json, q: Loc)
    requires t.op.UpdateOp?
    requires Normalize(desired, t.ensured, t.ignored) == Ok(nd) && ReconcileAll(live, nd, t.ensured).Ok?
    requires Stranded(desired, t.ensured, t.ignored, iset{}, q) && !t.blanks(q, ObjectNode)
    ensures var r := ReconcileAll(live, nd, t.ensured).value;
            r.Obj? && DecideModify(r, desired, t) == Do(Update(r), true)
  {
    var r := ReconcileAll(live, nd, t.ensured).value;
    UpdatedSettles(live, desired, t, nd);
    LoopIdempotent(live, nd, t.ensured);
    LookNormalize(desired, t.ensured, t.ignored);
    LookNormalize(r, t.ensured, t.ignored);
  }

  const VALUES: Path := [Key("values")]
  const VALUE_A: Path := [Key("values"), Key("a")]

  function Values(a: Json): Doc {
    Obj(map["values" := Obj(map["a" := a])])
  }

  /** A template in Patch mode for an object whose free-form values are a field of raw JSON. */
  ghost predicate WantsNull(t: Template) {
    && t.enabled && t.op.PatchOp? && t.ensured == [VALUES] && t.ignored == []
    && (forall l: Option<Doc> :: t.build(l) == Ok(Values(Null)))
    && !t.blanks(VALUE_A, Leaf(Null))
  }

  /** The normalised object that such a template wants. */
  ghost predicate WantedNull(t: Template, nd: Json) {
    && Normalize(Values(Null), t.ensured, t.ignored) == Ok(nd) && nd.Obj? && [] !in t.ensured
    && Get(nd, VALUE_A) == Some(Null) && Covered(t.ensured, VALUE_A) && !Ignored(t.ignored, VALUE_A)
  }

  lemma NormalNull(t: Template) returns (nd: Json)
    requires WantsNull(t)
    ensures WantedNull(t, nd)
  {
    GetValues(Null);
    LookNormalize(Values(Null), t.ensured, t.ignored);
    assert VALUES in t.ensured && VALUES <= VALUE_A;
    nd := Normalize(Values(Null), t.ensured, t.ignored).value;
    assert Look(nd, VALUE_A) == Some(Leaf(Null));
  }

  /** As long as values.a is something else than null, or missing, a patch is sent. */
  lemma PatchIsSent(live: Doc, owner: Owner, t: Template, nd: Json)
    requires WantsNull(t) && WantedNull(t, nd) && Get(live, VALUE_A) != Some(Null)
    ensures ReconcileAll(live, nd, t.ensured).Ok?
    ensures var r := ReconcileAll(live, nd, t.ensured).value;
            r.Obj? && Decide(Some(live), owner, t) == Do(Patch(Diff(live.members, r.members)), true)
  {
    NullDiffers(live, t, nd);
    KeepIsSameTyped(live, Values(Null), t);
    OneKey(live, nd, "values");
  }

  lemma NullDiffers(live: Doc, t: Template, nd: Json)
    requires WantsNull(t) && WantedNull(t, nd) && Get(live, VALUE_A) != Some(Null)
    ensures Normalize(live, t.ensured, t.ignored).Ok?
    ensures !SameTyped(Normalize(live, t.ensured, t.ignored).value, nd, t.blanks)
  {
    LookNormalize(live, t.ensured, t.ignored);
    var nl := Normalize(live, t.ensured, t.ignored).value;
    assert Look(nl, VALUE_A) == Look(live, VALUE_A) != Look(nd, VALUE_A);
    assert !Hollow(nd, t.blanks, VALUE_A);
  }

  lemma NullIsDropped(live: Doc, t: Template, nd: Json)
    requires WantedNull(t, nd) && Get(live, VALUE_A) != Some(Null) && ReconcileAll(live, nd, t.ensured).Ok?
    ensures var r := ReconcileAll(live, nd, t.ensured).value;
            r.Obj? && Get(Merge(live, Diff(live.members, r.members)), VALUE_A) == None
  {
    PatchedHolds(live, nd, t.ensured);
    assert VALUE_A in LostNulls(live, nd, t.ensured);
    var r := ReconcileAll(live, nd, t.ensured).value;
    assert Look(Merge(live, Diff(live.members, r.members)), VALUE_A) == None;
  }

  /** The plain claim "a patch stores what was wanted" is false: where values.a is to be null, the patch drops
      the member instead, and the next pass sends a patch again, whatever else stood there. */
  lemma NullIsPatchedAgain(live: Doc, owner: Owner, t: Template) returns (patch: Doc, after: Doc, again: Doc)
    requires WantsNull(t) && Get(live, VALUE_A) != Some(Null)
    ensures Decide(Some(live), owner, t) == Do(Patch(patch), true) && After(Some(live), Patch(patch)) == Some(after)
    ensures Get(after, VALUE_A) == None && Decide(Some(after), owner, t) == Do(Patch(again), true)
  {
    var nd := NormalNull(t);
    PatchIsSent(live, owner, t, nd);
    NullIsDropped(live, t, nd);
    patch := Diff(live.members, ReconcileAll(live, nd, t.ensured).value.members);
    after := Merge(live, patch);
    PatchIsSent(after, owner, t, nd);
    again := Diff(after.members, ReconcileAll(after, nd, t.ensured).value.members);
  }

  lemma GetValues(a: Json)
    ensures Get(Values(a), VALUE_A) == Some(a)
  {
    assert VALUE_A[1..] == [Key("a")] && VALUE_A[1..][1..] == [];
    assert Get(Obj(map["a" := a]), VALUE_A[1..]) == Some(a);
  }

  /** The object of a disabled template that lingers with finalizers is deleted again by every run. */
  lemma LingeringIsDeletedAgain(live: Doc, owner: Owner, t: Template)
    requires !t.enabled && HasFinalizers(live) && forall l: Option<Doc> :: t.build(l).Ok?
    ensures Decide(Some(live), owner, t) == Do(Delete, false)
    ensures var after := After(Some(live), Delete);
            && after.Some? && HasFinalizers(after.value)
            && Decide(after, owner, t) == Do(Delete, false) && After(after, Delete) == after
  {
    DeletedIsGoneOrMarked(live);
    if !IsBeingDeleted(live) {
      assert FINALIZERS[..1] == DELETION[..1] && DELETION[..0] == [];
      GetPrefix(live, FINALIZERS[..1], FINALIZERS);
      SetSucceeds(live, DELETION, Str("now"));
      var marked := Set(live, DELETION, Str("now")).value;
      forall q: Loc | FINALIZERS <= q ensures Look(marked, q) == Look(live, q) {
        LookAfterSet(live, DELETION, Str("now"), q);
      }
      SameGetLooks(marked, live, FINALIZERS);
    }
  }

  const PROTECTED_CLAIM: Doc :=
    Obj(map["metadata" := Obj(map["finalizers" := Arr([Str("kubernetes.io/pvc-protection")])])])

  /** Such an object: a volume claim in use. */
  lemma ProtectedClaimLingers(owner: Owner, t: Template)
    requires !t.enabled && forall l: Option<Doc> :: t.build(l).Ok?
    ensures var first := Decide(Some(PROTECTED_CLAIM), owner, t);
            first == Do(Delete, false) && Decide(After(Some(PROTECTED_CLAIM), Delete), owner, t) == first
  {
    var metadata := Obj(map["finalizers" := Arr([Str("kubernetes.io/pvc-protection")])]);
    assert FINALIZERS[1..] == [Key("finalizers")] && FINALIZERS[1..][1..] == [];
    assert Get(metadata, FINALIZERS[1..]) == Some(Arr([Str("kubernetes.io/pvc-protection")]));
    assert Get(PROTECTED_CLAIM, FINALIZERS) == Get(metadata, FINALIZERS[1..]);
    LingeringIsDeletedAgain(PROTECTED_CLAIM, owner, t);
  }

  /** A template that ensures the owner references of a build that has none: the run after the create takes the
      owner's reference away again. */
  lemma EnsuredRefsAreStripped(desired: Doc, owner: Owner, t: Template)
    requires t.enabled && t.op.UpdateOp? && t.ensured == [OWNER_REFS] && t.ignored == []
    requires Get(desired, OWNER_REFS) == None && Get(desired, METADATA).Some? && Get(desired, METADATA).value.Obj?
    requires forall l: Option<Doc> :: t.build(l) == Ok(desired)
    ensures var first := Decide(None, owner, t);
            && first.Do? && first.change.Create? && IsOwned(first.change.doc, owner)
            && var second := Decide(Some(first.change.doc), owner, t);
               && second.Do? && second.change.Update? && !IsOwned(second.change.doc, owner)
  {
    StampSucceeds(desired, owner);
    var d := WithOwner(desired, owner).value;
    StampedObject(desired, owner);
    assert Decide(None, owner, t) == Do(Create(d), true);
    RefShows(desired, d, owner, t);
    RefsStripped(desired, d, owner, t);
  }

  lemma RefShows(desired: Doc, d: Doc, owner: Owner, t: Template)
    requires t.op.UpdateOp? && t.ensured == [OWNER_REFS] && t.ignored == []
    requires Get(desired, OWNER_REFS) == None && WithOwner(desired, owner) == Ok(d)
    ensures DecideModify(d, desired, t) != Do(Keep, true)
  {
    CreatedSettles(d, desired, owner, t);
    assert OWNER_REFS in t.ensured && Covered(t.ensured, OWNER_REFS) && ListAt(desired, OWNER_REFS) == [];
    assert !RefsHidden(desired, owner, t);
  }

  lemma RefsStripped(desired: Doc, d: Doc, owner: Owner, t: Template)
    requires t.op.UpdateOp? && t.ensured == [OWNER_REFS] && t.ignored == []
    requires Get(desired, OWNER_REFS) == None && DecideModify(d, desired, t) != Do(Keep, true)
    ensures DecideModify(d, desired, t).Do? && DecideModify(d, desired, t).change.Update?
    ensures !IsOwned(DecideModify(d, desired, t).change.doc, owner)
  {
    LookNormalize(desired, t.ensured, t.ignored);
    LookNormalize(d, t.ensured, t.ignored);
    var nd := Normalize(desired, t.ensured, t.ignored).value;
    assert OWNER_REFS in t.ensured && Covered(t.ensured, OWNER_REFS);
    assert Look(nd, OWNER_REFS) == None;
    RefsDeleted(d, nd);
    LoopAgrees(d, nd, t.ensured, OWNER_REFS);
  }

  lemma RefsDeleted(d: Doc, nd: Json)
    requires Get(nd, OWNER_REFS) == None
    ensures ReconcileAll(d, nd, [OWNER_REFS]).Ok?
  {
    var ensured: seq<Path> := [OWNER_REFS];
    assert ensured[..|ensured| - 1] == [];
    assert ReconcileAll(d, nd, ensured[..|ensured| - 1]) == Ok(d);
  }
}
