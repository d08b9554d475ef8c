/** The property loop as the program runs it: in place, on maps in memory. A Set stores a
    reference to a sub-map of the desired tree inside the live tree, so from then on the two
    trees share memory. This module proves that the sharing is harmless: the in-place loop
    computes the same live tree as the loop on values and never changes the desired tree. */
module SharedTrees {
  import opened JsonTree
  import opened Engine

  /** A map[string]any. */
  class Node {
    var members: map<string, Ref>

    constructor ()
      ensures members == map[]
    {
      members := map[];
    }
  }

  /** A member's value: another map, or anything else. No key path enters an array, so arrays are plain values. */
  datatype Ref = Ptr(node: Node) | Plain(v: Json)

  type Memory = map<Node, map<string, Ref>>

  ghost function Snapshot(nodes: set<Node>): Memory
    reads nodes
  {
    map n | n in nodes :: n.members
  }

  ghost function Walk(h: Memory, r: Ref, p: Path): Option<Ref>
    decreases |p|
  {
    if p == [] then Some(r)
    else if r.Ptr? && r.node in h && p[0].name in h[r.node] then Walk(h, h[r.node][p[0].name], p[1..])
    else None
  }

  // ----- which tree a reference denotes -----

  datatype View = Nothing | Map | Other(v: Json)

  ghost function ViewMemory(h: Memory, r: Ref, p: Path): View {
    match Walk(h, r, p)
    case None => Nothing
    case Some(Ptr(_)) => Map
    case Some(Plain(v)) => Other(v)
  }

  ghost function ViewTree(t: Json, p: Path): View {
    match Get(t, p)
    case None => Nothing
    case Some(x) => if x.Obj? then Map else Other(x)
  }

  ghost predicate Denotes(h: Memory, r: Ref, t: Json) {
    forall p: Path :: ViewMemory(h, r, p) == ViewTree(t, p)
  }

  lemma {:induction false} WalkConcat(h: Memory, r: Ref, p: Path, q: Path)
    ensures Walk(h, r, p + q) == match Walk(h, r, p) case None => None case Some(x) => Walk(h, x, q)
    decreases |p|
  {
    if p == [] {
      assert p + q == q;
    } else {
      assert (p + q)[0] == p[0] && (p + q)[1..] == p[1..] + q;
      if r.Ptr? && r.node in h && p[0].name in h[r.node] {
        WalkConcat(h, h[r.node][p[0].name], p[1..], q);
      }
    }
  }

  lemma DenotesBelow(h: Memory, r: Ref, t: Json, p: Path)
    requires Denotes(h, r, t)
    ensures Walk(h, r, p).Some? <==> Get(t, p).Some?
    ensures Walk(h, r, p).Some? ==> Denotes(h, Walk(h, r, p).value, Get(t, p).value)
  {
    assert ViewMemory(h, r, p) == ViewTree(t, p);
    if Walk(h, r, p).Some? {
      forall q: Path ensures ViewMemory(h, Walk(h, r, p).value, q) == ViewTree(Get(t, p).value, q) {
        WalkConcat(h, r, p, q);
        GetConcat(t, p, q);
        assert ViewMemory(h, r, p + q) == ViewTree(t, p + q);
      }
    }
  }

  // ----- what Set and Del do, seen on key paths -----

  lemma ViewAfterSet(t: Json, p: Path, v: Json, q: Path)
    requires Set(t, p, v).Ok?
    ensures ViewTree(Set(t, p, v).value, q) ==
            if p <= q then ViewTree(v, q[|p|..]) else if q <= p then Map else ViewTree(t, q)
  {
    var t' := Set(t, p, v).value;
    LookAfterSet(t, p, v, q);
    if p <= q {
      GetAfterSet(t, p, v);
      GetConcat(t', p, q[|p|..]);
      assert p + q[|p|..] == q;
    } else if !(q <= p) {
      forall s: Loc | q <= s ensures Look(t', s) == Look(t, s) { LookAfterSet(t, p, v, s); }
      SameGetLooks(t', t, q);
    }
  }

  lemma ViewAfterDel(t: Json, p: Path, q: Path)
    requires p != [] && Get(t, p).Some?
    ensures ViewTree(Del(t, Literal(p)), q) == if p <= q then Nothing else ViewTree(t, q)
  {
    var t' := Del(t, Literal(p));
    LookAfterDel(t, Literal(p), q);
    if q < p {
      GetPrefix(t, q, p);
      assert Look(t', q) == Some(ObjectNode);
    } else if !(p <= q) {
      forall s: Loc | q <= s ensures Look(t', s) == Look(t, s) { LookAfterDel(t, Literal(p), s); }
      SameGetLooks(t', t, q);
    }
  }

  // ----- the shape of memory during the loop -----

  /** own holds the maps of the live tree, given those of the desired tree. The live tree reaches its own
      maps by one path only, and reaches given maps only below properties already processed, by the path
      by which the desired tree reaches them. */
  ghost predicate Shape(h: Memory, live: Node, desired: Node, own: set<Node>, given: set<Node>, done: seq<Path>) {
    && live in own && desired in given && own !! given && h.Keys == own + given
    && Closed(h, own + given) && Closed(h, given)
    && (forall p: Path, q: Path, n :: n in own && Reaches(h, live, p, n) && Reaches(h, live, q, n) ==> p == q)
    && (forall p: Path, n :: n in given && Reaches(h, live, p, n) ==> Covered(done, p) && Reaches(h, desired, p, n))
  }

  ghost predicate Reaches(h: Memory, live: Node, p: Path, n: Node) {
    Walk(h, Ptr(live), p) == Some(Ptr(n))
  }

  ghost predicate Closed(h: Memory, nodes: set<Node>) {
    && nodes <= h.Keys
    && forall n, k :: n in nodes && k in h[n] && h[n][k].Ptr? ==> h[n][k].node in nodes
  }

  lemma {:induction false} WalkInside(h: Memory, nodes: set<Node>, r: Ref, p: Path)
    requires Closed(h, nodes) && (r.Ptr? ==> r.node in nodes)
    ensures Walk(h, r, p).Some? && Walk(h, r, p).value.Ptr? ==> Walk(h, r, p).value.node in nodes
    decreases |p|
  {
    if p != [] && r.Ptr? && p[0].name in h[r.node] {
      WalkInside(h, nodes, h[r.node][p[0].name], p[1..]);
    }
  }

  /** A walk that never passes through x does not notice a change of x. */
  lemma {:induction false} WalkAvoids(h: Memory, x: Node, m: map<string, Ref>, r: Ref, q: Path)
    requires forall i :: 0 <= i < |q| ==> Walk(h, r, q[..i]) != Some(Ptr(x))
    ensures Walk(h[x := m], r, q) == Walk(h, r, q)
    decreases |q|
  {
    if q != [] {
      assert q[..0] == [];
      assert Walk(h, r, q[..0]) == Some(r);
      if r.Ptr? && r.node in h && q[0].name in h[r.node] {
        var next := h[r.node][q[0].name];
        forall i | 0 <= i < |q| - 1 ensures Walk(h, next, q[1..][..i]) != Some(Ptr(x)) {
          assert q[..i + 1][0] == q[0] && q[..i + 1][1..] == q[1..][..i];
          assert Walk(h, r, q[..i + 1]) != Some(Ptr(x));
        }
        WalkAvoids(h, x, m, next, q[1..]);
      }
    }
  }

  /** An own map is met on the way to q only if its own path is a proper prefix of q. */
  lemma OnTheWay(h: Memory, live: Node, desired: Node, own: set<Node>, given: set<Node>, done: seq<Path>,
                 x: Node, p: Path, q: Path)
    requires Shape(h, live, desired, own, given, done)
    requires Reaches(h, live, p, x) && x in own
    requires !(p < q)
    ensures forall i :: 0 <= i < |q| ==> Walk(h, Ptr(live), q[..i]) != Some(Ptr(x))
  {
    forall i | 0 <= i < |q| ensures Walk(h, Ptr(live), q[..i]) != Some(Ptr(x)) {
      var before: Path := q[..i];
      assert before < q;
      assert Reaches(h, live, before, x) ==> before == p;
    }
  }

  lemma OnTheWayBelow(h: Memory, live: Node, desired: Node, own: set<Node>, given: set<Node>, done: seq<Path>,
                      x: Node, p: Path, j: string, rest: Path)
    requires Shape(h, live, desired, own, given, done)
    requires Reaches(h, live, p, x) && x in own && j in h[x]
    ensures forall i :: 0 <= i < |rest| ==> Walk(h, h[x][j], rest[..i]) != Some(Ptr(x))
  {
    forall i | 0 <= i < |rest| ensures Walk(h, h[x][j], rest[..i]) != Some(Ptr(x)) {
      var below: Path := [Key(j)] + rest[..i];
      var longer: Path := p + below;
      WalkConcat(h, Ptr(live), p, below);
      assert below[1..] == rest[..i];
      assert Walk(h, Ptr(x), below) == Walk(h, h[x][j], rest[..i]);
      assert Reaches(h, live, longer, x) ==> longer == p;
      assert |longer| > |p|;
    }
  }

  /** Changing one member k of an own map at path p changes exactly the walks through p + [k]. */
  lemma WalkAfterWrite(h: Memory, live: Node, desired: Node, own: set<Node>, given: set<Node>, done: seq<Path>,
                       x: Node, p: Path, k: string, m: map<string, Ref>, q: Path)
    requires Shape(h, live, desired, own, given, done)
    requires Reaches(h, live, p, x) && x in own
    requires forall j :: j != k ==> (j in m <==> j in h[x]) && (j in m ==> m[j] == h[x][j])
    requires k in m && m[k].Ptr? ==> m[k].node in given || (m[k].node in h && m[k].node != x && h[m[k].node] == map[])
    ensures Walk(h[x := m], Ptr(live), q) ==
            if p + [Key(k)] <= q
            then if k in m then Walk(h, m[k], q[|p| + 1..]) else None
            else Walk(h, Ptr(live), q)
  {
    if p < q {
      var rest: Path := q[|p| + 1..];
      var tail: Path := [q[|p|]] + rest;
      assert q == p + tail && tail[1..] == rest;
      OnTheWay(h, live, desired, own, given, done, x, p, p);
      WalkAvoids(h, x, m, Ptr(live), p);
      WalkConcat(h[x := m], Ptr(live), p, tail);
      WalkConcat(h, Ptr(live), p, tail);
      var j := q[|p|].name;
      if j in m {
        if j == k {
          AvoidTarget(h, given, x, m[k], rest);
        } else {
          OnTheWayBelow(h, live, desired, own, given, done, x, p, j, rest);
        }
        WalkAvoids(h, x, m, m[j], rest);
      }
    } else {
      OnTheWay(h, live, desired, own, given, done, x, p, q);
      WalkAvoids(h, x, m, Ptr(live), q);
    }
  }

  lemma AvoidTarget(h: Memory, given: set<Node>, x: Node, r: Ref, q: Path)
    requires Closed(h, given) && x !in given
    requires r.Ptr? ==> r.node in given || (r.node in h && r.node != x && h[r.node] == map[])
    ensures forall i :: 0 <= i < |q| ==> Walk(h, r, q[..i]) != Some(Ptr(x))
  {
    forall i | 0 <= i < |q| ensures Walk(h, r, q[..i]) != Some(Ptr(x)) {
      if r.Plain? || r.node in given {
        WalkInside(h, given, r, q[..i]);
      }
    }
  }

  /** The new member k of an own map: nothing, a plain value, a given map, or an empty map nothing refers to. */
  ghost predicate Storable(h: Memory, live: Node, own: set<Node>, given: set<Node>, m: map<string, Ref>, k: string) {
    k in m && m[k].Ptr? ==>
      || m[k].node in given
      || (m[k].node in own && m[k].node in h && m[k].node != live && h[m[k].node] == map[]
          && forall q: Path :: !Reaches(h, live, q, m[k].node))
  }

  /** What is reached through the written member. */
  lemma ReachesThrough(h: Memory, live: Node, desired: Node, own: set<Node>, given: set<Node>, done: seq<Path>,
                       x: Node, p: Path, k: string, m: map<string, Ref>, q: Path, n: Node)
    requires Shape(h, live, desired, own, given, done) && Reaches(h, live, p, x) && x in own
    requires forall j :: j != k ==> (j in m <==> j in h[x]) && (j in m ==> m[j] == h[x][j])
    requires Storable(h, live, own, given, m, k)
    requires Reaches(h[x := m], live, q, n)
    ensures if p + [Key(k)] <= q then k in m && (n in given || (m[k] == Ptr(n) && q == p + [Key(k)]))
            else Reaches(h, live, q, n)
    ensures p + [Key(k)] <= q && n in given ==> m[k].Ptr? && m[k].node in given
  {
    assert Reaches(h, live, p, x);
    WalkAfterWrite(h, live, desired, own, given, done, x, p, k, m, q);
    if p + [Key(k)] <= q {
      if m[k].Plain? || m[k].node in given { WalkInside(h, given, m[k], q[|p| + 1..]); }
      if q[|p| + 1..] == [] { assert q == p + [Key(k)]; }
    }
  }

  /** Below a stored reference of the desired tree both trees reach the same. */
  lemma SharedInPlace(h: Memory, live: Node, desired: Node, own: set<Node>, given: set<Node>, done: seq<Path>,
                      x: Node, p: Path, k: string, m: map<string, Ref>, q: Path)
    requires Shape(h, live, desired, own, given, done) && Reaches(h, live, p, x) && x in own
    requires forall j :: j != k ==> (j in m <==> j in h[x]) && (j in m ==> m[j] == h[x][j])
    requires k in m && m[k].Ptr? && m[k].node in given && Walk(h, Ptr(desired), p + [Key(k)]) == Some(m[k])
    requires p + [Key(k)] <= q
    ensures Walk(h[x := m], Ptr(live), q) == Walk(h, Ptr(desired), q)
  {
    var rest: Path := q[|p| + 1..];
    WalkAfterWrite(h, live, desired, own, given, done, x, p, k, m, q);
    assert q == p + [Key(k)] + rest;
    WalkConcat(h, Ptr(desired), p + [Key(k)], rest);
  }

  /** Such a write keeps the shape. */
  lemma ShapeAfterWrite(h: Memory, live: Node, desired: Node, own: set<Node>, given: set<Node>, done: seq<Path>,
                        x: Node, p: Path, k: string, m: map<string, Ref>, done': seq<Path>)
    requires Shape(h, live, desired, own, given, done) && Reaches(h, live, p, x) && x in own
    requires forall j :: j != k ==> (j in m <==> j in h[x]) && (j in m ==> m[j] == h[x][j])
    requires Storable(h, live, own, given, m, k)
    requires forall e :: e in done ==> e in done'
    requires k in m && m[k].Ptr? && m[k].node in given ==>
               p + [Key(k)] in done' && Walk(h, Ptr(desired), p + [Key(k)]) == Some(m[k])
    ensures Shape(h[x := m], live, desired, own, given, done')
  {
    var h' := h[x := m];
    forall q: Path, n | n in given && Reaches(h', live, q, n) ensures Covered(done', q) && Reaches(h', desired, q, n) {
      ReachesThrough(h, live, desired, own, given, done, x, p, k, m, q, n);
      GivenAfterWrite(h, live, desired, own, given, done, x, p, k, m, done', q, n);
    }
    forall p1: Path, q1: Path, n | n in own && Reaches(h', live, p1, n) && Reaches(h', live, q1, n)
      ensures p1 == q1
    {
      ReachesThrough(h, live, desired, own, given, done, x, p, k, m, p1, n);
      ReachesThrough(h, live, desired, own, given, done, x, p, k, m, q1, n);
    }
  }

  /** A given map that the live tree reaches after the write. */
  lemma GivenAfterWrite(h: Memory, live: Node, desired: Node, own: set<Node>, given: set<Node>, done: seq<Path>,
                        x: Node, p: Path, k: string, m: map<string, Ref>, done': seq<Path>, q: Path, n: Node)
    requires Shape(h, live, desired, own, given, done) && Reaches(h, live, p, x) && x in own
    requires forall j :: j != k ==> (j in m <==> j in h[x]) && (j in m ==> m[j] == h[x][j])
    requires forall e :: e in done ==> e in done'
    requires n in given && Reaches(h[x := m], live, q, n)
    requires if p + [Key(k)] <= q
             then k in m && m[k].Ptr? && m[k].node in given && p + [Key(k)] in done'
                  && Walk(h, Ptr(desired), p + [Key(k)]) == Some(m[k])
             else Reaches(h, live, q, n)
    ensures Covered(done', q) && Reaches(h[x := m], desired, q, n)
  {
    SideStep(h, given, x, m, Ptr(desired), q);
    if p + [Key(k)] <= q {
      assert p + [Key(k)] in done';
      SharedInPlace(h, live, desired, own, given, done, x, p, k, m, q);
    } else {
      assert Covered(done, q);
      var e :| e in done && e <= q;
      assert e in done';
    }
  }

  /** A new empty map that nothing refers to yet. */
  lemma ShapeWithFresh(h: Memory, live: Node, desired: Node, own: set<Node>, given: set<Node>, done: seq<Path>, y: Node)
    requires Shape(h, live, desired, own, given, done) && y !in h
    ensures Shape(h[y := map[]], live, desired, own + {y}, given, done)
    ensures forall q: Path :: Walk(h[y := map[]], Ptr(live), q) == Walk(h, Ptr(live), q) && !Reaches(h, live, q, y)
    ensures SameGiven(h[y := map[]], h, given)
  {
    var h' := h[y := map[]];
    forall q: Path ensures Walk(h', Ptr(live), q) == Walk(h, Ptr(live), q) && !Reaches(h, live, q, y) {
      forall i | 0 <= i <= |q| ensures Walk(h, Ptr(live), q[..i]) != Some(Ptr(y)) {
        WalkInside(h, own + given, Ptr(live), q[..i]);
      }
      assert q[..|q|] == q;
      WalkAvoids(h, y, map[], Ptr(live), q);
    }
    forall n, q: Path | n in given ensures Walk(h', Ptr(n), q) == Walk(h, Ptr(n), q) {
      forall i | 0 <= i < |q| ensures Walk(h, Ptr(n), q[..i]) != Some(Ptr(y)) { WalkInside(h, given, Ptr(n), q[..i]); }
      WalkAvoids(h, y, map[], Ptr(n), q);
    }
    forall p: Path, q: Path, n | n in own + {y} && Reaches(h', live, p, n) && Reaches(h', live, q, n)
      ensures p == q
    {
      assert Reaches(h, live, p, n) && Reaches(h, live, q, n);
    }
    forall p: Path, n | n in given && Reaches(h', live, p, n) ensures Covered(done, p) && Reaches(h', desired, p, n) {
      assert Reaches(h, live, p, n);
      assert Walk(h', Ptr(desired), p) == Walk(h, Ptr(desired), p);
    }
  }

  // ----- the operations in place -----

  /** jp's Get for a key path. */
  method FindRef(root: Ref, p: Path, ghost nodes: set<Node>) returns (r: Option<Ref>)
    requires root.Ptr? ==> root.node in nodes
    requires Closed(Snapshot(nodes), nodes)
    ensures r == Walk(Snapshot(nodes), root, p)
  {
    var cur := root;
    for i := 0 to |p|
      invariant cur.Ptr? ==> cur.node in nodes
      invariant Walk(Snapshot(nodes), root, p) == Walk(Snapshot(nodes), cur, p[i..])
    {
      if cur.Plain? || p[i].name !in cur.node.members {
        return None;
      }
      assert p[i..][1..] == p[i + 1..];
      cur := cur.node.members[p[i].name];
    }
    return Some(cur);
  }

  /** Structural equality of two values in memory. */
  method DeepEqual(a: Ref, b: Ref, ghost ta: Json, ghost tb: Json, ghost nodes: set<Node>) returns (eq: bool)
    requires Closed(Snapshot(nodes), nodes)
    requires (a.Ptr? ==> a.node in nodes) && (b.Ptr? ==> b.node in nodes)
    requires Denotes(Snapshot(nodes), a, ta) && Denotes(Snapshot(nodes), b, tb)
    ensures eq == (ta == tb)
    decreases ta
  {
    ghost var h := Snapshot(nodes);
    RootView(h, a, ta);
    RootView(h, b, tb);
    if a.Plain? || b.Plain? {
      return a == b;
    }
    MembersView(h, a, ta);
    MembersView(h, b, tb);
    if a.node.members.Keys != b.node.members.Keys {
      return false;
    }
    var todo := a.node.members.Keys;
    while todo != {}
      invariant todo <= a.node.members.Keys
      invariant forall k :: k in a.node.members.Keys - todo ==> ta.members[k] == tb.members[k]
      decreases todo
    {
      var k :| k in todo;
      var same := DeepEqual(a.node.members[k], b.node.members[k], ta.members[k], tb.members[k], nodes);
      if !same {
        return false;
      }
      todo := todo - {k};
    }
    assert ta.members == tb.members;
    return true;
  }

  lemma RootView(h: Memory, r: Ref, t: Json)
    requires Denotes(h, r, t)
    ensures r.Ptr? <==> t.Obj?
    ensures r.Plain? ==> r.v == t
  {
    assert ViewMemory(h, r, []) == ViewTree(t, []);
  }

  lemma MembersView(h: Memory, r: Ref, t: Json)
    requires Denotes(h, r, t) && r.Ptr? && r.node in h
    ensures t.Obj? && t.members.Keys == h[r.node].Keys
    ensures forall k :: k in t.members ==> Denotes(h, h[r.node][k], t.members[k])
  {
    RootView(h, r, t);
    forall k ensures k in t.members <==> k in h[r.node] {
      assert [Key(k)][1..] == [];
      assert ViewMemory(h, r, [Key(k)]) == ViewTree(t, [Key(k)]);
      assert Get(t, [Key(k)]).Some? <==> k in t.members;
      assert Walk(h, r, [Key(k)]).Some? <==> k in h[r.node];
    }
    forall k | k in t.members ensures Denotes(h, h[r.node][k], t.members[k]) {
      assert [Key(k)][1..] == [];
      DenotesBelow(h, r, t, [Key(k)]);
    }
  }

  /** No map of the desired tree lies on the way to p. */
  ghost predicate OwnWay(h: Memory, live: Node, own: set<Node>, p: Path) {
    forall i :: 0 <= i < |p| ==>
      var w := Walk(h, Ptr(live), p[..i]);
      w.Some? && w.value.Ptr? ==> w.value.node in own
  }

  /** Everything present at a proper parent of p is a map. */
  ghost predicate FollowsObjects(h: Memory, live: Node, p: Path) {
    forall i :: 0 <= i < |p| ==> !ViewMemory(h, Ptr(live), p[..i]).Other?
  }

  ghost predicate SameGiven(h: Memory, h0: Memory, given: set<Node>) {
    forall n, q: Path :: n in given ==> Walk(h, Ptr(n), q) == Walk(h0, Ptr(n), q)
  }

  /** Set has followed or created the parents p[..i] and stands at cur. */
  ghost predicate Prepared(h: Memory, h0: Memory, live: Node, desired: Node, own: set<Node>, given: set<Node>,
                           done: seq<Path>, p: Path, i: nat, cur: Node)
  {
    && i < |p| && cur in own
    && Shape(h, live, desired, own, given, done)
    && Reaches(h, live, p[..i], cur)
    && (forall q: Path :: ViewMemory(h, Ptr(live), q) == if q <= p[..i] then Map else ViewMemory(h0, Ptr(live), q))
    && (forall j :: 0 <= j <= i ==> !ViewMemory(h0, Ptr(live), p[..j]).Other?)
    && OwnWay(h, live, own, p)
    && SameGiven(h, h0, given)
  }

  /** What stands at the next member. */
  lemma NextMember(h: Memory, h0: Memory, live: Node, desired: Node, own: set<Node>, given: set<Node>, done: seq<Path>,
                   p: Path, i: nat, cur: Node)
    requires Prepared(h, h0, live, desired, own, given, done, p, i, cur) && i + 1 < |p|
    ensures var k := p[i].name;
            if k !in h[cur] then ViewMemory(h0, Ptr(live), p[..i + 1]) == Nothing
            else if h[cur][k].Plain? then !FollowsObjects(h0, live, p)
            else Prepared(h, h0, live, desired, own, given, done, p, i + 1, h[cur][k].node)
  {
    var k := p[i].name;
    var next: Path := p[..i + 1];
    assert next == p[..i] + [p[i]] && [p[i]][1..] == [];
    WalkConcat(h, Ptr(live), p[..i], [p[i]]);
    assert !(next <= p[..i]);
    if k in h[cur] && h[cur][k].Ptr? {
      assert ViewMemory(h, Ptr(live), next) == Map;
      forall q: Path ensures ViewMemory(h, Ptr(live), q) == if q <= next then Map else ViewMemory(h0, Ptr(live), q) {
        if q <= next && !(q <= p[..i]) { assert q == next; }
      }
      assert Walk(h, Ptr(live), p[..i + 1]).Some?;
    }
    if k in h[cur] && h[cur][k].Plain? {
      assert ViewMemory(h0, Ptr(live), p[..i + 1]).Other?;
    }
  }

  /** Nothing is below a missing member. */
  lemma MissingBelow(h: Memory, live: Node, p: Path, x: Node, k: string, q: Path)
    requires Reaches(h, live, p, x) && x in h && k !in h[x]
    ensures p + [Key(k)] <= q ==> Walk(h, Ptr(live), q) == None
  {
    if p + [Key(k)] <= q {
      var tail: Path := q[|p|..];
      assert q == p + tail && tail[0] == Key(k);
      WalkConcat(h, Ptr(live), p, tail);
    }
  }

  /** An empty map as a new member of an own map. */
  lemma GrowWalk(h: Memory, live: Node, desired: Node, own: set<Node>, given: set<Node>, done: seq<Path>,
                 child: Node, x: Node, p: Path, k: string, q: Path)
    requires Shape(h, live, desired, own, given, done) && child !in h
    requires x in own && Reaches(h, live, p, x) && k !in h[x]
    ensures var h' := h[child := map[]][x := h[x][k := Ptr(child)]];
            Walk(h', Ptr(live), q) == if q == p + [Key(k)] then Some(Ptr(child)) else Walk(h, Ptr(live), q)
    ensures p + [Key(k)] <= q ==> Walk(h, Ptr(live), q) == None
  {
    ShapeWithFresh(h, live, desired, own, given, done, child);
    MissingBelow(h, live, p, x, k, q);
    assert Walk(h[child := map[]], Ptr(live), p) == Walk(h, Ptr(live), p);
    WalkAfterWrite(h[child := map[]], live, desired, own + {child}, given, done, x, p, k, h[x][k := Ptr(child)], q);
    if p + [Key(k)] <= q {
      if q == p + [Key(k)] { assert q[|p| + 1..] == []; } else { assert q[|p| + 1..] != []; }
    }
  }

  /** A missing parent is created: an empty map at p[..i + 1]. */
  lemma Grow(h: Memory, h0: Memory, live: Node, desired: Node, own: set<Node>, given: set<Node>, done: seq<Path>,
             child: Node, cur: Node, p: Path, i: nat)
    requires Prepared(h, h0, live, desired, own, given, done, p, i, cur) && i + 1 < |p|
    requires child !in h && p[i].name !in h[cur]
    ensures var h' := h[child := map[]][cur := h[cur][p[i].name := Ptr(child)]];
            Prepared(h', h0, live, desired, own + {child}, given, done, p, i + 1, child)
  {
    NextMember(h, h0, live, desired, own, given, done, p, i, cur);
    var k := p[i].name;
    var next: Path := p[..i + 1];
    var h1 := h[child := map[]];
    var m := h[cur][k := Ptr(child)];
    var h' := h1[cur := m];
    ShapeWithFresh(h, live, desired, own, given, done, child);
    forall q: Path ensures !Reaches(h1, live, q, child) { assert !Reaches(h, live, q, child); }
    assert Reaches(h1, live, p[..i], cur) && p[..i] + [Key(k)] == next;
    ShapeAfterWrite(h1, live, desired, own + {child}, given, done, cur, p[..i], k, m, done);
    forall q: Path
      ensures Walk(h', Ptr(live), q) == if q == next then Some(Ptr(child)) else Walk(h, Ptr(live), q)
      ensures next <= q ==> Walk(h, Ptr(live), q) == None
    {
      GrowWalk(h, live, desired, own, given, done, child, cur, p[..i], k, q);
    }
    forall q: Path ensures ViewMemory(h', Ptr(live), q) == if q <= next then Map else ViewMemory(h0, Ptr(live), q) {
      assert ViewMemory(h, Ptr(live), q) == if q <= p[..i] then Map else ViewMemory(h0, Ptr(live), q);
      if q <= next && !(q <= p[..i]) { assert q == next; }
    }
    forall n, q: Path | n in given ensures Walk(h', Ptr(n), q) == Walk(h0, Ptr(n), q) {
      SideStep(h1, given, cur, m, Ptr(n), q);
    }
  }

  /** Walks from the desired tree do not notice a change of an own map. */
  lemma SideStep(h: Memory, given: set<Node>, x: Node, m: map<string, Ref>, r: Ref, q: Path)
    requires Closed(h, given) && x !in given && (r.Ptr? ==> r.node in given)
    ensures Walk(h[x := m], r, q) == Walk(h, r, q)
  {
    AvoidTarget(h, given, x, r, q);
    WalkAvoids(h, x, m, r, q);
  }

  /** The state a successful Set leaves behind. */
  ghost predicate Stored(h: Memory, h0: Memory, live: Node, desired: Node, own: set<Node>, given: set<Node>,
                         done: seq<Path>, p: Path, v: Ref)
  {
    && Shape(h, live, desired, own, given, done + [p])
    && (forall q: Path :: ViewMemory(h, Ptr(live), q) ==
                          if p <= q then ViewMemory(h0, v, q[|p|..])
                          else if q <= p then Map
                          else ViewMemory(h0, Ptr(live), q))
    && SameGiven(h, h0, given)
  }

  lemma Start(h: Memory, live: Node, desired: Node, own: set<Node>, given: set<Node>, done: seq<Path>, p: Path)
    requires p != [] && Shape(h, live, desired, own, given, done) && OwnWay(h, live, own, p)
    ensures Prepared(h, h, live, desired, own, given, done, p, 0, live)
  {
  }

  /** The last step: the reference v is stored in the parent of p. */
  lemma Store(h: Memory, h0: Memory, live: Node, desired: Node, own: set<Node>, given: set<Node>, done: seq<Path>,
              p: Path, cur: Node, v: Ref)
    requires p != [] && Prepared(h, h0, live, desired, own, given, done, p, |p| - 1, cur)
    requires v.Ptr? ==> v.node in given && Walk(h0, Ptr(desired), p) == Some(v)
    ensures var h' := h[cur := h[cur][p[|p| - 1].name := v]];
            Stored(h', h0, live, desired, own, given, done, p, v)
    ensures FollowsObjects(h0, live, p)
  {
    var parent: Path := p[..|p| - 1];
    var k := p[|p| - 1].name;
    var m := h[cur][k := v];
    assert p == parent + [Key(k)];
    ShapeAfterWrite(h, live, desired, own, given, done, cur, parent, k, m, done + [p]);
    forall q: Path
      ensures ViewMemory(h[cur := m], Ptr(live), q) ==
              if p <= q then ViewMemory(h0, v, q[|p|..])
              else if q <= p then Map
              else ViewMemory(h0, Ptr(live), q)
    {
      WalkAfterWrite(h, live, desired, own, given, done, cur, parent, k, m, q);
      if p <= q {
        assert Walk(h, v, q[|p|..]) == Walk(h0, v, q[|p|..]);
      } else {
        assert q <= p <==> q <= parent;
        assert ViewMemory(h, Ptr(live), q) == if q <= parent then Map else ViewMemory(h0, Ptr(live), q);
      }
    }
    forall n, q: Path | n in given ensures Walk(h[cur := m], Ptr(n), q) == Walk(h0, Ptr(n), q) {
      SideStep(h, given, cur, m, Ptr(n), q);
    }
  }

  /** One parent further: follow the member if it is there, create it if it is missing. */
  method FollowOrCreate(live: Node, p: Path, i: nat, cur: Node, ghost h0: Memory,
                        ghost desired: Node, ghost own: set<Node>, ghost given: set<Node>, ghost done: seq<Path>)
    returns (ok: bool, next: Node, ghost own': set<Node>)
    requires i + 1 < |p| && own !! given
    requires Prepared(Snapshot(own + given), h0, live, desired, own, given, done, p, i, cur)
    modifies own
    ensures own <= own' && fresh(own' - own)
    ensures if ok then Prepared(Snapshot(own' + given), h0, live, desired, own', given, done, p, i + 1, next)
            else !FollowsObjects(h0, live, p)
  {
    ghost var h := Snapshot(own + given);
    NextMember(h, h0, live, desired, own, given, done, p, i, cur);
    if p[i].name in cur.members {
      if cur.members[p[i].name].Plain? {
        return false, cur, own;
      }
      return true, cur.members[p[i].name].node, own;
    }
    next, own' := CreateChild(cur, p[i].name, own, given);
    Grow(h, h0, live, desired, own, given, done, next, cur, p, i);
    ok := true;
  }

  /** A new empty map as member k. */
  method CreateChild(cur: Node, k: string, ghost own: set<Node>, ghost given: set<Node>)
    returns (child: Node, ghost own': set<Node>)
    requires cur in own && own !! given
    modifies cur
    ensures fresh(child) && own' == own + {child}
    ensures var h := old(Snapshot(own + given));
            child !in h && Snapshot(own' + given) == h[child := map[]][cur := h[cur][k := Ptr(child)]]
  {
    ghost var h := Snapshot(own + given);
    child := new Node();
    assert child !in h.Keys;
    cur.members := cur.members[k := Ptr(child)];
    own' := own + {child};
    assert Snapshot(own' + given) == h[child := map[]][cur := h[cur][k := Ptr(child)]];
  }

  /** Follows the parents of p, creating the missing ones, up to the map that holds p's last member. */
  method EnsureParents(live: Node, p: Path, ghost desired: Node, ghost own: set<Node>, ghost given: set<Node>,
                       ghost done: seq<Path>)
    returns (ok: bool, cur: Node, ghost own': set<Node>)
    requires p != []
    requires Shape(Snapshot(own + given), live, desired, own, given, done)
    requires OwnWay(Snapshot(own + given), live, own, p)
    modifies own
    ensures own <= own' && fresh(own' - own)
    ensures if ok then Prepared(Snapshot(own' + given), old(Snapshot(own + given)), live, desired, own', given, done,
                                p, |p| - 1, cur)
            else !FollowsObjects(old(Snapshot(own + given)), live, p)
  {
    own' := own;
    ghost var h0 := Snapshot(own + given);
    ok, cur := true, live;
    Start(h0, live, desired, own, given, done, p);
    for i := 0 to |p| - 1
      invariant own <= own' && fresh(own' - own) && own' !! given
      invariant Prepared(Snapshot(own' + given), h0, live, desired, own', given, done, p, i, cur)
    {
      ok, cur, own' := FollowOrCreate(live, p, i, cur, h0, desired, own', given, done);
      if !ok {
        return;
      }
    }
    ok := true;
  }

  /** jp's Set for a key path: follows objects, creates the missing ones, stores the reference v. */
  method SetRef(live: Node, p: Path, v: Ref, ghost desired: Node, ghost own: set<Node>, ghost given: set<Node>,
                ghost done: seq<Path>)
    returns (ok: bool, ghost own': set<Node>)
    requires p != [] && (v.Ptr? ==> v.node in given && Walk(Snapshot(own + given), Ptr(desired), p) == Some(v))
    requires Shape(Snapshot(own + given), live, desired, own, given, done)
    requires OwnWay(Snapshot(own + given), live, own, p)
    modifies own
    ensures own <= own' && fresh(own' - own)
    ensures ok <==> FollowsObjects(old(Snapshot(own + given)), live, p)
    ensures ok ==> Stored(Snapshot(own' + given), old(Snapshot(own + given)), live, desired, own', given, done, p, v)
  {
    ghost var h0 := Snapshot(own + given);
    var cur;
    ok, cur, own' := EnsureParents(live, p, desired, own, given, done);
    if ok {
      ghost var h := Snapshot(own' + given);
      Store(h, h0, live, desired, own', given, done, p, cur, v);
      cur.members := cur.members[p[|p| - 1].name := v];
      assert Snapshot(own' + given) == h[cur := h[cur][p[|p| - 1].name := v]];
    }
  }

  /** jp's Del for a key path that is present. */
  method DelRef(live: Node, p: Path, ghost desired: Node, ghost own: set<Node>, ghost given: set<Node>,
                ghost done: seq<Path>)
    requires p != []
    requires Shape(Snapshot(own + given), live, desired, own, given, done)
    requires OwnWay(Snapshot(own + given), live, own, p)
    requires Walk(Snapshot(own + given), Ptr(live), p).Some?
    modifies own
    ensures Shape(Snapshot(own + given), live, desired, own, given, done)
    ensures Removed(Snapshot(own + given), old(Snapshot(own + given)), live, p)
    ensures SameGiven(Snapshot(own + given), old(Snapshot(own + given)), given)
  {
    ghost var h := Snapshot(own + given);
    var parent: Path := p[..|p| - 1];
    var k := p[|p| - 1].name;
    assert p == parent + [Key(k)];
    WalkConcat(h, Ptr(live), parent, [Key(k)]);
    var holder := FindRef(Ptr(live), parent, own + given);
    var cur := holder.value.node;
    assert cur in own;
    Remove(h, live, desired, own, given, done, p, cur);
    cur.members := cur.members - {k};
    assert Snapshot(own + given) == h[cur := h[cur] - {k}];
  }

  /** Everything at and below p is gone, everything else as it was. */
  ghost predicate Removed(h': Memory, h: Memory, live: Node, p: Path) {
    forall q: Path :: ViewMemory(h', Ptr(live), q) == if p <= q then Nothing else ViewMemory(h, Ptr(live), q)
  }

  lemma Remove(h: Memory, live: Node, desired: Node, own: set<Node>, given: set<Node>, done: seq<Path>,
               p: Path, cur: Node)
    requires p != [] && cur in own && Shape(h, live, desired, own, given, done)
    requires Reaches(h, live, p[..|p| - 1], cur)
    ensures var h' := h[cur := h[cur] - {p[|p| - 1].name}];
            && Shape(h', live, desired, own, given, done)
            && Removed(h', h, live, p)
            && SameGiven(h', h, given)
  {
    var parent: Path := p[..|p| - 1];
    var k := p[|p| - 1].name;
    var m := h[cur] - {k};
    var h' := h[cur := m];
    assert p == parent + [Key(k)] && k !in m;
    ShapeAfterWrite(h, live, desired, own, given, done, cur, parent, k, m, done);
    forall q: Path
      ensures ViewMemory(h', Ptr(live), q) == if p <= q then Nothing else ViewMemory(h, Ptr(live), q)
    {
      WalkAfterWrite(h, live, desired, own, given, done, cur, parent, k, m, q);
      assert Walk(h', Ptr(live), q) == if p <= q then None else Walk(h, Ptr(live), q);
    }
    assert Removed(h', h, live, p);
    forall n, q: Path | n in given ensures Walk(h', Ptr(n), q) == Walk(h, Ptr(n), q) {
      SideStep(h, given, cur, m, Ptr(n), q);
    }
  }

  // ----- the property loop in place -----

  /** Memory holds the live tree t and the desired tree d, and they agree wherever a processed property covers. */
  ghost predicate Holds(h: Memory, live: Node, desired: Node, own: set<Node>, given: set<Node>, done: seq<Path>,
                        t: Json, d: Json)
  {
    && Shape(h, live, desired, own, given, done)
    && Denotes(h, Ptr(live), t) && Denotes(h, Ptr(desired), d)
    && forall q: Path :: Covered(done, q) ==> Get(t, q) == Get(d, q)
  }

  /** Property.reconcile on the live and the normalised desired map. The live map becomes what the
      loop on values computes; the desired map is not touched, although its sub-maps may by now be
      part of the live map. */
  method ReconcileProperty(live: Node, desired: Node, e: Path, ghost own: set<Node>, ghost given: set<Node>,
                           ghost done: seq<Path>, ghost t: Json, ghost d: Json)
    returns (ok: bool, ghost own': set<Node>)
    requires Holds(Snapshot(own + given), live, desired, own, given, done, t, d)
    modifies own
    ensures own <= own' && fresh(own' - own)
    ensures ok <==> ReconcileOne(t, d, e).Ok?
    ensures ok ==> Holds(Snapshot(own' + given), live, desired, own', given, done + [e],
                         ReconcileOne(t, d, e).value, d)
  {
    own' := own;
    ghost var h := Snapshot(own + given);
    var desiredVal := FindRef(Ptr(desired), e, own + given);
    var liveVal := FindRef(Ptr(live), e, own + given);
    DenotesBelow(h, Ptr(desired), d, e);
    DenotesBelow(h, Ptr(live), t, e);
    if desiredVal.None? {
      if liveVal.Some? {
        OwnWayUnlessAgreed(h, live, desired, own, given, done, t, d, e);
        DelRef(live, e, desired, own, given, done);
        AfterDel(Snapshot(own + given), h, live, desired, own, given, done, t, d, e);
      } else {
        AfterSkip(h, live, desired, own, given, done, t, d, e);
      }
      return true, own';
    }
    if liveVal.Some? {
      WalkInside(h, own + given, Ptr(desired), e);
      WalkInside(h, own + given, Ptr(live), e);
      var same := DeepEqual(desiredVal.value, liveVal.value, Get(d, e).value, Get(t, e).value, own + given);
      if same {
        AfterSkip(h, live, desired, own, given, done, t, d, e);
        return true, own';
      }
    }
    if e == [] {
      return false, own';
    }
    ok, own' := WriteProperty(live, desired, e, desiredVal.value, own, given, done, t, d);
  }

  /** The two cases in which the desired value is stored. */
  method WriteProperty(live: Node, desired: Node, e: Path, v: Ref, ghost own: set<Node>, ghost given: set<Node>,
                       ghost done: seq<Path>, ghost t: Json, ghost d: Json)
    returns (ok: bool, ghost own': set<Node>)
    requires Holds(Snapshot(own + given), live, desired, own, given, done, t, d)
    requires e != [] && Get(d, e).Some? && Get(t, e) != Get(d, e)
    requires Walk(Snapshot(own + given), Ptr(desired), e) == Some(v)
    modifies own
    ensures own <= own' && fresh(own' - own)
    ensures ok <==> Set(t, e, Get(d, e).value).Ok?
    ensures ok ==> Holds(Snapshot(own' + given), live, desired, own', given, done + [e],
                         ReconcileOne(t, d, e).value, d)
  {
    ghost var h := Snapshot(own + given);
    OwnWayUnlessAgreed(h, live, desired, own, given, done, t, d, e);
    WalkInside(h, given, Ptr(desired), e);
    FollowsWhenSettable(h, live, t, e, Get(d, e).value);
    ok, own' := SetRef(live, e, v, desired, own, given, done);
    if ok {
      DenotesBelow(h, Ptr(desired), d, e);
      AfterSet(Snapshot(own' + given), h, live, desired, own, own', given, done, t, d, e, v);
    }
  }

  /** One step extends the agreement by e and loses none of it. */
  lemma AgreementGrows(t: Json, d: Json, e: Path, done: seq<Path>)
    requires ReconcileOne(t, d, e).Ok?
    requires forall q: Path :: Covered(done, q) ==> Get(t, q) == Get(d, q)
    ensures forall q: Path :: Covered(done + [e], q) ==> Get(ReconcileOne(t, d, e).value, q) == Get(d, q)
  {
    var t' := ReconcileOne(t, d, e).value;
    assert (done + [e])[..|done|] == done;
    forall q: Path | Covered(done + [e], q) ensures Get(t', q) == Get(d, q) {
      CoverSnoc(t, done + [e], q);
      if Get(t, e) == Get(d, e) {
        if e <= q {
          assert q == e + q[|e|..];
          GetConcat(t, e, q[|e|..]);
          GetConcat(d, e, q[|e|..]);
        }
      } else {
        StepSplices(t, d, e);
        forall s: Loc | q <= s ensures Look(t', s) == Look(d, s) {
          if !(e <= s) {
            assert Covered(done, q);
            SameGetLooks(t, d, q);
            if s < e {
              CoveredAbove(done, q, e);
            }
          }
        }
        SameGetLooks(t', d, q);
      }
    }
  }

  lemma ShapeWeaker(h: Memory, live: Node, desired: Node, own: set<Node>, given: set<Node>, done: seq<Path>, e: Path)
    requires Shape(h, live, desired, own, given, done)
    ensures Shape(h, live, desired, own, given, done + [e])
  {
    forall p: Path, n | n in given && Reaches(h, live, p, n)
      ensures Covered(done + [e], p) && Reaches(h, desired, p, n)
    {
      assert Covered(done, p);
      var f :| f in done && f <= p;
      assert f in done + [e];
    }
  }

  lemma DesiredUntouched(h': Memory, h: Memory, desired: Node, given: set<Node>, d: Json)
    requires SameGiven(h', h, given) && desired in given && Denotes(h, Ptr(desired), d)
    ensures Denotes(h', Ptr(desired), d)
  {
  }

  lemma AfterSkip(h: Memory, live: Node, desired: Node, own: set<Node>, given: set<Node>, done: seq<Path>,
                  t: Json, d: Json, e: Path)
    requires Holds(h, live, desired, own, given, done, t, d)
    requires Get(t, e) == Get(d, e)
    ensures Holds(h, live, desired, own, given, done + [e], t, d)
  {
    AgreementGrows(t, d, e, done);
    ShapeWeaker(h, live, desired, own, given, done, e);
  }

  lemma AfterDel(h': Memory, h: Memory, live: Node, desired: Node, own: set<Node>, given: set<Node>, done: seq<Path>,
                 t: Json, d: Json, e: Path)
    requires Holds(h, live, desired, own, given, done, t, d)
    requires Get(t, e).Some? && Get(d, e).None?
    requires Shape(h', live, desired, own, given, done) && SameGiven(h', h, given)
    requires Removed(h', h, live, e)
    ensures Holds(h', live, desired, own, given, done + [e], ReconcileOne(t, d, e).value, d)
  {
    AgreementGrows(t, d, e, done);
    ShapeWeaker(h', live, desired, own, given, done, e);
    DesiredUntouched(h', h, desired, given, d);
    forall q: Path ensures ViewMemory(h', Ptr(live), q) == ViewTree(ReconcileOne(t, d, e).value, q) {
      ViewAfterDel(t, e, q);
    }
  }

  /** Storing what stands there already changes nothing. */
  lemma {:induction false} SetSame(t: Json, p: Path, v: Json)
    requires p != [] && Get(t, p) == Some(v)
    ensures Set(t, p, v) == Ok(t)
    decreases |p|
  {
    var k := p[0].name;
    if |p| == 1 {
      assert p[1..] == [];
    } else {
      SetSame(t.members[k], p[1..], v);
    }
    assert t.members[k := t.members[k]] == t.members;
  }

  lemma AfterSet(h': Memory, h: Memory, live: Node, desired: Node, own: set<Node>, own': set<Node>, given: set<Node>,
                 done: seq<Path>, t: Json, d: Json, e: Path, v: Ref)
    requires Holds(h, live, desired, own, given, done, t, d)
    requires Get(d, e).Some? && Set(t, e, Get(d, e).value).Ok?
    requires Denotes(h, v, Get(d, e).value)
    requires Stored(h', h, live, desired, own', given, done, e, v)
    ensures Holds(h', live, desired, own', given, done + [e], Set(t, e, Get(d, e).value).value, d)
  {
    if Get(t, e) == Get(d, e) { SetSame(t, e, Get(d, e).value); }
    AgreementGrows(t, d, e, done);
    DesiredUntouched(h', h, desired, given, d);
    forall q: Path ensures ViewMemory(h', Ptr(live), q) == ViewTree(Set(t, e, Get(d, e).value).value, q) {
      ViewAfterSet(t, e, Get(d, e).value, q);
      if e <= q {
        assert ViewMemory(h, v, q[|e|..]) == ViewTree(Get(d, e).value, q[|e|..]);
      }
    }
  }

  /** As long as live and desired differ at e, no map of the desired tree lies on the way to e. */
  lemma OwnWayUnlessAgreed(h: Memory, live: Node, desired: Node, own: set<Node>, given: set<Node>, done: seq<Path>,
                           t: Json, d: Json, e: Path)
    requires Holds(h, live, desired, own, given, done, t, d)
    requires Get(t, e) != Get(d, e)
    ensures OwnWay(h, live, own, e)
  {
    forall i | 0 <= i < |e|
      ensures var w := Walk(h, Ptr(live), e[..i]);
              w.Some? && w.value.Ptr? ==> w.value.node in own
    {
      var w := Walk(h, Ptr(live), e[..i]);
      if w.Some? && w.value.Ptr? {
        WalkInside(h, own + given, Ptr(live), e[..i]);
        if w.value.node in given {
          assert Reaches(h, live, e[..i], w.value.node);
          CoveredAbove(done, e[..i], e);
        }
      }
    }
  }

  lemma FollowsWhenSettable(h: Memory, live: Node, t: Json, e: Path, v: Json)
    requires e != [] && Denotes(h, Ptr(live), t)
    ensures FollowsObjects(h, live, e) <==> Set(t, e, v).Ok?
  {
    SetSucceeds(t, e, v);
    forall i | 0 <= i < |e|
      ensures ViewMemory(h, Ptr(live), e[..i]).Other? <==> Get(t, e[..i]).Some? && !Get(t, e[..i]).value.Obj?
    {
      assert ViewMemory(h, Ptr(live), e[..i]) == ViewTree(t, e[..i]);
    }
  }

  /** The loop over all ensured properties. Live and desired start as separate trees, as the conversions
      to unstructured maps build them; whatever the overlaps, the live map ends up as the loop on values
      says and the desired map denotes the same tree as before. */
  method ReconcileProperties(live: Node, desired: Node, ensured: seq<Path>,
                             ghost own: set<Node>, ghost given: set<Node>, ghost t: Json, ghost d: Json)
    returns (ok: bool, ghost own': set<Node>)
    requires Holds(Snapshot(own + given), live, desired, own, given, [], t, d)
    modifies own
    ensures own <= own' && fresh(own' - own)
    ensures ok <==> ReconcileAll(t, d, ensured).Ok?
    ensures ok ==> Denotes(Snapshot(own' + given), Ptr(live), ReconcileAll(t, d, ensured).value)
    ensures ok ==> Denotes(Snapshot(own' + given), Ptr(desired), d)
    ensures ok ==> Closed(Snapshot(own' + given), own' + given) && live in own'
    ensures Snapshot(given) == old(Snapshot(given))
  {
    own' := own;
    for i := 0 to |ensured|
      invariant own <= own' && fresh(own' - own) && own' !! given
      invariant ReconcileAll(t, d, ensured[..i]).Ok?
      invariant Holds(Snapshot(own' + given), live, desired, own', given, ensured[..i],
                      ReconcileAll(t, d, ensured[..i]).value, d)
      invariant Snapshot(given) == old(Snapshot(given))
    {
      assert ensured[..i + 1] == ensured[..i] + [ensured[i]] && ensured[..i + 1][..i] == ensured[..i];
      ok, own' := ReconcileProperty(live, desired, ensured[i], own', given, ensured[..i],
                                    ReconcileAll(t, d, ensured[..i]).value, d);
      if !ok {
        ReconcileStuck(t, d, ensured, i + 1);
        return;
      }
    }
    assert ensured[..|ensured|] == ensured;
    ok := true;
  }

  // ----- from values to memory and back -----

  /** The maps in nodes form a tree below r: each is reached by one path only. */
  ghost predicate IsTree(h: Memory, r: Ref, nodes: set<Node>) {
    && Closed(h, nodes) && (r.Ptr? ==> r.node in nodes)
    && forall p: Path, q: Path, n ::
         n in nodes && Walk(h, r, p) == Some(Ptr(n)) && Walk(h, r, q) == Some(Ptr(n)) ==> p == q
  }

  lemma {:induction false} WalkLocal(h: Memory, h': Memory, nodes: set<Node>, r: Ref, q: Path)
    requires Closed(h, nodes) && (r.Ptr? ==> r.node in nodes)
    requires forall n :: n in nodes ==> n in h' && h'[n] == h[n]
    ensures Walk(h', r, q) == Walk(h, r, q)
    decreases |q|
  {
    if q != [] && r.Ptr? && q[0].name in h[r.node] {
      WalkLocal(h, h', nodes, h[r.node][q[0].name], q[1..]);
    }
  }

  lemma TreeElsewhere(h: Memory, h': Memory, r: Ref, nodes: set<Node>, t: Json)
    requires IsTree(h, r, nodes) && Denotes(h, r, t)
    requires forall n :: n in nodes ==> n in h' && h'[n] == h[n]
    ensures IsTree(h', r, nodes) && Denotes(h', r, t)
  {
    forall q: Path ensures Walk(h', r, q) == Walk(h, r, q) { WalkLocal(h, h', nodes, r, q); }
    forall p: Path ensures ViewMemory(h', r, p) == ViewTree(t, p) {
      assert ViewMemory(h, r, p) == ViewTree(t, p);
    }
  }

  /** Walks through a new root see its members' trees. */
  lemma WalkFromRoot(h: Memory, h': Memory, root: Node, nodes: set<Node>, more: set<Node>, k: string, child: Ref,
                     q: Path)
    requires IsTree(h, Ptr(root), nodes) && IsTree(h, child, more) && nodes !! more
    requires h' == h[root := h[root][k := child]]
    ensures Walk(h', Ptr(root), q) ==
            if q != [] && q[0] == Key(k) then Walk(h, child, q[1..]) else Walk(h, Ptr(root), q)
  {
    if q != [] {
      var rest: Path := q[1..];
      var j := q[0].name;
      if j == k {
        forall i | 0 <= i < |rest| ensures Walk(h, child, rest[..i]) != Some(Ptr(root)) {
          WalkInside(h, more, child, rest[..i]);
        }
        WalkAvoids(h, root, h[root][k := child], child, rest);
      } else if j in h[root] {
        forall i | 0 <= i < |rest| ensures Walk(h, h[root][j], rest[..i]) != Some(Ptr(root)) {
          var below: Path := [q[0]] + rest[..i];
          assert below[1..] == rest[..i];
          assert Walk(h, Ptr(root), []) == Some(Ptr(root));
          assert Walk(h, Ptr(root), below) == Walk(h, h[root][j], rest[..i]);
          assert below != [];
        }
        WalkAvoids(h, root, h[root][k := child], h[root][j], rest);
      }
    }
  }

  lemma Attach(h: Memory, h': Memory, root: Node, nodes: set<Node>, more: set<Node>, k: string, child: Ref,
               t: Json, x: Json)
    requires IsTree(h, Ptr(root), nodes) && IsTree(h, child, more) && nodes !! more
    requires h' == h[root := h[root][k := child]] && k !in h[root]
    requires Denotes(h, Ptr(root), t) && Denotes(h, child, x)
    ensures t.Obj? && IsTree(h', Ptr(root), nodes + more) && Denotes(h', Ptr(root), Obj(t.members[k := x]))
  {
    RootView(h, Ptr(root), t);
    forall q: Path
      ensures Walk(h', Ptr(root), q) ==
              if q != [] && q[0] == Key(k) then Walk(h, child, q[1..]) else Walk(h, Ptr(root), q)
    {
      WalkFromRoot(h, h', root, nodes, more, k, child, q);
    }
    forall p: Path, q: Path, n
      | n in nodes + more && Walk(h', Ptr(root), p) == Some(Ptr(n)) && Walk(h', Ptr(root), q) == Some(Ptr(n))
      ensures p == q
    {
      AttachedOnce(h, h', root, nodes, more, k, child, p, q, n);
    }
    forall p: Path ensures ViewMemory(h', Ptr(root), p) == ViewTree(Obj(t.members[k := x]), p) {
      if p != [] && p[0] == Key(k) {
        assert ViewMemory(h, child, p[1..]) == ViewTree(x, p[1..]);
      } else {
        assert ViewMemory(h, Ptr(root), p) == ViewTree(t, p);
      }
    }
  }

  /** Two walks to one map below the root and its new member are the same. */
  lemma AttachedOnce(h: Memory, h': Memory, root: Node, nodes: set<Node>, more: set<Node>, k: string, child: Ref,
                     p: Path, q: Path, n: Node)
    requires IsTree(h, Ptr(root), nodes) && IsTree(h, child, more) && nodes !! more
    requires h' == h[root := h[root][k := child]] && n in nodes + more
    requires Walk(h', Ptr(root), p) == Some(Ptr(n)) && Walk(h', Ptr(root), q) == Some(Ptr(n))
    ensures p == q
  {
    SidesApart(h, h', root, nodes, more, k, child, p);
    SidesApart(h, h', root, nodes, more, k, child, q);
    WalkFromRoot(h, h', root, nodes, more, k, child, p);
    WalkFromRoot(h, h', root, nodes, more, k, child, q);
    if p != [] && q != [] && p[0] == Key(k) && q[0] == Key(k) {
      assert p[1..] == q[1..];
      assert p == [p[0]] + p[1..] && q == [q[0]] + q[1..];
    }
  }

  /** A freshly built child tree becomes member k of the root. */
  lemma AttachNew(before: Memory, grown: Memory, h': Memory, root: Node, nodes: set<Node>, more: set<Node>,
                  k: string, child: Ref, t: Json, x: Json)
    requires before.Keys == nodes && grown.Keys == more && nodes !! more
    requires IsTree(before, Ptr(root), nodes) && Denotes(before, Ptr(root), t) && t.Obj? && k !in t.members
    requires IsTree(grown, child, more) && Denotes(grown, child, x)
    requires h' == (before + grown)[root := before[root][k := child]]
    ensures IsTree(h', Ptr(root), nodes + more) && Denotes(h', Ptr(root), Obj(t.members[k := x]))
  {
    var h := before + grown;
    TreeElsewhere(before, h, Ptr(root), nodes, t);
    TreeElsewhere(grown, h, child, more, x);
    MembersView(h, Ptr(root), t);
    Attach(h, h', root, nodes, more, k, child, t, x);
  }

  lemma SidesApart(h: Memory, h': Memory, root: Node, nodes: set<Node>, more: set<Node>, k: string, child: Ref, p: Path)
    requires IsTree(h, Ptr(root), nodes) && IsTree(h, child, more) && nodes !! more
    requires h' == h[root := h[root][k := child]]
    ensures var w := Walk(h', Ptr(root), p);
            w.Some? && w.value.Ptr? ==> w.value.node in if p != [] && p[0] == Key(k) then more else nodes
  {
    WalkFromRoot(h, h', root, nodes, more, k, child, p);
    if p != [] && p[0] == Key(k) {
      WalkInside(h, more, child, p[1..]);
    } else {
      WalkInside(h, nodes, Ptr(root), p);
    }
  }

  /** The conversion to an unstructured map: new maps that share nothing. */
  method Build(t: Json) returns (r: Ref, ghost nodes: set<Node>)
    ensures fresh(nodes)
    ensures IsTree(Snapshot(nodes), r, nodes) && Denotes(Snapshot(nodes), r, t)
    decreases t, 0
  {
    if !t.Obj? {
      r, nodes := Plain(t), {};
      forall p: Path ensures ViewMemory(Snapshot(nodes), r, p) == ViewTree(t, p) {
      }
      return;
    }
    var root := new Node();
    r, nodes := Ptr(root), {root};
    var todo := t.members.Keys;
    ghost var built: map<string, Json> := map[];
    EmptyRoot(Snapshot(nodes), root);
    while todo != {}
      invariant fresh(nodes) && root in nodes && r == Ptr(root)
      invariant todo <= t.members.Keys && built == t.members - todo
      invariant IsTree(Snapshot(nodes), r, nodes) && Denotes(Snapshot(nodes), r, Obj(built))
      decreases todo
    {
      var k :| k in todo;
      nodes := BuildMember(root, k, t.members[k], nodes, built);
      todo := todo - {k};
      built := built[k := t.members[k]];
    }
    assert built == t.members;
  }

  /** One member of a map under construction. */
  method BuildMember(root: Node, k: string, x: Json, ghost nodes: set<Node>, ghost built: map<string, Json>)
    returns (ghost nodes': set<Node>)
    requires root in nodes && k !in built
    requires IsTree(Snapshot(nodes), Ptr(root), nodes) && Denotes(Snapshot(nodes), Ptr(root), Obj(built))
    modifies root
    ensures nodes <= nodes' && fresh(nodes' - nodes)
    ensures IsTree(Snapshot(nodes'), Ptr(root), nodes') && Denotes(Snapshot(nodes'), Ptr(root), Obj(built[k := x]))
    decreases x, 1
  {
    ghost var before := Snapshot(nodes);
    var child, more := Build(x);
    ghost var grown := Snapshot(more);
    root.members := root.members[k := child];
    nodes' := nodes + more;
    ghost var both: Memory := before + grown;
    assert Snapshot(nodes') == both[root := before[root][k := child]];
    AttachNew(before, grown, Snapshot(nodes'), root, nodes, more, k, child, Obj(built), x);
  }

  lemma EmptyRoot(h: Memory, root: Node)
    requires h.Keys == {root} && h[root] == map[]
    ensures IsTree(h, Ptr(root), {root}) && Denotes(h, Ptr(root), EMPTY)
  {
  }

  /** The conversion back from memory. */
  method ReadBack(r: Ref, ghost t: Json, ghost nodes: set<Node>) returns (v: Json)
    requires Closed(Snapshot(nodes), nodes) && (r.Ptr? ==> r.node in nodes)
    requires Denotes(Snapshot(nodes), r, t)
    ensures v == t
    decreases t
  {
    ghost var h := Snapshot(nodes);
    RootView(h, r, t);
    if r.Plain? {
      return r.v;
    }
    MembersView(h, r, t);
    var todo := r.node.members.Keys;
    var members: map<string, Json> := map[];
    while todo != {}
      invariant todo <= t.members.Keys && members == t.members - todo
      decreases todo
    {
      var k :| k in todo;
      var x := ReadBack(r.node.members[k], t.members[k], nodes);
      members := members[k := x];
      todo := todo - {k};
    }
    assert members == t.members;
    return Obj(members);
  }

  /** reconcilePropertiesToUnstructured: both objects become maps in memory, the property loop runs in
      place on the live one, and what it leaves there is the result of the loop on values. */
  method ReconcilePropertiesToUnstructured(live: Json, normalizedDesired: Json, ensured: seq<Path>)
    returns (r: Result<Json>)
    requires live.Obj? && normalizedDesired.Obj?
    ensures r == ReconcileAll(live, normalizedDesired, ensured)
  {
    var uLive, own := Build(live);
    ghost var h1 := Snapshot(own);
    var uDesired, given := Build(normalizedDesired);
    ghost var h := Snapshot(own + given);
    TreeElsewhere(h1, h, uLive, own, live);
    TreeElsewhere(Snapshot(given), h, uDesired, given, normalizedDesired);
    RootView(h, uLive, live);
    RootView(h, uDesired, normalizedDesired);
    Separate(h, uLive.node, uDesired.node, own, given, live, normalizedDesired);
    var ok, own' := ReconcileProperties(uLive.node, uDesired.node, ensured, own, given, live, normalizedDesired);
    if !ok {
      return Failed;
    }
    var out := ReadBack(uLive, ReconcileAll(live, normalizedDesired, ensured).value, own' + given);
    return Ok(out);
  }

  lemma Separate(h: Memory, live: Node, desired: Node, own: set<Node>, given: set<Node>, t: Json, d: Json)
    requires own !! given && h.Keys == own + given
    requires IsTree(h, Ptr(live), own) && IsTree(h, Ptr(desired), given)
    requires Denotes(h, Ptr(live), t) && Denotes(h, Ptr(desired), d)
    ensures Holds(h, live, desired, own, given, [], t, d)
  {
    forall p: Path, n | n in given && Reaches(h, live, p, n) ensures false {
      WalkInside(h, own, Ptr(live), p);
    }
  }
}
