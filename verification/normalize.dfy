/** normalize as the program runs it: a new map takes references to sub-maps of a temporary conversion of
    the object, and the ignored properties are deleted from those shared maps in place. */
module NormalizeInPlace {
  import opened JsonTree
  import opened Engine
  import opened SharedTrees

  // ----- the ensured properties -----

  /** Where the two trees hold different references, no map of the source lies on the way. */
  lemma OwnWayUnlessSame(h: Memory, target: Node, source: Node, own: set<Node>, given: set<Node>, done: seq<Path>,
                         e: Path)
    requires Shape(h, target, source, own, given, done)
    requires Walk(h, Ptr(target), e) != Walk(h, Ptr(source), e)
    ensures OwnWay(h, target, own, e)
  {
    forall i | 0 <= i < |e|
      ensures var w := Walk(h, Ptr(target), e[..i]);
              w.Some? && w.value.Ptr? ==> w.value.node in own
    {
      var w := Walk(h, Ptr(target), e[..i]);
      if w.Some? && w.value.Ptr? {
        WalkInside(h, own + given, Ptr(target), e[..i]);
        if w.value.node in given {
          assert Reaches(h, target, e[..i], w.value.node);
          assert e == e[..i] + e[i..];
          WalkConcat(h, Ptr(target), e[..i], e[i..]);
          WalkConcat(h, Ptr(source), e[..i], e[i..]);
        }
      }
    }
  }

  lemma {:induction false} DenotesOne(h: Memory, nodes: set<Node>, r: Ref, a: Json, b: Json)
    requires Closed(h, nodes) && (r.Ptr? ==> r.node in nodes)
    requires Denotes(h, r, a) && Denotes(h, r, b)
    ensures a == b
    decreases a
  {
    RootView(h, r, a);
    RootView(h, r, b);
    if r.Ptr? {
      MembersView(h, r, a);
      MembersView(h, r, b);
      forall k | k in a.members ensures a.members[k] == b.members[k] {
        DenotesOne(h, nodes, h[r.node][k], a.members[k], b.members[k]);
      }
      assert a.members == b.members;
    }
  }

  /** Storing in a map the reference that is there: the map can belong to either tree. */
  method StoreAgain(target: Node, e: Path, v: Ref, ghost nodes: set<Node>)
    requires e != [] && target in nodes && Closed(Snapshot(nodes), nodes)
    requires Walk(Snapshot(nodes), Ptr(target), e) == Some(v)
    modifies nodes
    ensures Snapshot(nodes) == old(Snapshot(nodes))
  {
    ghost var h := Snapshot(nodes);
    var parent: Path, k := e[..|e| - 1], e[|e| - 1].name;
    assert e == parent + [Key(k)] && [Key(k)][1..] == [];
    WalkConcat(h, Ptr(target), parent, [Key(k)]);
    var holder := FindRef(Ptr(target), parent, nodes);
    WalkInside(h, nodes, Ptr(target), parent);
    assert holder.Some? && holder.value.Ptr? && h[holder.value.node][k] == v;
    ghost var before := holder.value.node.members;
    assert before[k := v] == before;
    holder.value.node.members := holder.value.node.members[k := v];
    assert Snapshot(nodes) == h;
  }

  /** One ensured property that the source has: its reference is stored in the target. Where the same
      reference stands already, perhaps in a map of the source, storing it again changes nothing. */
  method ProjectProperty(target: Node, source: Node, e: Path, v: Ref, ghost own: set<Node>, ghost given: set<Node>,
                         ghost done: seq<Path>, ghost t: Json, ghost d: Json)
    returns (ok: bool, ghost own': set<Node>)
    requires Holds(Snapshot(own + given), target, source, own, given, done, t, d)
    requires Walk(Snapshot(own + given), Ptr(source), e) == Some(v) && Get(d, e).Some?
    modifies own + given
    ensures own <= own' && fresh(own' - own)
    ensures ok <==> Set(t, e, Get(d, e).value).Ok?
    ensures ok ==> Holds(Snapshot(own' + given), target, source, own', given, done + [e],
                         Set(t, e, Get(d, e).value).value, d)
    ensures Snapshot(given) == old(Snapshot(given))
  {
    own' := own;
    ghost var h := Snapshot(own + given);
    var there := FindRef(Ptr(target), e, own + given);
    DenotesBelow(h, Ptr(source), d, e);
    WalkInside(h, given, Ptr(source), e);
    if e == [] {
      return false, own';
    }
    if there == Some(v) {
      DenotesBelow(h, Ptr(target), t, e);
      DenotesOne(h, own + given, v, Get(t, e).value, Get(d, e).value);
      SetSame(t, e, Get(d, e).value);
      AfterSkip(h, target, source, own, given, done, t, d, e);
      StoreAgain(target, e, v, own + given);
      assert forall n :: n in given ==> n in own + given && Snapshot(own + given)[n] == h[n];
      return true, own';
    }
    OwnWayUnlessSame(h, target, source, own, given, done, e);
    FollowsWhenSettable(h, target, t, e, Get(d, e).value);
    ok, own' := SetRef(target, e, v, source, own, given, done);
    if ok {
      AfterSet(Snapshot(own' + given), h, target, source, own, own', given, done, t, d, e, v);
    }
  }

  /** Maps reached by one path from the source are reached by one path from the target. */
  lemma SharedIsTree(h: Memory, target: Node, source: Node, own: set<Node>, given: set<Node>, done: seq<Path>)
    requires Shape(h, target, source, own, given, done) && IsTree(h, Ptr(source), given)
    ensures IsTree(h, Ptr(target), own + given)
  {
    forall p: Path, q: Path, n
      | n in own + given && Walk(h, Ptr(target), p) == Some(Ptr(n)) && Walk(h, Ptr(target), q) == Some(Ptr(n))
      ensures p == q
    {
      assert Reaches(h, target, p, n) && Reaches(h, target, q, n);
    }
  }

  function Projected(t: Json, d: Json, e: Path): Result<Json> {
    if Get(d, e).None? then Ok(t) else Set(t, e, Get(d, e).value)
  }

  /** One round of the first loop. */
  method ProjectStep(target: Node, source: Node, e: Path, ghost own: set<Node>, ghost given: set<Node>,
                     ghost done: seq<Path>, ghost t: Json, ghost d: Json)
    returns (ok: bool, ghost own': set<Node>, ghost done': seq<Path>)
    requires Holds(Snapshot(own + given), target, source, own, given, done, t, d)
    modifies own + given
    ensures own <= own' && fresh(own' - own)
    ensures ok <==> Projected(t, d, e).Ok?
    ensures ok ==> Holds(Snapshot(own' + given), target, source, own', given, done', Projected(t, d, e).value, d)
    ensures Snapshot(given) == old(Snapshot(given))
  {
    ok, own', done' := true, own, done;
    var val := FindRef(Ptr(source), e, own + given);
    DenotesBelow(Snapshot(own + given), Ptr(source), d, e);
    if val.Some? {
      ok, own' := ProjectProperty(target, source, e, val.value, own, given, done, t, d);
      done' := done + [e];
    }
  }

  /** The first loop of normalize. */
  method ProjectProperties(target: Node, source: Node, ensured: seq<Path>, ghost own: set<Node>, ghost given: set<Node>,
                           ghost d: Json)
    returns (ok: bool, ghost own': set<Node>)
    requires Holds(Snapshot(own + given), target, source, own, given, [], EMPTY, d)
    requires IsTree(Snapshot(given), Ptr(source), given)
    modifies own + given
    ensures own <= own' && fresh(own' - own)
    ensures ok <==> Project(d, ensured).Ok?
    ensures ok ==> IsTree(Snapshot(own' + given), Ptr(target), own' + given)
    ensures ok ==> Denotes(Snapshot(own' + given), Ptr(target), Project(d, ensured).value)
  {
    own' := own;
    ghost var done: seq<Path> := [];
    for i := 0 to |ensured|
      invariant own <= own' && fresh(own' - own) && own' !! given
      invariant Project(d, ensured[..i]).Ok?
      invariant Holds(Snapshot(own' + given), target, source, own', given, done, Project(d, ensured[..i]).value, d)
      invariant Snapshot(given) == old(Snapshot(given))
    {
      assert ensured[..i + 1][..i] == ensured[..i];
      ok, own', done := ProjectStep(target, source, ensured[i], own', given, done, Project(d, ensured[..i]).value, d);
      assert Project(d, ensured[..i + 1]) == Projected(Project(d, ensured[..i]).value, d, ensured[i]);
      if !ok {
        ProjectStuck(d, ensured, i + 1);
        return;
      }
    }
    assert ensured[..|ensured|] == ensured;
    AllProjected(Snapshot(given), Snapshot(own' + given), target, source, own', given, done,
                 Project(d, ensured).value, d);
    ok := true;
  }

  lemma AllProjected(g: Memory, h: Memory, target: Node, source: Node, own: set<Node>, given: set<Node>,
                     done: seq<Path>, t: Json, d: Json)
    requires Holds(h, target, source, own, given, done, t, d)
    requires g.Keys == given && IsTree(g, Ptr(source), given) && forall n :: n in given ==> n in h && h[n] == g[n]
    ensures IsTree(h, Ptr(target), own + given) && Denotes(h, Ptr(target), t)
  {
    forall q: Path ensures Walk(h, Ptr(source), q) == Walk(g, Ptr(source), q) {
      WalkLocal(g, h, given, Ptr(source), q);
    }
    SharedIsTree(h, target, source, own, given, done);
  }

  // ----- the ignored properties -----

  /** The maps reached from r. */
  ghost function Below(h: Memory, r: Ref, nodes: set<Node>): set<Node> {
    set n | n in nodes && ReachedFrom(h, r, n)
  }

  ghost predicate ReachedFrom(h: Memory, r: Ref, n: Node) {
    exists q: Path :: Walk(h, r, q) == Some(Ptr(n))
  }

  /** A walk on which no map changed. */
  lemma {:induction false} WalkUnchanged(h: Memory, h': Memory, r: Ref, q: Path)
    requires h.Keys == h'.Keys
    requires forall i, n :: 0 <= i < |q| && Walk(h, r, q[..i]) == Some(Ptr(n)) && n in h ==> h'[n] == h[n]
    ensures Walk(h', r, q) == Walk(h, r, q)
    decreases |q|
  {
    if q != [] && r.Ptr? && r.node in h {
      assert q[..0] == [] && Walk(h, r, q[..0]) == Some(r);
      if q[0].name in h[r.node] {
        var next := h[r.node][q[0].name];
        forall i, n | 0 <= i < |q| - 1 && Walk(h, next, q[1..][..i]) == Some(Ptr(n)) && n in h ensures h'[n] == h[n] {
          assert q[..i + 1][0] == q[0] && q[..i + 1][1..] == q[1..][..i];
          assert Walk(h, r, q[..i + 1]) == Some(Ptr(n));
        }
        WalkUnchanged(h, h', next, q[1..]);
      }
    }
  }

  lemma WalkMember(h: Memory, root: Node, k: string, q: Path)
    requires root in h && k in h[root]
    ensures Walk(h, Ptr(root), [Key(k)] + q) == Walk(h, h[root][k], q)
  {
    assert ([Key(k)] + q)[1..] == q;
  }

  /** A member's tree on its own. */
  lemma MemberTree(h: Memory, root: Node, nodes: set<Node>, k: string, t: Json, sub: set<Node>, g: Memory)
    requires IsTree(h, Ptr(root), nodes) && Denotes(h, Ptr(root), t) && h.Keys == nodes
    requires k in h[root] && sub == Below(h, h[root][k], nodes)
    requires g.Keys == sub && forall n :: n in sub ==> g[n] == h[n]
    ensures root !in sub && t.Obj? && k in t.members
    ensures IsTree(g, h[root][k], sub) && Denotes(g, h[root][k], t.members[k])
  {
    var child := h[root][k];
    MembersView(h, Ptr(root), t);
    assert Walk(h, Ptr(root), []) == Some(Ptr(root));
    forall q: Path ensures Walk(h, child, q) != Some(Ptr(root)) {
      WalkMember(h, root, k, q);
    }
    SubTree(h, root, nodes, k, sub);
    TreeElsewhere(h, g, child, sub, t.members[k]);
  }

  lemma SubTree(h: Memory, root: Node, nodes: set<Node>, k: string, sub: set<Node>)
    requires IsTree(h, Ptr(root), nodes) && h.Keys == nodes
    requires k in h[root] && sub == Below(h, h[root][k], nodes)
    ensures IsTree(h, h[root][k], sub)
  {
    var child := h[root][k];
    assert Walk(h, child, []) == Some(child);
    forall n, j | n in sub && j in h[n] && h[n][j].Ptr? ensures h[n][j].node in sub {
      var q: Path :| Walk(h, child, q) == Some(Ptr(n));
      WalkConcat(h, child, q, [Key(j)]);
      assert [Key(j)][1..] == [];
      assert Walk(h, child, q + [Key(j)]) == Some(h[n][j]);
    }
    forall p: Path, q: Path, n | n in sub && Walk(h, child, p) == Some(Ptr(n)) && Walk(h, child, q) == Some(Ptr(n))
      ensures p == q
    {
      WalkMember(h, root, k, p);
      WalkMember(h, root, k, q);
      assert [Key(k)] + p == [Key(k)] + q;
      assert ([Key(k)] + p)[1..] == p && ([Key(k)] + q)[1..] == q;
    }
  }

  /** Memory h' is h with the tree under member k of the root replaced by the tree of g under r. */
  ghost predicate Replanted(h: Memory, h': Memory, g: Memory, root: Node, k: string, r: Ref, sub: set<Node>) {
    && root in h && root !in sub && k in h[root] && sub <= h.Keys == h'.Keys && g.Keys == sub
    && h'[root] == h[root][k := r]
    && (forall n :: n in sub ==> h'[n] == g[n])
    && (forall n :: n in h && n !in sub && n != root ==> h'[n] == h[n])
  }

  lemma WalkReplanted(h: Memory, h': Memory, g: Memory, root: Node, nodes: set<Node>, k: string, r: Ref,
                      sub: set<Node>, q: Path)
    requires IsTree(h, Ptr(root), nodes) && h.Keys == nodes && Replanted(h, h', g, root, k, r, sub)
    requires sub == Below(h, h[root][k], nodes) && IsTree(g, r, sub)
    ensures Walk(h', Ptr(root), q) ==
            if q != [] && q[0] == Key(k) then Walk(g, r, q[1..]) else Walk(h, Ptr(root), q)
  {
    if q != [] && q[0] == Key(k) {
      WalkLocal(g, h', sub, r, q[1..]);
    } else if q != [] && q[0].name in h[root] {
      var j := q[0].name;
      var rest: Path := q[1..];
      forall i, n | 0 <= i < |rest| && Walk(h, h[root][j], rest[..i]) == Some(Ptr(n)) && n in h
        ensures h'[n] == h[n]
      {
        OtherBranch(h, root, nodes, k, sub, j, rest[..i], n);
      }
      WalkUnchanged(h, h', h[root][j], rest);
    }
  }

  /** A map reached through another member is neither the root nor below member k. */
  lemma OtherBranch(h: Memory, root: Node, nodes: set<Node>, k: string, sub: set<Node>, j: string, q: Path, n: Node)
    requires IsTree(h, Ptr(root), nodes) && h.Keys == nodes && k in h[root] && j in h[root] && j != k
    requires sub == Below(h, h[root][k], nodes) && n in h && Walk(h, h[root][j], q) == Some(Ptr(n))
    ensures n != root && n !in sub
  {
    WalkMember(h, root, j, q);
    assert Walk(h, Ptr(root), []) == Some(Ptr(root));
    forall p: Path ensures Walk(h, h[root][k], p) != Some(Ptr(n)) {
      WalkMember(h, root, k, p);
      assert ([Key(j)] + q)[0] == Key(j) && ([Key(k)] + p)[0] == Key(k);
    }
  }

  /** What WalkReplanted says, for all walks. */
  ghost predicate WalksReplanted(h: Memory, h': Memory, g: Memory, root: Node, k: string, r: Ref) {
    forall q: Path :: Walk(h', Ptr(root), q) ==
                      if q != [] && q[0] == Key(k) then Walk(g, r, q[1..]) else Walk(h, Ptr(root), q)
  }

  lemma ReplantedTree(h: Memory, h': Memory, g: Memory, root: Node, nodes: set<Node>, k: string, r: Ref,
                      sub: set<Node>, t: Json, x: Json)
    requires IsTree(h, Ptr(root), nodes) && h.Keys == nodes && Denotes(h, Ptr(root), t)
    requires Replanted(h, h', g, root, k, r, sub) && sub == Below(h, h[root][k], nodes)
    requires IsTree(g, r, sub) && Denotes(g, r, x) && t.Obj?
    ensures IsTree(h', Ptr(root), nodes) && Denotes(h', Ptr(root), Obj(t.members[k := x]))
  {
    forall q: Path
      ensures Walk(h', Ptr(root), q) ==
              if q != [] && q[0] == Key(k) then Walk(g, r, q[1..]) else Walk(h, Ptr(root), q)
    {
      WalkReplanted(h, h', g, root, nodes, k, r, sub, q);
    }
    ReplantedIsTree(h, h', g, root, nodes, k, r, sub);
    ReplantedDenotes(h, h', g, root, k, r, t, x);
  }

  lemma ReplantedDenotes(h: Memory, h': Memory, g: Memory, root: Node, k: string, r: Ref, t: Json, x: Json)
    requires WalksReplanted(h, h', g, root, k, r)
    requires Denotes(h, Ptr(root), t) && Denotes(g, r, x) && t.Obj?
    ensures Denotes(h', Ptr(root), Obj(t.members[k := x]))
  {
    forall p: Path ensures ViewMemory(h', Ptr(root), p) == ViewTree(Obj(t.members[k := x]), p) {
      if p != [] && p[0] == Key(k) {
        assert ViewMemory(g, r, p[1..]) == ViewTree(x, p[1..]);
      } else {
        assert ViewMemory(h, Ptr(root), p) == ViewTree(t, p);
      }
    }
  }

  lemma ReplantedIsTree(h: Memory, h': Memory, g: Memory, root: Node, nodes: set<Node>, k: string, r: Ref,
                        sub: set<Node>)
    requires IsTree(h, Ptr(root), nodes) && h.Keys == nodes && IsTree(g, r, sub)
    requires Replanted(h, h', g, root, k, r, sub) && sub == Below(h, h[root][k], nodes)
    requires WalksReplanted(h, h', g, root, k, r)
    ensures IsTree(h', Ptr(root), nodes)
  {
    forall p: Path, q: Path, n
      | n in nodes && Walk(h', Ptr(root), p) == Some(Ptr(n)) && Walk(h', Ptr(root), q) == Some(Ptr(n))
      ensures p == q
    {
      OneWay(h, h', g, root, nodes, k, r, sub, p, q, n);
    }
  }

  /** Two walks to one map take the same branch. */
  lemma OneWay(h: Memory, h': Memory, g: Memory, root: Node, nodes: set<Node>, k: string, r: Ref, sub: set<Node>,
               p: Path, q: Path, n: Node)
    requires IsTree(h, Ptr(root), nodes) && h.Keys == nodes && IsTree(g, r, sub)
    requires Replanted(h, h', g, root, k, r, sub) && sub == Below(h, h[root][k], nodes)
    requires WalksReplanted(h, h', g, root, k, r) && n in nodes
    requires Walk(h', Ptr(root), p) == Some(Ptr(n)) && Walk(h', Ptr(root), q) == Some(Ptr(n))
    ensures p == q
  {
    BranchOf(h, h', g, root, nodes, k, r, sub, p, n);
    BranchOf(h, h', g, root, nodes, k, r, sub, q, n);
    if n in sub {
      SameTail(g, r, sub, k, p, q, n);
    }
  }

  lemma SameTail(g: Memory, r: Ref, sub: set<Node>, k: string, p: Path, q: Path, n: Node)
    requires IsTree(g, r, sub) && n in sub && p != [] && q != [] && p[0] == q[0] == Key(k)
    requires Walk(g, r, p[1..]) == Some(Ptr(n)) && Walk(g, r, q[1..]) == Some(Ptr(n))
    ensures p == q
  {
    assert p[1..] == q[1..];
    assert p == [Key(k)] + p[1..] && q == [Key(k)] + q[1..];
  }

  lemma BranchOf(h: Memory, h': Memory, g: Memory, root: Node, nodes: set<Node>, k: string, r: Ref, sub: set<Node>,
                 p: Path, n: Node)
    requires IsTree(h, Ptr(root), nodes) && h.Keys == nodes && IsTree(g, r, sub)
    requires k in h[root] && root !in sub && sub == Below(h, h[root][k], nodes)
    requires WalksReplanted(h, h', g, root, k, r) && n in nodes && Walk(h', Ptr(root), p) == Some(Ptr(n))
    ensures if n in sub then p != [] && p[0] == Key(k) && Walk(g, r, p[1..]) == Some(Ptr(n))
            else Walk(h, Ptr(root), p) == Some(Ptr(n))
  {
    if p != [] && p[0] == Key(k) {
      InBranch(g, r, sub, p[1..], n);
    } else {
      OffBranch(h, root, nodes, k, sub, p, n);
    }
  }

  lemma InBranch(g: Memory, r: Ref, sub: set<Node>, p: Path, n: Node)
    requires IsTree(g, r, sub) && Walk(g, r, p) == Some(Ptr(n))
    ensures n in sub
  {
    WalkInside(g, sub, r, p);
  }

  lemma OffBranch(h: Memory, root: Node, nodes: set<Node>, k: string, sub: set<Node>, p: Path, n: Node)
    requires IsTree(h, Ptr(root), nodes) && h.Keys == nodes && k in h[root] && n in nodes
    requires sub == Below(h, h[root][k], nodes) && root !in sub
    requires Walk(h, Ptr(root), p) == Some(Ptr(n)) && (p == [] || p[0] != Key(k))
    ensures n !in sub
  {
    if p != [] {
      assert p == [p[0]] + p[1..];
      OtherBranch(h, root, nodes, k, sub, p[0].name, p[1..], n);
    }
  }

  lemma WithoutMember(h: Memory, root: Node, nodes: set<Node>, k: string, t: Json)
    requires IsTree(h, Ptr(root), nodes) && h.Keys == nodes && Denotes(h, Ptr(root), t) && t.Obj?
    ensures var h' := h[root := h[root] - {k}];
            IsTree(h', Ptr(root), nodes) && Denotes(h', Ptr(root), Obj(t.members - {k}))
  {
    var h' := h[root := h[root] - {k}];
    forall q: Path
      ensures Walk(h', Ptr(root), q) == if q != [] && q[0] == Key(k) then None else Walk(h, Ptr(root), q)
    {
      if q != [] && q[0] != Key(k) && q[0].name in h[root] {
        var j, rest: Path := q[0].name, q[1..];
        forall i, n | 0 <= i < |rest| && Walk(h, h[root][j], rest[..i]) == Some(Ptr(n)) && n in h
          ensures h'[n] == h[n]
        {
          WalkMember(h, root, j, rest[..i]);
          assert Walk(h, Ptr(root), []) == Some(Ptr(root));
        }
        WalkUnchanged(h, h', h[root][j], rest);
      }
    }
    forall p: Path ensures ViewMemory(h', Ptr(root), p) == ViewTree(Obj(t.members - {k}), p) {
      assert ViewMemory(h, Ptr(root), p) == ViewTree(t, p);
    }
  }

  /** The members still in todo are as they were, the other selected ones are done. */
  ghost predicate PartlyDeleted(cur: Json, t: Json, p: Pattern, todo: set<string>)
    requires t.Obj? && p.inner != []
  {
    && cur.Obj? && cur.members.Keys == t.members.Keys && todo <= t.members.Keys
    && (forall k :: k in todo ==> Selects(p.inner[0], Key(k)))
    && forall k :: k in t.members ==>
         cur.members[k] == if Selects(p.inner[0], Key(k)) && k !in todo then Del(t.members[k], p.Tail())
                           else t.members[k]
  }

  lemma AllDeleted(cur: Json, t: Json, p: Pattern)
    requires t.Obj? && p.inner != [] && PartlyDeleted(cur, t, p, {})
    ensures cur == Del(t, p)
  {
    assert cur.members == Del(t, p).members;
  }

  /** jp's Del in place; a value that is not a map is replaced. */
  method DelInPlace(r: Ref, p: Pattern, ghost t: Json, ghost nodes: set<Node>) returns (r': Ref)
    requires IsTree(Snapshot(nodes), r, nodes) && Denotes(Snapshot(nodes), r, t)
    modifies nodes
    ensures IsTree(Snapshot(nodes), r', nodes) && Denotes(Snapshot(nodes), r', Del(t, p))
    ensures r.Ptr? ==> r' == r
    decreases t, 1
  {
    ghost var h := Snapshot(nodes);
    RootView(h, r, t);
    r' := r;
    if r.Plain? {
      r' := Plain(Del(r.v, p));
      PlainAnywhere(h, r'.v, nodes);
    } else if p.inner == [] {
      DelLast(r.node, p.last, t, nodes);
    } else {
      DelInMembers(r.node, p, t, nodes);
    }
  }

  lemma PlainAnywhere(h: Memory, v: Json, nodes: set<Node>)
    requires Closed(h, nodes) && !v.Obj?
    ensures IsTree(h, Plain(v), nodes) && Denotes(h, Plain(v), v)
  {
  }

  method DelLast(root: Node, k: string, ghost t: Json, ghost nodes: set<Node>)
    requires IsTree(Snapshot(nodes), Ptr(root), nodes) && Denotes(Snapshot(nodes), Ptr(root), t) && t.Obj?
    modifies nodes
    ensures IsTree(Snapshot(nodes), Ptr(root), nodes)
    ensures Denotes(Snapshot(nodes), Ptr(root), Obj(t.members - {k}))
  {
    ghost var h := Snapshot(nodes);
    WithoutMember(h, root, nodes, k, t);
    root.members := root.members - {k};
    assert Snapshot(nodes) == h[root := h[root] - {k}];
  }

  /** The members that the first selector selects, one by one. */
  method DelInMembers(root: Node, p: Pattern, ghost t: Json, ghost nodes: set<Node>)
    requires IsTree(Snapshot(nodes), Ptr(root), nodes) && Denotes(Snapshot(nodes), Ptr(root), t)
    requires t.Obj? && p.inner != []
    modifies nodes
    ensures IsTree(Snapshot(nodes), Ptr(root), nodes) && Denotes(Snapshot(nodes), Ptr(root), Del(t, p))
    decreases t, 0
  {
    MembersView(Snapshot(nodes), Ptr(root), t);
    var todo := match p.inner[0] case Wild => root.members.Keys case Name(k) => root.members.Keys * {k};
    ghost var cur := t;
    while todo != {}
      invariant IsTree(Snapshot(nodes), Ptr(root), nodes) && Denotes(Snapshot(nodes), Ptr(root), cur)
      invariant PartlyDeleted(cur, t, p, todo)
      decreases todo
    {
      var k :| k in todo;
      DelInMember(root, k, p.Tail(), cur, t.members[k], nodes);
      cur := Obj(cur.members[k := Del(cur.members[k], p.Tail())]);
      todo := todo - {k};
    }
    AllDeleted(cur, t, p);
  }

  method DelInMember(root: Node, k: string, p: Pattern, ghost t: Json, ghost x: Json, ghost nodes: set<Node>)
    requires IsTree(Snapshot(nodes), Ptr(root), nodes) && Denotes(Snapshot(nodes), Ptr(root), t)
    requires t.Obj? && k in t.members && x == t.members[k]
    modifies nodes
    ensures IsTree(Snapshot(nodes), Ptr(root), nodes)
    ensures Denotes(Snapshot(nodes), Ptr(root), Obj(t.members[k := Del(x, p)]))
    decreases x, 2
  {
    ghost var h := Snapshot(nodes);
    MembersView(h, Ptr(root), t);
    ghost var sub := Below(h, h[root][k], nodes);
    MemberTree(h, root, nodes, k, t, sub, Snapshot(sub));
    var r := DelInPlace(root.members[k], p, x, sub);
    ghost var g := Snapshot(sub);
    root.members := root.members[k := r];
    ReplantedTree(h, Snapshot(nodes), g, root, nodes, k, r, sub, t, Del(x, p));
  }

  // ----- normalize -----

  lemma NothingProjected(h: Memory, target: Node, source: Node, given: set<Node>, d: Json)
    requires target !in given && h.Keys == {target} + given && h[target] == map[]
    requires IsTree(h, Ptr(source), given) && Denotes(h, Ptr(source), d)
    ensures Holds(h, target, source, {target}, given, [], EMPTY, d)
  {
    forall p: Path ensures Walk(h, Ptr(target), p) == if p == [] then Some(Ptr(target)) else None {
    }
  }

  /** The two loops, in place: whatever the normalised map shares with the conversion of the object, its
      value is the normalisation of the object on values. */
  method NormalizeObject(o: Json, ensured: seq<Path>, ignored: seq<Pattern>) returns (r: Result<Json>)
    requires o.Obj?
    ensures r == Normalize(o, ensured, ignored)
  {
    var uIn, given := Build(o);
    RootView(Snapshot(given), uIn, o);
    var normalized := new Node();
    ghost var h := Snapshot({normalized} + given);
    TreeElsewhere(Snapshot(given), h, uIn, given, o);
    NothingProjected(h, normalized, uIn.node, given, o);
    var ok, own := ProjectProperties(normalized, uIn.node, ensured, {normalized}, given, o);
    if !ok {
      return Failed;
    }
    ghost var nodes, projected := own + given, Project(o, ensured).value;
    for i := 0 to |ignored|
      invariant IsTree(Snapshot(nodes), Ptr(normalized), nodes)
      invariant Denotes(Snapshot(nodes), Ptr(normalized), DelAll(projected, ignored[..i]))
    {
      assert ignored[..i + 1][..i] == ignored[..i];
      var _ := DelInPlace(Ptr(normalized), ignored[i], DelAll(projected, ignored[..i]), nodes);
    }
    assert ignored[..|ignored|] == ignored;
    var out := ReadBack(Ptr(normalized), DelAll(projected, ignored), nodes);
    return Ok(out);
  }
}
