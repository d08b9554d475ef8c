/** JSON trees as the unstructured form of a Kubernetes object, and the get, set and
    delete operations that property paths perform on them. */
module JsonTree {

  datatype Option<+T> = None | Some(value: T)

  /** The program wraps every error of these operations in the same way, so errors carry nothing here. */
  datatype Result<+T> = Ok(value: T) | Failed

  datatype Json =
    | Null
    | Bool(b: bool)
    | Num(n: int)
    | Str(s: string)
    | Arr(elems: seq<Json>)
    | Obj(members: map<string, Json>)

  const EMPTY := Obj(map[])

  datatype Step = Key(name: string) | Index(i: nat)

  /** A location inside a tree; the root is []. */
  type Loc = seq<Step>

  /** An ensured property: object keys only. */
  type Path = p: Loc | forall s :: s in p ==> s.Key?

  function Get(t: Json, q: Loc): Option<Json> {
    if q == [] then Some(t)
    else match (t, q[0])
      case (Obj(m), Key(k)) => if k in m then Get(m[k], q[1..]) else None
      case (Arr(es), Index(i)) => if i < |es| then Get(es[i], q[1..]) else None
      case _ => None
  }

  /** Stores v at p, creating missing parents. Only objects can be followed, and the root cannot be replaced. */
  function Set(t: Json, p: Path, v: Json): (r: Result<Json>)
    ensures r.Ok? ==> r.value.Obj?
    decreases |p|
  {
    if p == [] || !t.Obj? then Failed
    else if |p| == 1 then Ok(Obj(t.members[p[0].name := v]))
    else
      var k := p[0].name;
      match Set(if k in t.members then t.members[k] else EMPTY, p[1..], v)
      case Failed => Failed
      case Ok(child) => Ok(Obj(t.members[k := child]))
  }

  // ----- labels: a tree seen as a function from locations -----

  datatype Label = Leaf(v: Json) | ArrayOf(n: nat) | ObjectNode

  function LabelOf(t: Json): Label {
    match t
    case Arr(es) => ArrayOf(|es|)
    case Obj(_) => ObjectNode
    case _ => Leaf(t)
  }

  /** What stands at location q: nothing, a leaf with its value, an array with its length, or an object. */
  function Look(t: Json, q: Loc): Option<Label> {
    match Get(t, q)
    case None => None
    case Some(x) => Some(LabelOf(x))
  }

  ghost predicate SameLooks(a: Json, b: Json) {
    forall q: Loc :: Look(a, q) == Look(b, q)
  }

  lemma {:induction false} GetConcat(t: Json, p: Loc, q: Loc)
    ensures Get(t, p + q) == match Get(t, p) case None => None case Some(x) => Get(x, q)
  {
    if p == [] {
      assert p + q == q;
    } else {
      assert (p + q)[0] == p[0] && (p + q)[1..] == p[1..] + q;
      match (t, p[0])
      case (Obj(m), Key(k)) => if k in m { GetConcat(m[k], p[1..], q); }
      case (Arr(es), Index(i)) => if i < |es| { GetConcat(es[i], p[1..], q); }
      case _ =>
    }
  }

  lemma LookBelow(t: Json, p: Loc, x: Json, q: Loc)
    requires Get(t, p) == Some(x)
    ensures Look(t, p + q) == Look(x, q)
  {
    GetConcat(t, p, q);
  }

  lemma GetPrefix(t: Json, p: Loc, q: Loc)
    requires p <= q && Get(t, q).Some?
    ensures Get(t, p).Some?
    ensures p < q ==> !LabelOf(Get(t, p).value).Leaf?
    ensures p < q && q[|p|].Key? ==> Get(t, p).value.Obj?
  {
    assert q == p + q[|p|..];
    GetConcat(t, p, q[|p|..]);
  }

  lemma {:induction false} Extensional(a: Json, b: Json)
    requires SameLooks(a, b)
    ensures a == b
    decreases a
  {
    assert Look(a, []) == Look(b, []);
    match a
    case Obj(m) =>
      forall k | k in m || k in b.members
        ensures k in m && k in b.members && m[k] == b.members[k]
      {
        assert Look(a, [Key(k)]) == Look(b, [Key(k)]);
        assert Get(a, [Key(k)]).Some? <==> k in m;
        assert Get(b, [Key(k)]).Some? <==> k in b.members;
        ChildLooks(a, b, Key(k), m[k], b.members[k]);
        Extensional(m[k], b.members[k]);
      }
      assert m == b.members;
    case Arr(es) =>
      forall i | 0 <= i < |es|
        ensures es[i] == b.elems[i]
      {
        ChildLooks(a, b, Index(i), es[i], b.elems[i]);
        Extensional(es[i], b.elems[i]);
      }
    case _ =>
  }

  lemma ChildLooks(a: Json, b: Json, s: Step, x: Json, y: Json)
    requires SameLooks(a, b)
    requires Get(a, [s]) == Some(x) && Get(b, [s]) == Some(y)
    ensures SameLooks(x, y)
  {
    forall q: Loc ensures Look(x, q) == Look(y, q) {
      LookBelow(a, [s], x, q);
      LookBelow(b, [s], y, q);
      assert Look(a, [s] + q) == Look(b, [s] + q);
    }
  }

  /** Two trees hold the same value at p exactly when they look the same at p and everywhere below. */
  lemma SameGetLooks(a: Json, b: Json, p: Loc)
    ensures Get(a, p) == Get(b, p) <==> forall q: Loc :: p <= q ==> Look(a, q) == Look(b, q)
  {
    if Get(a, p) == Get(b, p) {
      forall q: Loc | p <= q ensures Look(a, q) == Look(b, q) {
        assert q == p + q[|p|..];
        GetConcat(a, p, q[|p|..]);
        GetConcat(b, p, q[|p|..]);
      }
    }
    if forall q: Loc :: p <= q ==> Look(a, q) == Look(b, q) {
      assert Look(a, p) == Look(b, p);
      if Get(a, p).Some? {
        forall q: Loc ensures Look(Get(a, p).value, q) == Look(Get(b, p).value, q) {
          LookBelow(a, p, Get(a, p).value, q);
          LookBelow(b, p, Get(b, p).value, q);
          assert p <= p + q;
        }
        Extensional(Get(a, p).value, Get(b, p).value);
      }
    }
  }

  // ----- Set -----

  /** Set succeeds exactly when the path is not the root and every proper prefix present in t is an object. */
  lemma {:induction false} SetSucceeds(t: Json, p: Path, v: Json)
    ensures Set(t, p, v).Ok? <==>
              p != [] && forall n :: 0 <= n < |p| && Get(t, p[..n]).Some? ==> Get(t, p[..n]).value.Obj?
    decreases |p|
  {
    if p != [] {
      assert p[..0] == [];
      if t.Obj? && |p| > 1 {
        var k := p[0].name;
        var child := if k in t.members then t.members[k] else EMPTY;
        SetSucceeds(child, p[1..], v);
        forall n | 0 < n < |p|
          ensures k in t.members ==> Get(t, p[..n]) == Get(child, p[1..][..n - 1])
          ensures k !in t.members ==> Get(t, p[..n]).None?
        {
          assert p[..n][0] == p[0] && p[..n][1..] == p[1..][..n - 1];
        }
        if k !in t.members {
          forall n | 0 <= n < |p| - 1 && Get(child, p[1..][..n]).Some?
            ensures Get(child, p[1..][..n]).value.Obj?
          {
          }
        } else if forall n :: 0 <= n < |p| && Get(t, p[..n]).Some? ==> Get(t, p[..n]).value.Obj? {
          forall n | 0 <= n < |p| - 1 && Get(child, p[1..][..n]).Some?
            ensures Get(child, p[1..][..n]).value.Obj?
          {
            assert Get(t, p[..n + 1]) == Get(child, p[1..][..n + 1 - 1]);
          }
        }
      }
    }
  }

  /** After a Set: v stands at p, objects stand above it, and everything else is as it was. */
  lemma {:induction false} LookAfterSet(t: Json, p: Path, v: Json, q: Loc)
    requires Set(t, p, v).Ok?
    ensures Look(Set(t, p, v).value, q) ==
            if p <= q then Look(v, q[|p|..]) else if q <= p then Some(ObjectNode) else Look(t, q)
    decreases |p|
  {
    if q != [] && q[0] == p[0] && |p| > 1 {
      var k := p[0].name;
      var child := if k in t.members then t.members[k] else EMPTY;
      LookAfterSet(child, p[1..], v, q[1..]);
      PrefixStep(p, q);
      if k !in t.members && !(p <= q) && !(q <= p) {
        assert Look(EMPTY, q[1..]).None?;
      }
    }
  }

  lemma PrefixStep(p: Loc, q: Loc)
    requires p != [] && q != [] && p[0] == q[0]
    ensures p <= q <==> p[1..] <= q[1..]
    ensures q <= p <==> q[1..] <= p[1..]
    ensures p <= q ==> q[|p|..] == q[1..][|p[1..]|..]
  {
  }

  lemma GetAfterSet(t: Json, p: Path, v: Json)
    requires Set(t, p, v).Ok?
    ensures Get(Set(t, p, v).value, p) == Some(v)
  {
    var t' := Set(t, p, v).value;
    LookAfterSet(t, p, v, p);
    assert Look(v, []).Some? && p[|p|..] == [];
    forall q: Loc ensures Look(Get(t', p).value, q) == Look(v, q) {
      LookBelow(t', p, Get(t', p).value, q);
      LookAfterSet(t, p, v, p + q);
      assert (p + q)[|p|..] == q;
    }
    Extensional(Get(t', p).value, v);
  }

  // ----- Delete -----

  datatype Selector = Name(name: string) | Wild

  /** An ignored property: names and inner wildcards, ending in a name. */
  datatype Pattern = Pattern(inner: seq<Selector>, last: string) {
    function Tail(): Pattern
      requires inner != []
    {
      Pattern(inner[1..], last)
    }
  }

  /** Section 2.3.1 (name) and 2.3.2 (wildcard) of RFC 9535. */
  predicate Selects(s: Selector, step: Step) {
    s.Wild? || step == Key(s.name)
  }

  /** q lies at, or below, a location that the pattern selects. */
  predicate Hits(p: Pattern, q: Loc) {
    && |p.inner| < |q|
    && q[|p.inner|] == Key(p.last)
    && forall i :: 0 <= i < |p.inner| ==> p.inner[i].Wild? || q[i] == Key(p.inner[i].name)
  }

  /** Removes every member the pattern selects. A pattern that selects nothing changes nothing. */
  function Del(t: Json, p: Pattern): (r: Json)
    ensures r.Obj? <==> t.Obj?
    decreases t
  {
    if p.inner == [] then
      if t.Obj? then Obj(t.members - {p.last}) else t
    else match t
      case Obj(m) => Obj(map k | k in m :: if Selects(p.inner[0], Key(k)) then Del(m[k], p.Tail()) else m[k])
      case Arr(es) =>
        if p.inner[0].Wild? then Arr(seq(|es|, i requires 0 <= i < |es| => Del(es[i], p.Tail()))) else t
      case _ => t
  }

  lemma HitsStep(p: Pattern, q: Loc)
    requires p.inner != [] && q != []
    ensures Hits(p, q) <==> Selects(p.inner[0], q[0]) && Hits(p.Tail(), q[1..])
  {
  }

  /** A deletion removes exactly the locations the pattern hits. */
  lemma {:induction false} LookAfterDel(t: Json, p: Pattern, q: Loc)
    ensures Look(Del(t, p), q) == if Hits(p, q) then None else Look(t, q)
    decreases t
  {
    if q != [] {
      if p.inner != [] {
        HitsStep(p, q);
        match (t, q[0])
        case (Obj(m), Key(k)) => if k in m { LookAfterDel(m[k], p.Tail(), q[1..]); }
        case (Arr(es), Index(i)) => if i < |es| { LookAfterDel(es[i], p.Tail(), q[1..]); }
        case _ =>
      }
    }
  }

  /** The pattern that selects exactly one key path. */
  function Literal(p: Path): (r: Pattern)
    requires p != []
    ensures forall q: Loc :: Hits(r, q) <==> p <= q
  {
    var r := Pattern(seq(|p| - 1, i requires 0 <= i < |p| - 1 => Name(p[i].name)), p[|p| - 1].name);
    assert forall q: Loc :: Hits(r, q) <==> p <= q by {
      forall q: Loc ensures Hits(r, q) <==> p <= q {
        if Hits(r, q) {
          forall i | 0 <= i < |p| ensures p[i] == q[i] {
            if i < |p| - 1 { assert Selects(r.inner[i], q[i]); }
          }
        }
      }
    }
    r
  }
}
