/** The lifecycle of the custom resource: initialisation, finalizer, deletion. First one undisturbed
    run, then the same run cut into its API calls and interleaved with users, failures and crashes. */
module Lifecycle {
  import opened JsonTree

  /** The parts of the custom resource that initialisation can change. */
  datatype Content = Content(finalizers: seq<string>, body: Json)

  /** The stored object; every accepted write gives it a new version. */
  datatype Stored = Stored(version: nat, deleting: bool, content: Content)

  type InitFn = Content -> Result<Content>

  // ----- options -----

  datatype LifecycleOption =
    | WithInit(fn: InitFn)
    | WithFinalizer(name: string)
    | WithFinalization(id: string)

  datatype Options = Options(init: seq<InitFn>, finalizer: Option<string>, finalization: seq<string>)

  function AddFinalizer(c: Content, f: string): Content {
    if f in c.finalizers then c else c.(finalizers := c.finalizers + [f])
  }

  function RemoveFinalizer(c: Content, f: string): Content {
    c.(finalizers := Without(c.finalizers, f))
  }

  function Without(s: seq<string>, f: string): (r: seq<string>)
    ensures f !in r
    ensures forall x :: x != f ==> (x in r <==> x in s)
  {
    if s == [] then []
    else if s[0] == f then Without(s[1..], f) else [s[0]] + Without(s[1..], f)
  }

  function ApplyOption(o: Options, opt: LifecycleOption): Options {
    match opt
    case WithInit(fn) => o.(init := o.init + [fn])
    case WithFinalizer(f) => o.(finalizer := Some(f), init := o.init + [(c: Content) => Ok(AddFinalizer(c, f))])
    case WithFinalization(id) => o.(finalization := o.finalization + [id])
  }

  function ApplyOptions(opts: seq<LifecycleOption>): Options {
    if opts == [] then Options([], None, [])
    else ApplyOption(ApplyOptions(opts[..|opts| - 1]), opts[|opts| - 1])
  }

  /** The chain of init functions, in order. */
  function RunChain(fns: seq<InitFn>, c: Content): Result<Content> {
    if fns == [] then Ok(c)
    else match RunChain(fns[..|fns| - 1], c)
      case Failed => Failed
      case Ok(d) => fns[|fns| - 1](d)
  }

  /** No init function takes the finalizer away. */
  ghost predicate KeepsFinalizer(fn: InitFn, f: string) {
    forall c: Content :: f in c.finalizers && fn(c).Ok? ==> f in fn(c).value.finalizers
  }

  ghost predicate OptionsKeep(opts: seq<LifecycleOption>, f: string) {
    forall opt :: opt in opts && opt.WithInit? ==> KeepsFinalizer(opt.fn, f)
  }

  /** With the finalizer option given, whatever the position, the chain's result carries the finalizer. */
  lemma {:induction false} ChainAddsFinalizer(opts: seq<LifecycleOption>, f: string, c: Content)
    requires OptionsKeep(opts, f) && RunChain(ApplyOptions(opts).init, c).Ok?
    ensures WithFinalizer(f) in opts || f in c.finalizers ==> f in RunChain(ApplyOptions(opts).init, c).value.finalizers
    decreases |opts|
  {
    if opts != [] {
      var front, opt := opts[..|opts| - 1], opts[|opts| - 1];
      assert opts == front + [opt];
      var fns := ApplyOptions(front).init;
      var all := ApplyOptions(opts).init;
      if all != fns {
        assert all[..|all| - 1] == fns;
        var d := RunChain(fns, c).value;
        assert RunChain(all, c) == all[|all| - 1](d);
        if opt.WithInit? { assert KeepsFinalizer(opt.fn, f); }
      }
      ChainAddsFinalizer(front, f, c);
    }
  }

  /** With one finalizer option only, that finalizer is the one remembered for removal. */
  lemma {:induction false} OneFinalizer(opts: seq<LifecycleOption>, f: string)
    requires forall opt :: opt in opts && opt.WithFinalizer? ==> opt.name == f
    ensures ApplyOptions(opts).finalizer == if WithFinalizer(f) in opts then Some(f) else None
    decreases |opts|
  {
    if opts != [] {
      assert opts == opts[..|opts| - 1] + [opts[|opts| - 1]];
      OneFinalizer(opts[..|opts| - 1], f);
    }
  }

  // ----- what the options ask for, read off the option list -----

  /** The finalization functions among the options, in option order. */
  function FinalizationIds(opts: seq<LifecycleOption>): seq<string> {
    if opts == [] then []
    else (if opts[0].WithFinalization? then [opts[0].id] else []) + FinalizationIds(opts[1..])
  }

  lemma {:induction false} IdsSnoc(opts: seq<LifecycleOption>, opt: LifecycleOption)
    ensures FinalizationIds(opts + [opt]) ==
            FinalizationIds(opts) + if opt.WithFinalization? then [opt.id] else []
    decreases |opts|
  {
    if opts == [] {
      assert (opts + [opt])[1..] == [];
    } else {
      assert (opts + [opt])[1..] == opts[1..] + [opt];
      IdsSnoc(opts[1..], opt);
    }
  }

  /** Every finalization function given is kept, in the order of the options. */
  lemma {:induction false} IdsCollected(opts: seq<LifecycleOption>)
    ensures ApplyOptions(opts).finalization == FinalizationIds(opts)
    decreases |opts|
  {
    if opts != [] {
      var front, opt := opts[..|opts| - 1], opts[|opts| - 1];
      assert opts == front + [opt];
      IdsCollected(front);
      IdsSnoc(front, opt);
    }
  }

  /** What one option makes of the object in memory during initialisation. */
  ghost predicate OptionStep(opt: LifecycleOption, c: Content, d: Content) {
    match opt
    case WithInit(fn) => fn(c) == Ok(d)
    case WithFinalizer(f) =>
      d.body == c.body && d.finalizers == if f in c.finalizers then c.finalizers else c.finalizers + [f]
    case WithFinalization(_) => d == c
  }

  ghost predicate Trace(opts: seq<LifecycleOption>, cs: seq<Content>) {
    |cs| == |opts| + 1 && forall i :: 0 <= i < |opts| ==> OptionStep(opts[i], cs[i], cs[i + 1])
  }

  /** The options, one after the other, make d of c. */
  ghost predicate Leads(opts: seq<LifecycleOption>, c: Content, d: Content) {
    exists cs :: Trace(opts, cs) && cs[0] == c && cs[|opts|] == d
  }

  lemma LeadsSnoc(opts: seq<LifecycleOption>, opt: LifecycleOption, c: Content, d: Content)
    ensures Leads(opts + [opt], c, d) <==> exists m :: Leads(opts, c, m) && OptionStep(opt, m, d)
  {
    var all := opts + [opt];
    if Leads(all, c, d) {
      var cs :| Trace(all, cs) && cs[0] == c && cs[|all|] == d;
      var before := cs[..|all|];
      forall i | 0 <= i < |opts| ensures OptionStep(opts[i], before[i], before[i + 1]) {
        assert OptionStep(all[i], cs[i], cs[i + 1]);
      }
      assert Trace(opts, before) && Leads(opts, c, cs[|opts|]);
      assert OptionStep(all[|opts|], cs[|opts|], cs[|opts| + 1]);
    }
    if m :| Leads(opts, c, m) && OptionStep(opt, m, d) {
      var before :| Trace(opts, before) && before[0] == c && before[|opts|] == m;
      var cs := before + [d];
      forall i | 0 <= i < |all| ensures OptionStep(all[i], cs[i], cs[i + 1]) {
        if i < |opts| { assert OptionStep(opts[i], before[i], before[i + 1]); }
      }
      assert Trace(all, cs);
    }
  }

  /** The chain makes of an object what the options, one after the other, make of it. */
  lemma {:induction false} ChainFollowsOptions(opts: seq<LifecycleOption>, c: Content, d: Content)
    ensures RunChain(ApplyOptions(opts).init, c) == Ok(d) <==> Leads(opts, c, d)
    decreases |opts|
  {
    if opts == [] {
      assert Trace(opts, [c]);
    } else {
      var front, opt := opts[..|opts| - 1], opts[|opts| - 1];
      assert opts == front + [opt];
      LeadsSnoc(front, opt, c, d);
      ChainSnoc(front, opt, c);
      var r := RunChain(ApplyOptions(front).init, c);
      if r.Ok? { ChainFollowsOptions(front, c, r.value); }
      forall m | Leads(front, c, m) ensures r == Ok(m) { ChainFollowsOptions(front, c, m); }
    }
  }

  lemma ChainSnoc(front: seq<LifecycleOption>, opt: LifecycleOption, c: Content)
    ensures var all, r := ApplyOptions(front + [opt]).init, RunChain(ApplyOptions(front).init, c);
            RunChain(all, c) ==
            if r.Failed? then Failed
            else match opt
              case WithInit(fn) => fn(r.value)
              case WithFinalizer(f) =>
                Ok(if f in r.value.finalizers then r.value else r.value.(finalizers := r.value.finalizers + [f]))
              case WithFinalization(_) => r
  {
    var opts := front + [opt];
    assert opts[..|opts| - 1] == front && opts[|opts| - 1] == opt;
    var fns, all := ApplyOptions(front).init, ApplyOptions(opts).init;
    if !opt.WithFinalization? {
      assert all[..|all| - 1] == fns;
    }
  }

  ghost predicate FailsAt(opts: seq<LifecycleOption>, c: Content, n: nat, d: Content)
    requires n < |opts|
  {
    opts[n].WithInit? && Leads(opts[..n], c, d) && opts[n].fn(d).Failed?
  }

  ghost predicate FailsSomewhere(opts: seq<LifecycleOption>, c: Content) {
    exists n, d :: 0 <= n < |opts| && FailsAt(opts, c, n, d)
  }

  lemma FailsSnoc(front: seq<LifecycleOption>, opt: LifecycleOption, c: Content)
    ensures FailsSomewhere(front + [opt], c) <==>
              || FailsSomewhere(front, c)
              || exists d :: opt.WithInit? && Leads(front, c, d) && opt.fn(d).Failed?
  {
    var opts := front + [opt];
    assert opts[..|front|] == front;
    forall n, d | 0 <= n < |front| ensures FailsAt(front, c, n, d) <==> FailsAt(opts, c, n, d) {
      assert front[..n] == opts[..n];
    }
    if d :| opt.WithInit? && Leads(front, c, d) && opt.fn(d).Failed? { assert FailsAt(opts, c, |front|, d); }
  }

  /** The chain fails exactly when an init function fails on what the options before it made. */
  lemma {:induction false} ChainFails(opts: seq<LifecycleOption>, c: Content)
    ensures RunChain(ApplyOptions(opts).init, c).Failed? <==> FailsSomewhere(opts, c)
    decreases |opts|
  {
    if opts != [] {
      var front, opt := opts[..|opts| - 1], opts[|opts| - 1];
      assert opts == front + [opt];
      ChainSnoc(front, opt, c);
      ChainFails(front, c);
      FailsSnoc(front, opt, c);
      var r := RunChain(ApplyOptions(front).init, c);
      forall d ensures r == Ok(d) <==> Leads(front, c, d) { ChainFollowsOptions(front, c, d); }
    }
  }

  // ----- one undisturbed run -----

  datatype RunResult = Continue | Return | Requeue | Error

  /** What fails in a run; failing holds the finalization functions that return an error. */
  datatype Faults = Faults(get: bool, failing: set<string>, update: bool, inMemory: bool)

  datatype Call = Call(id: string, ok: bool)

  /** An accepted update; the object goes away with its last finalizer once it is being deleted. */
  function Accept(o: Stored, c: Content): Option<Stored> {
    if o.deleting && c.finalizers == [] then None else Some(Stored(o.version + 1, o.deleting, c))
  }

  function Finalize(ids: seq<string>, failing: set<string>): (seq<Call>, bool) {
    if ids == [] then ([], true)
    else if ids[0] in failing then ([Call(ids[0], false)], false)
    else
      var (calls, ok) := Finalize(ids[1..], failing);
      ([Call(ids[0], true)] + calls, ok)
  }

  function AllOk(ids: seq<string>): seq<Call> {
    seq(|ids|, i requires 0 <= i < |ids| => Call(ids[i], true))
  }

  /** ManageResourceLifecycle without interference: the object left, the finalization calls made, the result. */
  function RunOnce(server: Option<Stored>, o: Options, faults: Faults): (Option<Stored>, seq<Call>, RunResult) {
    if faults.get then (server, [], Error)
    else match server
      case None => (server, [], Return)
      case Some(obj) =>
        if obj.deleting then
          if o.finalizer.None? || o.finalizer.value !in obj.content.finalizers then (server, [], Return)
          else
            var (calls, ok) := Finalize(o.finalization, faults.failing);
            if !ok || faults.update then (server, calls, Error)
            else (Accept(obj, RemoveFinalizer(obj.content, o.finalizer.value)), calls, Return)
        else match RunChain(o.init, obj.content)
          case Failed => (server, [], Error)
          case Ok(c) =>
            if c == obj.content then (server, [], if faults.inMemory then Error else Continue)
            else if faults.update then (server, [], Error)
            else (Accept(obj, c), [], Requeue)
  }

  /** The calls made: the functions in order, each as it fails or not, up to the first failure. */
  ghost predicate CallsInOrder(calls: seq<Call>, ids: seq<string>, failing: set<string>) {
    && |calls| <= |ids|
    && (forall i :: 0 <= i < |calls| ==> calls[i].id == ids[i] && calls[i].ok == (ids[i] !in failing))
    && (forall i :: 0 <= i < |calls| - 1 ==> calls[i].ok)
    && (|calls| < |ids| ==> |calls| > 0 && !calls[|calls| - 1].ok)
  }

  lemma {:induction false} FinalizeCalls(ids: seq<string>, failing: set<string>)
    ensures CallsInOrder(Finalize(ids, failing).0, ids, failing)
    ensures Finalize(ids, failing).1 <==> forall i :: 0 <= i < |ids| ==> ids[i] !in failing
    decreases |ids|
  {
    if ids != [] { FinalizeCalls(ids[1..], failing); }
  }

  lemma {:induction false} WithoutAbsent(s: seq<string>, f: string)
    requires f !in s
    ensures Without(s, f) == s
    decreases |s|
  {
    if s != [] { WithoutAbsent(s[1..], f); }
  }

  lemma {:induction false} WithoutOnce(a: seq<string>, f: string, b: seq<string>)
    requires f !in a && f !in b
    ensures Without(a + [f] + b, f) == a + b
    decreases |a|
  {
    if a == [] {
      assert (a + [f] + b)[1..] == b;
      WithoutAbsent(b, f);
    } else {
      assert (a + [f] + b)[1..] == a[1..] + [f] + b;
      WithoutOnce(a[1..], f, b);
      assert [a[0]] + (a[1..] + b) == a + b;
    }
  }

  lemma {:induction false} WithoutCounts(s: seq<string>, f: string)
    ensures multiset(Without(s, f)) == multiset(s)[f := 0]
    decreases |s|
  {
    if s != [] {
      assert s == [s[0]] + s[1..];
      WithoutCounts(s[1..], f);
    }
  }

  /** The finalizers left: all but f, none lost or added, and in their order where f stood once. */
  ghost predicate OnlyGone(rest: seq<string>, finalizers: seq<string>, f: string) {
    && multiset(rest) == multiset(finalizers)[f := 0]
    && forall a, b :: finalizers == a + [f] + b && f !in a && f !in b ==> rest == a + b
  }

  /** A run over an object that is being deleted and carries the finalizer. All functions given as options are
      called in their order, up to a failure; without one, and with an accepted update, the finalizer and nothing
      else goes, and with the last finalizer the object. */
  lemma DeletingRunResult(obj: Stored, opts: seq<LifecycleOption>, f: string, faults: Faults)
    requires WithFinalizer(f) in opts && forall opt :: opt in opts && opt.WithFinalizer? ==> opt.name == f
    requires obj.deleting && f in obj.content.finalizers && !faults.get
    ensures var (server, calls, result) := RunOnce(Some(obj), ApplyOptions(opts), faults);
            var ids := FinalizationIds(opts);
            && CallsInOrder(calls, ids, faults.failing)
            && if (exists i :: 0 <= i < |ids| && ids[i] in faults.failing) || faults.update
               then server == Some(obj) && result == Error
               else
                 && result == Return
                 && (server.None? <==> forall x :: x in obj.content.finalizers ==> x == f)
                 && (server.Some? ==>
                       && server.value.version == obj.version + 1 && server.value.deleting
                       && server.value.content.body == obj.content.body
                       && OnlyGone(server.value.content.finalizers, obj.content.finalizers, f))
  {
    OneFinalizer(opts, f);
    IdsCollected(opts);
    FinalizeCalls(FinalizationIds(opts), faults.failing);
    WithoutIsGone(obj.content.finalizers, f);
  }

  lemma WithoutIsGone(finalizers: seq<string>, f: string)
    ensures OnlyGone(Without(finalizers, f), finalizers, f)
    ensures Without(finalizers, f) == [] <==> forall x :: x in finalizers ==> x == f
  {
    var rest := Without(finalizers, f);
    WithoutCounts(finalizers, f);
    forall a, b | finalizers == a + [f] + b && f !in a && f !in b ensures rest == a + b { WithoutOnce(a, f, b); }
    if rest != [] {
      assert rest[0] in rest;
    }
    if x :| x in finalizers && x != f {
      assert x in rest;
    }
  }

  /** Every other run: a failed read ends it; an object being deleted without the finalizer is left alone; a live
      one becomes what the options make of it, with a requeue, or is left alone with Continue if they change nothing. */
  lemma OtherRunResult(server: Option<Stored>, opts: seq<LifecycleOption>, f: string, faults: Faults)
    requires WithFinalizer(f) in opts && forall opt :: opt in opts && opt.WithFinalizer? ==> opt.name == f
    requires faults.get || (server.Some? && server.value.deleting ==> f !in server.value.content.finalizers)
    ensures var (left, calls, result) := RunOnce(server, ApplyOptions(opts), faults);
            && calls == []
            && (faults.get ==> left == server && result == Error)
            && (!faults.get && (server.None? || server.value.deleting) ==> left == server && result == Return)
            && (!faults.get && server.Some? && !server.value.deleting ==>
                  LiveRunLeaves(server.value, opts, faults, left, result))
  {
    OneFinalizer(opts, f);
    if server.Some? && !server.value.deleting {
      var c := server.value.content;
      ChainFails(opts, c);
      var r := RunChain(ApplyOptions(opts).init, c);
      if r.Ok? { ChainFollowsOptions(opts, c, r.value); }
    }
  }

  ghost predicate LiveRunLeaves(obj: Stored, opts: seq<LifecycleOption>, faults: Faults, left: Option<Stored>,
                                result: RunResult)
  {
    if FailsSomewhere(opts, obj.content) then left == Some(obj) && result == Error
    else exists d :: Leads(opts, obj.content, d) && StoresResult(obj, d, faults, left, result)
  }

  predicate StoresResult(obj: Stored, d: Content, faults: Faults, left: Option<Stored>, result: RunResult) {
    if d == obj.content then left == Some(obj) && result == if faults.inMemory then Error else Continue
    else if faults.update then left == Some(obj) && result == Error
    else left == Some(Stored(obj.version + 1, false, d)) && result == Requeue
  }

  class CustomResource {
    var server: Option<Stored>
    var calls: seq<Call>

    /** finalize: the functions in order, up to the first error. */
    method RunFinalization(ids: seq<string>, failing: set<string>) returns (ok: bool)
      modifies this`calls
      ensures ok == Finalize(ids, failing).1
      ensures calls == old(calls) + Finalize(ids, failing).0
    {
      for i := 0 to |ids|
        invariant calls + Finalize(ids[i..], failing).0 == old(calls) + Finalize(ids, failing).0
        invariant Finalize(ids[i..], failing).1 == Finalize(ids, failing).1
      {
        assert ids[i..][1..] == ids[i + 1..];
        ok := ids[i] !in failing;
        calls := calls + [Call(ids[i], ok)];
        if !ok {
          return;
        }
      }
      ok := true;
    }

    /** isInitialized: runs the chain on the object in memory and reports whether it changed nothing. */
    method IsInitialized(fns: seq<InitFn>, content: Content) returns (ok: bool, r: Result<Content>)
      ensures r == RunChain(fns, content)
      ensures ok <==> r == Ok(content)
    {
      var c := content;
      for i := 0 to |fns|
        invariant RunChain(fns[..i], content) == Ok(c)
      {
        assert fns[..i + 1][..i] == fns[..i];
        var next := fns[i](c);
        if next.Failed? {
          ChainStuck(fns, content, i + 1);
          return false, Failed;
        }
        c := next.value;
      }
      assert fns[..|fns|] == fns;
      return c == content, Ok(c);
    }

    method ManageResourceLifecycle(opts: seq<LifecycleOption>, faults: Faults) returns (result: RunResult)
      modifies this
      ensures var (s, made, r) := RunOnce(old(server), ApplyOptions(opts), faults);
              server == s && calls == old(calls) + made && result == r
    {
      var o := Options([], None, []);
      for i := 0 to |opts|
        invariant o == ApplyOptions(opts[..i])
      {
        assert opts[..i + 1][..i] == opts[..i];
        o := ApplyOption(o, opts[i]);
      }
      assert opts[..|opts|] == opts;
      assert calls == calls + [];
      if faults.get {
        return Error;
      }
      if server.None? {
        return Return;
      }
      var obj := server.value;
      if obj.deleting {
        if o.finalizer.Some? && o.finalizer.value in obj.content.finalizers {
          var ok := RunFinalization(o.finalization, faults.failing);
          if !ok {
            return Error;
          }
          var content := RemoveFinalizer(obj.content, o.finalizer.value);
          if faults.update {
            return Error;
          }
          server := Accept(obj, content);
        }
        return Return;
      }
      var ok, chain := IsInitialized(o.init, obj.content);
      if chain.Failed? {
        return Error;
      }
      if !ok {
        if faults.update {
          return Error;
        }
        server := Accept(obj, chain.value);
        return Requeue;
      }
      return if faults.inMemory then Error else Continue;
    }
  }

  lemma {:induction false} ChainStuck(fns: seq<InitFn>, c: Content, n: nat)
    requires n <= |fns| && RunChain(fns[..n], c).Failed?
    ensures RunChain(fns, c) == Failed
    decreases |fns|
  {
    if n < |fns| {
      var front := fns[..|fns| - 1];
      assert front[..n] == fns[..n];
      ChainStuck(front, c, n);
    } else {
      assert fns[..n] == fns;
    }
  }

  /** Continue means: the stored object is not being deleted, the whole chain leaves it alone, and it
      carries the finalizer. */
  lemma ContinueMeansInitialised(server: Option<Stored>, opts: seq<LifecycleOption>, faults: Faults, f: string)
    requires OptionsKeep(opts, f) && WithFinalizer(f) in opts
    requires RunOnce(server, ApplyOptions(opts), faults).2 == Continue
    ensures RunOnce(server, ApplyOptions(opts), faults).0 == server && server.Some? && !server.value.deleting
    ensures RunChain(ApplyOptions(opts).init, server.value.content) == Ok(server.value.content)
    ensures f in server.value.content.finalizers
  {
    ChainAddsFinalizer(opts, f, server.value.content);
  }

  // ----- undisturbed runs, one after the other -----

  /** The chain applied n times, each time to its own result. */
  function ChainPower(fns: seq<InitFn>, c: Content, n: nat): Result<Content> {
    if n == 0 then Ok(c)
    else match ChainPower(fns, c, n - 1)
      case Failed => Failed
      case Ok(d) => RunChain(fns, d)
  }

  const NO_FAULTS := Faults(false, {}, false, false)

  function ServerAfter(server: Option<Stored>, o: Options, n: nat): Option<Stored> {
    if n == 0 then server else RunOnce(ServerAfter(server, o, n - 1), o, NO_FAULTS).0
  }

  /** What run n returns. */
  function ResultOf(server: Option<Stored>, o: Options, n: nat): RunResult
    requires n > 0
  {
    RunOnce(ServerAfter(server, o, n - 1), o, NO_FAULTS).2
  }

  lemma {:induction false} ServerFollowsChain(obj: Stored, o: Options, n: nat)
    requires !obj.deleting
    ensures var s := ServerAfter(Some(obj), o, n);
            var c := ChainPower(o.init, obj.content, n);
            && s.Some? && !s.value.deleting
            && (if c.Ok? then s.value.content == c.value else RunChain(o.init, s.value.content).Failed?)
  {
    if n > 0 { ServerFollowsChain(obj, o, n - 1); }
  }

  /** Undisturbed, run n fails exactly when the n-fold chain fails, returns Continue exactly when applying the
      chain once more than n - 1 times changes nothing, and else asks for a requeue; so initialisation ends
      exactly when the powers of the chain reach a fixed point, and then at the first one. */
  lemma InitialisationEnds(obj: Stored, o: Options, n: nat)
    requires !obj.deleting && n > 0
    ensures var c := ChainPower(o.init, obj.content, n);
            ResultOf(Some(obj), o, n) ==
            if c.Failed? then Error
            else if c == ChainPower(o.init, obj.content, n - 1) then Continue
            else Requeue
  {
    ServerFollowsChain(obj, o, n - 1);
  }

  /** A fixed point of the chain stays one. */
  lemma {:induction false} FixedPowersStay(fns: seq<InitFn>, c: Content, n: nat, m: nat)
    requires 0 < n <= m && ChainPower(fns, c, n).Ok? && ChainPower(fns, c, n) == ChainPower(fns, c, n - 1)
    ensures ChainPower(fns, c, m).Ok? && ChainPower(fns, c, m) == ChainPower(fns, c, m - 1) == ChainPower(fns, c, n)
    decreases m
  {
    if n < m { FixedPowersStay(fns, c, n, m - 1); }
  }

  // ----- the run cut into its calls -----

  datatype Program =
    | Idle
    | Finalizing(snap: Stored, done: nat)          // done finalization functions have returned nil
    | Initializing(snap: Stored)
    | Updating(snap: Stored, content: Content)     // the update that stores the chain's result

  /** continued: some run has returned Continue. stripped: the finalization calls of the run whose update
      took the finalizer away. */
  datatype State = State(
    server: Option<Stored>,
    program: Program,
    run: seq<Call>,
    continued: bool,
    stripped: Option<seq<Call>>)

  datatype Action =
    | UserEdit(content: Content)   // anyone but the controller writes the object
    | UserDelete
    | Read(fails: bool)
    | FnReturns(ok: bool)          // the next finalization function returns
    | Update(accepted: bool)       // the pending update; it is also refused when the object moved on
    | Init(outcome: Result<Content>, inMemoryFails: bool)   // the init chain runs in memory; it may read anything
    | Crash

  datatype Setup = Setup(finalizer: string, opts: seq<LifecycleOption>) {
    function Chain(): seq<InitFn> {
      ApplyOptions(opts).init
    }

    function Ids(): seq<string> {
      ApplyOptions(opts).finalization
    }

    ghost predicate Valid() {
      && WithFinalizer(finalizer) in opts
      && (forall opt :: opt in opts && opt.WithFinalizer? ==> opt.name == finalizer)
      && OptionsKeep(opts, finalizer)
    }
  }

  /** Users and other controllers may edit anything but never take the finalizer away; the init chain, whatever
      it reads and computes, leaves the finalizer in its result. */
  predicate Allowed(s: State, a: Action, f: string) {
    match a
    case UserEdit(c) => s.server.Some? && f in s.server.value.content.finalizers ==> f in c.finalizers
    case Init(outcome, _) => outcome.Ok? ==> f in outcome.value.finalizers
    case _ => true
  }

  /** The program's next step; an action that does not apply changes nothing. */
  function Next(s: State, a: Action, u: Setup): State {
    match a
    case UserEdit(c) => if s.server.Some? then s.(server := Accept(s.server.value, c)) else s
    case UserDelete =>
      if s.server.None? || s.server.value.deleting then s
      else if s.server.value.content.finalizers == [] then s.(server := None)
      else s.(server := Some(Stored(s.server.value.version + 1, true, s.server.value.content)))
    case Read(fails) =>
      if !s.program.Idle? || fails || s.server.None? then s
      else
        var obj := s.server.value;
        if !obj.deleting then s.(program := Initializing(obj), run := [])
        else if u.finalizer in obj.content.finalizers then s.(program := Finalizing(obj, 0), run := [])
        else s
    case FnReturns(ok) =>
      if !s.program.Finalizing? || s.program.done >= |u.Ids()| then s
      else s.(run := s.run + [Call(u.Ids()[s.program.done], ok)],
              program := if ok then Finalizing(s.program.snap, s.program.done + 1) else Idle)
    case Update(accepted) => UpdateStep(s, accepted, u)
    case Init(outcome, inMemoryFails) =>
      if !s.program.Initializing? then s
      else
        if outcome.Failed? then s.(program := Idle)
        else if outcome.value != s.program.snap.content then s.(program := Updating(s.program.snap, outcome.value))
        else s.(program := Idle, continued := s.continued || !inMemoryFails)
    case Crash => s.(program := Idle)
  }

  function UpdateStep(s: State, accepted: bool, u: Setup): State {
    match s.program
    case Finalizing(snap, done) =>
      if done < |u.Ids()| then s
      else if accepted && s.server.Some? && s.server.value.version == snap.version then
        s.(server := Accept(s.server.value, RemoveFinalizer(snap.content, u.finalizer)),
           program := Idle, stripped := Some(s.run))
      else s.(program := Idle)
    case Updating(snap, c) =>
      if accepted && s.server.Some? && s.server.value.version == snap.version then
        s.(server := Accept(s.server.value, c), program := Idle)
      else s.(program := Idle)
    case _ => s
  }

  function Exec(s: State, acts: seq<Action>, u: Setup): State {
    if acts == [] then s else Next(Exec(s, acts[..|acts| - 1], u), acts[|acts| - 1], u)
  }

  ghost predicate AllAllowed(s: State, acts: seq<Action>, u: Setup) {
    forall n :: 0 <= n < |acts| ==> Allowed(Exec(s, acts[..n], u), acts[n], u.finalizer)
  }

  predicate HasFinalizer(server: Option<Stored>, f: string) {
    server.Some? && f in server.value.content.finalizers
  }

  /** A snapshot is the stored object of its version. */
  predicate SnapshotOf(snap: Stored, server: Option<Stored>) {
    server.Some? ==>
      snap.version <= server.value.version && (snap.version == server.value.version ==> snap == server.value)
  }

  predicate Inv(s: State, u: Setup) {
    && (match s.program
        case Idle => true
        case Finalizing(snap, done) =>
          SnapshotOf(snap, s.server) && done <= |u.Ids()| && s.run == AllOk(u.Ids()[..done])
        case Initializing(snap) =>
          SnapshotOf(snap, s.server) && (u.finalizer in snap.content.finalizers ==> HasFinalizer(s.server, u.finalizer))
        case Updating(snap, c) => SnapshotOf(snap, s.server) && u.finalizer in c.finalizers)
    && (s.continued ==> HasFinalizer(s.server, u.finalizer) || s.stripped == Some(AllOk(u.Ids())))
  }

  lemma StepKeepsInv(s: State, a: Action, u: Setup)
    requires Inv(s, u) && Allowed(s, a, u.finalizer)
    ensures Inv(Next(s, a, u), u)
  {
    if a.FnReturns? && s.program.Finalizing? && s.program.done < |u.Ids()| {
      var done := s.program.done;
      assert AllOk(u.Ids()[..done + 1]) == AllOk(u.Ids()[..done]) + [Call(u.Ids()[done], true)];
    }
    if s.program.Finalizing? && s.program.done == |u.Ids()| {
      assert u.Ids()[..s.program.done] == u.Ids();
    }
  }

  lemma {:induction false} ExecKeepsInv(s: State, acts: seq<Action>, u: Setup)
    requires Inv(s, u) && AllAllowed(s, acts, u)
    ensures Inv(Exec(s, acts, u), u)
    decreases |acts|
  {
    if acts != [] {
      var front := acts[..|acts| - 1];
      forall n | 0 <= n < |front| ensures Allowed(Exec(s, front[..n], u), front[n], u.finalizer) {
        assert front[..n] == acts[..n];
      }
      ExecKeepsInv(s, front, u);
      assert Allowed(Exec(s, acts[..|front|], u), acts[|front|], u.finalizer);
      StepKeepsInv(Exec(s, front, u), acts[|front|], u);
    }
  }

  /** Exactly the given functions, in order, each with success. */
  predicate AllCalled(calls: seq<Call>, ids: seq<string>) {
    |calls| == |ids| && forall i :: 0 <= i < |ids| ==> calls[i].id == ids[i] && calls[i].ok
  }

  /** Safety over all runs: whatever users, failing functions, refused updates and crashes do in between,
      once some reconcile has returned Continue the custom resource is gone only if one run called every
      finalization function, in order, each with success, and then took the finalizer away. */
  lemma NeverGoneUnfinalized(server: Option<Stored>, acts: seq<Action>, u: Setup)
    requires AllAllowed(State(server, Idle, [], false, None), acts, u)
    ensures var s := Exec(State(server, Idle, [], false, None), acts, u);
            s.continued && (s.server.None? || u.finalizer !in s.server.value.content.finalizers) ==>
              && s.stripped.Some?
              && AllCalled(s.stripped.value, FinalizationIds(u.opts))
  {
    IdsCollected(u.opts);
    ExecKeepsInv(State(server, Idle, [], false, None), acts, u);
  }

  /** No update is lost, over all runs: an update of the controller changes the stored object only while that is
      still the object the run has read. */
  lemma NoLostUpdates(server: Option<Stored>, acts: seq<Action>, u: Setup, accepted: bool)
    requires AllAllowed(State(server, Idle, [], false, None), acts, u)
    ensures var s := Exec(State(server, Idle, [], false, None), acts, u);
            Next(s, Update(accepted), u).server != s.server ==>
              accepted && (s.program.Finalizing? || s.program.Updating?) && s.server == Some(s.program.snap)
  {
    ExecKeepsInv(State(server, Idle, [], false, None), acts, u);
    UpdateNeedsSnapshot(Exec(State(server, Idle, [], false, None), acts, u), u, accepted);
  }

  lemma UpdateNeedsSnapshot(s: State, u: Setup, accepted: bool)
    requires Inv(s, u)
    ensures Next(s, Update(accepted), u).server != s.server ==>
              accepted && (s.program.Finalizing? || s.program.Updating?) && s.server == Some(s.program.snap)
  {
  }

  /** An edit that comes between a read and its update is stored, and stays. */
  lemma EditWins(s: State, u: Setup, c: Content, accepted: bool)
    requires Inv(s, u) && s.server.Some?
    ensures var edited := Next(s, UserEdit(c), u);
            && edited.server == (if s.server.value.deleting && c.finalizers == [] then None
                                 else Some(Stored(s.server.value.version + 1, s.server.value.deleting, c)))
            && Next(edited, Update(accepted), u).server == edited.server
  {
  }

  // ----- the undisturbed run is one of the interleavings -----

  function FnActions(ids: seq<string>, failing: set<string>): seq<Action> {
    if ids == [] then []
    else if ids[0] in failing then [FnReturns(false)]
    else [FnReturns(true)] + FnActions(ids[1..], failing)
  }

  /** What the chain makes of the stored object. */
  function Outcome(server: Option<Stored>, u: Setup): Result<Content> {
    match server
    case None => Failed
    case Some(obj) => RunChain(u.Chain(), obj.content)
  }

  function ActionsOf(server: Option<Stored>, u: Setup, faults: Faults): seq<Action> {
    [Read(faults.get)] + FnActions(u.Ids(), faults.failing)
    + [Init(Outcome(server, u), faults.inMemory), Update(!faults.update)]
  }

  lemma {:induction false} ExecConcat(s: State, a: seq<Action>, b: seq<Action>, u: Setup)
    ensures Exec(s, a + b, u) == Exec(Exec(s, a, u), b, u)
    decreases |b|
  {
    if b == [] {
      assert a + b == a;
    } else {
      assert (a + b)[..|a + b| - 1] == a + b[..|b| - 1];
      ExecConcat(s, a, b[..|b| - 1], u);
    }
  }

  /** Finalization functions called from position n on, by actions and by Finalize. */
  lemma {:induction false} FinalizationByActions(s: State, u: Setup, failing: set<string>, n: nat)
    requires n <= |u.Ids()| && s.program.Finalizing? && s.program.done == n
    ensures var (calls, ok) := Finalize(u.Ids()[n..], failing);
            Exec(s, FnActions(u.Ids()[n..], failing), u) ==
            s.(run := s.run + calls, program := if ok then Finalizing(s.program.snap, |u.Ids()|) else Idle)
    decreases |u.Ids()| - n
  {
    var ids := u.Ids()[n..];
    if ids == [] {
      assert s.run + [] == s.run;
    } else {
      OneAction(s, FnReturns(ids[0] !in failing), u);
      if ids[0] !in failing {
        assert ids[1..] == u.Ids()[n + 1..];
        var s1 := s.(run := s.run + [Call(ids[0], true)], program := Finalizing(s.program.snap, n + 1));
        assert Next(s, FnReturns(true), u) == s1;
        FinalizationByActions(s1, u, failing, n + 1);
        ExecConcat(s, [FnReturns(true)], FnActions(ids[1..], failing), u);
        FirstCall(s.run, ids, failing);
      }
    }
  }

  lemma FirstCall(run: seq<Call>, ids: seq<string>, failing: set<string>)
    requires ids != [] && ids[0] !in failing
    ensures run + Finalize(ids, failing).0 == run + [Call(ids[0], true)] + Finalize(ids[1..], failing).0
    ensures Finalize(ids, failing).1 == Finalize(ids[1..], failing).1
  {
    var (calls, ok) := Finalize(ids[1..], failing);
    assert Finalize(ids, failing) == ([Call(ids[0], true)] + calls, ok);
    ConcatAssociates(run, [Call(ids[0], true)], calls);
  }

  lemma ConcatAssociates<T>(a: seq<T>, b: seq<T>, c: seq<T>)
    ensures a + (b + c) == a + b + c
  {
  }

  lemma OneAction(s: State, a: Action, u: Setup)
    ensures Exec(s, [a], u) == Next(s, a, u)
  {
  }

  lemma {:induction false} FnActionsIgnored(s: State, ids: seq<string>, failing: set<string>, u: Setup)
    requires !s.program.Finalizing?
    ensures Exec(s, FnActions(ids, failing), u) == s
    decreases |ids|
  {
    if ids != [] {
      var first := FnReturns(ids[0] !in failing);
      OneAction(s, first, u);
      if ids[0] !in failing {
        FnActionsIgnored(s, ids[1..], failing, u);
        ExecConcat(s, [first], FnActions(ids[1..], failing), u);
      }
    }
  }

  /** The effect of one undisturbed run on the interleaved state. */
  ghost predicate Matches(s: State, s': State, u: Setup, faults: Faults) {
    var (server, calls, result) := RunOnce(s.server, ApplyOptions(u.opts), faults);
    && s'.server == server && s'.program.Idle?
    && s'.continued == (s.continued || result == Continue)
    && (s'.stripped != s.stripped ==> s'.stripped == Some(calls))
  }

  /** One call of ManageResourceLifecycle is the interleaving in which nobody else moves. */
  lemma RunOnceIsAnInterleaving(s: State, u: Setup, faults: Faults)
    requires u.Valid() && s.program.Idle?
    ensures Matches(s, Exec(s, ActionsOf(s.server, u, faults), u), u, faults)
    ensures AllAllowed(s, ActionsOf(s.server, u, faults), u)
  {
    RunIsAllowed(s, u, faults);
    OneFinalizer(u.opts, u.finalizer);
    ThreeParts(s, u, faults);
    if s.server.Some? && s.server.value.deleting {
      DeletingRun(s, u, faults);
    } else {
      LiveRun(s, u, faults);
    }
  }

  /** After a crash anywhere the next undisturbed run does all it would have done without it. */
  lemma CrashRecovers(s: State, u: Setup, faults: Faults)
    requires u.Valid()
    ensures var crashed := Next(s, Crash, u);
            && crashed.server == s.server && crashed.continued == s.continued
            && Matches(crashed, Exec(crashed, ActionsOf(s.server, u, faults), u), u, faults)
  {
    RunOnceIsAnInterleaving(Next(s, Crash, u), u, faults);
  }

  lemma {:induction false} OnlyReturns(ids: seq<string>, failing: set<string>)
    ensures forall a :: a in FnActions(ids, failing) ==> a.FnReturns?
    decreases |ids|
  {
    if ids != [] { OnlyReturns(ids[1..], failing); }
  }

  lemma RunIsAllowed(s: State, u: Setup, faults: Faults)
    requires u.Valid()
    ensures AllAllowed(s, ActionsOf(s.server, u, faults), u)
  {
    var acts := ActionsOf(s.server, u, faults);
    OnlyReturns(u.Ids(), faults.failing);
    if s.server.Some? && Outcome(s.server, u).Ok? { ChainAddsFinalizer(u.opts, u.finalizer, s.server.value.content); }
    forall n | 0 <= n < |acts| ensures Allowed(Exec(s, acts[..n], u), acts[n], u.finalizer) {
      assert acts[n] in acts;
    }
  }

  /** The last two actions of the run from s, in the state they meet. */
  function LastTwo(s: State, s2: State, u: Setup, faults: Faults): State {
    Next(Next(s2, Init(Outcome(s.server, u), faults.inMemory), u), Update(!faults.update), u)
  }

  lemma DeletingRun(s: State, u: Setup, faults: Faults)
    requires s.program.Idle? && s.server.Some? && s.server.value.deleting
    requires ApplyOptions(u.opts).finalizer == Some(u.finalizer)
    ensures var s2 := Exec(Next(s, Read(faults.get), u), FnActions(u.Ids(), faults.failing), u);
            Matches(s, LastTwo(s, s2, u, faults), u, faults)
  {
    var s1 := Next(s, Read(faults.get), u);
    if s1.program.Finalizing? {
      AfterFinalization(s1, u, faults);
    } else {
      FnActionsIgnored(s1, u.Ids(), faults.failing, u);
    }
  }

  lemma LiveRun(s: State, u: Setup, faults: Faults)
    requires s.program.Idle? && (s.server.Some? ==> !s.server.value.deleting)
    ensures var s2 := Exec(Next(s, Read(faults.get), u), FnActions(u.Ids(), faults.failing), u);
            Matches(s, LastTwo(s, s2, u, faults), u, faults)
  {
    var s1 := Next(s, Read(faults.get), u);
    FnActionsIgnored(s1, u.Ids(), faults.failing, u);
    if s1.program.Initializing? {
      var chain := RunChain(u.Chain(), s1.program.snap.content);
      var s3 := Next(s1, Init(Outcome(s.server, u), faults.inMemory), u);
      if chain.Failed? {
        assert s3 == s1.(program := Idle);
      } else if chain.value == s1.program.snap.content {
        assert s3 == s1.(program := Idle, continued := s.continued || !faults.inMemory);
      } else {
        assert s3 == s1.(program := Updating(s1.program.snap, chain.value));
      }
    } else {
      assert s1 == s;
    }
  }

  lemma AfterFinalization(s1: State, u: Setup, faults: Faults)
    requires s1.program.Finalizing? && s1.program.done == 0 && s1.run == []
    ensures var (calls, ok) := Finalize(u.Ids(), faults.failing);
            Exec(s1, FnActions(u.Ids(), faults.failing), u) ==
            s1.(run := calls, program := if ok then Finalizing(s1.program.snap, |u.Ids()|) else Idle)
  {
    assert u.Ids()[0..] == u.Ids();
    FinalizationByActions(s1, u, faults.failing, 0);
    var calls := Finalize(u.Ids(), faults.failing).0;
    assert [] + calls == calls;
  }

  lemma ThreeParts(s: State, u: Setup, faults: Faults)
    ensures var s1 := Next(s, Read(faults.get), u);
            var s2 := Exec(s1, FnActions(u.Ids(), faults.failing), u);
            Exec(s, ActionsOf(s.server, u, faults), u) == LastTwo(s, s2, u, faults)
  {
    var fns := FnActions(u.Ids(), faults.failing);
    var first, last := [Read(faults.get)], [Init(Outcome(s.server, u), faults.inMemory), Update(!faults.update)];
    OneAction(s, first[0], u);
    ExecConcat(s, first, fns, u);
    ExecConcat(s, first + fns, last, u);
    var s2 := Exec(s, first + fns, u);
    assert last[..1] == [last[0]] && last[..1][..0] == [];
    assert Exec(s2, last[..1], u) == Next(s2, last[0], u);
  }

  // ----- liveness: rounds in which nobody else moves -----

  function Rounds(s: State, u: Setup, n: nat): seq<Action> {
    if n == 0 then []
    else Rounds(s, u, n - 1) + ActionsOf(Exec(s, Rounds(s, u, n - 1), u).server, u, NO_FAULTS)
  }

  ghost predicate FixedAt(u: Setup, c: Content, n: nat) {
    n > 0 && ChainPower(u.Chain(), c, n).Ok? && ChainPower(u.Chain(), c, n) == ChainPower(u.Chain(), c, n - 1)
  }

  lemma OneRound(s: State, u: Setup)
    requires u.Valid() && s.program.Idle?
    ensures var s' := Exec(s, ActionsOf(s.server, u, NO_FAULTS), u);
            var (server, _, result) := RunOnce(s.server, ApplyOptions(u.opts), NO_FAULTS);
            s'.program.Idle? && s'.server == server && s'.continued == (s.continued || result == Continue)
  {
    RunOnceIsAnInterleaving(s, u, NO_FAULTS);
  }

  lemma FixedByRound(obj: Stored, u: Setup, n: nat)
    requires !obj.deleting && n > 0
    ensures FixedAt(u, obj.content, n) <==>
            FixedAt(u, obj.content, n - 1) || ResultOf(Some(obj), ApplyOptions(u.opts), n) == Continue
  {
    InitialisationEnds(obj, ApplyOptions(u.opts), n);
    if FixedAt(u, obj.content, n - 1) { FixedPowersStay(u.Chain(), obj.content, n - 1, n); }
  }

  /** From any idle state with a live object, after n undisturbed rounds some reconcile has returned Continue
      exactly when one had before or the powers of the chain are at a fixed point by then. */
  lemma {:induction false} RoundsInitialise(s: State, u: Setup, n: nat)
    requires u.Valid() && s.program.Idle? && s.server.Some? && !s.server.value.deleting
    ensures var s' := Exec(s, Rounds(s, u, n), u);
            && s'.program.Idle? && s'.server == ServerAfter(s.server, ApplyOptions(u.opts), n)
            && (s'.continued <==> s.continued || FixedAt(u, s.server.value.content, n))
  {
    if n > 0 {
      RoundsInitialise(s, u, n - 1);
      var before := Exec(s, Rounds(s, u, n - 1), u);
      ExecConcat(s, Rounds(s, u, n - 1), ActionsOf(before.server, u, NO_FAULTS), u);
      OneRound(before, u);
      FixedByRound(s.server.value, u, n);
    }
  }

  /** A chain that changes nothing on its own result is through after two rounds. */
  lemma TwoRoundsInitialise(s: State, u: Setup)
    requires u.Valid() && s.program.Idle? && s.server.Some? && !s.server.value.deleting
    requires var r := RunChain(u.Chain(), s.server.value.content); r.Ok? && RunChain(u.Chain(), r.value) == r
    ensures Exec(s, Rounds(s, u, 2), u).continued
    ensures HasFinalizer(Exec(s, Rounds(s, u, 2), u).server, u.finalizer)
  {
    var c := s.server.value.content;
    var r := RunChain(u.Chain(), c);
    assert ChainPower(u.Chain(), c, 0) == Ok(c);
    assert ChainPower(u.Chain(), c, 1) == r;
    assert ChainPower(u.Chain(), c, 2) == RunChain(u.Chain(), r.value);
    RoundsInitialise(s, u, 2);
    ServerFollowsChain(s.server.value, ApplyOptions(u.opts), 2);
    ChainAddsFinalizer(u.opts, u.finalizer, c);
  }

  /** A user's delete removes an object without finalizers and marks one that has some. */
  lemma DeleteRemovesOrMarks(obj: Stored, s: State, u: Setup)
    requires s.server == Some(obj)
    ensures var left := Next(s, UserDelete, u).server;
            && (left.None? <==> !obj.deleting && obj.content.finalizers == [])
            && (left.Some? ==> left.value.deleting && left.value.content == obj.content
                               && (left.value.version > obj.version <==> !obj.deleting))
  {
  }

  /** Deletion completes: from an idle state with a live object whose only finalizer is the controller's, a delete
      and one undisturbed round make the object go. */
  lemma DeletionCompletes(s: State, u: Setup)
    requires u.Valid() && s.program.Idle? && s.server.Some? && !s.server.value.deleting
    requires s.server.value.content.finalizers == [u.finalizer]
    ensures var marked := Next(s, UserDelete, u);
            && marked.server.Some? && marked.server.value.deleting
            && marked.server.value.content == s.server.value.content
            && Exec(marked, ActionsOf(marked.server, u, NO_FAULTS), u).server == None
  {
    var marked := Next(s, UserDelete, u);
    RunOnceIsAnInterleaving(marked, u, NO_FAULTS);
    DeletingRunResult(marked.server.value, u.opts, u.finalizer, NO_FAULTS);
  }
}
