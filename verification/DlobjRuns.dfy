/** The dlopen cache over whole runs: every sequence of get, get2, put and cleanup, with loads that
    fail at any of the three points where they can. */
module DlobjRuns {
  import opened DlobjSpec
  import opened Wrappers

  datatype Op =
    | DoGet(lib: Option<string>, name: string, version: Option<string>, memory: bool)
    | DoGet2(lib: Option<string>, name: string, version: Option<string>, memory: bool)
    | DoPut(func: Option<Func>)
    | DoCleanup

  function Step(ld: Loader, c: Cache, op: Op): Cache {
    match op
    case DoGet(lib, name, version, memory) => Get(ld, c, lib, name, version, memory).0
    case DoGet2(lib, name, version, memory) => Get2(ld, c, lib, name, version, memory).0
    case DoPut(func) => Put(c, func).0
    case DoCleanup => Cleanup(c)
  }

  /** The function a get hands out in state `c`. */
  function Handed(ld: Loader, c: Cache, op: Op): Option<Func> {
    match op
    case DoGet(lib, name, version, memory) => Get(ld, c, lib, name, version, memory).1
    case DoGet2(lib, name, version, memory) => Get2(ld, c, lib, name, version, memory).1
    case _ => None
  }

  function Run(ld: Loader, ops: seq<Op>): Cache {
    if ops == [] then Cache([], [])
    else Step(ld, Run(ld, ops[..|ops| - 1]), ops[|ops| - 1])
  }

  // --- Structure of every reachable cache ---

  predicate UniqueKeys(entries: seq<Record>) {
    forall i, j :: 0 <= i < j < |entries| ==> !Matches(entries[i], entries[j].lib, entries[j].name)
  }

  /** Every record holds what the loader gives for its key, and its counter is an unsigned int. */
  predicate Loaded(ld: Loader, entries: seq<Record>) {
    forall i :: 0 <= i < |entries| ==>
      var r := entries[i];
      ld.open(r.lib) == Some(r.dlobj) && ld.Resolve(r.lib, r.name) == Some(r.func) && r.refcnt < REFCNT_MODULUS
  }

  function CountHandle(entries: seq<Record>, h: Handle): nat {
    if entries == [] then 0
    else CountHandle(entries[..|entries| - 1], h) + if entries[|entries| - 1].dlobj == h then 1 else 0
  }

  /** Successful opens of `h` minus closes of it. */
  function Net(log: seq<Event>, h: Handle): int {
    if log == [] then 0
    else Net(log[..|log| - 1], h)
         + match log[|log| - 1] case Opened(g) => (if g == h then 1 else 0) case Closed(g) => if g == h then -1 else 0
  }

  ghost predicate Sound(ld: Loader, c: Cache) {
    UniqueKeys(c.entries) && Loaded(ld, c.entries)
    && forall h :: Net(c.log, h) == CountHandle(c.entries, h)
  }

  /** In every reachable cache keys are unique, records are what the loader would give, and each
      library is open exactly as often as it has cached records. */
  lemma {:induction false} RunSound(ld: Loader, ops: seq<Op>)
    ensures Sound(ld, Run(ld, ops))
    decreases |ops|
  {
    if ops != [] {
      var before := ops[..|ops| - 1];
      RunSound(ld, before);
      StepSound(ld, Run(ld, before), ops[|ops| - 1]);
    }
  }

  lemma StepSound(ld: Loader, c: Cache, op: Op)
    requires Sound(ld, c)
    ensures Sound(ld, Step(ld, c, op))
  {
    hide Sound, Get0, Put, Cleanup, Referenced;
    match op
    case DoGet(lib, name, version, memory) => Get0Sound(ld, c, lib, name, version, memory);
    case DoGet2(lib, name, version, memory) =>
      Get0Sound(ld, c, lib, name, version, memory);
      var (d, i) := Get0(ld, c, lib, name, version, memory);
      if i.Some? { ReferencedSound(ld, d, i.value); }
    case DoPut(func) => PutSound(ld, c, func);
    case DoCleanup => CleanupSound(ld, c);
  }

  lemma ReferencedSound(ld: Loader, c: Cache, i: nat)
    requires Sound(ld, c) && i < |c.entries|
    ensures Sound(ld, c.(entries := Referenced(c.entries, i)))
  {
    UpdateSound(ld, c, i, (c.entries[i].refcnt + 1) % REFCNT_MODULUS);
    hide Sound;
  }

  lemma PutSound(ld: Loader, c: Cache, func: Option<Func>)
    requires Sound(ld, c)
    ensures Sound(ld, Put(c, func).0)
  {
    if func.Some? {
      var i := FindFunc(c.entries, func.value);
      if i < |c.entries| && c.entries[i].refcnt > 0 {
        UpdateSound(ld, c, i, c.entries[i].refcnt - 1);
      }
    }
    hide UniqueKeys, Net, CountHandle;
  }

  lemma CleanupSound(ld: Loader, c: Cache)
    requires Sound(ld, c)
    ensures Sound(ld, Cleanup(c))
  {
    KeptKeys(c.entries);
    KeptSubset(c.entries);
    forall h ensures Net(Cleanup(c).log, h) == CountHandle(Cleanup(c).entries, h) {
      NetConcat(c.log, Closes(c.entries), h);
      KeptBalance(c.entries, h);
    }
    hide UniqueKeys, Net, CountHandle, Kept, Closes;
  }

  lemma Get0Sound(ld: Loader, c: Cache, lib: Option<string>, name: string, version: Option<string>, memory: bool)
    requires Sound(ld, c)
    ensures Sound(ld, Get0(ld, c, lib, name, version, memory).0)
  {
    hide Sound, Referenced;
    var i := Find(c.entries, lib, name);
    if i < |c.entries| {
      ReferencedSound(ld, c, i);
    } else if ld.open(lib).Some? {
      var h := ld.open(lib).value;
      FailedSound(ld, c, h);
      if ld.Dlsym(h, name, version).Some? {
        LoadedSound(ld, c, Record(lib, name, h, ld.Dlsym(h, name, version).value, 1));
      }
    }
  }

  lemma FailedSound(ld: Loader, c: Cache, o: Handle)
    requires Sound(ld, c)
    ensures Sound(ld, c.(log := c.log + [Opened(o), Closed(o)]))
  {
    forall h ensures Net(c.log + [Opened(o), Closed(o)], h) == CountHandle(c.entries, h) {
      NetOpen(c.log, o, h);
    }
    hide UniqueKeys, Net, CountHandle;
  }

  lemma LoadedSound(ld: Loader, c: Cache, r: Record)
    requires Sound(ld, c) && Find(c.entries, r.lib, r.name) == |c.entries| && r.refcnt == 1
    requires ld.open(r.lib) == Some(r.dlobj) && ld.Resolve(r.lib, r.name) == Some(r.func)
    ensures Sound(ld, Cache(c.entries + [r], c.log + [Opened(r.dlobj)]))
  {
    forall h ensures Net(c.log + [Opened(r.dlobj)], h) == CountHandle(c.entries + [r], h) {
      NetOpen(c.log, r.dlobj, h);
      CountSnoc(c.entries, r, h);
    }
    hide Net, CountHandle;
  }

  lemma NetOpen(log: seq<Event>, o: Handle, h: Handle)
    ensures Net(log + [Opened(o)], h) == Net(log, h) + if o == h then 1 else 0
    ensures Net(log + [Opened(o), Closed(o)], h) == Net(log, h)
  {
    var two := log + [Opened(o), Closed(o)];
    assert two[..|log| + 1] == log + [Opened(o)];
    assert (log + [Opened(o)])[..|log|] == log;
  }

  /** A change of one counter keeps everything else. */
  lemma UpdateSound(ld: Loader, c: Cache, i: nat, refcnt: nat)
    requires Sound(ld, c) && i < |c.entries| && refcnt < REFCNT_MODULUS
    ensures Sound(ld, c.(entries := c.entries[i := c.entries[i].(refcnt := refcnt)]))
  {
    forall h ensures Net(c.log, h) == CountHandle(c.entries[i := c.entries[i].(refcnt := refcnt)], h) {
      CountUpdate(c.entries, i, refcnt, h);
    }
  }

  lemma {:induction false} CountUpdate(entries: seq<Record>, i: nat, refcnt: nat, h: Handle)
    requires i < |entries|
    ensures CountHandle(entries[i := entries[i].(refcnt := refcnt)], h) == CountHandle(entries, h)
    decreases |entries|
  {
    var changed := entries[i := entries[i].(refcnt := refcnt)];
    var n := |entries| - 1;
    if i == n {
      assert changed[..n] == entries[..n];
    } else {
      assert changed[..n] == entries[..n][i := entries[i].(refcnt := refcnt)];
      CountUpdate(entries[..n], i, refcnt, h);
    }
  }

  lemma {:induction false} NetConcat(a: seq<Event>, b: seq<Event>, h: Handle)
    ensures Net(a + b, h) == Net(a, h) + Net(b, h)
    decreases |b|
  {
    if b == [] {
      assert a + b == a;
    } else {
      assert (a + b)[..|a + b| - 1] == a + b[..|b| - 1];
      NetConcat(a, b[..|b| - 1], h);
    }
  }

  lemma {:induction false} KeptBalance(entries: seq<Record>, h: Handle)
    ensures CountHandle(entries, h) + Net(Closes(entries), h) == CountHandle(Kept(entries), h)
    decreases |entries|
  {
    if entries != [] {
      var n := |entries| - 1;
      var last := entries[n];
      KeptBalance(entries[..n], h);
      if last.refcnt > 0 {
        CountSnoc(Kept(entries[..n]), last, h);
        assert Closes(entries) == Closes(entries[..n]);
      } else {
        assert Kept(entries) == Kept(entries[..n]);
        NetConcat(Closes(entries[..n]), [Closed(last.dlobj)], h);
        assert Net([Closed(last.dlobj)], h) == if last.dlobj == h then -1 else 0;
      }
    }
  }

  lemma CountSnoc(entries: seq<Record>, r: Record, h: Handle)
    ensures CountHandle(entries + [r], h) == CountHandle(entries, h) + if r.dlobj == h then 1 else 0
  {
    assert (entries + [r])[..|entries|] == entries;
  }

  lemma {:induction false} KeptSubset(entries: seq<Record>)
    ensures forall r :: r in Kept(entries) <==> r in entries && r.refcnt > 0
    decreases |entries|
  {
    if entries != [] {
      var n := |entries| - 1;
      KeptSubset(entries[..n]);
      assert entries == entries[..n] + [entries[n]];
    }
  }

  lemma {:induction false} KeptKeys(entries: seq<Record>)
    requires UniqueKeys(entries)
    ensures UniqueKeys(Kept(entries))
    decreases |entries|
  {
    if entries != [] {
      var n := |entries| - 1;
      KeptKeys(entries[..n]);
      KeptSubset(entries[..n]);
      forall i | 0 <= i < |Kept(entries[..n])|
        ensures !Matches(Kept(entries[..n])[i], entries[n].lib, entries[n].name)
      {
        assert Kept(entries[..n])[i] in entries[..n];
      }
    }
  }

  // --- What callers hold ---

  /** References to `f` that an operation hands out: one by a get, two by a get2. */
  function Given(ld: Loader, c: Cache, op: Op, f: Func): nat {
    if Handed(ld, c, op) == Some(f) then (if op.DoGet2? then 2 else 1) else 0
  }

  /** A caller's count of references: a put takes one back while any are left. The modulus only
      decides whether any are left; below 2^32 that is `held > 0`. */
  function HeldAfter(held: nat, given: nat, put: bool): nat {
    if given > 0 then held + given else if put && held % REFCNT_MODULUS != 0 then held - 1 else held
  }

  /** References to `f` a caller can account for from the results alone. */
  function Held(ld: Loader, ops: seq<Op>, f: Func): nat {
    if ops == [] then 0
    else
      var before, op := ops[..|ops| - 1], ops[|ops| - 1];
      HeldAfter(Held(ld, before, f), Given(ld, Run(ld, before), op, f), op == DoPut(Some(f)))
  }

  function RefcntAfter(n: nat, given: nat, put: bool): nat {
    if given > 0 then (n + given) % REFCNT_MODULUS else if put && n != 0 then n - 1 else n
  }

  lemma AfterAgree(held: nat, given: nat, put: bool)
    requires given <= 2
    ensures RefcntAfter(held % REFCNT_MODULUS, given, put) == HeldAfter(held, given, put) % REFCNT_MODULUS
  {
  }

  function RefcntOf(c: Cache, f: Func): nat {
    var i := FindFunc(c.entries, f);
    if i < |c.entries| then c.entries[i].refcnt else 0
  }

  /** At most one record holds the function. */
  predicate Once(entries: seq<Record>, f: Func) {
    forall i, j :: 0 <= i < j < |entries| && entries[i].func == f ==> entries[j].func != f
  }

  lemma FuncOnce(ld: Loader, c: Cache, f: Func)
    requires ld.OneKey(f) && Sound(ld, c)
    ensures Once(c.entries, f)
  {
    forall i, j | 0 <= i < j < |c.entries| && c.entries[i].func == f ensures c.entries[j].func != f {
      var r, q := c.entries[i], c.entries[j];
      assert ld.Resolve(r.lib, r.name) == Some(r.func) && ld.Resolve(q.lib, q.name) == Some(q.func);
    }
  }

  /** The counter of a function's record is what callers hold, as far as an unsigned int can tell; a
      function without a record is held nowhere. */
  lemma {:induction false} RefcntIsHeld(ld: Loader, ops: seq<Op>, f: Func)
    requires ld.OneKey(f)
    ensures RefcntOf(Run(ld, ops), f) == Held(ld, ops, f) % REFCNT_MODULUS
    decreases |ops|
  {
    if ops != [] {
      hide Given, Step, RefcntOf, Sound, Once, Loader.OneKey, HeldAfter, RefcntAfter;
      var before := ops[..|ops| - 1];
      var c, op := Run(ld, before), ops[|ops| - 1];
      RefcntIsHeld(ld, before, f);
      RunSound(ld, before);
      RefcntStep(ld, c, op, f);
      AfterAgree(Held(ld, before, f), Given(ld, c, op, f), op == DoPut(Some(f)));
    }
  }

  lemma RefcntStep(ld: Loader, c: Cache, op: Op, f: Func)
    requires ld.OneKey(f) && Sound(ld, c)
    ensures Given(ld, c, op, f) <= 2
    ensures RefcntOf(Step(ld, c, op), f) == RefcntAfter(RefcntOf(c, f), Given(ld, c, op, f), op == DoPut(Some(f)))
  {
    hide Get0, Once, Sound, Kept, RefcntOf, FindFunc, Find, Loader.OneKey;
    FuncOnce(ld, c, f);
    match op
    case DoGet(lib, name, version, memory) =>
      Get0Refcnt(ld, c, lib, name, version, memory, f);
    case DoGet2(lib, name, version, memory) =>
      Get2Refcnt(ld, c, lib, name, version, memory, f);
    case DoPut(func) =>
      PutRefcnt(c, func, f);
    case DoCleanup =>
      CleanupRefcnt(c, f);
  }

  lemma Get2Refcnt(ld: Loader, c: Cache, lib: Option<string>, name: string, version: Option<string>, memory: bool,
                   f: Func)
    requires ld.OneKey(f) && Sound(ld, c)
    ensures var (d, g) := Get2(ld, c, lib, name, version, memory);
            RefcntOf(d, f) == if g == Some(f) then (RefcntOf(c, f) + 2) % REFCNT_MODULUS else RefcntOf(c, f)
  {
    hide Get0, Sound, Once, RefcntOf, FindFunc, Loader.OneKey;
    Get0Refcnt(ld, c, lib, name, version, memory, f);
    Get0Sound(ld, c, lib, name, version, memory);
    var (d, i) := Get0(ld, c, lib, name, version, memory);
    if i.Some? {
      FuncOnce(ld, d, f);
      CountRefcnt(d, i.value, f);
      AddTwice(RefcntOf(c, f));
    }
  }

  /** One more reference to the record at index `i`. */
  lemma CountRefcnt(c: Cache, i: nat, f: Func)
    requires Once(c.entries, f) && i < |c.entries|
    ensures RefcntOf(c.(entries := Referenced(c.entries, i)), f)
            == if c.entries[i].func == f then (RefcntOf(c, f) + 1) % REFCNT_MODULUS else RefcntOf(c, f)
  {
    hide Once, RefcntOf;
    UpdateRefcnt(c, i, (c.entries[i].refcnt + 1) % REFCNT_MODULUS, f);
    if c.entries[i].func == f { RefcntAt(c, i); }
  }

  lemma RefcntAt(c: Cache, i: nat)
    requires i < |c.entries| && Once(c.entries, c.entries[i].func)
    ensures RefcntOf(c, c.entries[i].func) == c.entries[i].refcnt
  {
    hide Once;
    FindFuncAt(c.entries, i);
  }

  lemma AddTwice(n: nat)
    ensures ((n + 1) % REFCNT_MODULUS + 1) % REFCNT_MODULUS == (n + 2) % REFCNT_MODULUS
  {
  }

  lemma PutRefcnt(c: Cache, func: Option<Func>, f: Func)
    requires Once(c.entries, f)
    ensures RefcntOf(Put(c, func).0, f)
            == if func == Some(f) && RefcntOf(c, f) != 0 then RefcntOf(c, f) - 1 else RefcntOf(c, f)
  {
    hide Once;
    if func.Some? {
      var i := FindFunc(c.entries, func.value);
      if i < |c.entries| && c.entries[i].refcnt > 0 { UpdateRefcnt(c, i, c.entries[i].refcnt - 1, f); }
    }
  }

  /** Where a function stands that no other record holds. */
  lemma FindFuncAt(entries: seq<Record>, i: nat)
    requires i < |entries| && Once(entries, entries[i].func)
    ensures FindFunc(entries, entries[i].func) == i
  {
  }

  lemma UpdateRefcnt(c: Cache, i: nat, refcnt: nat, f: Func)
    requires Once(c.entries, f) && i < |c.entries|
    ensures RefcntOf(c.(entries := c.entries[i := c.entries[i].(refcnt := refcnt)]), f)
            == if c.entries[i].func == f then refcnt else RefcntOf(c, f)
  {
    hide Once;
    SameFuncs(c.entries, c.entries[i := c.entries[i].(refcnt := refcnt)], f);
    if c.entries[i].func == f { FindFuncAt(c.entries, i); }
  }

  lemma SameFuncs(a: seq<Record>, b: seq<Record>, f: Func)
    requires |a| == |b| && forall j :: 0 <= j < |a| ==> a[j].func == b[j].func
    ensures FindFunc(a, f) == FindFunc(b, f)
  {
  }

  lemma Get0Refcnt(ld: Loader, c: Cache, lib: Option<string>, name: string, version: Option<string>, memory: bool,
                   f: Func)
    requires ld.OneKey(f) && Sound(ld, c)
    ensures var (d, i) := Get0(ld, c, lib, name, version, memory);
            RefcntOf(d, f) == if i.Some? && d.entries[i.value].func == f then (RefcntOf(c, f) + 1) % REFCNT_MODULUS
                              else RefcntOf(c, f)
  {
    hide Sound, Once, RefcntOf, Find, FindFunc, Loader.OneKey, Loader.Dlsym;
    var i := Find(c.entries, lib, name);
    var (d, at) := Get0(ld, c, lib, name, version, memory);
    if i < |c.entries| {
      FuncOnce(ld, c, f);
      CountRefcnt(c, i, f);
    } else if at.Some? {
      Get0Sound(ld, c, lib, name, version, memory);
      FuncOnce(ld, d, f);
      AppendRefcnt(c.entries, d.entries[|c.entries|], f);
      LogApart(c.entries, c.log, d.log, f);
    } else {
      LogApart(c.entries, c.log, d.log, f);
    }
  }

  lemma LogApart(entries: seq<Record>, a: seq<Event>, b: seq<Event>, f: Func)
    ensures RefcntOf(Cache(entries, a), f) == RefcntOf(Cache(entries, b), f)
  {
  }

  lemma AppendRefcnt(entries: seq<Record>, r: Record, f: Func)
    requires Once(entries + [r], f)
    ensures forall log :: RefcntOf(Cache(entries + [r], log), f)
                          == if r.func == f then r.refcnt else RefcntOf(Cache(entries, log), f)
    ensures r.func == f ==> forall log :: RefcntOf(Cache(entries, log), f) == 0
  {
    var all := entries + [r];
    var k := FindFunc(entries, f);
    assert forall j :: 0 <= j < |entries| ==> all[j] == entries[j];
    if r.func == f {
      FindFuncAt(all, |entries|);
    } else if k < |entries| {
      FindFuncAt(all, k);
    } else {
      NoneAfter(entries, r, f);
    }
  }

  lemma NoneAfter(entries: seq<Record>, r: Record, f: Func)
    requires FindFunc(entries, f) == |entries| && r.func != f
    ensures FindFunc(entries + [r], f) == |entries| + 1
  {
  }

  lemma CleanupRefcnt(c: Cache, f: Func)
    requires Once(c.entries, f)
    ensures RefcntOf(Cleanup(c), f) == RefcntOf(c, f)
  {
    var entries := c.entries;
    KeptSubset(entries);
    var i, k := FindFunc(entries, f), FindFunc(Kept(entries), f);
    if k < |Kept(entries)| {
      var r := Kept(entries)[k];
      assert r in entries;
      var j :| 0 <= j < |entries| && entries[j] == r;
      FindFuncAt(entries, j);
    } else {
      assert i < |entries| ==> entries[i] in entries;
    }
  }

  // --- Main results ---

  /** No function that callers hold is ever unloaded: its record is still cached and its library is
      open more often than it has been closed. The counter's width is the only limit. */
  lemma HeldStaysLoaded(ld: Loader, ops: seq<Op>, f: Func)
    requires ld.OneKey(f) && 0 < Held(ld, ops, f) < REFCNT_MODULUS
    ensures var c := Run(ld, ops);
            exists r :: r in c.entries && r.func == f && r.refcnt == Held(ld, ops, f) && Net(c.log, r.dlobj) > 0
  {
    hide Run, Held, RefcntOf, Sound, Loader.OneKey;
    RefcntIsHeld(ld, ops, f);
    RunSound(ld, ops);
    SmallModulo(Held(ld, ops, f));
    CachedIsOpen(ld, Run(ld, ops), f);
  }

  lemma SmallModulo(n: nat)
    requires n < REFCNT_MODULUS
    ensures n % REFCNT_MODULUS == n
  {
  }

  lemma CachedIsOpen(ld: Loader, c: Cache, f: Func)
    requires Sound(ld, c) && RefcntOf(c, f) > 0
    ensures exists r :: r in c.entries && r.func == f && r.refcnt == RefcntOf(c, f) && Net(c.log, r.dlobj) > 0
  {
    var i := FindFunc(c.entries, f);
    var r := c.entries[i];
    CountPositive(c.entries, i);
    assert r in c.entries && r.func == f && Net(c.log, r.dlobj) == CountHandle(c.entries, r.dlobj);
  }

  lemma {:induction false} CountPositive(entries: seq<Record>, i: nat)
    requires i < |entries|
    ensures CountHandle(entries, entries[i].dlobj) > 0
    decreases |entries|
  {
    if i < |entries| - 1 {
      CountPositive(entries[..|entries| - 1], i);
    }
  }

  /** A cleanup keeps exactly the functions whose held count is not a multiple of 2^32. */
  lemma CleanupKeepsHeld(ld: Loader, ops: seq<Op>, f: Func)
    requires ld.OneKey(f)
    ensures FindFunc(Run(ld, ops + [DoCleanup]).entries, f) < |Run(ld, ops + [DoCleanup]).entries|
            <==> Held(ld, ops, f) % REFCNT_MODULUS != 0
  {
    var c := Run(ld, ops);
    assert (ops + [DoCleanup])[..|ops|] == ops;
    RefcntIsHeld(ld, ops, f);
    RunSound(ld, ops);
    FuncOnce(ld, c, f);
    KeptSubset(c.entries);
    var kept := Kept(c.entries);
    assert Run(ld, ops + [DoCleanup]).entries == kept;
    hide Run, Held, Kept, Sound, Loader.OneKey;
    var i, k := FindFunc(c.entries, f), FindFunc(kept, f);
    if k < |kept| {
      assert kept[k] in c.entries;
      var j :| 0 <= j < |c.entries| && c.entries[j] == kept[k];
      FindFuncAt(c.entries, j);
    } else {
      assert i < |c.entries| ==> c.entries[i] in c.entries;
    }
  }

  /** A put reports "not found" for a function without a record, success for the last reference alone, and
      the same error whether references remain or there were none. */
  lemma PutResult(ld: Loader, ops: seq<Op>, f: Func)
    requires ld.OneKey(f)
    ensures var c, n := Run(ld, ops), Held(ld, ops, f) % REFCNT_MODULUS;
            Put(c, Some(f)).1 == (if FindFunc(c.entries, f) == |c.entries| then -ENOENT
                                  else if n == 1 then 0 else -EINVAL)
            && (n != 0 ==> FindFunc(c.entries, f) < |c.entries|)
  {
    RefcntIsHeld(ld, ops, f);
    hide Run, Held, Loader.OneKey;
  }

  /** A put of no function, or of one that is not cached, finds no entry and changes nothing; a put of a function
      no reference to which is counted changes nothing either. */
  lemma PutNothing(c: Cache, f: Func)
    ensures Put(c, None) == (c, -2)
    ensures FindFunc(c.entries, f) == |c.entries| ==> Put(c, Some(f)) == (c, -2)
    ensures FindFunc(c.entries, f) < |c.entries| && c.entries[FindFunc(c.entries, f)].refcnt == 0 ==>
              Put(c, Some(f)) == (c, -22)
  {
  }

  /** A cleanup splits the records, in order: each is kept or closed, once. */
  lemma {:induction false} CleanupSplits(a: seq<Record>, b: seq<Record>)
    ensures |Kept(a)| + |Closes(a)| == |a|
    ensures Kept(a + b) == Kept(a) + Kept(b) && Closes(a + b) == Closes(a) + Closes(b)
  {
    CleanupCounts(a);
    KeptJoin(a, b);
    ClosesJoin(a, b);
  }

  lemma {:induction false} CleanupCounts(a: seq<Record>)
    ensures |Kept(a)| + |Closes(a)| == |a|
  {
    if a != [] { CleanupCounts(a[..|a| - 1]); }
  }

  lemma {:induction false} KeptJoin(a: seq<Record>, b: seq<Record>)
    ensures Kept(a + b) == Kept(a) + Kept(b)
    decreases |b|
  {
    if b == [] {
      assert a + b == a;
    } else {
      assert (a + b)[..|a + b| - 1] == a + b[..|b| - 1];
      KeptJoin(a, b[..|b| - 1]);
    }
  }

  lemma {:induction false} ClosesJoin(a: seq<Record>, b: seq<Record>)
    ensures Closes(a + b) == Closes(a) + Closes(b)
    decreases |b|
  {
    if b == [] {
      assert a + b == a;
    } else {
      assert (a + b)[..|a + b| - 1] == a + b[..|b| - 1];
      ClosesJoin(a, b[..|b| - 1]);
    }
  }

  /** A get returns the function of its key whenever that is cached, whatever version is asked for and
      whatever allocations fail, and otherwise what a caller without a cache would get, or nothing if an
      allocation fails. */
  lemma GetResult(ld: Loader, ops: seq<Op>, lib: Option<string>, name: string, version: Option<string>, memory: bool)
    ensures var c := Run(ld, ops);
            var cached := Find(c.entries, lib, name) < |c.entries|;
            Get(ld, c, lib, name, version, memory).1
            == if cached then ld.Resolve(lib, name) else if memory then ld.Uncached(lib, name, version) else None
    ensures var c := Run(ld, ops);
            var cached := Find(c.entries, lib, name) < |c.entries|;
            Get(ld, c, lib, name, version, memory).1 == ld.Uncached(lib, name, version)
            <==> if cached then version.None? || ld.versioned(ld.open(lib).value, name, version.value)
                 else memory || ld.Uncached(lib, name, version).None?
  {
    RunSound(ld, ops);
    hide Run;
  }

  /** The counter wraps: 2^31 double references leave a held function that the next cleanup unloads. */
  lemma OverflowUnloadsHeld(ld: Loader, lib: Option<string>, name: string)
    requires ld.Resolve(lib, name).Some? && ld.OneKey(ld.Resolve(lib, name).value)
    ensures var f := ld.Resolve(lib, name).value;
            var ops := seq(0x8000_0000, _ => DoGet2(lib, name, None, true));
            Held(ld, ops, f) == REFCNT_MODULUS
            && FindFunc(Run(ld, ops + [DoCleanup]).entries, f) == |Run(ld, ops + [DoCleanup]).entries|
  {
    hide Run, Held, Kept, Find;
    var f := ld.Resolve(lib, name).value;
    var ops := seq(0x8000_0000, _ => DoGet2(lib, name, None, true));
    HeldByGets(ld, lib, name, 0x8000_0000);
    CleanupKeepsHeld(ld, ops, f);
  }

  lemma {:induction false} HeldByGets(ld: Loader, lib: Option<string>, name: string, n: nat)
    requires ld.Resolve(lib, name).Some?
    ensures Held(ld, seq(n, _ => DoGet2(lib, name, None, true)), ld.Resolve(lib, name).value) == 2 * n
    decreases n
  {
    var op := DoGet2(lib, name, None, true);
    if n > 0 {
      hide *;
      var before := seq(n - 1, _ => op);
      assert seq(n, _ => op) == before + [op];
      HeldByGets(ld, lib, name, n - 1);
      OneMoreGet2(ld, before, lib, name);
    }
  }

  lemma OneMoreGet2(ld: Loader, ops: seq<Op>, lib: Option<string>, name: string)
    requires ld.Resolve(lib, name).Some?
    ensures var f, op := ld.Resolve(lib, name).value, DoGet2(lib, name, None, true);
            Held(ld, ops + [op], f) == Held(ld, ops, f) + 2
  {
    hide Run, Get0, Loader.Resolve;
    var op := DoGet2(lib, name, None, true);
    assert (ops + [op])[..|ops|] == ops;
    GetResult(ld, ops, lib, name, None, true);
    UncachedIsResolve(ld, lib, name);
    SameFunc(ld, Run(ld, ops), lib, name);
  }

  lemma UncachedIsResolve(ld: Loader, lib: Option<string>, name: string)
    ensures ld.Uncached(lib, name, None) == ld.Resolve(lib, name)
  {
  }

  /** Both gets hand out the same function. */
  lemma SameFunc(ld: Loader, c: Cache, lib: Option<string>, name: string)
    ensures Get2(ld, c, lib, name, None, true).1 == Get(ld, c, lib, name, None, true).1
  {
    hide Get0, Find;
  }
}
