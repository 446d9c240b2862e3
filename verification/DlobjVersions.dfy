/** Symbol versions: a cache hit does not look at them, which is no matter exactly while each key is always
    asked for with one version, or the loader vouches for every version. */
module DlobjVersions {
  import opened DlobjSpec
  import opened DlobjRuns
  import opened Wrappers

  /** The version each key is asked for with. */
  type Versions = (Option<string>, string) -> Option<string>

  predicate Keeps(v: Versions, op: Op) {
    match op
    case DoGet(lib, name, version, _) => version == v(lib, name)
    case DoGet2(lib, name, version, _) => version == v(lib, name)
    case _ => true
  }

  /** Every record was loaded under its key's version. */
  ghost predicate LoadedAs(ld: Loader, v: Versions, entries: seq<Record>) {
    forall r :: r in entries ==> IsLoadedAs(ld, v, r)
  }

  predicate IsLoadedAs(ld: Loader, v: Versions, r: Record) {
    ld.open(r.lib) == Some(r.dlobj) && ld.Dlsym(r.dlobj, r.name, v(r.lib, r.name)) == Some(r.func)
  }

  lemma {:induction false} RunLoadedAs(ld: Loader, v: Versions, ops: seq<Op>)
    requires forall op :: op in ops ==> Keeps(v, op)
    ensures LoadedAs(ld, v, Run(ld, ops).entries)
    decreases |ops|
  {
    if ops != [] {
      var before, op := ops[..|ops| - 1], ops[|ops| - 1];
      assert op in ops && forall o :: o in before ==> o in ops;
      RunLoadedAs(ld, v, before);
      hide LoadedAs, Step, Keeps;
      StepLoadedAs(ld, v, Run(ld, before), op);
    }
  }

  lemma StepLoadedAs(ld: Loader, v: Versions, c: Cache, op: Op)
    requires LoadedAs(ld, v, c.entries) && Keeps(v, op)
    ensures LoadedAs(ld, v, Step(ld, c, op).entries)
  {
    hide LoadedAs, Get0, Put, Cleanup, Referenced;
    match op
    case DoGet(lib, name, _, memory) => Get0LoadedAs(ld, v, c, lib, name, memory);
    case DoGet2(lib, name, _, memory) =>
      Get0LoadedAs(ld, v, c, lib, name, memory);
      var (d, i) := Get0(ld, c, lib, name, v(lib, name), memory);
      if i.Some? { ReferencedLoadedAs(ld, v, d.entries, i.value); }
    case DoPut(func) => PutLoadedAs(ld, v, c, func);
    case DoCleanup => KeptLoadedAs(ld, v, c);
  }

  lemma CountedLoadedAs(ld: Loader, v: Versions, entries: seq<Record>, i: nat, refcnt: nat)
    requires LoadedAs(ld, v, entries) && i < |entries|
    ensures LoadedAs(ld, v, entries[i := entries[i].(refcnt := refcnt)])
  {
    var changed := entries[i := entries[i].(refcnt := refcnt)];
    forall r | r in changed ensures IsLoadedAs(ld, v, r) {
      var k :| 0 <= k < |changed| && changed[k] == r;
      assert entries[k] in entries && IsLoadedAs(ld, v, entries[k]);
    }
  }

  lemma ReferencedLoadedAs(ld: Loader, v: Versions, entries: seq<Record>, i: nat)
    requires LoadedAs(ld, v, entries) && i < |entries|
    ensures LoadedAs(ld, v, Referenced(entries, i))
  {
    hide LoadedAs;
    CountedLoadedAs(ld, v, entries, i, (entries[i].refcnt + 1) % REFCNT_MODULUS);
  }

  lemma Get0LoadedAs(ld: Loader, v: Versions, c: Cache, lib: Option<string>, name: string, memory: bool)
    requires LoadedAs(ld, v, c.entries)
    ensures LoadedAs(ld, v, Get0(ld, c, lib, name, v(lib, name), memory).0.entries)
  {
    var i := Find(c.entries, lib, name);
    if i < |c.entries| {
      ReferencedLoadedAs(ld, v, c.entries, i);
    }
  }

  lemma PutLoadedAs(ld: Loader, v: Versions, c: Cache, func: Option<Func>)
    requires LoadedAs(ld, v, c.entries)
    ensures LoadedAs(ld, v, Put(c, func).0.entries)
  {
    hide LoadedAs;
    if func.Some? {
      var i := FindFunc(c.entries, func.value);
      if i < |c.entries| && c.entries[i].refcnt > 0 {
        CountedLoadedAs(ld, v, c.entries, i, c.entries[i].refcnt - 1);
      }
    }
  }

  lemma KeptLoadedAs(ld: Loader, v: Versions, c: Cache)
    requires LoadedAs(ld, v, c.entries)
    ensures LoadedAs(ld, v, Cleanup(c).entries)
  {
    hide Kept, Closes, IsLoadedAs;
    KeptSubset(c.entries);
  }

  /** After any run that asks for each key with one version, cleanups and failed loads included, a get with
      that version gives what a caller without a cache would get, unless it needs memory that there is not. */
  lemma OneVersionGets(ld: Loader, v: Versions, ops: seq<Op>, lib: Option<string>, name: string, memory: bool)
    requires forall op :: op in ops ==> Keeps(v, op)
    ensures var c := Run(ld, ops);
            var cached := Find(c.entries, lib, name) < |c.entries|;
            Get(ld, c, lib, name, v(lib, name), memory).1
            == if cached || memory then ld.Uncached(lib, name, v(lib, name)) else None
  {
    hide Run;
    var c := Run(ld, ops);
    RunLoadedAs(ld, v, ops);
    var i := Find(c.entries, lib, name);
    if i < |c.entries| {
      var r := c.entries[i];
      assert r in c.entries && IsLoadedAs(ld, v, r) && Matches(r, lib, name);
      hide LoadedAs, Find;
    }
  }

  /** Once a key is cached, a version that the loader would turn down is served all the same. */
  lemma HitIgnoresVersion(ld: Loader, lib: Option<string>, name: string, version: string)
    requires ld.Resolve(lib, name).Some? && !ld.versioned(ld.open(lib).value, name, version)
    ensures var c := Run(ld, [DoGet(lib, name, None, true)]);
            Get(ld, c, lib, name, Some(version), true).1 == ld.Resolve(lib, name)
            && ld.Uncached(lib, name, Some(version)) == None
  {
    var op := DoGet(lib, name, None, true);
    assert [op][..0] == [];
    assert Run(ld, [op]) == Step(ld, Run(ld, []), op);
    GetResult(ld, [op], lib, name, Some(version), true);
  }

  /** Over every run, with any versions, a get gives what a caller without a cache would get. */
  ghost predicate VersionsHonoured(ld: Loader) {
    forall ops, lib, name, version ::
      Get(ld, Run(ld, ops), lib, name, version, true).1 == ld.Uncached(lib, name, version)
  }

  /** That is so exactly for the loaders that turn down no version of a symbol they define. */
  lemma VersionsHonouredIff(ld: Loader)
    ensures VersionsHonoured(ld)
            <==> forall lib, name, version ::
                   ld.Resolve(lib, name).Some? ==> ld.versioned(ld.open(lib).value, name, version)
  {
    if forall lib, name, version :: ld.Resolve(lib, name).Some? ==> ld.versioned(ld.open(lib).value, name, version) {
      forall ops, lib, name, version
        ensures Get(ld, Run(ld, ops), lib, name, version, true).1 == ld.Uncached(lib, name, version)
      {
        AllVouched(ld, ops, lib, name, version);
      }
    } else {
      var lib, name, version :| ld.Resolve(lib, name).Some? && !ld.versioned(ld.open(lib).value, name, version);
      hide Run, Get;
      HitIgnoresVersion(ld, lib, name, version);
    }
  }

  lemma AllVouched(ld: Loader, ops: seq<Op>, lib: Option<string>, name: string, version: Option<string>)
    requires forall lib, name, version ::
               ld.Resolve(lib, name).Some? ==> ld.versioned(ld.open(lib).value, name, version)
    ensures Get(ld, Run(ld, ops), lib, name, version, true).1 == ld.Uncached(lib, name, version)
  {
    hide Run, Get, Find;
    GetResult(ld, ops, lib, name, version, true);
  }
}
