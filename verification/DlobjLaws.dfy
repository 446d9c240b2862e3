/** The cache's laws of reference counting, function by function, and exactly when they hold: for a function
    that no two keys name, since `put` finds its record by function. */
module DlobjLaws {
  import opened DlobjSpec
  import opened DlobjRuns
  import opened Wrappers

  // --- The laws, over every run ---

  /** The first record of the function counts the references handed out and not given back. */
  ghost predicate CountsReferences(ld: Loader, f: Func) {
    forall ops :: RefcntOf(Run(ld, ops), f) == Held(ld, ops, f) % REFCNT_MODULUS
  }

  /** While held, it stays loaded, with its count. */
  ghost predicate KeepsHeldLoaded(ld: Loader, f: Func) {
    forall ops :: 0 < Held(ld, ops, f) < REFCNT_MODULUS ==> LoadedWith(Run(ld, ops), f, Held(ld, ops, f))
  }

  ghost predicate LoadedWith(c: Cache, f: Func, n: nat) {
    exists r :: r in c.entries && r.func == f && r.refcnt == n && Net(c.log, r.dlobj) > 0
  }

  /** A cleanup keeps it exactly while it is held. */
  ghost predicate CleansExactly(ld: Loader, f: Func) {
    forall ops :: IsCached(Run(ld, ops + [DoCleanup]), f) <==> Held(ld, ops, f) % REFCNT_MODULUS != 0
  }

  predicate IsCached(c: Cache, f: Func) {
    FindFunc(c.entries, f) < |c.entries|
  }

  /** A put tells the last reference from the others and from a function that is not cached. */
  ghost predicate PutsTell(ld: Loader, f: Func) {
    forall ops :: PutTells(Run(ld, ops), f, Held(ld, ops, f) % REFCNT_MODULUS)
  }

  predicate PutTells(c: Cache, f: Func, n: nat) {
    Put(c, Some(f)).1 == (if !IsCached(c, f) then -ENOENT else if n == 1 then 0 else -EINVAL)
    && (n != 0 ==> IsCached(c, f))
  }

  /** Each law holds of a function over all runs exactly when no two keys name that function. */
  lemma LawsIffOneKey(ld: Loader, f: Func)
    ensures CountsReferences(ld, f) <==> ld.OneKey(f)
    ensures KeepsHeldLoaded(ld, f) <==> ld.OneKey(f)
    ensures CleansExactly(ld, f) <==> ld.OneKey(f)
    ensures PutsTell(ld, f) <==> ld.OneKey(f)
  {
    hide CountsReferences, KeepsHeldLoaded, CleansExactly, PutsTell;
    if ld.OneKey(f) {
      LawsHold(ld, f);
    } else {
      var k, k' := Clash(ld, f);
      LawsFail(ld, k, k', f);
    }
  }

  /** Hence for all functions at once exactly when different keys name different functions. */
  lemma LawsIffInjective(ld: Loader)
    ensures (forall f :: CountsReferences(ld, f)) <==> ld.Injective()
    ensures (forall f :: KeepsHeldLoaded(ld, f)) <==> ld.Injective()
    ensures (forall f :: CleansExactly(ld, f)) <==> ld.Injective()
    ensures (forall f :: PutsTell(ld, f)) <==> ld.Injective()
  {
    hide CountsReferences, KeepsHeldLoaded, CleansExactly, PutsTell, Loader.OneKey, Loader.Injective;
    forall f
      ensures CountsReferences(ld, f) == KeepsHeldLoaded(ld, f) == ld.OneKey(f)
      ensures CleansExactly(ld, f) == PutsTell(ld, f) == ld.OneKey(f)
    {
      LawsIffOneKey(ld, f);
    }
    InjectiveIsOneKey(ld);
  }

  lemma InjectiveIsOneKey(ld: Loader)
    ensures ld.Injective() <==> forall f :: ld.OneKey(f)
  {
    hide Loader.Resolve;
    if forall f :: ld.OneKey(f) {
      forall lib, name, lib', name'
        | ld.Resolve(lib, name).Some? && ld.Resolve(lib, name) == ld.Resolve(lib', name')
        ensures lib == lib' && name == name'
      {
        assert ld.OneKey(ld.Resolve(lib, name).value);
      }
    }
  }

  lemma LawsHold(ld: Loader, f: Func)
    requires ld.OneKey(f)
    ensures CountsReferences(ld, f) && KeepsHeldLoaded(ld, f) && CleansExactly(ld, f) && PutsTell(ld, f)
  {
    hide Run, Held, RefcntOf, FindFunc, Put, Loader.OneKey;
    forall ops ensures RefcntOf(Run(ld, ops), f) == Held(ld, ops, f) % REFCNT_MODULUS { RefcntIsHeld(ld, ops, f); }
    forall ops | 0 < Held(ld, ops, f) < REFCNT_MODULUS ensures LoadedWith(Run(ld, ops), f, Held(ld, ops, f)) {
      HeldStaysLoaded(ld, ops, f);
    }
    forall ops ensures IsCached(Run(ld, ops + [DoCleanup]), f) <==> Held(ld, ops, f) % REFCNT_MODULUS != 0 {
      CleanupKeepsHeld(ld, ops, f);
    }
    forall ops ensures PutTells(Run(ld, ops), f, Held(ld, ops, f) % REFCNT_MODULUS) { PutResult(ld, ops, f); }
  }

  // --- Two keys of one function ---

  /** What a caller names when asking for a function. */
  datatype Key = Key(lib: Option<string>, name: string) {
    function Get(): Op {
      DoGet(lib, name, None, true)
    }
  }

  function TwoGets(k: Key, k': Key): seq<Op> {
    [k.Get(), k'.Get()]
  }

  lemma Clash(ld: Loader, f: Func) returns (k: Key, k': Key)
    requires !ld.OneKey(f)
    ensures k != k' && ld.Resolve(k.lib, k.name) == Some(f) == ld.Resolve(k'.lib, k'.name)
  {
    var lib, name, lib', name' :| ld.Resolve(lib, name) == Some(f) && ld.Resolve(lib', name') == Some(f)
                                  && !(lib == lib' && name == name');
    k, k' := Key(lib, name), Key(lib', name');
  }

  /** Two gets make two records with one reference each; then a put answers "last", and after two puts a
      cleanup keeps the second record although nothing is held. */
  lemma LawsFail(ld: Loader, k: Key, k': Key, f: Func)
    requires k != k' && ld.Resolve(k.lib, k.name) == Some(f) == ld.Resolve(k'.lib, k'.name)
    ensures !CountsReferences(ld, f) && !KeepsHeldLoaded(ld, f) && !CleansExactly(ld, f) && !PutsTell(ld, f)
  {
    hide Run, Held, TwoGets, Cleanup, Put, RefcntOf, IsCached, PutTells, LoadedWith, Loader.Resolve, HeldAfter, Given;
    AliasGets(ld, k, k', f);
    TwoRecords(Run(ld, TwoGets(k, k')), f);
    StillCached(ld, TwoGets(k, k'), f);
  }

  /** After two puts nothing is held, but a cleanup keeps a record. */
  lemma StillCached(ld: Loader, two: seq<Op>, f: Func)
    requires Held(ld, two, f) == 2
    ensures var ops := two + [DoPut(Some(f))] + [DoPut(Some(f))];
            Held(ld, ops, f) == 0
            && Run(ld, ops + [DoCleanup]) == Cleanup(Put(Put(Run(ld, two), Some(f)).0, Some(f)).0)
  {
    hide Run, Held, Cleanup, Put, IsCached;
    var put := DoPut(Some(f));
    RunSnoc(ld, two, put, f);
    RunSnoc(ld, two + [put], put, f);
    RunSnoc(ld, two + [put] + [put], DoCleanup, f);
  }

  lemma TwoRecords(c: Cache, f: Func)
    requires |c.entries| == 2 && c.entries[0].func == c.entries[1].func == f
    requires c.entries[0].refcnt == c.entries[1].refcnt == 1
    ensures RefcntOf(c, f) == 1 && !PutTells(c, f, 2) && !LoadedWith(c, f, 2)
    ensures IsCached(Cleanup(Put(Put(c, Some(f)).0, Some(f)).0), f)
  {
    assert FindFunc(c.entries, f) == 0;
    var gone := [c.entries[0].(refcnt := 0), c.entries[1]];
    assert Put(c, Some(f)).0.entries == gone;
    assert FindFunc(gone, f) == 0;
    KeptSubset(gone);
    assert gone[1] in Kept(gone);
    hide Kept, Closes;
  }

  /** Two keys of one function in different libraries: giving back the second reference unloads the first
      library, which is still referenced, and keeps the second. */
  lemma AliasUnloadsOther(ld: Loader, k: Key, k': Key, f: Func)
    requires ld.Resolve(k.lib, k.name) == Some(f) == ld.Resolve(k'.lib, k'.name)
    requires ld.open(k.lib) != ld.open(k'.lib)
    ensures var c := Run(ld, TwoGets(k, k') + [DoPut(Some(f))] + [DoCleanup]);
            var h, h' := ld.open(k.lib).value, ld.open(k'.lib).value;
            Held(ld, TwoGets(k, k') + [DoPut(Some(f))] + [DoCleanup], f) == 1
            && c.entries == [Record(k'.lib, k'.name, h', f, 1)] && Net(c.log, h) == 0 && Net(c.log, h') == 1
  {
    var s2 := TwoGets(k, k');
    AliasGets(ld, k, k', f);
    hide Run, Held, Get, Put, Cleanup, TwoGets;
    RunSnoc(ld, s2, DoPut(Some(f)), f);
    RunSnoc(ld, s2 + [DoPut(Some(f))], DoCleanup, f);
    AliasDrop(Run(ld, s2), f);
  }

  lemma RunSnoc(ld: Loader, ops: seq<Op>, op: Op, f: Func)
    ensures Run(ld, ops + [op]) == Step(ld, Run(ld, ops), op)
    ensures Held(ld, ops + [op], f)
            == HeldAfter(Held(ld, ops, f), Given(ld, Run(ld, ops), op, f), op == DoPut(Some(f)))
  {
    assert (ops + [op])[..|ops|] == ops;
  }

  /** Getting two keys of one function: two records, two references. */
  lemma AliasGets(ld: Loader, k: Key, k': Key, f: Func)
    requires k != k' && ld.Resolve(k.lib, k.name) == Some(f) == ld.Resolve(k'.lib, k'.name)
    ensures var h, h' := ld.open(k.lib).value, ld.open(k'.lib).value;
            Held(ld, TwoGets(k, k'), f) == 2
            && Run(ld, TwoGets(k, k')) == Cache([Record(k.lib, k.name, h, f, 1), Record(k'.lib, k'.name, h', f, 1)],
                                                [Opened(h), Opened(h')])
  {
    hide Run, Held, Get;
    var o1, o2 := k.Get(), k'.Get();
    assert TwoGets(k, k') == [] + [o1] + [o2];
    NothingYet(ld, f);
    GetNew(ld, Cache([], []), k, f);
    RunSnoc(ld, [], o1, f);
    GetNew(ld, Run(ld, [] + [o1]), k', f);
    RunSnoc(ld, [] + [o1], o2, f);
  }

  lemma NothingYet(ld: Loader, f: Func)
    ensures Run(ld, []) == Cache([], []) && Held(ld, [], f) == 0
  {
  }

  /** A get of a key that is not among at most one cached. */
  lemma GetNew(ld: Loader, c: Cache, k: Key, f: Func)
    requires |c.entries| <= 1 && forall r :: r in c.entries ==> !Matches(r, k.lib, k.name)
    requires ld.Resolve(k.lib, k.name) == Some(f)
    ensures var h := ld.open(k.lib).value;
            Get(ld, c, k.lib, k.name, None, true)
            == (Cache(c.entries + [Record(k.lib, k.name, h, f, 1)], c.log + [Opened(h)]), Some(f))
  {
    assert Find(c.entries, k.lib, k.name) == |c.entries|;
    hide Find, Referenced;
  }

  lemma AliasDrop(c: Cache, f: Func)
    requires |c.entries| == 2 && c.entries[0].func == f && c.entries[0].refcnt == c.entries[1].refcnt == 1
    requires c.entries[0].dlobj != c.entries[1].dlobj
    requires c.log == [Opened(c.entries[0].dlobj), Opened(c.entries[1].dlobj)]
    ensures var d := Cleanup(Put(c, Some(f)).0);
            d.entries == [c.entries[1]]
            && Net(d.log, c.entries[0].dlobj) == 0 && Net(d.log, c.entries[1].dlobj) == 1
  {
    var ha, hb := c.entries[0].dlobj, c.entries[1].dlobj;
    var gone := c.entries[0].(refcnt := 0);
    var rest := Put(c, Some(f)).0.entries;
    assert FindFunc(c.entries, f) == 0;
    assert rest == [gone, c.entries[1]] && rest[..1] == [gone] && rest[..1][..0] == [];
    assert Closes(rest[..1]) == [Closed(ha)];
    assert Closes(rest) == [Closed(ha)] && Kept(rest) == [c.entries[1]];
    NetPair(ha, hb);
  }

  lemma NetPair(ha: Handle, hb: Handle)
    requires ha != hb
    ensures Net([Opened(ha), Opened(hb)] + [Closed(ha)], ha) == 0
    ensures Net([Opened(ha), Opened(hb)] + [Closed(ha)], hb) == 1
  {
    assert [] + [Opened(ha)] == [Opened(ha)] && [Opened(ha)] + [Opened(hb)] == [Opened(ha), Opened(hb)];
    forall h ensures Net([Opened(ha), Opened(hb)] + [Closed(ha)], h)
                     == (if ha == h then 1 else 0) + (if hb == h then 1 else 0) - (if ha == h then 1 else 0)
    {
      NetOpen([], ha, h);
      NetOpen([Opened(ha)], hb, h);
      NetConcat([Opened(ha), Opened(hb)], [Closed(ha)], h);
      assert Net([Closed(ha)], h) == Net([Closed(ha)][..0], h) + if ha == h then -1 else 0;
    }
  }
}
