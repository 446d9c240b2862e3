/** The dlopen cache on values: what each operation does to the cached records and to the log of
    calls into the dynamic loader. */
module DlobjSpec {
  import opened Wrappers

  type Handle = int
  type Func = int

  const REFCNT_MODULUS := 0x1_0000_0000
  const EINVAL := 22
  const ENOENT := 2

  /** The dynamic loader, deterministic: what a library opens to, which symbol a handle defines, and
      which symbol versions it vouches for. */
  datatype Loader = Loader(open: Option<string> -> Option<Handle>,
                           sym: (Handle, string) -> Option<Func>,
                           versioned: (Handle, string, string) -> bool)
  {
    /** `snd_dlsym`: a version, when given, is verified first. */
    function Dlsym(h: Handle, name: string, version: Option<string>): Option<Func> {
      if version.Some? && !versioned(h, name, version.value) then None else sym(h, name)
    }

    /** The function a key stands for, versions aside. */
    function Resolve(lib: Option<string>, name: string): Option<Func> {
      if open(lib).None? then None else sym(open(lib).value, name)
    }

    /** What a caller without a cache would get. */
    function Uncached(lib: Option<string>, name: string, version: Option<string>): Option<Func> {
      if open(lib).None? then None else Dlsym(open(lib).value, name, version)
    }

    /** No two keys name this function. */
    ghost predicate OneKey(f: Func) {
      forall lib, name, lib', name' ::
        Resolve(lib, name) == Some(f) && Resolve(lib', name') == Some(f) ==> lib == lib' && name == name'
    }

    /** Different keys name different functions. */
    ghost predicate Injective() {
      forall lib, name, lib', name' ::
        Resolve(lib, name).Some? && Resolve(lib, name) == Resolve(lib', name') ==> lib == lib' && name == name'
    }
  }

  datatype Event = Opened(h: Handle) | Closed(h: Handle)

  datatype Record = Record(lib: Option<string>, name: string, dlobj: Handle, func: Func, refcnt: nat)

  datatype Cache = Cache(entries: seq<Record>, log: seq<Event>)

  predicate Matches(r: Record, lib: Option<string>, name: string) {
    r.lib == lib && r.name == name
  }

  /** Index of the first cached record for the key, or the number of records. */
  function Find(entries: seq<Record>, lib: Option<string>, name: string): (i: nat)
    ensures i <= |entries|
    ensures i < |entries| ==> Matches(entries[i], lib, name)
    ensures forall j :: 0 <= j < i ==> !Matches(entries[j], lib, name)
  {
    if entries == [] then 0 else if Matches(entries[0], lib, name) then 0 else 1 + Find(entries[1..], lib, name)
  }

  function FindFunc(entries: seq<Record>, func: Func): (i: nat)
    ensures i <= |entries|
    ensures i < |entries| ==> entries[i].func == func
    ensures forall j :: 0 <= j < i ==> entries[j].func != func
  {
    if entries == [] then 0 else if entries[0].func == func then 0 else 1 + FindFunc(entries[1..], func)
  }

  /** Adds to one record's counter, an unsigned int. */
  function Referenced(entries: seq<Record>, i: nat): (r: seq<Record>)
    requires i < |entries|
    ensures |r| == |entries|
  {
    entries[i := entries[i].(refcnt := (entries[i].refcnt + 1) % REFCNT_MODULUS)]
  }

  /** `snd_dlobj_cache_get0`; the index is that of the record returned, if any. `memory` says whether
      the allocations of a new record succeed. */
  function Get0(ld: Loader, c: Cache, lib: Option<string>, name: string, version: Option<string>, memory: bool)
    : (r: (Cache, Option<nat>))
    ensures r.1.Some? ==> r.1.value < |r.0.entries|
  {
    var i := Find(c.entries, lib, name);
    if i < |c.entries| then (c.(entries := Referenced(c.entries, i)), Some(i))
    else match ld.open(lib)
      case None => (c, None)
      case Some(h) =>
        match ld.Dlsym(h, name, version)
        case Some(f) =>
          if memory then (Cache(c.entries + [Record(lib, name, h, f, 1)], c.log + [Opened(h)]), Some(|c.entries|))
          else (c.(log := c.log + [Opened(h), Closed(h)]), None)
        case None => (c.(log := c.log + [Opened(h), Closed(h)]), None)
  }

  function Get(ld: Loader, c: Cache, lib: Option<string>, name: string, version: Option<string>, memory: bool)
    : (Cache, Option<Func>)
  {
    var (d, i) := Get0(ld, c, lib, name, version, memory);
    (d, if i.None? then None else Some(d.entries[i.value].func))
  }

  /** `snd_dlobj_cache_get2`: a double reference. */
  function Get2(ld: Loader, c: Cache, lib: Option<string>, name: string, version: Option<string>, memory: bool)
    : (Cache, Option<Func>)
  {
    var (d, i) := Get0(ld, c, lib, name, version, memory);
    if i.None? then (d, None)
    else (d.(entries := Referenced(d.entries, i.value)), Some(d.entries[i.value].func))
  }

  /** `snd_dlobj_cache_put`: 0 only when the last reference goes. */
  function Put(c: Cache, func: Option<Func>): (Cache, int) {
    if func.None? then (c, -ENOENT)
    else
      var i := FindFunc(c.entries, func.value);
      if i == |c.entries| then (c, -ENOENT)
      else
        var r := c.entries[i];
        (if r.refcnt > 0 then c.(entries := c.entries[i := r.(refcnt := r.refcnt - 1)]) else c,
         if r.refcnt == 1 then 0 else -EINVAL)
  }

  /** The records that stay, in order. */
  function Kept(entries: seq<Record>): (r: seq<Record>)
    ensures |r| <= |entries|
  {
    if entries == [] then []
    else Kept(entries[..|entries| - 1])
         + if entries[|entries| - 1].refcnt > 0 then [entries[|entries| - 1]] else []
  }

  /** One close for each record that goes, in order. */
  function Closes(entries: seq<Record>): seq<Event> {
    if entries == [] then []
    else Closes(entries[..|entries| - 1])
         + if entries[|entries| - 1].refcnt > 0 then [] else [Closed(entries[|entries| - 1].dlobj)]
  }

  function Cleanup(c: Cache): Cache {
    Cache(Kept(c.entries), c.log + Closes(c.entries))
  }

  /** One turn of the cleanup's walk, at the record with index `i` of the original list. */
  lemma CleanupStep(all: seq<Record>, i: nat, entries: seq<Record>, k: nat)
    requires i < |all| && entries == Kept(all[..i]) + all[i..] && k == |Kept(all[..i])|
    ensures k < |entries| && entries[k] == all[i]
    ensures all[i].refcnt > 0 ==>
              entries == Kept(all[..i + 1]) + all[i + 1..] && |Kept(all[..i + 1])| == k + 1
              && Closes(all[..i + 1]) == Closes(all[..i])
    ensures all[i].refcnt == 0 ==>
              entries[..k] + entries[k + 1..] == Kept(all[..i + 1]) + all[i + 1..]
              && |Kept(all[..i + 1])| == k && Closes(all[..i + 1]) == Closes(all[..i]) + [Closed(all[i].dlobj)]
  {
    assert all[..i + 1][..i] == all[..i];
  }
}
