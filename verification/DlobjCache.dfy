/** The dlopen cache as the C code keeps it: records linked on a circular list that is searched,
    extended and, in the cleanup, unlinked and freed while it is being walked. */
module DlobjCache {
  import opened IntrusiveList
  import opened DlobjSpec
  import opened Wrappers

  class Dlobj {
    const lib: Option<string>
    const name: string
    const dlobj: Handle
    const func: Func
    var refcnt: nat
    /** The embedded list node. */
    var list: ListHead?<Dlobj>

    constructor (lib: Option<string>, name: string, dlobj: Handle, func: Func)
      ensures this.lib == lib && this.name == name && this.dlobj == dlobj && this.func == func && refcnt == 1
      ensures list != null && fresh(list) && list.entry == In(this)
    {
      this.lib, this.name, this.dlobj, this.func := lib, name, dlobj, func;
      refcnt := 1;
      list := null;
      new;
      list := new ListHead<Dlobj>(In(this));
    }

    ghost function Value(): Record
      reads this
    {
      Record(lib, name, dlobj, func, refcnt)
    }
  }

  class DlobjList {
    const ld: Loader
    const list: ListHead<Dlobj>
    /** Calls made into the loader so far. */
    var log: seq<Event>

    ghost var nodes: seq<ListHead<Dlobj>>
    ghost var entries: seq<Record>
    ghost var freed: set<object>
    ghost var Repr: set<object>

    ghost predicate Valid()
      reads this, Repr
      ensures Valid() ==> this in Repr
    {
      this in Repr && list in Repr && list !in freed
      && (forall n :: n in nodes ==> n in Repr)
      && Ring(list, nodes)
      && (forall n :: n in nodes && n.entry.In? ==> n.entry.record in Repr)
      && AllLinked(nodes, entries)
    }

    /** Node by node, these are the records. */
    ghost predicate AllLinked(ns: seq<ListHead<Dlobj>>, es: seq<Record>)
      reads this`freed, this`Repr, set n | n in ns && n.entry.In? :: n.entry.record
    {
      |es| == |ns| && forall i {:trigger ns[i]} :: 0 <= i < |ns| ==> Linked(ns[i], es[i])
    }

    lemma AllLinkedRemoved(ns: seq<ListHead<Dlobj>>, es: seq<Record>, k: nat)
      requires AllLinked(ns, es) && k < |ns|
      ensures AllLinked(Removed(ns, k), Removed(es, k))
    {
    }

    /** The node belongs to a live record with this value. */
    ghost predicate Linked(n: ListHead<Dlobj>, r: Record)
      reads this`freed, this`Repr, if n.entry.In? then {n.entry.record} else {}
    {
      n !in freed && n.entry.In? && n.entry.record in Repr && n.entry.record !in freed && n.entry.record.Value() == r
      && n.entry.record.list == n
    }

    ghost function Contents(): Cache
      reads this
    {
      Cache(entries, log)
    }

    constructor (ld: Loader)
      ensures Valid() && fresh(Repr) && this.ld == ld && Contents() == Cache([], [])
    {
      this.ld := ld;
      var head := new ListHead<Dlobj>(Head);
      list := head;
      log, nodes, entries, freed := [], [], [], {};
      Repr := {this, head};
    }

    /** Records a call into the loader. */
    method Emit(e: Event)
      requires Valid()
      modifies this`log
      ensures Valid() && log == old(log) + [e]
    {
      log := log + [e];
    }

    /** An assignment to c->refcnt, of the record at index `i`. */
    method SetRefcnt(c: Dlobj, ghost i: nat, refcnt: nat)
      requires Valid() && i < |nodes| && nodes[i].entry == In(c)
      modifies Repr
      ensures Valid() && Repr == old(Repr) && nodes == old(nodes) && |entries| == old(|entries|) && log == old(log)
      ensures entries == old(entries)[i := old(entries)[i].(refcnt := refcnt)]
    {
      Parts();
      assert forall j {:trigger nodes[j]} :: 0 <= j < |nodes| && j != i ==> nodes[j] != nodes[i];
      assert Linked(nodes[i], entries[i]);
      hide Ring, Distinct, Valid;
      c.refcnt := refcnt;
      entries := entries[i := entries[i].(refcnt := refcnt)];
      IsValid();
    }

    /** c->refcnt++. */
    method Reference(c: Dlobj, ghost i: nat)
      requires Valid() && i < |nodes| && nodes[i].entry == In(c)
      modifies Repr
      ensures Valid() && Repr == old(Repr) && nodes == old(nodes)
      ensures Contents() == old(Contents()).(entries := Referenced(old(entries), i))
    {
      AtIndex(i);
      hide Valid;
      SetRefcnt(c, i, (c.refcnt + 1) % REFCNT_MODULUS);
    }

    /** The search: the first linked record for the key, or null. */
    method Search(lib: Option<string>, name: string) returns (c: Dlobj?, ghost i: nat)
      requires Valid()
      ensures i == Find(entries, lib, name)
      ensures i <= |nodes| == |entries| && (c != null <==> i < |nodes|)
      ensures c == null <==> Find(entries, lib, name) == |entries|
      ensures c != null ==> nodes[i].entry == In(c) && c.lib == lib && c.name == name
    {
      var p := list.next;
      i := 0;
      while p != list
        invariant i <= |nodes| && p == Nth(list, nodes, i)
        invariant forall j :: 0 <= j < i ==> !Matches(entries[j], lib, name)
        decreases |nodes| - i
      {
        assert Linked(nodes[i], entries[i]);
        c := p.entry.record;
        if c.lib.Some? && lib.Some? && c.lib.value != lib.value {
        } else if c.lib.None? && lib.Some? {
        } else if lib.None? && c.lib.Some? {
        } else if c.name == name {
          return;
        }
        p := p.next;
        i := i + 1;
      }
      c := null;
    }

    /** Links a new record at the tail. */
    method Append(c: Dlobj)
      requires Valid() && c !in Repr && c !in freed
      requires c.list != null && c.list !in Repr && c.list !in freed && c.list.entry == In(c)
      modifies Repr, c.list
      ensures Valid() && Repr == old(Repr) + {c, c.list} && |nodes| == old(|nodes|) + 1
      ensures nodes[|nodes| - 1].entry == In(c)
      ensures Contents() == old(Contents()).(entries := old(entries) + [old(c.Value())])
    {
      ListAddTail(c.list, list, nodes);
      nodes := nodes + [c.list];
      entries := entries + [c.Value()];
      Repr := Repr + {c, c.list};
    }

    /** A linked record for the key, with one more reference; or null. */
    method Get0(lib: Option<string>, name: string, version: Option<string>, memory: bool)
      returns (c: Dlobj?, ghost at: Option<nat>)
      requires Valid()
      modifies Repr
      ensures Valid() && fresh(Repr - old(Repr))
      ensures (Contents(), at) == DlobjSpec.Get0(ld, old(Contents()), lib, name, version, memory)
      ensures c == null <==> at.None?
      ensures c != null ==> at.value < |nodes| && nodes[at.value].entry == In(c)
    {
      hide Valid, Find;
      ghost var i;
      c, i := Search(lib, name);
      if c != null {
        Reference(c, i);
        return c, Some(i);
      }
      var dlobj := ld.open(lib);
      if dlobj.None? {
        return null, None;
      }
      Emit(Opened(dlobj.value));
      var func := ld.Dlsym(dlobj.value, name, version);
      if func.None? || !memory {
        Emit(Closed(dlobj.value));
        assert log == old(log) + [Opened(dlobj.value), Closed(dlobj.value)];
        return null, None;
      }
      c := new Dlobj(lib, name, dlobj.value, func.value);
      at := Some(|nodes|);
      Append(c);
    }

    method Get(lib: Option<string>, name: string, version: Option<string>, memory: bool)
      returns (func: Option<Func>)
      requires Valid()
      modifies Repr
      ensures Valid() && fresh(Repr - old(Repr))
      ensures (Contents(), func) == DlobjSpec.Get(ld, old(Contents()), lib, name, version, memory)
    {
      func := None;
      var c, at := Get0(lib, name, version, memory);
      if c != null {
        assert Linked(nodes[at.value], entries[at.value]);
        func := Some(c.func);
      }
    }

    method Get2(lib: Option<string>, name: string, version: Option<string>, memory: bool)
      returns (func: Option<Func>)
      requires Valid()
      modifies Repr
      ensures Valid() && fresh(Repr - old(Repr))
      ensures (Contents(), func) == DlobjSpec.Get2(ld, old(Contents()), lib, name, version, memory)
    {
      func := None;
      var c, at := Get0(lib, name, version, memory);
      if c != null {
        assert Linked(nodes[at.value], entries[at.value]);
        func := Some(c.func);
        Reference(c, at.value);
      }
    }

    method Put(func: Option<Func>) returns (err: int)
      requires Valid()
      modifies Repr
      ensures Valid() && Repr == old(Repr)
      ensures (Contents(), err) == DlobjSpec.Put(old(Contents()), func)
    {
      if func.None? {
        return -ENOENT;
      }
      hide Valid, AllLinked, Linked, Ring, Distinct, FindFunc;
      AtIndex(0);
      var p := list.next;
      ghost var i := 0;
      while p != list
        invariant Valid() && Repr == old(Repr) && Contents() == old(Contents())
        invariant i <= |nodes| == |entries| && p == Nth(list, nodes, i)
        invariant forall j :: 0 <= j < i ==> entries[j].func != func.value
        decreases |nodes| - i
      {
        AtIndex(i);
        var c := p.entry.record;
        if c.func == func.value {
          FirstFunc(entries, func.value, i);
          var refcnt := c.refcnt;
          if c.refcnt > 0 {
            SetRefcnt(c, i, c.refcnt - 1);
          }
          return if refcnt == 1 then 0 else -EINVAL;
        }
        p := p.next;
        i := i + 1;
      }
      InList(i);
      FirstFunc(entries, func.value, i);
      return -ENOENT;
    }

    /** list_del on the record at index `k`. */
    method Unlink(p: ListHead<Dlobj>, ghost k: nat)
      requires Valid() && k < |nodes| && nodes[k] == p
      modifies this`nodes, this`entries, p.prev`next, p.next`prev
      ensures Valid()
      ensures nodes == Removed(old(nodes), k) && entries == Removed(old(entries), k)
      ensures p.next == old(p.next) && p !in nodes
    {
      hide *;
      Parts();
      RemovedSubset(nodes, k);
      AllLinkedRemoved(nodes, entries, k);
      ListDel(p, list, nodes, k);
      nodes, entries := Removed(nodes, k), Removed(entries, k);
      IsValid();
    }

    lemma Parts()
      requires Valid()
      ensures this in Repr && list in Repr && list !in freed && Ring(list, nodes) && Distinct(list, nodes)
      ensures AllLinked(nodes, entries) && |entries| == |nodes|
      ensures forall n :: n in nodes ==> n in Repr && (n.entry.In? ==> n.entry.record in Repr)
    {
      hide Linked;
    }

    lemma IsValid()
      requires this in Repr && list in Repr && list !in freed && Ring(list, nodes) && AllLinked(nodes, entries)
      requires forall n :: n in nodes ==> n in Repr && (n.entry.In? ==> n.entry.record in Repr)
      ensures Valid()
    {
      hide Ring, Linked;
    }

    /** p->next; only a node that has not been freed may be read. */
    method Follow(p: ListHead<Dlobj>) returns (next: ListHead<Dlobj>)
      requires p !in freed
      ensures next == p.next
    {
      next := p.next;
    }

    /** list_entry(p)->refcnt, of a record that has not been freed. */
    method RefcntAt(p: ListHead<Dlobj>) returns (c: Dlobj, refcnt: nat)
      requires p !in freed && p.entry.In? && p.entry.record !in freed
      ensures c == p.entry.record && refcnt == c.refcnt
    {
      c := p.entry.record;
      refcnt := c.refcnt;
    }

    lemma RemovedSubset(ns: seq<ListHead<Dlobj>>, k: nat)
      requires k < |ns| && Distinct(list, ns)
      ensures ns[k] !in Removed(ns, k) && forall n :: n in Removed(ns, k) ==> n in ns
    {
    }

    /** free(c), which takes the embedded node with it; never twice. */
    method Free(c: Dlobj)
      requires Valid() && c.list != null && c.list !in nodes && c.list != list
      requires c !in freed && c.list !in freed
      modifies this`freed
      ensures Valid() && freed == old(freed) + {c, c.list}
    {
      freed := freed + {c, c.list};
    }

    /** list_del, snd_dlclose and free of the record at index `k`. */
    method Drop(p: ListHead<Dlobj>, ghost k: nat)
      requires Valid() && k < |nodes| && nodes[k] == p && p.entry.In?
      modifies Repr
      ensures Valid() && Repr == old(Repr)
      ensures nodes == Removed(old(nodes), k) && entries == Removed(old(entries), k)
      ensures log == old(log) + [Closed(old(entries)[k].dlobj)]
      ensures freed == old(freed) + {p, p.entry.record}
      ensures p.next == old(p.next)
    {
      AtIndex(k);
      Neighbours(list, nodes, k);
      var c := p.entry.record;
      assert Linked(nodes[k], entries[k]) && p.prev in Repr && p.next in Repr;
      hide Valid, Ring, Distinct;
      Unlink(p, k);
      Emit(Closed(c.dlobj));
      Free(c);
    }

    /** What the walk sees at index `k`; nothing it reads has been freed. */
    lemma AtIndex(k: nat)
      requires Valid() && k <= |nodes|
      ensures |entries| == |nodes| && list.next == Nth(list, nodes, 0)
      ensures Nth(list, nodes, k) !in freed && list !in freed
      ensures k < |nodes| ==>
                nodes[k] != list && nodes[k].next == Nth(list, nodes, k + 1)
                && nodes[k].entry.In? && nodes[k].entry.record !in freed
                && nodes[k].entry.record.refcnt == entries[k].refcnt && nodes[k].entry.record.func == entries[k].func
    {
      if k < |nodes| { assert Linked(nodes[k], entries[k]); }
    }

    /** The body of the cleanup's walk, at the node `p` that now has index `k`. */
    method CleanupTurn(p: ListHead<Dlobj>, ghost all: seq<Record>, ghost calls: seq<Event>, ghost i: nat,
                       ghost k: nat)
      returns (ghost k': nat)
      requires Valid() && i < |all| && k == |Kept(all[..i])| && entries == Kept(all[..i]) + all[i..]
      requires p == Nth(list, nodes, k) && p != list && log == calls + Closes(all[..i])
      modifies Repr
      ensures Valid() && Repr == old(Repr)
      ensures k' == |Kept(all[..i + 1])| <= |nodes| && entries == Kept(all[..i + 1]) + all[i + 1..]
      ensures log == calls + Closes(all[..i + 1])
      ensures old(p.next) == Nth(list, nodes, k')
    {
      hide Valid, AllLinked, Linked, Ring, Distinct, Kept, Closes;
      AtIndex(k);
      CleanupStep(all, i, entries, k);
      var _, refcnt := RefcntAt(p);
      if refcnt != 0 {
        return k + 1;
      }
      Drop(p, k);
      return k;
    }

    /** Unlinks, closes and frees every unreferenced record during one walk of the list. */
    method Cleanup()
      requires Valid()
      modifies Repr
      ensures Valid() && Repr == old(Repr)
      ensures Contents() == DlobjSpec.Cleanup(old(Contents()))
    {
      hide *;
      ghost var all := entries;
      ghost var i, k := 0, 0;
      ContentsIs();
      AtIndex(0);
      NoneYet(all);
      var p := Follow(list);
      var npos := Follow(p);
      while p != list
        invariant Valid() && Repr == old(Repr) && p !in freed
        invariant i <= |all| && k == |Kept(all[..i])|
        invariant entries == Kept(all[..i]) + all[i..]
        invariant log == old(log) + Closes(all[..i])
        invariant p == Nth(list, nodes, k) && npos == p.next && k <= |nodes| == |entries|
        decreases |all| - i
      {
        InList(k);
        k := CleanupTurn(p, all, old(log), i, k);
        i := i + 1;
        p := npos;
        AtIndex(k);
        npos := Follow(p);
      }
      AtIndex(k);
      InList(k);
      assert all[i..] == [] && all[..i] == all;
      CleanupIs(Cache(all, old(log)));
      ContentsIs();
    }

    lemma ContentsIs()
      ensures Contents() == Cache(entries, log)
    {
    }

    /** Only the head stands at the end of the list. */
    lemma InList(k: nat)
      requires Valid() && k <= |nodes|
      ensures |entries| == |nodes| && (Nth(list, nodes, k) == list <==> k == |nodes|)
    {
      AtIndex(k);
    }
  }

  lemma FirstFunc(entries: seq<Record>, func: Func, i: nat)
    requires i <= |entries| && forall j :: 0 <= j < i ==> entries[j].func != func
    requires i < |entries| ==> entries[i].func == func
    ensures FindFunc(entries, func) == i
  {
  }

  lemma NoneYet(all: seq<Record>)
    ensures Kept(all[..0]) == [] && Closes(all[..0]) == []
  {
    assert all[..0] == [];
  }

  lemma CleanupIs(c: Cache)
    ensures DlobjSpec.Cleanup(c) == Cache(Kept(c.entries), c.log + Closes(c.entries))
  {
  }
}
