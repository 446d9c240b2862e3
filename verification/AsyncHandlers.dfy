/** Registration of asynchronous handlers: when the library's signal handler is installed and when the
    disposition it replaced is put back. */
module AsyncHandlers {
  import opened IntrusiveList
  import opened Wrappers

  /** What a signal leads to: the default action (a null `sa_sigaction`), being ignored, the library's own
      handler, or one of the application's. */
  datatype Disposition = DEFAULT | IGNORED | LIBRARY | Handling(address: int)

  /** The handlers in list order, the signal's disposition, and the static `previous_action`. */
  datatype State = State(handlers: seq<int>, disposition: Disposition, previous: Disposition)

  datatype Outcome = Success | Failure | Aborted

  /** `snd_async_add_handler`; `ok` says whether a `sigaction` call, if made, succeeds. */
  function Add(s: State, fd: int, ok: bool): (State, Outcome) {
    var added := s.(handlers := s.handlers + [fd]);
    if s.handlers != [] then (added, Success)
    else if s.previous != DEFAULT then (added, Aborted)
    else if ok then (added.(disposition := LIBRARY, previous := s.disposition), Success)
    else (added, Failure)
  }

  /** `snd_async_del_handler` of the handler at index `k`, up to the `sigaction` restore. */
  function Del(s: State, k: nat, ok: bool): (State, Outcome)
    requires k < |s.handlers|
  {
    var removed := s.(handlers := Removed(s.handlers, k));
    if removed.handlers != [] then (removed, Success)
    else if ok then (removed.(disposition := s.previous, previous := DEFAULT), Success)
    else (removed, Failure)
  }

  datatype Op = DoAdd(fd: int, ok: bool) | DoDel(k: nat, ok: bool)

  predicate Possible(s: State, op: Op) {
    op.DoDel? ==> op.k < |s.handlers|
  }

  function Step(s: State, op: Op): (State, Outcome)
    requires Possible(s, op)
  {
    match op
    case DoAdd(fd, ok) => Add(s, fd, ok)
    case DoDel(k, ok) => Del(s, k, ok)
  }

  /** The operation changes the list between empty and non-empty, so it calls `sigaction`. */
  predicate CallsSigaction(s: State, op: Op) {
    match op
    case DoAdd(_, _) => s.handlers == []
    case DoDel(_, _) => |s.handlers| == 1
  }

  /** `app` was the disposition before the first handler was added. */
  predicate Inv(s: State, app: Disposition) {
    if s.handlers == [] then s.disposition == app && s.previous == DEFAULT
    else s.disposition == LIBRARY && s.previous == app
  }

  /** A step keeps the invariant exactly when it makes no failing `sigaction` call. */
  lemma StepKeepsIff(s: State, op: Op, app: Disposition)
    requires app != LIBRARY && Inv(s, app) && Possible(s, op)
    ensures Inv(Step(s, op).0, app) <==> !CallsSigaction(s, op) || op.ok
    ensures Step(s, op).1 != Aborted
  {
  }

  /** A step reports failure exactly when it makes a failing `sigaction` call, and then no disposition changes. */
  lemma FailureIff(s: State, op: Op, app: Disposition)
    requires app != LIBRARY && Inv(s, app) && Possible(s, op)
    ensures Step(s, op).1 == Failure <==> CallsSigaction(s, op) && !op.ok
    ensures Step(s, op).1 == Success || Step(s, op).1 == Failure
    ensures Step(s, op).1 == Failure ==>
              Step(s, op).0.disposition == s.disposition && Step(s, op).0.previous == s.previous
  {
  }

  /** A restore that failed leaves `previous_action` set: the next add aborts exactly when the
      application had a handler of its own. */
  lemma AbortAfterFailedRestore(s: State, k: nat, fd: int, ok: bool, app: Disposition)
    requires app != LIBRARY && Inv(s, app) && k < |s.handlers| == 1
    ensures Add(Del(s, k, false).0, fd, ok).1 == Aborted <==> app != DEFAULT
  {
  }

  /** An install that failed leaves the handler on the list: while there are handlers every further add reports
      success with nothing installed, and deleting the last one sets the default action, which is right exactly
      when that was the application's. */
  lemma {:induction false} AfterFailedInstall(s: State, fd: int, more: seq<(int, bool)>, ok: bool, app: Disposition)
    requires app != LIBRARY && Inv(s, app) && s.handlers == []
    ensures var t := AddAll(Add(s, fd, false).0, more);
            Add(t, fd, ok).1 == Success && t.handlers != [] && t.disposition == app
            && Add(t, fd, ok).0.disposition == app
    ensures var d := Del(Add(s, fd, false).0, 0, true);
            d.1 == Success && d.0.handlers == [] && d.0.disposition == DEFAULT && (Inv(d.0, app) <==> app == DEFAULT)
    decreases |more|
  {
    if more != [] { AfterFailedInstall(s, fd, more[..|more| - 1], more[|more| - 1].1, app); }
  }

  /** Adds in a row. */
  function AddAll(s: State, more: seq<(int, bool)>): State {
    if more == [] then s else Add(AddAll(s, more[..|more| - 1]), more[|more| - 1].0, more[|more| - 1].1).0
  }

  /** The state after a run that starts from the application's disposition; none when a deletion names
      no listed handler. */
  function Run(app: Disposition, ops: seq<Op>): Option<State> {
    if ops == [] then Some(State([], app, DEFAULT))
    else match Run(app, ops[..|ops| - 1])
      case None => None
      case Some(s) => if Possible(s, ops[|ops| - 1]) then Some(Step(s, ops[|ops| - 1]).0) else None
  }

  /** Over every run in which the `sigaction` calls succeed: the library's handler is installed
      exactly while there are handlers, an empty list has the application's disposition back, and the
      assertion on `previous_action` holds at the next add. */
  lemma {:induction false} InstalledIffHandlers(app: Disposition, ops: seq<Op>)
    requires app != LIBRARY && Run(app, ops).Some?
    requires forall i :: 0 <= i < |ops| ==> ops[i].ok
    ensures var s := Run(app, ops).value;
            Inv(s, app) && (s.disposition == LIBRARY <==> s.handlers != [])
            && (s.handlers == [] ==> s.disposition == app)
            && forall fd, ok :: Add(s, fd, ok).1 != Aborted
    decreases |ops|
  {
    if ops != [] {
      InstalledIffHandlers(app, ops[..|ops| - 1]);
    }
  }

  // --- The code over the linked list ---

  class Handler {
    const fd: int
    var glist: ListHead?<Handler>

    constructor (fd: int)
      ensures this.fd == fd && glist != null && fresh(glist) && glist.entry == In(this)
    {
      this.fd := fd;
      glist := null;
      new;
      glist := new ListHead<Handler>(In(this));
    }
  }

  class Registry {
    const list: ListHead<Handler>
    var disposition: Disposition
    var previous: Disposition

    ghost var nodes: seq<ListHead<Handler>>
    ghost var fds: seq<int>
    ghost var Repr: set<object>

    ghost predicate Valid()
      reads this, Repr
      ensures Valid() ==> this in Repr
    {
      this in Repr && list in Repr
      && (forall n :: n in nodes ==> n in Repr)
      && Ring(list, nodes) && |fds| == |nodes|
      && (forall i {:trigger nodes[i]} :: 0 <= i < |nodes| ==> Linked(nodes[i], fds[i]))
    }

    ghost predicate Linked(n: ListHead<Handler>, fd: int)
      reads this, Repr
    {
      n.entry.In? && n.entry.record in Repr && n.entry.record.glist == n && n.entry.record.fd == fd
    }

    ghost function Value(): State
      reads this
    {
      State(fds, disposition, previous)
    }

    constructor (disposition: Disposition)
      ensures Valid() && fresh(Repr) && Value() == State([], disposition, DEFAULT)
    {
      var head := new ListHead<Handler>(Head);
      list := head;
      this.disposition, previous := disposition, DEFAULT;
      nodes, fds := [], [];
      Repr := {this, head};
    }

    /** list_add_tail of a new handler. */
    method Link(h: Handler)
      requires Valid() && h !in Repr && h.glist != null && h.glist !in Repr && h.glist.entry == In(h)
      modifies Repr, h.glist
      ensures Valid() && Repr == old(Repr) + {h, h.glist} && h.glist == old(h.glist)
      ensures nodes == old(nodes) + [h.glist]
      ensures Value() == old(Value()).(handlers := old(fds) + [h.fd])
    {
      ListAddTail(h.glist, list, nodes);
      nodes, fds := nodes + [h.glist], fds + [h.fd];
      Repr := Repr + {h, h.glist};
    }

    /** `sigaction` with its result; the old action is stored only by a call that succeeds. */
    method Sigaction(act: Disposition, ok: bool) returns (err: int, oldact: Disposition)
      requires Valid()
      modifies this`disposition
      ensures Valid() && oldact == old(disposition)
      ensures if ok then err == 0 && disposition == act else err < 0 && disposition == old(disposition)
    {
      oldact := disposition;
      if ok {
        disposition := act;
        err := 0;
      } else {
        err := -1;
      }
    }

    method SetPrevious(p: Disposition)
      requires Valid()
      modifies this`previous
      ensures Valid() && previous == p
    {
      previous := p;
    }

    method AddHandler(fd: int, ok: bool) returns (h: Handler, r: Outcome)
      requires Valid()
      modifies Repr
      ensures Valid() && fresh(Repr - old(Repr))
      ensures (Value(), r) == Add(old(Value()), fd, ok)
      ensures h.glist != null && nodes == old(nodes) + [h.glist]
    {
      h := new Handler(fd);
      var wasEmpty := ListEmpty(list, nodes);
      hide Ring, Distinct;
      Link(h);
      if wasEmpty {
        if previous != DEFAULT {
          return h, Aborted;
        }
        var err, oldact := Sigaction(LIBRARY, ok);
        if err < 0 {
          return h, Failure;
        }
        SetPrevious(oldact);
      }
      r := Success;
    }

    method Unlink(p: ListHead<Handler>, ghost k: nat)
      requires Valid() && k < |nodes| && nodes[k] == p
      modifies this`nodes, this`fds, p.prev`next, p.next`prev
      ensures Valid()
      ensures nodes == Removed(old(nodes), k) && fds == Removed(old(fds), k)
    {
      Neighbours(list, nodes, k);
      ListDel(p, list, nodes, k);
      hide Ring, Distinct;
      nodes, fds := Removed(nodes, k), Removed(fds, k);
    }

    method DelHandler(h: Handler, ghost k: nat, ok: bool) returns (r: Outcome)
      requires Valid() && k < |nodes| && nodes[k].entry == In(h)
      modifies Repr
      ensures Valid() && Repr == old(Repr)
      ensures nodes == Removed(old(nodes), k)
      ensures (Value(), r) == Del(old(Value()), k, ok)
    {
      var wasEmpty := ListEmpty(list, nodes);
      assert Linked(nodes[k], fds[k]);
      Neighbours(list, nodes, k);
      assert h.glist.prev in Repr && h.glist.next in Repr;
      Unlink(h.glist, k);
      var nowEmpty := ListEmpty(list, nodes);
      hide Ring, Distinct;
      if !wasEmpty && nowEmpty {
        var err, _ := Sigaction(previous, ok);
        if err < 0 {
          return Failure;
        }
        SetPrevious(DEFAULT);
      }
      r := Success;
    }
  }
}
