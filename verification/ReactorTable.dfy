/** The two parallel tables of `Reactor` and its count of stoppers. */
module ReactorTable {
  import opened Text

  /** An Event_handler; `id` tells objects for the same descriptor apart. */
  datatype Handler = Handler(fd: int, stopper: bool, id: int)

  /** An Event_mask or a set of them: INPUT is 1 and OUTPUT is 2. */
  datatype Mask = Mask(input: bool, output: bool)

  datatype HandlerState = HandlerState(fd: int, mask: Mask, revents: Mask)

  datatype Tables = Tables(handlers: map<int, Handler>, states: seq<HandlerState>, stoppers: int)

  datatype Op =
    | Register(h: Handler, mask: Mask)
    | UnregisterMask(h: Handler, mask: Mask)
    | Unregister(h: Handler)
    | FakeEvent(h: Handler, mask: Mask)

  const NONE := Mask(false, false)
  const INPUT := Mask(true, false)
  const OUTPUT := Mask(false, true)

  function Or(a: Mask, b: Mask): Mask {
    Mask(a.input || b.input, a.output || b.output)
  }

  function And(a: Mask, b: Mask): Mask {
    Mask(a.input && b.input, a.output && b.output)
  }

  /** The logical negation of C++, which gives 0 or 1. */
  function Not(m: Mask): Mask {
    if m == NONE then INPUT else NONE
  }

  // ----- What the operations do ---------------------------------------------

  /** `std::find` in the list of states. */
  function IndexOf(states: seq<HandlerState>, fd: int): (r: Option<nat>)
    ensures r.Some? ==> r.value < |states| && states[r.value].fd == fd
    ensures r == None ==> forall i :: 0 <= i < |states| ==> states[i].fd != fd
  {
    if states == [] then None
    else if states[0].fd == fd then Some(0)
    else
      match IndexOf(states[1..], fd)
      case None => None
      case Some(i) => Some(i + 1)
  }

  function Without(states: seq<HandlerState>, i: nat): seq<HandlerState>
    requires i < |states|
  {
    states[..i] + states[i + 1..]
  }

  function Weight(h: Handler): int {
    if h.stopper then 1 else 0
  }

  /** The mask of an entry is cut down to `keep`, and the entry goes if nothing is left. */
  function Masked(t: Tables, h: Handler, keep: Mask): Tables {
    match IndexOf(t.states, h.fd)
    case None => t
    case Some(i) =>
      var newMask := And(t.states[i].mask, keep);
      if newMask != NONE then t.(states := t.states[i := t.states[i].(mask := newMask)])
      else Tables(t.handlers - {h.fd}, Without(t.states, i), t.stoppers - Weight(h))
  }

  /** None where the original would use the end of the list as an element. */
  function Apply(t: Tables, op: Op): Option<Tables> {
    var i := IndexOf(t.states, op.h.fd);
    match op
    case Register(h, mask) =>
      if h.fd !in t.handlers then
        Some(Tables(t.handlers[h.fd := h], t.states + [HandlerState(h.fd, mask, NONE)], t.stoppers + Weight(h)))
      else if i == None then None
      else
        var s := t.states[i.value];
        Some(t.(states := t.states[i.value := s.(mask := Or(s.mask, mask))], stoppers := t.stoppers + Weight(h)))
    case UnregisterMask(h, mask) => Some(Masked(t, h, Not(mask)))
    case Unregister(h) =>
      if h.fd !in t.handlers then Some(t)
      else if i == None then None
      else Some(Tables(t.handlers - {h.fd}, Without(t.states, i.value), t.stoppers - Weight(h)))
    case FakeEvent(h, mask) =>
      if i == None then Some(t)
      else
        var s := t.states[i.value];
        Some(t.(states := t.states[i.value := s.(revents := Or(s.revents, mask))]))
  }

  // ----- Agreement ----------------------------------------------------------

  ghost predicate Distinct(states: seq<HandlerState>) {
    forall i, j :: 0 <= i < j < |states| ==> states[i].fd != states[j].fd
  }

  ghost predicate Listed(states: seq<HandlerState>, fd: int) {
    exists i :: 0 <= i < |states| && states[i].fd == fd
  }

  /** The same descriptors in both tables, and none twice. */
  ghost predicate Agree(t: Tables) {
    && Distinct(t.states)
    && (forall fd :: fd in t.handlers <==> Listed(t.states, fd))
    && (forall fd :: fd in t.handlers ==> t.handlers[fd].fd == fd)
  }

  lemma RemoveKeepsOthers(states: seq<HandlerState>, i: nat)
    requires i < |states| && Distinct(states)
    ensures Distinct(Without(states, i))
    ensures forall fd :: Listed(Without(states, i), fd) <==> Listed(states, fd) && fd != states[i].fd
  {
    var w := Without(states, i);
    forall fd ensures Listed(w, fd) <==> Listed(states, fd) && fd != states[i].fd {
      if Listed(states, fd) && fd != states[i].fd {
        var j :| 0 <= j < |states| && states[j].fd == fd;
        assert w[if j < i then j else j - 1].fd == fd;
      }
    }
  }

  lemma IndexAgrees(t: Tables, fd: int)
    requires Agree(t)
    ensures fd in t.handlers <==> IndexOf(t.states, fd).Some?
  {
    if fd in t.handlers {
      assert Listed(t.states, fd);
    }
    var i := IndexOf(t.states, fd);
    if i.Some? {
      assert Listed(t.states, t.states[i.value].fd);
    }
  }

  lemma AddingAgrees(t: Tables, h: Handler, s: HandlerState, stoppers: int)
    requires Agree(t) && h.fd !in t.handlers && s.fd == h.fd
    ensures Agree(Tables(t.handlers[h.fd := h], t.states + [s], stoppers))
  {
    var u := Tables(t.handlers[h.fd := h], t.states + [s], stoppers);
    assert !Listed(t.states, h.fd);
    forall fd ensures fd in u.handlers <==> Listed(u.states, fd) {
      if fd == h.fd {
        assert u.states[|t.states|].fd == fd;
      } else if Listed(t.states, fd) {
        var j :| 0 <= j < |t.states| && t.states[j].fd == fd;
        assert u.states[j].fd == fd;
      }
    }
  }

  lemma ChangingAgrees(t: Tables, i: nat, s: HandlerState, stoppers: int)
    requires Agree(t) && i < |t.states| && s.fd == t.states[i].fd
    ensures Agree(Tables(t.handlers, t.states[i := s], stoppers))
  {
    var states := t.states[i := s];
    forall fd ensures Listed(states, fd) <==> Listed(t.states, fd) {
      if Listed(t.states, fd) {
        var j :| 0 <= j < |t.states| && t.states[j].fd == fd;
        assert states[j].fd == fd;
      }
    }
  }

  /** Every operation keeps the agreement, and never meets the end of the list. */
  lemma OpKeepsAgreement(t: Tables, op: Op)
    requires Agree(t)
    ensures Apply(t, op).Some? && Agree(Apply(t, op).value)
  {
    IndexAgrees(t, op.h.fd);
    var i := IndexOf(t.states, op.h.fd);
    var u := Apply(t, op).value;
    if i == None {
      if op.Register? {
        AddingAgrees(t, op.h, HandlerState(op.h.fd, op.mask, NONE), u.stoppers);
      }
    } else if |u.states| < |t.states| {
      RemoveKeepsOthers(t.states, i.value);
    } else {
      ChangingAgrees(t, i.value, u.states[i.value], u.stoppers);
    }
  }

  // ----- The stoppers --------------------------------------------------------

  function StopperFds(t: Tables): set<int> {
    set fd | fd in t.handlers && t.handlers[fd].stopper
  }

  ghost predicate Counted(t: Tables) {
    t.stoppers == |StopperFds(t)|
  }

  /** One handler object for a descriptor. */
  predicate SameHandler(t: Tables, op: Op) {
    op.h.fd in t.handlers ==> t.handlers[op.h.fd] == op.h
  }

  lemma RegisterStoppers(t: Tables, u: Tables, h: Handler)
    requires h.fd !in t.handlers && u.handlers == t.handlers[h.fd := h]
    ensures |StopperFds(u)| == |StopperFds(t)| + Weight(h)
  {
    assert StopperFds(u) == if h.stopper then StopperFds(t) + {h.fd} else StopperFds(t);
  }

  lemma UnregisterStoppers(t: Tables, u: Tables, h: Handler)
    requires h.fd in t.handlers && t.handlers[h.fd] == h && u.handlers == t.handlers - {h.fd}
    ensures |StopperFds(u)| == |StopperFds(t)| - Weight(h)
  {
    assert StopperFds(u) == StopperFds(t) - {h.fd};
    assert h.fd in StopperFds(t) <==> h.stopper;
  }

  lemma SameStoppers(t: Tables, u: Tables)
    requires u.handlers == t.handlers
    ensures StopperFds(u) == StopperFds(t)
  {
  }

  /** What an operation does to the handlers and to the count. */
  predicate Enters(t: Tables, u: Tables, h: Handler) {
    h.fd !in t.handlers && u.handlers == t.handlers[h.fd := h] && u.stoppers == t.stoppers + Weight(h)
  }

  predicate Leaves(t: Tables, u: Tables, h: Handler) {
    h.fd in t.handlers && u.handlers == t.handlers - {h.fd} && u.stoppers == t.stoppers - Weight(h)
  }

  predicate Stays(t: Tables, u: Tables, op: Op) {
    u.handlers == t.handlers &&
    u.stoppers == t.stoppers + if op.Register? && op.h.fd in t.handlers then Weight(op.h) else 0
  }

  lemma OpOnHandlers(t: Tables, op: Op)
    requires Agree(t) && Apply(t, op).Some?
    ensures var u := Apply(t, op).value;
      (op.Register? && Enters(t, u, op.h)) || (!op.Register? && Leaves(t, u, op.h)) || Stays(t, u, op)
  {
    IndexAgrees(t, op.h.fd);
  }

  /** The count stays right exactly unless a stopper is registered once more. */
  lemma OpKeepsCount(t: Tables, op: Op)
    requires Agree(t) && Counted(t) && SameHandler(t, op)
    ensures Apply(t, op).Some?
    ensures Counted(Apply(t, op).value) <==> !(op.Register? && op.h.stopper && op.h.fd in t.handlers)
  {
    OpKeepsAgreement(t, op);
    OpOnHandlers(t, op);
    var u := Apply(t, op).value;
    if op.Register? && Enters(t, u, op.h) {
      RegisterStoppers(t, u, op.h);
    } else if !op.Register? && Leaves(t, u, op.h) {
      UnregisterStoppers(t, u, op.h);
    } else {
      SameStoppers(t, u);
    }
  }

  /** Any run of operations. */
  function ApplyAll(t: Tables, ops: seq<Op>): Option<Tables>
    decreases |ops|
  {
    if ops == [] then Some(t)
    else
      match Apply(t, ops[0])
      case None => None
      case Some(u) => ApplyAll(u, ops[1..])
  }

  /** The callers keep to one object a descriptor, and register a stopper once. */
  ghost predicate Orderly(t: Tables, ops: seq<Op>)
    decreases |ops|
  {
    ops != [] ==>
      && SameHandler(t, ops[0])
      && !(ops[0].Register? && ops[0].h.stopper && ops[0].h.fd in t.handlers)
      && (Apply(t, ops[0]).Some? ==> Orderly(Apply(t, ops[0]).value, ops[1..]))
  }

  const EMPTY := Tables(map[], [], 0)

  lemma {:induction false} RunKeepsTables(t: Tables, ops: seq<Op>)
    requires Agree(t)
    ensures ApplyAll(t, ops).Some? && Agree(ApplyAll(t, ops).value)
    ensures Counted(t) && Orderly(t, ops) ==> Counted(ApplyAll(t, ops).value)
    decreases |ops|
  {
    if ops != [] {
      OpKeepsAgreement(t, ops[0]);
      if Counted(t) && SameHandler(t, ops[0]) {
        OpKeepsCount(t, ops[0]);
      }
      RunKeepsTables(Apply(t, ops[0]).value, ops[1..]);
    }
  }

  /** A run from an empty reactor: whatever is done, both tables list the same
      descriptors; and the stoppers are counted right if the callers are orderly. */
  lemma TablesAgree(ops: seq<Op>)
    ensures ApplyAll(EMPTY, ops).Some? && Agree(ApplyAll(EMPTY, ops).value)
    ensures Orderly(EMPTY, ops) ==> Counted(ApplyAll(EMPTY, ops).value)
  {
    assert StopperFds(EMPTY) == {};
    RunKeepsTables(EMPTY, ops);
  }

  /** Clearing one bit of a mask clears them all: a handler that waits for both kinds
      of event is gone after it was unregistered for one. */
  lemma UnregisterOneLosesBoth(t: Tables, h: Handler, one: Mask)
    requires Agree(t) && one != NONE
    ensures Apply(t, UnregisterMask(h, one)) == Apply(t, Unregister(h))
  {
    if h.fd in t.handlers {
      assert Listed(t.states, h.fd);
    }
    if IndexOf(t.states, h.fd).Some? {
      var i := IndexOf(t.states, h.fd).value;
      assert Listed(t.states, t.states[i].fd);
    }
  }

  // ----- One descriptor --------------------------------------------------------

  /** What a descriptor is registered for. */
  function StateIn(states: seq<HandlerState>, fd: int): Option<HandlerState> {
    match IndexOf(states, fd)
    case None => None
    case Some(i) => Some(states[i])
  }

  function EntryIn(states: seq<HandlerState>, fd: int): Option<Mask> {
    match StateIn(states, fd)
    case None => None
    case Some(s) => Some(s.mask)
  }

  function EntryOf(t: Tables, fd: int): Option<Mask> {
    EntryIn(t.states, fd)
  }

  /** What an operation makes of that. */
  function EntryAfter(op: Op, fd: int, e: Option<Mask>): Option<Mask> {
    if op.h.fd != fd then e
    else
      match op
      case Register(_, mask) => Some(if e == None then mask else Or(e.value, mask))
      case UnregisterMask(_, mask) =>
        if e == None || And(e.value, Not(mask)) == NONE then None else Some(And(e.value, Not(mask)))
      case Unregister(_) => None
      case FakeEvent(_, _) => e
  }

  function EntryThrough(ops: seq<Op>, fd: int, e: Option<Mask>): Option<Mask>
    decreases |ops|
  {
    if ops == [] then e else EntryThrough(ops[1..], fd, EntryAfter(ops[0], fd, e))
  }

  lemma EntryAt(states: seq<HandlerState>, i: nat)
    requires Distinct(states) && i < |states|
    ensures StateIn(states, states[i].fd) == Some(states[i])
  {
    var j := IndexOf(states, states[i].fd).value;
    assert states[j].fd == states[i].fd;
  }

  lemma AddedEntry(states: seq<HandlerState>, s: HandlerState, fd: int)
    requires Distinct(states + [s]) && Distinct(states)
    ensures StateIn(states + [s], fd) == if fd == s.fd then Some(s) else StateIn(states, fd)
  {
    var all := states + [s];
    assert all[|states|] == s;
    if fd == s.fd {
      EntryAt(all, |states|);
    } else if IndexOf(states, fd).Some? {
      var i := IndexOf(states, fd).value;
      assert all[i] == states[i];
      EntryAt(all, i);
    }
  }

  lemma ChangedEntry(states: seq<HandlerState>, i: nat, s: HandlerState, fd: int)
    requires i < |states| && s.fd == states[i].fd && Distinct(states)
    ensures StateIn(states[i := s], fd) == if fd == s.fd then Some(s) else StateIn(states, fd)
  {
    var all := states[i := s];
    if fd == s.fd {
      EntryAt(all, i);
    } else if IndexOf(states, fd).Some? {
      EntryAt(all, IndexOf(states, fd).value);
    }
  }

  lemma RemovedEntry(states: seq<HandlerState>, i: nat, fd: int)
    requires i < |states| && Distinct(states)
    ensures StateIn(Without(states, i), fd) == if fd == states[i].fd then None else StateIn(states, fd)
  {
    var rest := Without(states, i);
    RemoveKeepsOthers(states, i);
    var k := IndexOf(rest, fd);
    if k.Some? {
      assert Listed(rest, fd);
    }
    if fd != states[i].fd && IndexOf(states, fd).Some? {
      var j := IndexOf(states, fd).value;
      EntryAt(rest, if j < i then j else j - 1);
    }
  }

  /** An operation changes one entry, as the operation and that entry alone determine. */
  lemma EntryStep(t: Tables, op: Op, fd: int)
    requires Agree(t)
    ensures Apply(t, op).Some? && EntryOf(Apply(t, op).value, fd) == EntryAfter(op, fd, EntryOf(t, fd))
  {
    OpKeepsAgreement(t, op);
    IndexAgrees(t, op.h.fd);
    var i, u := IndexOf(t.states, op.h.fd), Apply(t, op).value;
    if i == None {
      if op.Register? {
        AddedEntry(t.states, HandlerState(op.h.fd, op.mask, NONE), fd);
      }
    } else if |u.states| < |t.states| {
      RemovedEntry(t.states, i.value, fd);
    } else {
      ChangedEntry(t.states, i.value, u.states[i.value], fd);
    }
  }

  lemma {:induction false} EntryRun(t: Tables, ops: seq<Op>, fd: int)
    requires Agree(t)
    ensures ApplyAll(t, ops).Some? && Agree(ApplyAll(t, ops).value)
    ensures EntryOf(ApplyAll(t, ops).value, fd) == EntryThrough(ops, fd, EntryOf(t, fd))
    decreases |ops|
  {
    if ops != [] {
      OpKeepsAgreement(t, ops[0]);
      EntryStep(t, ops[0], fd);
      EntryRun(Apply(t, ops[0]).value, ops[1..], fd);
    }
  }

  /** The masks that were registered for the descriptor since it was last unregistered. */
  function Since(ops: seq<Op>, fd: int): seq<Mask> {
    if ops == [] then []
    else
      var last := ops[|ops| - 1];
      if last.h.fd != fd then Since(ops[..|ops| - 1], fd)
      else match last
        case Register(_, mask) => Since(ops[..|ops| - 1], fd) + [mask]
        case FakeEvent(_, _) => Since(ops[..|ops| - 1], fd)
        case _ => []
  }

  predicate AnyInput(masks: seq<Mask>) {
    exists i :: 0 <= i < |masks| && masks[i].input
  }

  predicate AnyOutput(masks: seq<Mask>) {
    exists i :: 0 <= i < |masks| && masks[i].output
  }

  lemma OneMoreMask(masks: seq<Mask>, m: Mask)
    ensures AnyInput(masks + [m]) <==> AnyInput(masks) || m.input
    ensures AnyOutput(masks + [m]) <==> AnyOutput(masks) || m.output
  {
    var all := masks + [m];
    assert all[|masks|] == m;
    if AnyInput(masks) {
      var i :| 0 <= i < |masks| && masks[i].input;
      assert all[i].input;
    }
    if AnyOutput(masks) {
      var i :| 0 <= i < |masks| && masks[i].output;
      assert all[i].output;
    }
  }

  /** After any run: a descriptor is registered if it was since it was last unregistered,
      and for every kind of event that it was registered for since then. */
  lemma {:induction false} RegisteredSince(ops: seq<Op>, fd: int)
    requires forall i :: 0 <= i < |ops| && ops[i].UnregisterMask? ==> ops[i].mask != NONE
    ensures ApplyAll(EMPTY, ops).Some?
    ensures EntryOf(ApplyAll(EMPTY, ops).value, fd) ==
      if Since(ops, fd) == [] then None else Some(Mask(AnyInput(Since(ops, fd)), AnyOutput(Since(ops, fd))))
  {
    EntryRun(EMPTY, ops, fd);
    ThroughSince(ops, fd);
  }

  lemma {:induction false} ThroughSince(ops: seq<Op>, fd: int)
    requires forall i :: 0 <= i < |ops| && ops[i].UnregisterMask? ==> ops[i].mask != NONE
    ensures EntryThrough(ops, fd, None) ==
      if Since(ops, fd) == [] then None else Some(Mask(AnyInput(Since(ops, fd)), AnyOutput(Since(ops, fd))))
    decreases |ops|
  {
    if ops != [] {
      var front, last := ops[..|ops| - 1], ops[|ops| - 1];
      assert ops == front + [last];
      ThroughBoth(front, [last], fd, None);
      assert [last][1..] == [];
      ThroughSince(front, fd);
      if last.h.fd == fd && last.Register? {
        OneMoreMask(Since(front, fd), last.mask);
        assert AnyInput([]) == AnyOutput([]) == false;
      }
    }
  }

  /** The events that were set for the descriptor since it was entered. */
  function Faked(ops: seq<Op>, fd: int): seq<Mask> {
    if ops == [] then []
    else
      var front, last := ops[..|ops| - 1], ops[|ops| - 1];
      if last.h.fd != fd then Faked(front, fd)
      else match last
        case Register(_, _) => Faked(front, fd)
        case FakeEvent(_, mask) => if Since(front, fd) == [] then Faked(front, fd) else Faked(front, fd) + [mask]
        case _ => []
  }

  function EventsOf(t: Tables, fd: int): Option<Mask> {
    match StateIn(t.states, fd)
    case None => None
    case Some(s) => Some(s.revents)
  }

  function EventsAfter(op: Op, fd: int, e: Option<Mask>): Option<Mask> {
    if op.h.fd != fd then e
    else
      match op
      case Register(_, _) => if e == None then Some(NONE) else e
      case FakeEvent(_, mask) => if e == None then None else Some(Or(e.value, mask))
      case _ => None
  }

  lemma EventsStep(t: Tables, op: Op, fd: int)
    requires Agree(t) && (op.UnregisterMask? ==> op.mask != NONE)
    ensures Apply(t, op).Some? && EventsOf(Apply(t, op).value, fd) == EventsAfter(op, fd, EventsOf(t, fd))
  {
    OpKeepsAgreement(t, op);
    IndexAgrees(t, op.h.fd);
    var i, u := IndexOf(t.states, op.h.fd), Apply(t, op).value;
    if i == None {
      if op.Register? {
        AddedEntry(t.states, HandlerState(op.h.fd, op.mask, NONE), fd);
      }
    } else if |u.states| < |t.states| {
      RemovedEntry(t.states, i.value, fd);
    } else {
      ChangedEntry(t.states, i.value, u.states[i.value], fd);
    }
  }

  lemma {:induction false} RunOnce(t: Tables, front: seq<Op>, last: Op)
    requires Agree(t)
    ensures ApplyAll(t, front).Some? && Agree(ApplyAll(t, front).value)
    ensures ApplyAll(t, front + [last]) == Apply(ApplyAll(t, front).value, last)
    decreases |front|
  {
    OpKeepsAgreement(t, (front + [last])[0]);
    if front == [] {
      assert (front + [last])[1..] == [];
    } else {
      assert (front + [last])[1..] == front[1..] + [last];
      RunOnce(Apply(t, front[0]).value, front[1..], last);
    }
  }

  /** After any run: the events of a descriptor are all that were set since it was entered. */
  lemma {:induction false} FakedSince(ops: seq<Op>, fd: int)
    requires forall i :: 0 <= i < |ops| && ops[i].UnregisterMask? ==> ops[i].mask != NONE
    ensures ApplyAll(EMPTY, ops).Some?
    ensures EventsOf(ApplyAll(EMPTY, ops).value, fd) ==
      if Since(ops, fd) == [] then None else Some(Mask(AnyInput(Faked(ops, fd)), AnyOutput(Faked(ops, fd))))
    ensures Since(ops, fd) == [] ==> Faked(ops, fd) == []
    decreases |ops|
  {
    if ops != [] {
      var front, last := ops[..|ops| - 1], ops[|ops| - 1];
      assert ops == front + [last];
      FakedSince(front, fd);
      RunOnce(EMPTY, front, last);
      EventsStep(ApplyAll(EMPTY, front).value, last, fd);
      assert AnyInput([]) == AnyOutput([]) == false;
      if last.FakeEvent? {
        OneMoreMask(Faked(front, fd), last.mask);
      }
    }
  }

  function Complement(m: Mask): Mask {
    Mask(!m.input, !m.output)
  }

  /** Unregistering a mask does what its name promises, and leaves the entry with the
      other kinds of event, exactly if there is no entry, or it had no other kinds; or,
      for no kind at all, if it does not wait for output. */
  lemma UnregisterMaskExactly(t: Tables, h: Handler, mask: Mask)
    requires Agree(t)
    ensures Apply(t, UnregisterMask(h, mask)) == Some(Masked(t, h, Complement(mask))) <==>
      match EntryOf(t, h.fd)
      case None => true
      case Some(m) => if mask == NONE then !m.output else And(m, Complement(mask)) == NONE
  {
    var a, b := Masked(t, h, Not(mask)), Masked(t, h, Complement(mask));
    if EntryOf(t, h.fd).Some? {
      var i, m := IndexOf(t.states, h.fd).value, EntryOf(t, h.fd).value;
      if And(m, Not(mask)) != And(m, Complement(mask)) {
        EntryStep(t, UnregisterMask(h, mask), h.fd);
        MaskedEntry(t, h, Complement(mask));
      }
    }
  }

  lemma MaskedEntry(t: Tables, h: Handler, keep: Mask)
    requires Agree(t) && EntryOf(t, h.fd).Some?
    ensures var left := And(EntryOf(t, h.fd).value, keep);
      EntryOf(Masked(t, h, keep), h.fd) == if left == NONE then None else Some(left)
  {
    var i := IndexOf(t.states, h.fd).value;
    if And(t.states[i].mask, keep) == NONE {
      RemovedEntry(t.states, i, h.fd);
    } else {
      ChangedEntry(t.states, i, t.states[i].(mask := And(t.states[i].mask, keep)), h.fd);
    }
  }

  // ----- Dispatching ---------------------------------------------------------

  /** What a callback does to the tables; false where a handler is missing. */
  function Dispatch(t: Tables, batch: seq<int>, effects: seq<seq<Op>>): (Option<Tables>, bool)
    requires |effects| == |batch|
    decreases |batch|
  {
    if batch == [] then (Some(t), true)
    else if batch[0] !in t.handlers then (Some(t), false)
    else
      match ApplyAll(t, effects[0])
      case None => (None, true)
      case Some(u) => Dispatch(u, batch[1..], effects[1..])
  }

  /** The callback for `fd` unregisters no other descriptor. */
  predicate OwnOnly(fd: int, ops: seq<Op>) {
    forall i :: 0 <= i < |ops| && (ops[i].UnregisterMask? || ops[i].Unregister?) ==> ops[i].h.fd == fd
  }

  lemma {:induction false} OthersStay(t: Tables, fd: int, ops: seq<Op>)
    requires Agree(t) && OwnOnly(fd, ops)
    ensures ApplyAll(t, ops).Some? && Agree(ApplyAll(t, ops).value)
    ensures forall g :: g in t.handlers && g != fd ==> g in ApplyAll(t, ops).value.handlers
    decreases |ops|
  {
    if ops != [] {
      OpKeepsAgreement(t, ops[0]);
      OthersStay(Apply(t, ops[0]).value, fd, ops[1..]);
    }
  }

  ghost predicate DistinctFds(batch: seq<int>) {
    forall i, j :: 0 <= i < j < |batch| ==> batch[i] != batch[j]
  }

  /** If every callback unregisters itself at most, each one of a batch is found. */
  lemma {:induction false} AllAreFound(t: Tables, batch: seq<int>, effects: seq<seq<Op>>)
    requires Agree(t) && |effects| == |batch| && DistinctFds(batch)
    requires forall i :: 0 <= i < |batch| ==> batch[i] in t.handlers && OwnOnly(batch[i], effects[i])
    ensures var (u, found) := Dispatch(t, batch, effects); found && u.Some? && Agree(u.value)
    decreases |batch|
  {
    if batch != [] {
      OthersStay(t, batch[0], effects[0]);
      AllAreFound(ApplyAll(t, effects[0]).value, batch[1..], effects[1..]);
    }
  }

  /** What the callbacks before that one have done. */
  function Earlier(effects: seq<seq<Op>>, j: nat): seq<Op>
    requires j <= |effects|
  {
    if j == 0 then [] else Earlier(effects, j - 1) + effects[j - 1]
  }

  lemma {:induction false} EarlierFirst(effects: seq<seq<Op>>, j: nat)
    requires j < |effects|
    ensures Earlier(effects, j + 1) == effects[0] + Earlier(effects[1..], j)
    decreases j
  {
    if j == 0 {
      assert Earlier(effects, 1) == Earlier(effects, 0) + effects[0];
    } else {
      EarlierFirst(effects, j - 1);
      Associates(effects[0], Earlier(effects[1..], j - 1), effects[j]);
    }
  }

  lemma {:induction false} ThroughBoth(a: seq<Op>, b: seq<Op>, fd: int, e: Option<Mask>)
    ensures EntryThrough(a + b, fd, e) == EntryThrough(b, fd, EntryThrough(a, fd, e))
    decreases |a|
  {
    if a == [] {
      assert a + b == b;
    } else {
      assert (a + b)[1..] == a[1..] + b;
      ThroughBoth(a[1..], b, fd, EntryAfter(a[0], fd, e));
    }
  }

  /** The entry of the descriptor is there when its turn comes. */
  ghost predicate InTime(t: Tables, batch: seq<int>, effects: seq<seq<Op>>, j: nat)
    requires |effects| == |batch| && j < |batch|
  {
    EntryThrough(Earlier(effects, j), batch[j], EntryOf(t, batch[j])).Some?
  }

  lemma InTimeLater(t: Tables, u: Tables, batch: seq<int>, effects: seq<seq<Op>>, j: nat)
    requires |effects| == |batch| && j + 1 < |batch| && Agree(t) && ApplyAll(t, effects[0]) == Some(u)
    ensures InTime(t, batch, effects, j + 1) <==> InTime(u, batch[1..], effects[1..], j)
  {
    var fd := batch[j + 1];
    EntryRun(t, effects[0], fd);
    EarlierFirst(effects, j);
    ThroughBoth(effects[0], Earlier(effects[1..], j), fd, EntryOf(t, fd));
  }

  /** Whatever the callbacks do: every handler of the batch is found if and only if
      each descriptor is registered, or is registered again, after all that the
      callbacks before it have done. */
  lemma {:induction false} DispatchFinds(t: Tables, batch: seq<int>, effects: seq<seq<Op>>)
    requires Agree(t) && |effects| == |batch|
    ensures Dispatch(t, batch, effects).1 <==> forall j :: 0 <= j < |batch| ==> InTime(t, batch, effects, j)
    decreases |batch|
  {
    if batch != [] {
      IndexAgrees(t, batch[0]);
      assert InTime(t, batch, effects, 0) <==> batch[0] in t.handlers;
      if batch[0] in t.handlers {
        EntryRun(t, effects[0], batch[0]);
        var u := ApplyAll(t, effects[0]).value;
        DispatchFinds(u, batch[1..], effects[1..]);
        forall j: nat | j + 1 < |batch|
          ensures InTime(t, batch, effects, j + 1) <==> InTime(u, batch[1..], effects[1..], j)
        {
          InTimeLater(t, u, batch, effects, j);
        }
        FirstAndLater(t, u, batch, effects);
      }
    }
  }

  lemma FirstAndLater(t: Tables, u: Tables, batch: seq<int>, effects: seq<seq<Op>>)
    requires batch != [] && |effects| == |batch| && InTime(t, batch, effects, 0)
    requires forall j: nat :: j + 1 < |batch| ==>
      (InTime(t, batch, effects, j + 1) <==> InTime(u, batch[1..], effects[1..], j))
    ensures (forall j :: 0 <= j < |batch| ==> InTime(t, batch, effects, j)) <==>
            forall j :: 0 <= j < |batch[1..]| ==> InTime(u, batch[1..], effects[1..], j)
  {
    if forall j :: 0 <= j < |batch| ==> InTime(t, batch, effects, j) {
      forall j | 0 <= j < |batch[1..]| ensures InTime(u, batch[1..], effects[1..], j) {
        assert InTime(t, batch, effects, j + 1);
      }
    }
    if forall j :: 0 <= j < |batch[1..]| ==> InTime(u, batch[1..], effects[1..], j) {
      forall j | 0 <= j < |batch| ensures InTime(t, batch, effects, j) {
        if j > 0 {
          assert InTime(u, batch[1..], effects[1..], j - 1);
          assert InTime(t, batch, effects, j - 1 + 1);
        }
      }
    }
  }

  /** The callback does not register the descriptor. */
  predicate RegistersNot(fd: int, ops: seq<Op>) {
    forall i :: 0 <= i < |ops| && ops[i].Register? ==> ops[i].h.fd != fd
  }

  lemma {:induction false} StaysGone(fd: int, ops: seq<Op>)
    requires RegistersNot(fd, ops)
    ensures EntryThrough(ops, fd, None) == None
    decreases |ops|
  {
    if ops != [] {
      StaysGone(fd, ops[1..]);
    }
  }

  /** A callback whose last deed is to unregister a later one of the batch makes it go
      missing, unless one in between registers it again. */
  lemma ALaterOneMissing(t: Tables, batch: seq<int>, effects: seq<seq<Op>>, j: nat, k: nat)
    requires Agree(t) && |effects| == |batch| && j < k < |batch|
    requires effects[j] != [] && effects[j][|effects[j]| - 1].Unregister? && effects[j][|effects[j]| - 1].h.fd == batch[k]
    requires forall i :: j < i < k ==> RegistersNot(batch[k], effects[i])
    ensures !Dispatch(t, batch, effects).1
  {
    GoneBetween(effects, j, k, batch[k], EntryOf(t, batch[k]));
    assert !InTime(t, batch, effects, k);
    DispatchFinds(t, batch, effects);
  }

  lemma {:induction false} GoneBetween(effects: seq<seq<Op>>, j: nat, k: nat, fd: int, e: Option<Mask>)
    requires j < k <= |effects|
    requires effects[j] != [] && effects[j][|effects[j]| - 1].Unregister? && effects[j][|effects[j]| - 1].h.fd == fd
    requires forall i :: j < i < k ==> RegistersNot(fd, effects[i])
    ensures EntryThrough(Earlier(effects, k), fd, e) == None
    decreases k
  {
    var last := effects[k - 1];
    ThroughBoth(Earlier(effects, k - 1), last, fd, e);
    if k - 1 == j {
      var n := |last| - 1;
      assert last == last[..n] + [last[n]];
      ThroughBoth(last[..n], [last[n]], fd, EntryThrough(Earlier(effects, k - 1), fd, e));
      assert [last[n]][1..] == [];
    } else {
      GoneBetween(effects, j, k - 1, fd, e);
      StaysGone(fd, last);
    }
  }

  // ----- The object -----------------------------------------------------------

  /** The events that were set by `fake_event` and are dispatched now. */
  function Fired(states: seq<HandlerState>): seq<HandlerState> {
    if states == [] then []
    else (if states[0].revents != NONE then [states[0]] else []) + Fired(states[1..])
  }

  function Settled(s: HandlerState): HandlerState {
    if s.revents != NONE then s.(revents := And(s.revents, Not(s.mask))) else s
  }

  function AllSettled(states: seq<HandlerState>): (r: seq<HandlerState>)
    ensures |r| == |states|
  {
    seq(|states|, i requires 0 <= i < |states| => Settled(states[i]))
  }

  function Fds(states: seq<HandlerState>): (r: seq<int>)
    ensures |r| == |states|
  {
    seq(|states|, i requires 0 <= i < |states| => states[i].fd)
  }

  lemma {:induction false} FiredFromTable(states: seq<HandlerState>)
    requires Distinct(states)
    ensures Distinct(Fired(states))
    ensures forall s :: s in Fired(states) ==> s in states && s.revents != NONE
    ensures forall s :: s in states && s.revents != NONE ==> s in Fired(states)
  {
    if states != [] {
      var rest := states[1..];
      FiredFromTable(rest);
      forall j | 0 <= j < |Fired(rest)| ensures Fired(rest)[j].fd != states[0].fd {
        assert Fired(rest)[j] in Fired(rest);
        var k :| 0 <= k < |rest| && rest[k] == Fired(rest)[j];
        assert states[k + 1].fd != states[0].fd;
      }
    }
  }

  lemma SettledAgrees(t: Tables)
    requires Agree(t)
    ensures Agree(t.(states := AllSettled(t.states)))
  {
    var u := t.(states := AllSettled(t.states));
    forall fd ensures Listed(u.states, fd) <==> Listed(t.states, fd) {
      if Listed(t.states, fd) {
        var j :| 0 <= j < |t.states| && t.states[j].fd == fd;
        assert u.states[j].fd == fd;
      }
    }
  }

  lemma FiredAreHandled(t: Tables)
    requires Agree(t)
    ensures DistinctFds(Fds(Fired(t.states)))
    ensures forall i :: 0 <= i < |Fired(t.states)| ==> Fds(Fired(t.states))[i] in t.handlers
  {
    FiredFromTable(t.states);
    var batch := Fds(Fired(t.states));
    forall i | 0 <= i < |batch| ensures batch[i] in t.handlers {
      assert Fired(t.states)[i] in t.states;
      assert Listed(t.states, batch[i]);
    }
  }

  /** The batch of user events can be dispatched like any other. */
  lemma UserEventsAreFound(t: Tables, effects: seq<seq<Op>>)
    requires Agree(t) && |effects| == |Fired(t.states)|
    requires forall i :: 0 <= i < |effects| ==> OwnOnly(Fds(Fired(t.states))[i], effects[i])
    ensures Agree(t.(states := AllSettled(t.states)))
    ensures Dispatch(t.(states := AllSettled(t.states)), Fds(Fired(t.states)), effects).1
  {
    SettledAgrees(t);
    FiredAreHandled(t);
    AllAreFound(t.(states := AllSettled(t.states)), Fds(Fired(t.states)), effects);
  }

  /** Nothing is dispatched twice, unless it is input for a descriptor that is registered
      for no kind of event: the logical negation of an empty mask is the bit for input. */
  lemma {:induction false} NothingFiresAgain(states: seq<HandlerState>)
    ensures Fired(AllSettled(states)) == [] <==>
            forall i :: 0 <= i < |states| ==> states[i].mask.input || states[i].mask.output || !states[i].revents.input
  {
    if states != [] {
      FiresAgain(states[0]);
      assert AllSettled(states)[1..] == AllSettled(states[1..]);
      NothingFiresAgain(states[1..]);
      assert forall i :: 1 <= i < |states| ==> states[i] == states[1..][i - 1];
    }
  }

  lemma FiresAgain(s: HandlerState)
    ensures Settled(s).revents == NONE <==> s.mask.input || s.mask.output || !s.revents.input
  {
  }

  lemma FiredStep(states: seq<HandlerState>, i: nat)
    requires i < |states|
    ensures Fired(states[i..]) == (if states[i].revents != NONE then [states[i]] else []) + Fired(states[i + 1..])
  {
    assert states[i..][1..] == states[i + 1..];
  }

  class Reactor {
    var handlers: map<int, Handler>
    var states: seq<HandlerState>
    var stoppers: int

    ghost function Value(): Tables
      reads this
    {
      Tables(handlers, states, stoppers)
    }

    constructor ()
      ensures Value() == EMPTY && Agree(Value())
    {
      handlers, states, stoppers := map[], [], 0;
    }

    method RegisterHandler(h: Handler, mask: Mask)
      requires Agree(Value())
      modifies this
      ensures Apply(old(Value()), Register(h, mask)) == Some(Value()) && Agree(Value())
    {
      OpKeepsAgreement(Value(), Register(h, mask));
      if h.stopper {
        stoppers := stoppers + 1;
      }
      if h.fd !in handlers {
        states := states + [HandlerState(h.fd, mask, NONE)];
        handlers := handlers[h.fd := h];
      } else {
        var i := IndexOf(states, h.fd).value;
        states := states[i := states[i].(mask := Or(states[i].mask, mask))];
      }
    }

    method UnregisterHandlerMask(h: Handler, mask: Mask)
      requires Agree(Value())
      modifies this
      ensures Apply(old(Value()), UnregisterMask(h, mask)) == Some(Value()) && Agree(Value())
    {
      OpKeepsAgreement(Value(), UnregisterMask(h, mask));
      var i := IndexOf(states, h.fd);
      if i.Some? {
        var newMask := And(states[i.value].mask, Not(mask));
        if newMask == NONE {
          handlers := handlers - {h.fd};
          states := Without(states, i.value);
          if h.stopper {
            stoppers := stoppers - 1;
          }
        } else {
          states := states[i.value := states[i.value].(mask := newMask)];
        }
      }
    }

    method UnregisterHandler(h: Handler)
      requires Agree(Value())
      modifies this
      ensures Apply(old(Value()), Unregister(h)) == Some(Value()) && Agree(Value())
    {
      OpKeepsAgreement(Value(), Unregister(h));
      if h.fd in handlers {
        handlers := handlers - {h.fd};
        states := Without(states, IndexOf(states, h.fd).value);
        if h.stopper {
          stoppers := stoppers - 1;
        }
      }
    }

    method SetFakeEvent(h: Handler, mask: Mask)
      requires Agree(Value())
      modifies this
      ensures Apply(old(Value()), FakeEvent(h, mask)) == Some(Value()) && Agree(Value())
    {
      OpKeepsAgreement(Value(), FakeEvent(h, mask));
      var i := IndexOf(states, h.fd);
      if i.Some? {
        states := states[i.value := states[i.value].(revents := Or(states[i.value].revents, mask))];
      }
    }

    /** The part of `handle_user_events` that is under the lock. */
    method CollectUserEvents() returns (calledByUser: seq<HandlerState>)
      modifies this`states
      ensures calledByUser == Fired(old(states)) && states == AllSettled(old(states))
    {
      calledByUser := [];
      var i := 0;
      ghost var before := states;
      assert before[0..] == before;
      while i < |states|
        invariant 0 <= i <= |states| == |before|
        invariant calledByUser + Fired(before[i..]) == Fired(before)
        invariant forall j :: 0 <= j < i ==> states[j] == Settled(before[j])
        invariant forall j :: i <= j < |before| ==> states[j] == before[j]
      {
        var s := states[i];
        ghost var collected := calledByUser + if s.revents != NONE then [s] else [];
        assert collected + Fired(before[i + 1..]) == Fired(before) by {
          FiredStep(before, i);
          Associates(calledByUser, if s.revents != NONE then [s] else [], Fired(before[i + 1..]));
        }
        if s.revents != NONE && Or(s.mask, s.revents) != NONE {
          calledByUser := calledByUser + [s];
          states := states[i := s.(revents := And(s.revents, Not(s.mask)))];
        }
        assert calledByUser == collected;
        i := i + 1;
      }
    }
  }
}
