/** Deletion of a control plane as a protocol.  The deletion timestamp may be set at any time, also while a reconcile
    that fetched the object without it is still creating machines.  From then on every reconcile lists the cluster's
    machines, and deletes its own only when no others are left; the finalizer goes with the last of them. */
module Deletion {
  import opened Wrappers
  import opened Runs
  import opened Finite
  import opened Machines

  datatype ControlPlane = ControlPlane(name: string, replicas: nat)

  /** Normal and Creating belong to a reconcile without timestamp, Listed and Deleting to one with it. */
  datatype Stage = Idle | Normal | Creating | Listed | Deleting | Ending

  /** All machines of the cluster; of the control-plane object the deletion timestamp, the persisted finalizer, and
      whether it is gone; of the running reconcile the machines it may still create, those it listed, and the
      finalizer of its own copy. */
  datatype State = State(machines: Collection, timestamp: bool, finalizer: bool, gone: bool,
                         stage: Stage, slots: nat, seen: Collection, keep: bool)

  datatype Action =
    | Begin | Skip | Plan(slots: nat) | Create(m: Machine) | Stop
    | List | ListFails | Release | Wait | Proceed | Delete(victim: string) | Finish
    | Patch(ok: bool) | Fail
    | UserDeletes | Gone(machine: string) | Marked(machine: string) | Added(m: Machine)

  function Owned(ms: Collection, name: string): Collection {
    Where(ms, (m: Machine) => OwnedBy(m, name))
  }

  function OwnedNames(ms: Collection, name: string): set<string> {
    set n | n in ms && OwnedBy(ms[n], name)
  }

  /** The test the code makes. */
  predicate OnlyOwned(ms: Collection, name: string) {
    |ms| == |Owned(ms, name)|
  }

  /** A reconcile that fetched the object without timestamp: it adds the finalizer to its copy, unless it ends before
      that, and creates up to `replicas` machines when it finds none, up to one otherwise. */
  predicate NormalAction(c: ControlPlane, s: State, a: Action, t: State) {
    match a
    case Begin => s.stage.Idle? && !s.timestamp && !s.gone && t == s.(stage := Normal, keep := true)
    case Skip => s.stage.Normal? && t == s.(stage := Ending, keep := s.finalizer)
    case Plan(n) =>
      && s.stage.Normal? && n <= (if OwnedNames(s.machines, c.name) == {} then c.replicas else 1)
      && t == s.(stage := Creating, slots := n)
    case Create(m) =>
      && s.stage.Creating? && s.slots > 0 && m.name !in s.machines && OwnedBy(m, c.name)
      && t == s.(machines := s.machines[m.name := m], slots := s.slots - 1)
    case Stop => (s.stage.Normal? || s.stage.Creating?) && t == s.(stage := Ending)
    case _ => false
  }

  predicate DeleteAction(c: ControlPlane, s: State, a: Action, t: State) {
    match a
    case List => s.stage.Idle? && s.timestamp && !s.gone
        && t == s.(stage := Listed, seen := s.machines, keep := s.finalizer)
    case ListFails => s.stage.Idle? && s.timestamp && !s.gone && t == s.(stage := Ending, keep := s.finalizer)
    case Release => s.stage.Listed? && Owned(s.seen, c.name) == map[] && t == s.(stage := Ending, keep := false)
    case Wait =>
      s.stage.Listed? && Owned(s.seen, c.name) != map[] && !OnlyOwned(s.seen, c.name) && t == s.(stage := Ending)
    case Proceed =>
      s.stage.Listed? && Owned(s.seen, c.name) != map[] && OnlyOwned(s.seen, c.name) && t == s.(stage := Deleting)
    case Delete(n) =>
      && s.stage.Deleting? && n in Owned(s.seen, c.name) && !s.seen[n].deleting
      && t == s.(machines := MarkDeleting(s.machines, n))
    case Finish => s.stage.Deleting? && t == s.(stage := Ending)
    case _ => false
  }

  /** The deferred patch is what persists the finalizer, and what takes the object away when it removes the finalizer of
      one with a timestamp. */
  predicate EndAction(s: State, a: Action, t: State) {
    match a
    case Patch(ok) =>
      && s.stage.Ending? && (ok ==> !s.gone)
      && t == s.(stage := Idle, finalizer := if ok then s.keep else s.finalizer, gone := s.gone
          || (ok && s.timestamp && !s.keep))
    case Fail => t == s.(stage := Idle)
    case _ => false
  }

  /** Others finish deletions, delete machines, and create machines of their own, but none of this control plane.  The
      user's deletion sets the timestamp; an object without finalizer goes at once. */
  predicate OthersAction(c: ControlPlane, s: State, a: Action, t: State) {
    match a
    case UserDeletes => !s.timestamp && !s.gone && t == s.(timestamp := true, gone := !s.finalizer)
    case Gone(n) => n in s.machines && s.machines[n].deleting && t == s.(machines := s.machines - {n})
    case Marked(n) => t == s.(machines := MarkDeleting(s.machines, n))
    case Added(m) => m.name !in s.machines && !OwnedBy(m, c.name) && t == s.(machines := s.machines[m.name := m])
    case _ => false
  }

  predicate Acts(c: ControlPlane, s: State, a: Action, t: State) {
    NormalAction(c, s, a, t) || DeleteAction(c, s, a, t) || EndAction(s, a, t) || OthersAction(c, s, a, t)
  }

  /** A history begins at rest with an object that is not being deleted, with its finalizer persisted or not yet. */
  type History = Trace<State, Action>

  predicate IsHistory(c: ControlPlane, h: History) {
    if h.Start? then h.first.stage.Idle? && !h.first.timestamp && !h.first.gone
    else IsHistory(c, h.before) && Acts(c, Last(h.before), h.step, h.now)
  }

  // ----- Only its own machines are left -----------------------------------------------------------

  /** Subset and equal size give equality: the sizes agree exactly when every machine is owned. */
  lemma OnlyOwnedExactly(ms: Collection, name: string)
    ensures OnlyOwned(ms, name) <==> forall n | n in ms :: OwnedBy(ms[n], name)
  {
    var own := Owned(ms, name);
    SubsetSize(own.Keys, ms.Keys);
    assert |own.Keys| == |own| && |ms.Keys| == |ms|;
    if OnlyOwned(ms, name) {
      forall n | n in ms ensures OwnedBy(ms[n], name) {
        assert n in own.Keys;
      }
    }
    if forall n | n in ms :: OwnedBy(ms[n], name) {
      assert own.Keys == ms.Keys;
    }
  }

  lemma AllIsOwned(ms: Collection, name: string)
    requires OnlyOwned(ms, name)
    ensures Owned(ms, name) == ms
  {
    OnlyOwnedExactly(ms, name);
  }

  lemma OwnedIsNames(ms: Collection, name: string)
    ensures Owned(ms, name).Keys == OwnedNames(ms, name)
    ensures Owned(ms, name) == map[] <==> OwnedNames(ms, name) == {}
  {
    if Owned(ms, name) != map[] {
      var n :| n in Owned(ms, name);
    }
  }

  // ----- Machines created after the timestamp -----------------------------------------------------

  /** The machines the running reconcile may still create. */
  function Room(c: ControlPlane, s: State): nat {
    match s.stage
    case Normal => if OwnedNames(s.machines, c.name) == {} || c.replicas > 1 then c.replicas else 1
    case Creating => s.slots
    case _ => 0
  }

  function CreatedSince(h: History): nat {
    if h.Start? then 0 else CreatedSince(h.before) + if h.step.Create? && Last(h.before).timestamp then 1 else 0
  }

  /** The room when the timestamp was set. */
  function RoomAtDeletion(c: ControlPlane, h: History): nat {
    if h.Start? then 0
    else if h.step.UserDeletes? then Room(c, Last(h.before))
    else RoomAtDeletion(c, h.before)
  }

  lemma RoomNext(c: ControlPlane, s: State, a: Action, t: State)
    requires Acts(c, s, a, t) && (s.timestamp || a.UserDeletes?)
    ensures t.timestamp && Room(c, t) + (if a.Create? then 1 else 0) <= Room(c, s)
    ensures !a.Create? ==> OwnedNames(t.machines, c.name) <= OwnedNames(s.machines, c.name)
    ensures s.gone ==> t.gone
  {
    if !a.Create? {
      OwnedNext(c, s, a, t);
    }
    hide OwnedNames;
  }

  lemma OwnedNext(c: ControlPlane, s: State, a: Action, t: State)
    requires Acts(c, s, a, t) && !a.Create?
    ensures OwnedNames(t.machines, c.name) <= OwnedNames(s.machines, c.name)
  {
  }

  /** Machines are created after the timestamp only by the reconcile that was running when it was set, and no more than
      it had room for then. */
  lemma {:induction false} CreatedWithinRoom(c: ControlPlane, h: History)
    requires IsHistory(c, h)
    ensures if Last(h).timestamp then CreatedSince(h) + Room(c, Last(h)) <= RoomAtDeletion(c, h)
            else CreatedSince(h) == 0
  {
    if h.After? {
      hide Acts, Room;
      CreatedWithinRoom(c, h.before);
      Stamps(c, Last(h.before), h.step, h.now);
      if Last(h.before).timestamp || h.step.UserDeletes? {
        RoomNext(c, Last(h.before), h.step, h.now);
      }
    }
  }

  /** Only the user sets the timestamp, once, and nobody removes it. */
  lemma Stamps(c: ControlPlane, s: State, a: Action, t: State)
    requires Acts(c, s, a, t)
    ensures t.timestamp == (s.timestamp || a.UserDeletes?) && !(s.timestamp && a.UserDeletes?)
  {
  }

  /** Once that room is used up, at the latest when the first reconcile with a timestamp starts, none is created. */
  lemma {:induction false} NoneWithoutRoom(c: ControlPlane, h: History, g: History)
    requires IsHistory(c, h) && Extends(h, g) && Last(g).timestamp && Room(c, Last(g)) == 0
    ensures Last(h).timestamp && Room(c, Last(h)) == 0 && CreatedSince(h) == CreatedSince(g)
    ensures OwnedNames(Last(h).machines, c.name) <= OwnedNames(Last(g).machines, c.name)
    decreases h
  {
    if h != g {
      hide Acts, Room, OwnedNames;
      NoneWithoutRoom(c, h.before, g);
      RoomNext(c, Last(h.before), h.step, h.now);
    }
  }

  lemma {:induction false} StillDeleted(c: ControlPlane, h: History, g: History)
    requires IsHistory(c, h) && Extends(h, g) && Last(g).timestamp
    ensures IsHistory(c, g) && Last(h).timestamp
        && CreatedSince(h) + Room(c, Last(h)) <= CreatedSince(g) + Room(c, Last(g))
    ensures CreatedSince(h) >= CreatedSince(g) && (Last(g).gone ==> Last(h).gone)
    decreases h
  {
    if h != g {
      hide Acts, Room;
      StillDeleted(c, h.before, g);
      RoomNext(c, Last(h.before), h.step, h.now);
    }
  }

  lemma One(c: ControlPlane, h: History, a: Action, t: State) returns (k: History)
    requires IsHistory(c, h) && Acts(c, Last(h), a, t)
    ensures k == After(h, a, t) && IsHistory(c, k) && Extends(k, h)
  {
    k := After(h, a, t);
  }

  /** A creating reconcile can use each of its slots. */
  lemma {:induction false} CreateSome(c: ControlPlane, g: History, j: nat) returns (h: History)
    requires IsHistory(c, g) && Last(g).timestamp && Last(g).stage.Creating? && j <= Last(g).slots
    ensures IsHistory(c, h) && Extends(h, g) && CreatedSince(h) == CreatedSince(g) + j
    ensures if j == 0 then h == g else OwnedNames(Last(h).machines, c.name) != {}
    ensures Last(h).gone == Last(g).gone
    decreases j
  {
    h := g;
    if j > 0 {
      var s := Last(g);
      var name := FreshName(s.machines.Keys);
      var m := Machine(name, Some(c.name), None, None, 0, None, false, None);
      hide IsHistory;
      h := One(c, g, Create(m), s.(machines := s.machines[m.name := m], slots := s.slots - 1));
      var k := h;
      assert m.name in OwnedNames(Last(k).machines, c.name);
      h := CreateSome(c, k, j - 1);
      ExtendsTransitive(h, k, g);
    }
  }

  /** Others can make all machines of the control plane go. */
  lemma {:induction false} ClearOwned(c: ControlPlane, g: History) returns (h: History)
    requires IsHistory(c, g)
    ensures IsHistory(c, h) && Extends(h, g) && OwnedNames(Last(h).machines, c.name) == {}
    ensures Last(h) == Last(g).(machines := Last(h).machines) && CreatedSince(h) == CreatedSince(g)
    decreases |Last(g).machines|
  {
    h := g;
    var s := Last(g);
    if OwnedNames(s.machines, c.name) != {} {
      var n :| n in OwnedNames(s.machines, c.name);
      hide IsHistory;
      h := One(c, g, Marked(n), s.(machines := MarkDeleting(s.machines, n)));
      var k := One(c, h, Gone(n), s.(machines := MarkDeleting(s.machines, n) - {n}));
      ExtendsTransitive(k, h, g);
      SameKeys(s.machines, MarkDeleting(s.machines, n));
      RemovedSize(MarkDeleting(s.machines, n), n);
      h := ClearOwned(c, k);
      ExtendsTransitive(h, k, g);
    }
  }

  /** A running reconcile can come to create each number of machines it has room for. */
  lemma UseRoom(c: ControlPlane, g: History, j: nat) returns (h: History)
    requires IsHistory(c, g) && Last(g).timestamp && j <= Room(c, Last(g))
    ensures IsHistory(c, h) && Extends(h, g) && CreatedSince(h) == CreatedSince(g) + j
    ensures Last(h).gone == Last(g).gone && (j > 0 ==> OwnedNames(Last(h).machines, c.name) != {})
  {
    h := g;
    if j > 0 {
      var k := g;
      if Last(g).stage.Normal? {
        if j > 1 {
          k := ClearOwned(c, g);
        }
        var p := One(c, k, Plan(j), Last(k).(stage := Creating, slots := j));
        ExtendsTransitive(p, k, g);
        k := p;
      }
      hide IsHistory;
      h := CreateSome(c, k, j);
      ExtendsTransitive(h, k, g);
    }
  }

  ghost predicate MayCreate(c: ControlPlane, g: History, j: nat) {
    exists h :: IsHistory(c, h) && Extends(h, g) && CreatedSince(h) == CreatedSince(g) + j
  }

  /** "No machine is created after the deletion timestamp is set" is false of the code, which looks at the timestamp
      once. From any point after it, a number of machines may still be created exactly if the reconcile running then
      has room for them; none, then, from the start of the first reconcile that sees it. */
  lemma CreatableExactly(c: ControlPlane, g: History, j: nat)
    requires IsHistory(c, g) && Last(g).timestamp
    ensures MayCreate(c, g, j) <==> j <= Room(c, Last(g))
  {
    if j <= Room(c, Last(g)) {
      var h := UseRoom(c, g, j);
    } else {
      forall h | IsHistory(c, h) && Extends(h, g) ensures CreatedSince(h) != CreatedSince(g) + j {
        StillDeleted(c, h, g);
      }
    }
  }

  // ----- The finalizer ----------------------------------------------------------------------------

  /** The object was deleted before its finalizer was persisted. */
  predicate DeletedEarly(h: History) {
    h.After? && (DeletedEarly(h.before) || (h.step.UserDeletes? && !Last(h.before).finalizer))
  }

  predicate Inv(c: ControlPlane, s: State, early: bool) {
    && (s.timestamp && !s.gone ==> s.finalizer)
    && (s.gone ==> s.timestamp)
    && (s.stage.Listed? || s.stage.Deleting? ==>
          s.timestamp && !s.gone && s.keep && OwnedNames(s.machines, c.name) <= OwnedNames(s.seen, c.name))
    && (s.stage.Deleting? ==> OnlyOwned(s.seen, c.name))
    && (s.stage.Normal? || s.stage.Creating? ==> s.keep)
    && (s.stage.Ending? && !s.keep && s.finalizer ==> s.timestamp && OwnedNames(s.machines, c.name) == {})
    && (s.gone && !early ==> s.stage.Idle? && OwnedNames(s.machines, c.name) == {})
  }

  lemma InvNext(c: ControlPlane, s: State, a: Action, t: State, early: bool)
    requires Inv(c, s, early) && Acts(c, s, a, t)
    ensures Inv(c, t, early || (a.UserDeletes? && !s.finalizer))
  {
    OwnedIsNames(s.seen, c.name);
    if !a.Create? {
      OwnedNext(c, s, a, t);
    }
    hide OwnedNames;
  }

  lemma {:induction false} InvAlways(c: ControlPlane, h: History)
    requires IsHistory(c, h)
    ensures Inv(c, Last(h), DeletedEarly(h))
  {
    if h.After? {
      hide Inv, Acts;
      InvAlways(c, h.before);
      InvNext(c, Last(h.before), h.step, h.now, DeletedEarly(h.before));
    }
  }

  /** The finalizer goes last: an object deleted with its finalizer persisted keeps it, and stays, until none of its
      machines is left, whatever a reconcile still running then creates. */
  lemma FinalizerGoesLast(c: ControlPlane, h: History)
    requires IsHistory(c, h) && Last(h).timestamp && !DeletedEarly(h)
    ensures !Last(h).finalizer ==> Last(h).gone
    ensures Last(h).gone ==> forall n | n in Last(h).machines :: !OwnedBy(Last(h).machines[n], c.name)
  {
    InvAlways(c, h);
    if Last(h).gone {
      forall n | n in Last(h).machines ensures !OwnedBy(Last(h).machines[n], c.name) {
        assert n !in OwnedNames(Last(h).machines, c.name);
      }
    }
  }

  lemma {:induction false} EarlyOnce(c: ControlPlane, h: History, g: History)
    requires IsHistory(c, h) && Extends(h, g) && Last(g).timestamp
    ensures Last(h).timestamp && DeletedEarly(h) == DeletedEarly(g)
    decreases h
  {
    if h != g {
      hide Acts;
      EarlyOnce(c, h.before, g);
      Stamps(c, Last(h.before), h.step, h.now);
    }
  }

  lemma {:induction false} NotYetEarly(c: ControlPlane, g: History)
    requires IsHistory(c, g) && !Last(g).timestamp
    ensures !DeletedEarly(g)
  {
    if g.After? {
      hide Acts;
      Stamps(c, Last(g.before), g.step, g.now);
      NotYetEarly(c, g.before);
    }
  }

  function Deleted(g: History): History {
    After(g, UserDeletes, Last(g).(timestamp := true, gone := !Last(g).finalizer))
  }

  ghost predicate MayOrphan(c: ControlPlane, g: History) {
    exists h :: IsHistory(c, h) && Extends(h, Deleted(g)) && Last(h).gone && OwnedNames(Last(h).machines, c.name) != {}
  }

  /** Before the first patch that gets through nothing protects the machines.  Deleting the object at this point can
      leave machines behind, with no object whose reconcile would delete them, exactly if its finalizer is not
      persisted and there are machines already or a running reconcile has room for some. */
  lemma OrphansExactly(c: ControlPlane, g: History)
    requires IsHistory(c, g) && !Last(g).timestamp && !Last(g).gone
    ensures MayOrphan(c, g) <==>
              !Last(g).finalizer && (OwnedNames(Last(g).machines, c.name) != {} || Room(c, Last(g)) > 0)
  {
    var d := Deleted(g);
    hide Room, OwnedNames;
    DeletedIs(c, g);
    if Last(g).finalizer {
      NotYetEarly(c, g);
      forall h | IsHistory(c, h) && Extends(h, d) && Last(h).gone ensures OwnedNames(Last(h).machines, c.name) == {} {
        EarlyOnce(c, h, d);
        InvAlways(c, h);
      }
    } else if OwnedNames(Last(g).machines, c.name) != {} {
      assert Extends(d, d);
    } else if Room(c, Last(g)) > 0 {
      var h := UseRoom(c, d, 1);
    } else {
      forall h | IsHistory(c, h) && Extends(h, d) ensures OwnedNames(Last(h).machines, c.name) == {} {
        NoneWithoutRoom(c, h, d);
      }
    }
  }

  lemma DeletedIs(c: ControlPlane, g: History)
    requires IsHistory(c, g) && !Last(g).timestamp && !Last(g).gone
    ensures IsHistory(c, Deleted(g)) && Room(c, Last(Deleted(g))) == Room(c, Last(g))
    ensures Last(Deleted(g)).machines == Last(g).machines && Last(Deleted(g)).timestamp
        && Last(Deleted(g)).gone == !Last(g).finalizer
  {
  }

  /** Nobody created a machine since the running reconcile listed them. */
  predicate NoneAddedSince(h: History) {
    h.After? ==> h.step.List? || (!h.step.Added? && NoneAddedSince(h.before))
  }

  predicate ListRight(c: ControlPlane, s: State) {
    && s.machines.Keys <= s.seen.Keys
    && forall n | n in s.machines :: n in s.seen && OwnedBy(s.machines[n], c.name) == OwnedBy(s.seen[n], c.name)
  }

  predicate Sees(s: State) {
    s.stage.Listed? || s.stage.Deleting?
  }

  lemma ListStaysRight(c: ControlPlane, s: State, a: Action, t: State)
    requires Acts(c, s, a, t) && !a.Added? && Sees(t) && (Sees(s) ==> ListRight(c, s))
    ensures ListRight(c, t)
  {
    hide Owned, OwnedNames;
  }

  lemma JustListed(c: ControlPlane, s: State, t: State)
    requires Acts(c, s, List, t)
    ensures ListRight(c, t)
  {
  }

  lemma {:induction false} ListIsRight(c: ControlPlane, h: History)
    requires IsHistory(c, h) && NoneAddedSince(h) && Sees(Last(h))
    ensures ListRight(c, Last(h))
  {
    if h.After? {
      hide ListRight;
      if !h.step.List? && Sees(Last(h.before)) {
        ListIsRight(c, h.before);
      }
      hide Acts;
      if h.step.List? {
        JustListed(c, Last(h.before), h.now);
      } else {
        ListStaysRight(c, Last(h.before), h.step, h.now);
      }
    }
  }

  /** A machine is deleted only when every machine listed is the control plane's own, and then, unless others created
      one since, every machine there is. */
  lemma DeletesOnlyWhenAlone(c: ControlPlane, h: History)
    requires IsHistory(c, h) && h.After? && h.step.Delete?
    ensures var s := Last(h.before);
            && (forall n | n in s.seen :: OwnedBy(s.seen[n], c.name))
            && (NoneAddedSince(h.before) ==> forall n | n in s.machines :: OwnedBy(s.machines[n], c.name))
  {
    var s := Last(h.before);
    InvAlways(c, h.before);
    OnlyOwnedExactly(s.seen, c.name);
    if NoneAddedSince(h.before) {
      ListIsRight(c, h.before);
    }
  }
}
