/** The sequencing gate (core/consensus/lbft/asyncseqno.go): wait(s) runs its function after wait(s-1) has run its own.
    Each locked section is one atomic step; between them the calls interleave in any order. */
module Gate {
  import opened Words

  type Chan = nat

  /** The data guarded by the mutex: per sequence number a channel, or None for nil. `closes` lists the channels
      in the order they were closed; `next` is the next channel that make() will return. */
  datatype Table = Table(start: uint64, seqNo: map<uint64, Option<Chan>>, next: Chan, closes: seq<Chan>)

  function Created(t: Table, k: uint64): Table {
    if k in t.seqNo then t else t.(seqNo := t.seqNo[k := Some(t.next)], next := t.next + 1)
  }

  /** First locked section of wait: both channels exist, and the one of the predecessor is returned. */
  function Entered(t: Table, s: uint64): Table
    requires 0 < s
  {
    Created(Created(t, s), s - 1)
  }

  function Awaited(t: Table, s: uint64): Option<Chan>
    requires 0 < s
  {
    Entered(t, s).seqNo[s - 1]
  }

  /** Close the channel of `k` if it is still open, and forget it. */
  function Closed(t: Table, k: uint64): Table {
    if k in t.seqNo && t.seqNo[k].Some? then
      t.(closes := t.closes + [t.seqNo[k].value], seqNo := t.seqNo[k := None])
    else t
  }

  /** Second locked section of wait. */
  function Left(t: Table, s: uint64): Table
    requires 0 < s
  {
    Closed(t.(seqNo := t.seqNo - {s - 1}), s)
  }

  function Notified(t: Table, s: uint64): Table {
    Closed(t, Sub64(s, 1))
  }

  /** notifyAll closes the keys it has sorted, up to the first one above `n`. */
  function NotifiedAll(t: Table, keys: seq<uint64>, n: uint64): Table
    decreases |keys|
  {
    if keys == [] || keys[0] > n then t else NotifiedAll(Closed(t, keys[0]), keys[1..], n)
  }

  /** notifyAll leaves no key up to `n` with an open channel and touches no other key. */
  lemma {:induction false} NotifiedAllEffect(t: Table, keys: seq<uint64>, n: uint64)
    requires forall i, j | 0 <= i < j < |keys| :: keys[i] < keys[j]
    ensures NotifiedAll(t, keys, n).seqNo.Keys == t.seqNo.Keys
    ensures forall k | k in t.seqNo ::
              NotifiedAll(t, keys, n).seqNo[k] == if k in keys && k <= n then None else t.seqNo[k]
    decreases |keys|
  {
    if keys != [] {
      assert forall k | k in keys :: k >= keys[0];
      assert forall k | k in keys :: k == keys[0] || k in keys[1..];
      if keys[0] <= n {
        NotifiedAllEffect(Closed(t, keys[0]), keys[1..], n);
      }
    }
  }

  // ---------------------------------------------------------------- interleavings

  datatype Pc = Blocked | Running | Ran | Done

  /** One call of wait: its number, the channel it waits on, and how far it has come. */
  datatype Task = Task(seqNo: uint64, chan: Option<Chan>, pc: Pc)

  datatype Mark = Begin(s: uint64) | End(s: uint64)

  datatype State = State(table: Table, tasks: map<nat, Task>, log: seq<Mark>)

  datatype Step =
    | Enter(s: uint64)
    | Go
    | Finish
    | Leave
    | Notify(s: uint64)
    | NotifyAll(keys: seq<uint64>, n: uint64)

  /** A blocked call may go on when it is the first, when it found nil, or when its channel is closed. */
  predicate Unblocked(t: Table, task: Task) {
    task.seqNo == t.start + 1 || task.chan == None || task.chan.value in t.closes
  }

  function Moved(st: State, id: nat, pc: Pc): State
    requires id in st.tasks
  {
    st.(tasks := st.tasks[id := st.tasks[id].(pc := pc)])
  }

  predicate Enabled(st: State, id: nat, step: Step) {
    match step
    case Enter(s) => id !in st.tasks && s > st.table.start
    case Go => id in st.tasks && st.tasks[id].pc == Blocked && Unblocked(st.table, st.tasks[id])
    case Finish => id in st.tasks && st.tasks[id].pc == Running
    case Leave => id in st.tasks && st.tasks[id].pc == Ran && st.tasks[id].seqNo > 0
    case Notify(_) => true
    case NotifyAll(_, _) => true
  }

  function Apply(st: State, id: nat, step: Step): State
    requires Enabled(st, id, step)
  {
    match step
    case Enter(s) => st.(table := Entered(st.table, s), tasks := st.tasks[id := Task(s, Awaited(st.table, s), Blocked)])
    case Go => Moved(st, id, Running).(log := st.log + [Begin(st.tasks[id].seqNo)])
    case Finish => Moved(st, id, Ran).(log := st.log + [End(st.tasks[id].seqNo)])
    case Leave => Moved(st, id, Done).(table := Left(st.table, st.tasks[id].seqNo))
    case Notify(s) => st.(table := Notified(st.table, s))
    case NotifyAll(keys, n) => st.(table := NotifiedAll(st.table, keys, n))
  }

  datatype Event = Event(id: nat, step: Step)

  function Initial(start: uint64): State {
    State(Table(start, map[], 0, []), map[], [])
  }

  /** `run` is an interleaving: each event is enabled and leads to the next state. */
  ghost predicate IsRun(start: uint64, run: seq<State>, es: seq<Event>) {
    && |run| == |es| + 1 && run[0] == Initial(start)
    && forall j | 0 <= j < |es| :: Enabled(run[j], es[j].id, es[j].step) && run[j + 1] == Apply(run[j], es[j].id, es[j].step)
  }

  // ---------------------------------------------------------------- no channel is closed twice

  ghost predicate NoDuplicates<T>(xs: seq<T>) {
    forall i, j | 0 <= i < j < |xs| :: xs[i] != xs[j]
  }

  /** Every channel in the map is open and in one place only. */
  ghost predicate Sound(t: Table) {
    && (forall k | k in t.seqNo && t.seqNo[k].Some? :: t.seqNo[k].value < t.next && t.seqNo[k].value !in t.closes)
    && (forall j, k | j in t.seqNo && k in t.seqNo && j != k && t.seqNo[j].Some? :: t.seqNo[j] != t.seqNo[k])
    && (forall c | c in t.closes :: c < t.next)
    && NoDuplicates(t.closes)
  }

  lemma CreatedSound(t: Table, k: uint64)
    requires Sound(t)
    ensures Sound(Created(t, k))
  {
  }

  lemma ClosedSound(t: Table, k: uint64)
    requires Sound(t)
    ensures Sound(Closed(t, k))
  {
  }

  lemma {:induction false} NotifiedAllSound(t: Table, keys: seq<uint64>, n: uint64)
    requires Sound(t)
    ensures Sound(NotifiedAll(t, keys, n))
    decreases |keys|
  {
    if keys != [] && keys[0] <= n {
      ClosedSound(t, keys[0]);
      NotifiedAllSound(Closed(t, keys[0]), keys[1..], n);
    }
  }

  lemma StepSound(st: State, id: nat, step: Step)
    requires Sound(st.table) && Enabled(st, id, step)
    ensures Sound(Apply(st, id, step).table)
  {
    match step
    case Enter(s) =>
      CreatedSound(st.table, s);
      CreatedSound(Created(st.table, s), s - 1);
    case Leave =>
      var s := st.tasks[id].seqNo;
      ClosedSound(st.table.(seqNo := st.table.seqNo - {s - 1}), s);
    case Notify(s) => ClosedSound(st.table, Sub64(s, 1));
    case NotifyAll(keys, n) => NotifiedAllSound(st.table, keys, n);
    case _ =>
  }

  /** In every interleaving, with repeated waits and any notify or notifyAll, no channel is closed twice. */
  lemma {:induction false} NeverClosedTwice(start: uint64, run: seq<State>, es: seq<Event>)
    requires IsRun(start, run, es)
    ensures Sound(run[|es|].table) && NoDuplicates(run[|es|].table.closes)
    decreases |es|
  {
    if es != [] {
      var n := |es| - 1;
      NeverClosedTwice(start, run[..n + 1], es[..n]);
      StepSound(run[n], es[n].id, es[n].step);
    }
  }

  // ---------------------------------------------------------------- who is released

  /** A call that cannot go on yet waits on the channel its predecessor's key still holds. */
  ghost predicate Waits(t: Table, task: Task) {
    && task.seqNo > t.start
    && (Unblocked(t, task) || (task.chan.Some? && task.seqNo - 1 in t.seqNo && t.seqNo[task.seqNo - 1] == task.chan))
  }

  ghost predicate AllWait(st: State) {
    forall i | i in st.tasks && st.tasks[i].pc == Blocked :: Waits(st.table, st.tasks[i])
  }

  /** A call leaves while another one with its number still waits: the channel of the other one is forgotten. */
  ghost predicate Strands(st: State, id: nat, step: Step) {
    && step.Leave? && id in st.tasks
    && exists j :: && j in st.tasks && j != id && st.tasks[j].pc == Blocked && st.tasks[j].seqNo == st.tasks[id].seqNo
                   && !Unblocked(st.table, st.tasks[j])
  }

  /** Closing a key frees exactly the calls that wait on its channel. */
  lemma ClosedFrees(t: Table, k: uint64, task: Task)
    requires Sound(t) && Waits(t, task)
    ensures Waits(Closed(t, k), task)
    ensures Unblocked(Closed(t, k), task) <==> Unblocked(t, task) || task.seqNo - 1 == k
  {
  }

  lemma {:induction false} NotifiedAllFrees(t: Table, keys: seq<uint64>, n: uint64, task: Task)
    requires Sound(t) && Waits(t, task) && forall i, j | 0 <= i < j < |keys| :: keys[i] < keys[j]
    ensures Waits(NotifiedAll(t, keys, n), task)
    ensures Unblocked(NotifiedAll(t, keys, n), task) <==>
              Unblocked(t, task) || (task.seqNo - 1 in keys && task.seqNo - 1 <= n)
    decreases |keys|
  {
    if keys != [] {
      assert forall k | k in keys :: k >= keys[0];
      assert forall k :: k in keys <==> k == keys[0] || k in keys[1..];
      if keys[0] <= n {
        ClosedFrees(t, keys[0], task);
        ClosedSound(t, keys[0]);
        NotifiedAllFrees(Closed(t, keys[0]), keys[1..], n, task);
      }
    }
  }

  lemma LeftFrees(t: Table, s: uint64, task: Task)
    requires Sound(t) && Waits(t, task) && 0 < s
    ensures Waits(Left(t, s), task) <==> Unblocked(t, task) || task.seqNo != s
    ensures task.seqNo != s ==> (Unblocked(Left(t, s), task) <==> Unblocked(t, task) || task.seqNo == s + 1)
  {
  }

  lemma EnteredWaits(t: Table, s: uint64, task: Task)
    requires s > t.start
    ensures Waits(t, task) ==> Waits(Entered(t, s), task)
    ensures Waits(Entered(t, s), Task(s, Awaited(t, s), Blocked))
  {
  }

  /** notifyAll is given the keys in order. */
  predicate Ordered(step: Step) {
    step.NotifyAll? ==> forall i, j | 0 <= i < j < |step.keys| :: step.keys[i] < step.keys[j]
  }

  /** A step leaves every blocked call on a channel that can still be closed, exactly when it strands none. */
  lemma StepWaits(st: State, id: nat, step: Step)
    requires AllWait(st) && Sound(st.table) && Enabled(st, id, step) && Ordered(step)
    ensures AllWait(Apply(st, id, step)) <==> !Strands(st, id, step)
  {
    var st' := Apply(st, id, step);
    if step.Leave? {
      LeaveWaitsExact(st, id);
    } else {
      forall i | i in st'.tasks && st'.tasks[i].pc == Blocked ensures Waits(st'.table, st'.tasks[i]) {
        if i in st.tasks && st.tasks[i].pc == Blocked { assert Waits(st.table, st.tasks[i]); }
        match step
        case Enter(s) => EnteredWaits(st.table, s, st'.tasks[i]);
        case Notify(s) => ClosedFrees(st.table, Sub64(s, 1), st'.tasks[i]);
        case NotifyAll(keys, n) => NotifiedAllFrees(st.table, keys, n, st'.tasks[i]);
        case _ =>
      }
    }
  }

  lemma LeaveWaitsExact(st: State, id: nat)
    requires AllWait(st) && Sound(st.table) && Enabled(st, id, Leave)
    ensures AllWait(Apply(st, id, Leave)) <==> !Strands(st, id, Leave)
  {
    var st', s := Apply(st, id, Leave), st.tasks[id].seqNo;
    forall i | i in st.tasks && st.tasks[i].pc == Blocked
      ensures i in st'.tasks && st'.tasks[i] == st.tasks[i]
      ensures Waits(st'.table, st.tasks[i]) <==> Unblocked(st.table, st.tasks[i]) || st.tasks[i].seqNo != s
    {
      assert Waits(st.table, st.tasks[i]);
      LeftFrees(st.table, s, st.tasks[i]);
    }
    if Strands(st, id, Leave) {
      var j :| j in st.tasks && j != id && st.tasks[j].pc == Blocked && st.tasks[j].seqNo == s && !Unblocked(st.table, st.tasks[j]);
      assert !Waits(st'.table, st'.tasks[j]);
    }
  }

  /** Calls are named by their number, so no number is waited on twice; notify and notifyAll come at any time. */
  predicate Once(id: nat, step: Step) {
    (step.Enter? ==> id == step.s) && Ordered(step)
  }

  /** In every interleaving in which no number is waited on twice, every blocked call can still be released. */
  lemma {:induction false} RunWaits(start: uint64, run: seq<State>, es: seq<Event>)
    requires IsRun(start, run, es) && forall j | 0 <= j < |es| :: Once(es[j].id, es[j].step)
    ensures AllWait(run[|es|]) && Sound(run[|es|].table) && forall i | i in run[|es|].tasks :: run[|es|].tasks[i].seqNo == i
    decreases |es|
  {
    if es != [] {
      var n := |es| - 1;
      RunWaits(start, run[..n + 1], es[..n]);
      assert run[n + 1] == Apply(run[n], es[n].id, es[n].step) && Once(es[n].id, es[n].step);
      StepSound(run[n], es[n].id, es[n].step);
      StepWaits(run[n], es[n].id, es[n].step);
    }
  }

  /** notify(s) releases the call s, which waits for s - 1, and no other one. */
  lemma NotifyReleases(start: uint64, run: seq<State>, es: seq<Event>, s: uint64, i: nat)
    requires IsRun(start, run, es) && forall j | 0 <= j < |es| :: Once(es[j].id, es[j].step)
    requires i in run[|es|].tasks && run[|es|].tasks[i].pc == Blocked
    ensures var st := run[|es|];
            Enabled(Apply(st, i, Notify(s)), i, Go) <==> Enabled(st, i, Go) || i == s
  {
    RunWaits(start, run, es);
    var st := run[|es|];
    assert Waits(st.table, st.tasks[i]) && st.tasks[i].seqNo == i;
    ClosedFrees(st.table, Sub64(s, 1), st.tasks[i]);
  }

  lemma OneMore(start: uint64, run: seq<State>, es: seq<Event>, id: nat, step: Step) returns (run': seq<State>, es': seq<Event>)
    requires IsRun(start, run, es) && Enabled(run[|es|], id, step)
    ensures IsRun(start, run', es') && run'[|es'|] == Apply(run[|es|], id, step)
  {
    run', es' := run + [Apply(run[|es|], id, step)], es + [Event(id, step)];
  }

  /** Two calls of wait(2), released by notify. */
  lemma TwoWait() returns (run: seq<State>, es: seq<Event>)
    ensures IsRun(0, run, es)
    ensures run[|es|] == State(Table(0, map[2 := Some(0), 1 := None], 2, [1]),
                               map[1 := Task(2, Some(1), Blocked), 2 := Task(2, Some(1), Blocked)], [])
  {
    run, es := [Initial(0)], [];
    run, es := OneMore(0, run, es, 1, Enter(2));
    run, es := OneMore(0, run, es, 2, Enter(2));
    assert run[|es|].table == Table(0, map[2 := Some(0), 1 := Some(1)], 2, []);
    run, es := OneMore(0, run, es, 0, Notify(2));
  }

  /** The first of them done, a third call waits on a new channel. */
  lemma WaitsAgain() returns (run: seq<State>, es: seq<Event>)
    ensures IsRun(0, run, es)
    ensures run[|es|] == State(Table(0, map[2 := None, 1 := Some(2)], 3, [1, 0]),
                               map[1 := Task(2, Some(1), Done), 2 := Task(2, Some(1), Blocked), 3 := Task(2, Some(2), Blocked)],
                               [Begin(2), End(2)])
  {
    run, es := TwoWait();
    run, es := OneMore(0, run, es, 1, Go);
    run, es := OneMore(0, run, es, 1, Finish);
    assert run[|es|].log == [Begin(2), End(2)];
    run, es := OneMore(0, run, es, 1, Leave);
    assert run[|es|].table == Table(0, map[2 := None], 2, [1, 0]);
    run, es := OneMore(0, run, es, 3, Enter(2));
  }

  /** With a number waited on again after a notify, a call can be left behind for good: notify does not release it. */
  lemma StrandedCall() returns (run: seq<State>, es: seq<Event>)
    ensures IsRun(0, run, es) && 3 in run[|es|].tasks && run[|es|].tasks[3] == Task(2, Some(2), Blocked)
    ensures !Enabled(Apply(run[|es|], 0, Notify(2)), 3, Go)
  {
    run, es := WaitsAgain();
    run, es := OneMore(0, run, es, 2, Go);
    run, es := OneMore(0, run, es, 2, Finish);
    run, es := OneMore(0, run, es, 2, Leave);
    assert run[|es|].table == Table(0, map[2 := None], 3, [1, 0]);
  }

  // ---------------------------------------------------------------- the functions run one at a time, in order

  /** The marks of the functions start+1, ..., f, each run to its end before the next begins. */
  ghost function Turns(start: nat, f: nat): seq<Mark>
    requires start <= f < TWO_64
    decreases f - start
  {
    if f == start then [] else Turns(start, f - 1) + [Begin(f), End(f)]
  }

  ghost function Current(st: State, f: nat): seq<Mark>
    requires f < TWO_64
  {
    if f + 1 < TWO_64 && f + 1 in st.tasks then
      match st.tasks[f + 1].pc
      case Running => [Begin(f + 1)]
      case Ran => [Begin(f + 1), End(f + 1)]
      case _ => []
    else []
  }

  /** Calls up to `f` are done, `f + 1` may be at work, and all later ones are blocked. */
  ghost predicate TasksAt(st: State, f: nat) {
    && st.table.start <= f < TWO_64
    && (forall s | s in st.tasks :: st.tasks[s].seqNo == s > st.table.start)
    && (forall s: nat | st.table.start < s <= f :: s in st.tasks && st.tasks[s].pc == Done)
    && (forall s | s in st.tasks && s > f :: st.tasks[s].pc != Done && (s > f + 1 ==> st.tasks[s].pc == Blocked))
    && st.log == Turns(st.table.start, f) + Current(st, f)
  }

  /** Channels below `f` are gone, the one of `f` is nil once `f` is done, and those above are open. */
  ghost predicate KeysAt(t: Table, f: nat) {
    && (forall k | k in t.seqNo :: k >= f && (k > f ==> t.seqNo[k].Some?))
    && (f > t.start ==> f < TWO_64 && f in t.seqNo && t.seqNo[f] == None)
  }

  /** A call that is not done has its own channel and waits on the one of its predecessor; the next in line is free. */
  ghost predicate WaitsAt(t: Table, tasks: map<nat, Task>, f: nat) {
    && (forall s | s in tasks && s > f :: 0 < s < TWO_64 && s in t.seqNo)
    && (forall s | s in tasks && s > f + 1 :: s - 1 in t.seqNo && tasks[s].chan == t.seqNo[s - 1])
    && (f > t.start && f + 1 in tasks ==> Unblocked(t, tasks[f + 1]))
  }

  ghost predicate InTurn(st: State, f: nat) {
    TasksAt(st, f) && Sound(st.table) && KeysAt(st.table, f) && WaitsAt(st.table, st.tasks, f)
  }

  /** Without notify, and with each number waited on once: calls are named by their number. */
  predicate Plain(id: nat, step: Step) {
    match step
    case Enter(s) => id == s
    case Notify(_) => false
    case NotifyAll(_, _) => false
    case _ => true
  }

  lemma EnteredTable(t: Table, f: nat, s: uint64)
    requires KeysAt(t, f) && s > f && s > t.start
    ensures var t' := Entered(t, s);
            && KeysAt(t', f) && t'.closes == t.closes && t'.start == t.start
            && s in t'.seqNo && s - 1 in t'.seqNo
            && (forall k | k in t.seqNo :: k in t'.seqNo && t'.seqNo[k] == t.seqNo[k])
  {
  }

  lemma EnterInTurn(st: State, f: nat, s: uint64)
    requires InTurn(st, f) && Enabled(st, s, Enter(s))
    ensures InTurn(Apply(st, s, Enter(s)), f)
  {
    assert s > f;
    var t, t' := st.table, Entered(st.table, s);
    EnteredTable(t, f, s);
    StepSound(st, s, Enter(s));
    var st' := Apply(st, s, Enter(s));
    assert st'.tasks == st.tasks[s := Task(s, t'.seqNo[s - 1], Blocked)];
    EnterTasks(st, st', f, s);
    EnterWaits(t, t', st.tasks, f, s);
  }

  lemma EnterTasks(st: State, st': State, f: nat, s: uint64)
    requires TasksAt(st, f) && s > f && s !in st.tasks && st'.log == st.log && st'.table.start == st.table.start
    requires exists c :: st'.tasks == st.tasks[s := Task(s, c, Blocked)]
    ensures TasksAt(st', f)
  {
    assert Current(st', f) == Current(st, f);
  }

  lemma EnterWaits(t: Table, t': Table, tasks: map<nat, Task>, f: nat, s: uint64)
    requires WaitsAt(t, tasks, f) && s > f && s !in tasks && KeysAt(t', f)
    requires t'.closes == t.closes && t'.start == t.start && s in t'.seqNo && s - 1 in t'.seqNo
    requires forall k | k in t.seqNo :: k in t'.seqNo && t'.seqNo[k] == t.seqNo[k]
    ensures WaitsAt(t', tasks[s := Task(s, t'.seqNo[s - 1], Blocked)], f)
  {
  }

  /** Only the next call in line can leave the gate. */
  lemma OnlyNextUnblocked(st: State, f: nat, id: nat)
    requires InTurn(st, f) && id in st.tasks && id > f + 1
    ensures !Unblocked(st.table, st.tasks[id])
  {
    assert st.tasks[id].chan == st.table.seqNo[id - 1];
    assert st.table.seqNo[id - 1].Some?;
  }

  lemma GoInTurn(st: State, f: nat, id: nat)
    requires InTurn(st, f) && Enabled(st, id, Go)
    ensures id == f + 1 && InTurn(Apply(st, id, Go), f)
  {
    assert id > f;
    if id > f + 1 { OnlyNextUnblocked(st, f, id); }
    var st' := Apply(st, id, Go);
    assert TasksAt(st', f) by { assert Current(st', f) == Current(st, f) + [Begin(id)]; }
    assert WaitsAt(st'.table, st'.tasks, f);
  }

  lemma FinishInTurn(st: State, f: nat, id: nat)
    requires InTurn(st, f) && Enabled(st, id, Finish)
    ensures id == f + 1 && InTurn(Apply(st, id, Finish), f)
  {
    var st' := Apply(st, id, Finish);
    assert TasksAt(st', f) by { assert Current(st', f) == Current(st, f) + [End(id)]; }
    assert WaitsAt(st'.table, st'.tasks, f);
  }

  lemma LeftTable(t: Table, f: nat, s: uint64)
    requires KeysAt(t, f) && s == f + 1 && s > t.start && Sound(t) && s in t.seqNo
    ensures var t' := Left(t, s);
            && KeysAt(t', s) && Sound(t') && t'.start == t.start && t.seqNo[s].Some?
            && t'.closes == t.closes + [t.seqNo[s].value]
            && (forall k | k in t.seqNo && k > s :: k in t'.seqNo && t'.seqNo[k] == t.seqNo[k])
            && s in t'.seqNo
  {
    ClosedSound(t.(seqNo := t.seqNo - {s - 1}), s);
  }

  lemma LeaveInTurn(st: State, f: nat, id: nat)
    requires InTurn(st, f) && Enabled(st, id, Leave)
    ensures id == f + 1 && InTurn(Apply(st, id, Leave), f + 1)
  {
    var st' := Apply(st, id, Leave);
    assert id == f + 1;
    LeftTable(st.table, f, id);
    LeaveTasks(st, st', f);
    LeaveWaits(st.table, st'.table, st.tasks, f, id);
  }

  lemma LeaveTasks(st: State, st': State, f: nat)
    requires TasksAt(st, f) && f + 1 in st.tasks && st.tasks[f + 1].pc == Ran && f + 1 < TWO_64
    requires st'.tasks == st.tasks[f + 1 := st.tasks[f + 1].(pc := Done)]
    requires st'.log == st.log && st'.table.start == st.table.start
    ensures TasksAt(st', f + 1)
  {
    assert Current(st, f) == [Begin(f + 1), End(f + 1)];
    assert Current(st', f + 1) == [];
  }

  lemma LeaveWaits(t: Table, t': Table, tasks: map<nat, Task>, f: nat, s: uint64)
    requires WaitsAt(t, tasks, f) && s == f + 1 && s in tasks && s in t.seqNo && t.seqNo[s].Some? && t'.start == t.start
    requires t'.closes == t.closes + [t.seqNo[s].value] && s in t'.seqNo
    requires forall k | k in t.seqNo && k > s :: k in t'.seqNo && t'.seqNo[k] == t.seqNo[k]
    ensures WaitsAt(t', tasks[s := tasks[s].(pc := Done)], s)
  {
    if s + 1 in tasks {
      assert tasks[s + 1].chan == t.seqNo[s];
    }
  }

  /** The sequencing theorem: in every interleaving of plain calls there is a frontier `f` such that the functions
      start+1, ..., f have run one after the other, only f+1 may be at work, and the rest is blocked. */
  lemma {:induction false} RunsInTurn(start: uint64, run: seq<State>, es: seq<Event>) returns (f: nat)
    requires IsRun(start, run, es) && forall j | 0 <= j < |es| :: Plain(es[j].id, es[j].step)
    ensures InTurn(run[|es|], f) && run[|es|].table.start == start
    decreases |es|
  {
    if es == [] {
      f := start;
    } else {
      var n := |es| - 1;
      f := RunsInTurn(start, run[..n + 1], es[..n]);
      assert run[n + 1] == Apply(run[n], es[n].id, es[n].step) && Plain(es[n].id, es[n].step);
      f := StepInTurn(run[n], f, es[n].id, es[n].step);
    }
  }

  lemma StepInTurn(st: State, f: nat, id: nat, step: Step) returns (f': nat)
    requires InTurn(st, f) && Enabled(st, id, step) && Plain(id, step)
    ensures InTurn(Apply(st, id, step), f') && Apply(st, id, step).table.start == st.table.start
    ensures f' == if step.Leave? then f + 1 else f
  {
    f' := if step.Leave? then f + 1 else f;
    match step
    case Enter(s) => EnterInTurn(st, f, s);
    case Go => GoInTurn(st, f, id);
    case Finish => FinishInTurn(st, f, id);
    case Leave => LeaveInTurn(st, f, id);
  }

  /** Once s is done (or s is the start), an entered s+1 is not blocked. */
  lemma SuccessorReleased(st: State, f: nat, s: uint64)
    requires InTurn(st, f) && s + 1 in st.tasks && st.tasks[s + 1].pc == Blocked
    requires s == st.table.start || (s in st.tasks && st.tasks[s].pc == Done)
    ensures Enabled(st, s + 1, Go)
  {
    assert s == f;
  }

  /** No deadlock: while the calls up to `m` have all entered and one of them is not done, a call can move. */
  lemma SomeCallCanMove(st: State, f: nat, m: nat)
    requires InTurn(st, f) && forall s: nat | st.table.start < s <= m :: s in st.tasks
    requires exists s :: s in st.tasks && s <= m && st.tasks[s].pc != Done
    ensures Enabled(st, f + 1, Go) || Enabled(st, f + 1, Finish) || Enabled(st, f + 1, Leave)
  {
    var s :| s in st.tasks && s <= m && st.tasks[s].pc != Done;
    assert s > f;
    NextCanMove(st, f);
  }

  lemma NextCanMove(st: State, f: nat)
    requires InTurn(st, f) && f + 1 in st.tasks
    ensures Enabled(st, f + 1, Go) || Enabled(st, f + 1, Finish) || Enabled(st, f + 1, Leave)
  {
    assert st.tasks[f + 1].seqNo == f + 1 && st.tasks[f + 1].pc != Done;
    if st.tasks[f + 1].pc == Blocked { assert Unblocked(st.table, st.tasks[f + 1]); }
  }

  // ---------------------------------------------------------------- the code

  class AsyncSeqNo {
    const start: uint64
    var seqNo: map<uint64, Option<Chan>>
    /** Channels made and closed so far. */
    var next: Chan
    var closes: seq<Chan>

    ghost function View(): Table
      reads this
    {
      Table(start, seqNo, next, closes)
    }

    constructor (start: uint64)
      ensures View() == Initial(start).table
    {
      this.start := start;
      seqNo, next, closes := map[], 0, [];
    }

    method MakeIfMissing(k: uint64)
      modifies this
      ensures View() == Created(old(View()), k)
    {
      if k !in seqNo {
        seqNo, next := seqNo[k := Some(next)], next + 1;
      }
    }

    method CloseAndForget(k: uint64)
      modifies this
      ensures View() == Closed(old(View()), k)
    {
      if k in seqNo {
        var c := seqNo[k];
        if c.Some? {
          closes := closes + [c.value];
          seqNo := seqNo[k := None];
        }
      }
    }

    /** First locked section of wait; wait panics on a number that is not above start. */
    method EnterWait(s: uint64) returns (c: Option<Chan>)
      requires s > start
      modifies this
      ensures View() == Entered(old(View()), s) && c == Awaited(old(View()), s)
    {
      MakeIfMissing(s);
      MakeIfMissing(s - 1);
      c := seqNo[s - 1];
    }

    /** Second locked section of wait. */
    method LeaveWait(s: uint64)
      requires s > start
      modifies this
      ensures View() == Left(old(View()), s)
    {
      seqNo := seqNo - {s - 1};
      CloseAndForget(s);
    }

    method NotifyOne(s: uint64)
      modifies this
      ensures View() == Notified(old(View()), s)
    {
      CloseAndForget(Sub64(s, 1));
    }

    /** notifyAll over the sorted keys. */
    method NotifyUpTo(keys: seq<uint64>, n: uint64)
      modifies this
      ensures View() == NotifiedAll(old(View()), keys, n)
    {
      var i := 0;
      while i < |keys| && keys[i] <= n
        invariant 0 <= i <= |keys|
        invariant NotifiedAll(old(View()), keys, n) == NotifiedAll(View(), keys[i..], n)
      {
        assert keys[i..][0] == keys[i] && keys[i..][1..] == keys[i + 1..];
        CloseAndForget(keys[i]);
        i := i + 1;
      }
    }
  }
}
