/**
 Guards that own a scheduling report: a guard reports its thread when constructed and reports the
 opposite when it dies or is overwritten, and a move hands the duty over.
 */
module ScheduleGuard {
  import opened Wrappers

  datatype Key = Key(pid: nat, tid: nat, bundleName: string)

  datatype GuardState = GuardState(key: Key, isReported: bool)

  datatype GuardReport = Scheduled(key: Key) | Unscheduled(key: Key)

  /** What move-assigning b to a makes of both, and what is reported. The name left behind is arbitrary. */
  function MoveAssign(a: GuardState, b: GuardState, leftover: string): (GuardState, GuardState, seq<GuardReport>) {
    if a == b then (a, b.(isReported := false), [])
    else (b, GuardState(b.key.(bundleName := leftover), false), if a.isReported then [Unscheduled(a.key)] else [])
  }

  class ResSchedClient {
    ghost var reports: seq<GuardReport>

    constructor ()
      ensures reports == []
    {
      reports := [];
    }

    method ReportData(r: GuardReport)
      modifies this
      ensures reports == old(reports) + [r]
    {
      reports := reports + [r];
    }
  }

  class AudioScheduleGuard {
    const client: ResSchedClient
    var pid: nat
    var tid: nat
    var bundleName: string
    var isReported: bool

    function View(): GuardState
      reads this
    {
      GuardState(Key(pid, tid, bundleName), isReported)
    }

    constructor (client: ResSchedClient, pid: nat, tid: nat, bundleName: string)
      modifies client
      ensures this.client == client && View() == GuardState(Key(pid, tid, bundleName), true)
      ensures client.reports == old(client.reports) + [Scheduled(Key(pid, tid, bundleName))]
    {
      this.client, this.pid, this.tid, this.bundleName := client, pid, tid, bundleName;
      new;
      client.ReportData(Scheduled(Key(pid, tid, bundleName)));
      isReported := true;
    }

    /** Move construction. */
    constructor Move(other: AudioScheduleGuard, leftover: string)
      modifies other
      ensures client == other.client && View() == old(other.View())
      ensures other.View() == GuardState(old(other.View()).key.(bundleName := leftover), false)
    {
      client, pid, tid := other.client, other.pid, other.tid;
      bundleName := other.bundleName;
      isReported := other.isReported;
      new;
      other.bundleName := leftover;
      other.isReported := false;
    }

    /** Move assignment; the temporary that took over the old report dies at the end. */
    method Assign(other: AudioScheduleGuard, leftover: string)
      requires other.client == client
      modifies this, other, client
      ensures var (a, b, reports) := MoveAssign(old(View()), old(other.View()), leftover);
              && (this != other ==> View() == a && other.View() == b)
              && (this == other ==> View() == old(View()).(isReported := false))
              && client.reports == old(client.reports) + reports
      ensures !other.isReported
      ensures old(View()) != old(other.View()) ==>
                && View() == old(other.View())
                && other.View().key == old(other.View()).key.(bundleName := leftover)
                && client.reports ==
                   old(client.reports) + if old(isReported) then [Unscheduled(old(View()).key)] else []
      ensures old(View()) == old(other.View()) ==>
                && View().key == other.View().key == old(View()).key
                && (this != other ==> isReported == old(isReported))
                && client.reports == old(client.reports)
    {
      if View() == other.View() {
        other.isReported := false;
        return;
      }
      var temp := new AudioScheduleGuard.Move(this, bundleName);
      this.bundleName := other.bundleName;
      other.bundleName := leftover;
      this.isReported := other.isReported;
      this.pid := other.pid;
      this.tid := other.tid;
      other.isReported := false;
      temp.Destroy();
    }

    /** The destructor. */
    method Destroy()
      modifies client
      ensures client.reports == old(client.reports) + if isReported then [Unscheduled(View().key)] else []
    {
      if isReported {
        client.ReportData(Unscheduled(Key(pid, tid, bundleName)));
      }
    }
  }

  /* Any number of guards over any sequence of operations. */

  /** The guards made so far, dead ones as None, and every report made. */
  datatype Pool = Pool(guards: seq<Option<GuardState>>, reports: seq<GuardReport>)

  datatype Op =
    | Construct(key: Key)
    | MoveConstruct(from: nat, leftover: string)
    | Assign(to: nat, from: nat, leftover: string)
    | Destroy(guard: nat)

  predicate Alive(p: Pool, i: nat) {
    i < |p.guards| && p.guards[i].Some?
  }

  predicate Allowed(p: Pool, op: Op) {
    match op
    case Construct(_) => true
    case MoveConstruct(i, _) => Alive(p, i)
    case Assign(i, j, _) => Alive(p, i) && Alive(p, j)
    case Destroy(i) => Alive(p, i)
  }

  function Next(p: Pool, op: Op): Pool
    requires Allowed(p, op)
  {
    match op
    case Construct(key) => Pool(p.guards + [Some(GuardState(key, true))], p.reports + [Scheduled(key)])
    case MoveConstruct(i, leftover) =>
      var g := p.guards[i].value;
      Pool(p.guards[i := Some(GuardState(g.key.(bundleName := leftover), false))] + [Some(g)], p.reports)
    case Assign(i, j, leftover) =>
      if i == j then Pool(p.guards[i := Some(p.guards[i].value.(isReported := false))], p.reports)
      else
        var (a, b, rs) := MoveAssign(p.guards[i].value, p.guards[j].value, leftover);
        Pool(p.guards[i := Some(a)][j := Some(b)], p.reports + rs)
    case Destroy(i) =>
      var g := p.guards[i].value;
      Pool(p.guards[i := None], p.reports + if g.isReported then [Unscheduled(g.key)] else [])
  }

  /* How often a key was reported, taken back, and is still owed by a living guard. */

  function Duty(g: Option<GuardState>, k: Key): nat {
    if g == Some(GuardState(k, true)) then 1 else 0
  }

  function Owed(gs: seq<Option<GuardState>>, k: Key): nat {
    if gs == [] then 0 else Owed(gs[..|gs| - 1], k) + Duty(gs[|gs| - 1], k)
  }

  function Made(rs: seq<GuardReport>, k: Key): nat {
    if rs == [] then 0 else Made(rs[..|rs| - 1], k) + if rs[|rs| - 1] == Scheduled(k) then 1 else 0
  }

  function TakenBack(rs: seq<GuardReport>, k: Key): nat {
    if rs == [] then 0 else TakenBack(rs[..|rs| - 1], k) + if rs[|rs| - 1] == Unscheduled(k) then 1 else 0
  }

  predicate BalancedFor(p: Pool, k: Key) {
    Made(p.reports, k) == TakenBack(p.reports, k) + Owed(p.guards, k)
  }

  /** Every report made is either taken back, or the duty of exactly one living guard. */
  ghost predicate Balanced(p: Pool) {
    forall k :: BalancedFor(p, k)
  }

  lemma {:induction false} OwedAfterUpdate(gs: seq<Option<GuardState>>, i: nat, g: Option<GuardState>, k: Key)
    requires i < |gs|
    ensures Owed(gs[i := g], k) + Duty(gs[i], k) == Owed(gs, k) + Duty(g, k)
  {
    var n := |gs| - 1;
    if i < n {
      OwedAfterUpdate(gs[..n], i, g, k);
      assert gs[i := g][..n] == gs[..n][i := g];
    } else {
      assert gs[i := g][..n] == gs[..n];
    }
  }

  lemma OwedAfterAppend(gs: seq<Option<GuardState>>, g: Option<GuardState>, k: Key)
    ensures Owed(gs + [g], k) == Owed(gs, k) + Duty(g, k)
  {
    assert (gs + [g])[..|gs|] == gs;
  }

  lemma ReportsAfterAppend(rs: seq<GuardReport>, r: GuardReport, k: Key)
    ensures Made(rs + [r], k) == Made(rs, k) + (if r == Scheduled(k) then 1 else 0)
    ensures TakenBack(rs + [r], k) == TakenBack(rs, k) + (if r == Unscheduled(k) then 1 else 0)
    ensures rs + [] == rs
  {
    assert (rs + [r])[..|rs|] == rs;
  }

  /* What each operation comes to, for the guards it names and for the reports. */

  /** A guard that owes the report of a key. */
  predicate Owes(p: Pool, i: nat, k: Key) {
    i < |p.guards| && p.guards[i] == Some(GuardState(k, true))
  }

  /** Only the guards at i and j may be different, and no guard is lost or made. */
  ghost predicate OnlyTouches(p: Pool, p': Pool, i: nat, j: nat) {
    |p'.guards| == |p.guards| && forall n | 0 <= n < |p.guards| && n != i && n != j :: p'.guards[n] == p.guards[n]
  }

  /** A new guard owes the one report made for it. */
  lemma ConstructEffect(p: Pool, key: Key)
    ensures var p' := Next(p, Construct(key));
            && p'.guards[..|p.guards|] == p.guards && |p'.guards| == |p.guards| + 1 && Owes(p', |p.guards|, key)
            && forall k :: Made(p'.reports, k) == Made(p.reports, k) + (if k == key then 1 else 0) &&
                           TakenBack(p'.reports, k) == TakenBack(p.reports, k)
  {
    forall k {
      ReportsAfterAppend(p.reports, Scheduled(key), k);
    }
  }

  /** Move construction hands whatever a guard owes to the new guard; nothing is reported. */
  lemma MoveConstructEffect(p: Pool, i: nat, leftover: string)
    requires Alive(p, i)
    ensures var p' := Next(p, MoveConstruct(i, leftover));
            && p'.reports == p.reports && |p'.guards| == |p.guards| + 1
            && p'.guards[|p.guards|] == p.guards[i]
            && p'.guards[i].Some? && !p'.guards[i].value.isReported
            && forall n | 0 <= n < |p.guards| && n != i :: p'.guards[n] == p.guards[n]
  {
  }

  /**
   Move assignment: the guard assigned from owes nothing afterwards. When the two differ, the other one
   takes over its state and whatever it owed itself is taken back at once; when they are equal nothing is
   reported.
   */
  lemma AssignEffect(p: Pool, i: nat, j: nat, leftover: string)
    requires Alive(p, i) && Alive(p, j)
    ensures var p' := Next(p, Assign(i, j, leftover));
            && OnlyTouches(p, p', i, j)
            && p'.guards[j].Some? && !p'.guards[j].value.isReported
            && (p.guards[i] == p.guards[j] ==> p'.reports == p.reports && (i != j ==> p'.guards[i] == p.guards[i]))
            && (p.guards[i] != p.guards[j] ==> p'.guards[i] == p.guards[j])
            && forall k :: Made(p'.reports, k) == Made(p.reports, k) &&
                           TakenBack(p'.reports, k) == TakenBack(p.reports, k) +
                             (if p.guards[i] != p.guards[j] && Owes(p, i, k) then 1 else 0)
  {
    forall k {
      ReportsAfterAppend(p.reports, Unscheduled(p.guards[i].value.key), k);
    }
  }

  /** A guard that dies takes back what it owes. */
  lemma DestroyEffect(p: Pool, i: nat)
    requires Alive(p, i)
    ensures var p' := Next(p, Destroy(i));
            && OnlyTouches(p, p', i, i) && p'.guards[i].None?
            && forall k :: Made(p'.reports, k) == Made(p.reports, k) &&
                           TakenBack(p'.reports, k) == TakenBack(p.reports, k) + (if Owes(p, i, k) then 1 else 0)
  {
    forall k {
      ReportsAfterAppend(p.reports, Unscheduled(p.guards[i].value.key), k);
    }
  }

  /** A move assignment between equal guards that both have a report to take back, or of a guard to itself. */
  predicate Forgets(p: Pool, op: Op)
    requires Allowed(p, op)
  {
    op.Assign? && p.guards[op.to] == p.guards[op.from] && p.guards[op.to].value.isReported
  }

  /** The key whose report a forgetting assignment loses. */
  predicate Loses(p: Pool, op: Op, k: Key)
    requires Allowed(p, op)
  {
    Forgets(p, op) && p.guards[op.to].value.key == k
  }

  lemma AssignBalances(p: Pool, op: Op, k: Key)
    requires op.Assign? && Allowed(p, op) && BalancedFor(p, k)
    ensures BalancedFor(Next(p, op), k) <==> !Loses(p, op, k)
  {
    hide Owed, Made, TakenBack;
    var i, j := op.to, op.from;
    var x, y := p.guards[i].value, p.guards[j].value;
    ReportsAfterAppend(p.reports, Unscheduled(x.key), k);
    if i == j {
      OwedAfterUpdate(p.guards, i, Some(x.(isReported := false)), k);
    } else {
      var (a, b, _) := MoveAssign(x, y, op.leftover);
      OwedAfterUpdate(p.guards, i, Some(a), k);
      OwedAfterUpdate(p.guards[i := Some(a)], j, Some(b), k);
    }
  }

  lemma OpBalances(p: Pool, op: Op, k: Key)
    requires Allowed(p, op) && BalancedFor(p, k)
    ensures BalancedFor(Next(p, op), k) <==> !Loses(p, op, k)
  {
    hide Owed, Made, TakenBack;
    match op
    case Construct(key) =>
      OwedAfterAppend(p.guards, Some(GuardState(key, true)), k);
      ReportsAfterAppend(p.reports, Scheduled(key), k);
    case MoveConstruct(i, leftover) =>
      var g := p.guards[i].value;
      var moved := Some(GuardState(g.key.(bundleName := leftover), false));
      OwedAfterUpdate(p.guards, i, moved, k);
      OwedAfterAppend(p.guards[i := moved], Some(g), k);
    case Assign(_, _, _) =>
      AssignBalances(p, op, k);
    case Destroy(i) =>
      OwedAfterUpdate(p.guards, i, None, k);
      ReportsAfterAppend(p.reports, Unscheduled(p.guards[i].value.key), k);
  }

  /** One operation keeps the reports balanced exactly when it is not a forgetting assignment. */
  lemma BalancedIff(p: Pool, op: Op)
    requires Allowed(p, op) && Balanced(p)
    ensures Balanced(Next(p, op)) <==> !Forgets(p, op)
  {
    hide Next, BalancedFor;
    forall k ensures BalancedFor(Next(p, op), k) <==> !Loses(p, op, k) {
      assert BalancedFor(p, k);
      OpBalances(p, op, k);
    }
    if Forgets(p, op) {
      assert Loses(p, op, p.guards[op.to].value.key);
    }
  }

  ghost predicate Runs(p: Pool, ops: seq<Op>)
    decreases |ops|
  {
    ops == [] || (Allowed(p, ops[0]) && !Forgets(p, ops[0]) && Runs(Next(p, ops[0]), ops[1..]))
  }

  ghost function After(p: Pool, ops: seq<Op>): Pool
    requires Runs(p, ops)
    decreases |ops|
  {
    if ops == [] then p else After(Next(p, ops[0]), ops[1..])
  }

  const NO_GUARDS := Pool([], [])

  lemma {:induction false} RunStaysBalanced(p: Pool, ops: seq<Op>)
    requires Balanced(p) && Runs(p, ops)
    ensures Balanced(After(p, ops))
    decreases |ops|
  {
    if ops != [] {
      BalancedIff(p, ops[0]);
      RunStaysBalanced(Next(p, ops[0]), ops[1..]);
    }
  }

  lemma {:induction false} NothingOwed(gs: seq<Option<GuardState>>, k: Key)
    requires forall i | 0 <= i < |gs| :: gs[i].None?
    ensures Owed(gs, k) == 0
  {
    if gs != [] {
      NothingOwed(gs[..|gs| - 1], k);
    }
  }

  /**
   Conservation: over any run without forgetting assignments, what was reported and not taken back is
   owed by the living guards, each report by one guard; and when all guards are dead every report has
   been taken back once.
   */
  lemma GuardsConserveReports(ops: seq<Op>, k: Key)
    requires Runs(NO_GUARDS, ops)
    ensures var p := After(NO_GUARDS, ops);
            && Made(p.reports, k) == TakenBack(p.reports, k) + Owed(p.guards, k)
            && ((forall i | 0 <= i < |p.guards| :: p.guards[i].None?) ==>
                  Made(p.reports, k) == TakenBack(p.reports, k))
  {
    RunStaysBalanced(NO_GUARDS, ops);
    var p := After(NO_GUARDS, ops);
    assert BalancedFor(p, k);
    if forall i | 0 <= i < |p.guards| :: p.guards[i].None? {
      NothingOwed(p.guards, k);
    }
  }
}
