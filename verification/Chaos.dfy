/**
 * The chaos engine of the stress test: one endless loop per fault, all sharing a mutex, a global
 * cooldown and an exclusion window between corrupting token files and restarting the daemon.
 */
module Chaos {
  import opened Common

  /** Six minutes, in nanoseconds. */
  const EXCLUSION_WINDOW := 360_000_000_000

  datatype Kind = KillDaemon | DeleteSocket | CorruptTokenFiles | FillConnections | FillDisk

  /** The two camps that exclude each other. */
  datatype Camp = Killing | Corrupting {
    function Opposite(): Camp { if Killing? then Corrupting else Killing }
  }

  /** The faults after which the daemon starts again. */
  predicate Restarts(kind: Kind) { kind == KillDaemon || kind == DeleteSocket }

  /** Corrupting the token files and restarting the daemon exclude each other. */
  predicate Conflict(a: Kind, b: Kind) {
    (a == CorruptTokenFiles && Restarts(b)) || (Restarts(a) && b == CorruptTokenFiles)
  }

  function CampOf(kind: Kind): Option<Camp> {
    match kind
    case KillDaemon => Some(Killing)
    case DeleteSocket => Some(Killing)
    case CorruptTokenFiles => Some(Corrupting)
    case _ => None
  }

  /** The fields under the mutex; None is the zero time. */
  datatype Times = Times(lastChaos: Option<int>, lastCorrupt: Option<int>, lastKill: Option<int>) {
    function Last(camp: Camp): Option<int> { if camp.Killing? then lastKill else lastCorrupt }
  }

  predicate Recent(t: Option<int>, window: int, now: int) { t.Some? && now - t.value < window }

  predicate Excluded(times: Times, kind: Kind, now: int) {
    CampOf(kind).Some? && Recent(times.Last(CampOf(kind).value.Opposite()), EXCLUSION_WINDOW, now)
  }

  function Recorded(times: Times, kind: Kind, now: int): Times {
    match CampOf(kind)
    case Some(Corrupting) => times.(lastCorrupt := Some(now))
    case Some(Killing) => times.(lastKill := Some(now))
    case None => times
  }

  /** The engine's own fields, and the locked pieces of its loop. */
  class Engine {
    const cooldown: int
    var lastChaosTime: Option<int>
    var lastCorruptTime: Option<int>
    var lastKillTime: Option<int>

    function View(): Times
      reads this
    {
      Times(lastChaosTime, lastCorruptTime, lastKillTime)
    }

    constructor (cooldown: int)
      ensures this.cooldown == cooldown && View() == Times(None, None, None)
    {
      this.cooldown := cooldown;
      lastChaosTime, lastCorruptTime, lastKillTime := None, None, None;
    }

    /** How long to wait for the global cooldown: zero when it is over. */
    method CooldownLeft(now: int) returns (remaining: int)
      ensures remaining > 0 <==> Recent(View().lastChaos, cooldown, now)
      ensures remaining > 0 ==> now + remaining == lastChaosTime.value + cooldown
    {
      remaining := 0;
      if lastChaosTime.Some? {
        var elapsed := now - lastChaosTime.value;
        if elapsed < cooldown {
          remaining := cooldown - elapsed;
        }
      }
    }

    method StampChaos(now: int)
      modifies this
      ensures View() == old(View()).(lastChaos := Some(now))
    {
      lastChaosTime := Some(now);
    }

    method Admit(kind: Kind, now: int) returns (ok: bool)
      ensures ok <==> !Excluded(View(), kind, now)
      ensures ok <==>
              && !(Restarts(kind) && lastCorruptTime.Some? && now < lastCorruptTime.value + 360_000_000_000)
              && !(kind == CorruptTokenFiles && lastKillTime.Some? && now < lastKillTime.value + 360_000_000_000)
    {
      var killLike := kind == KillDaemon || kind == DeleteSocket;
      if killLike && lastCorruptTime.Some? && now - lastCorruptTime.value < EXCLUSION_WINDOW {
        return false;
      }
      if kind == CorruptTokenFiles && lastKillTime.Some? && now - lastKillTime.value < EXCLUSION_WINDOW {
        return false;
      }
      return true;
    }

    method Record(kind: Kind, now: int)
      modifies this
      ensures View() == Recorded(old(View()), kind, now) && lastChaosTime == old(lastChaosTime)
      ensures lastCorruptTime == if kind == CorruptTokenFiles then Some(now) else old(lastCorruptTime)
      ensures lastKillTime == if Restarts(kind) then Some(now) else old(lastKillTime)
    {
      if kind == CorruptTokenFiles {
        lastCorruptTime := Some(now);
      } else if kind == KillDaemon || kind == DeleteSocket {
        lastKillTime := Some(now);
      }
    }
  }

  // ------------------------------------------------------------------ Every interleaving of the loops

  /** Where one loop is; from Entered to Releasing it holds the mutex. */
  datatype Pc =
    | Idle(until: int)
    | Locking
    | Entered
    | Yielding(remaining: int)
    | Cooling(until: int)
    | Relocking
    | Stamping(waited: bool)
    | Checking
    | Admitted
    | Executing
    | Recording
    | Releasing
    | Cancelled
  {
    predicate Inside() {
      Entered? || Yielding? || Stamping? || Checking? || Admitted? || Executing? || Recording? || Releasing?
    }
  }

  datatype Loop = Loop(kind: Kind, pc: Pc)

  datatype State = State(cooldown: int, times: Times, holder: Option<nat>, loops: map<nat, Loop>, now: int)

  /** Time passes, one loop takes its next step, or the context is cancelled under a waiting loop. */
  datatype Action = Tick(elapsed: nat) | Step(l: nat, interval: int) | Cancel(l: nat)

  predicate Enabled(s: State, a: Action) {
    match a
    case Tick(_) => true
    case Cancel(l) => l in s.loops && (s.loops[l].pc.Idle? || s.loops[l].pc.Cooling?)
    case Step(l, _) =>
      && l in s.loops
      && match s.loops[l].pc
         case Idle(until) => until <= s.now
         case Cooling(until) => until <= s.now
         case Locking => s.holder.None?
         case Relocking => s.holder.None?
         case Cancelled => false
         case _ => true
  }

  function At(s: State, l: nat, pc: Pc): State
    requires l in s.loops
  {
    s.(loops := s.loops[l := s.loops[l].(pc := pc)])
  }

  function LoopStep(s: State, l: nat, interval: int): State
    requires l in s.loops
  {
    var kind := s.loops[l].kind;
    match s.loops[l].pc
    case Idle(_) => At(s, l, Locking)
    case Locking => At(s, l, Entered).(holder := Some(l))
    case Entered =>
      if Recent(s.times.lastChaos, s.cooldown, s.now)
      then At(s, l, Yielding(s.cooldown - (s.now - s.times.lastChaos.value)))
      else At(s, l, Stamping(false))
    case Yielding(remaining) => At(s, l, Cooling(s.now + remaining)).(holder := None)
    case Cooling(_) => At(s, l, Relocking)
    case Relocking => At(s, l, Stamping(true)).(holder := Some(l))
    case Stamping(_) => At(s, l, Checking).(times := s.times.(lastChaos := Some(s.now)))
    case Checking => if Excluded(s.times, kind, s.now) then At(s, l, Releasing) else At(s, l, Admitted)
    case Admitted => At(s, l, Executing)
    case Executing => At(s, l, Recording)
    case Recording => At(s, l, Releasing).(times := Recorded(s.times, kind, s.now))
    case Releasing => At(s, l, Idle(s.now + interval)).(holder := None)
    case Cancelled => s
  }

  function Next(s: State, a: Action): State
    requires Enabled(s, a)
  {
    match a
    case Tick(elapsed) => s.(now := s.now + elapsed)
    case Cancel(l) => At(s, l, Cancelled)
    case Step(l, interval) => LoopStep(s, l, interval)
  }

  predicate Initial(s: State) {
    s.times == Times(None, None, None) && s.holder.None? && forall l <- s.loops :: s.loops[l].pc.Idle?
  }

  datatype Run = Run(states: seq<State>, actions: seq<Action>)

  ghost predicate IsRun(r: Run) {
    && |r.states| == |r.actions| + 1
    && Initial(r.states[0])
    && forall i {:trigger r.actions[i]} | 0 <= i < |r.actions| ::
         Enabled(r.states[i], r.actions[i]) && r.states[i + 1] == Next(r.states[i], r.actions[i])
  }

  /** Step i is taken by loop l, from a place satisfying the test. */
  ghost predicate Takes(r: Run, i: nat, l: nat, here: Pc -> bool)
    requires IsRun(r)
  {
    i < |r.actions| && r.actions[i].Step? && r.actions[i].l == l && here(r.states[i].loops[l].pc)
  }

  /** In step i the action of loop l starts to execute. */
  ghost predicate Starts(r: Run, i: nat, l: nat)
    requires IsRun(r)
  {
    Takes(r, i, l, (pc: Pc) => pc.Admitted?)
  }

  /** In step i the action of loop l returns. */
  ghost predicate Ends(r: Run, i: nat, l: nat)
    requires IsRun(r)
  {
    Takes(r, i, l, (pc: Pc) => pc.Executing?)
  }

  /** In step i loop l writes down when its action was over. */
  ghost predicate Records(r: Run, i: nat, l: nat)
    requires IsRun(r)
  {
    Takes(r, i, l, (pc: Pc) => pc.Recording?)
  }

  /** The camp of loop l, which no step changes. */
  ghost predicate OfCamp(r: Run, l: nat, camp: Camp)
    requires IsRun(r)
  {
    l in r.states[0].loops && CampOf(r.states[0].loops[l].kind) == Some(camp)
  }

  // ------------------------------------------------------------------ What every step keeps

  ghost predicate Fits(s: State, l: nat)
    requires l in s.loops
  {
    var pc := s.loops[l].pc;
    && (pc.Inside() <==> s.holder == Some(l))
    && (pc.Admitted? ==> !Excluded(s.times, s.loops[l].kind, s.now))
    && (pc.Stamping? && !pc.waited ==> !Recent(s.times.lastChaos, s.cooldown, s.now))
  }

  ghost predicate Inv(s: State) {
    && (s.holder.Some? ==> s.holder.value in s.loops)
    && forall l <- s.loops :: Fits(s, l)
  }

  lemma InvStep(s: State, a: Action)
    requires Inv(s) && Enabled(s, a)
    ensures Inv(Next(s, a))
  {
    var t := Next(s, a);
    forall l <- t.loops ensures Fits(t, l) {
      assert Fits(s, l);
      if a.Step? || a.Cancel? { assert Fits(s, a.l); }
    }
  }

  lemma KindsStay(s: State, a: Action, l: nat)
    requires Enabled(s, a) && l in s.loops
    ensures l in Next(s, a).loops && Next(s, a).loops[l].kind == s.loops[l].kind
    ensures Next(s, a).now >= s.now && Next(s, a).cooldown == s.cooldown
  {
  }

  lemma {:induction false} InvRun(r: Run, i: nat)
    requires IsRun(r) && i < |r.states|
    ensures Inv(r.states[i])
    ensures forall l <- r.states[0].loops ::
            l in r.states[i].loops && r.states[i].loops[l].kind == r.states[0].loops[l].kind
    ensures forall l <- r.states[i].loops :: l in r.states[0].loops
  {
    if i > 0 {
      InvRun(r, i - 1);
      InvStep(r.states[i - 1], r.actions[i - 1]);
      forall l <- r.states[0].loops
        ensures l in r.states[i].loops && r.states[i].loops[l].kind == r.states[0].loops[l].kind
      {
        KindsStay(r.states[i - 1], r.actions[i - 1], l);
      }
    }
  }

  lemma {:induction false} ClockMonotone(r: Run, i: nat, j: nat)
    requires IsRun(r) && i <= j < |r.states|
    ensures r.states[i].now <= r.states[j].now && r.states[i].cooldown == r.states[j].cooldown
    decreases j - i
  {
    if i < j {
      ClockMonotone(r, i, j - 1);
      assert r.states[j] == Next(r.states[j - 1], r.actions[j - 1]);
    }
  }

  /** The camp's last time is at or after t, or a loop of the camp is about to make it so. */
  ghost predicate Noted(s: State, camp: Camp, t: int) {
    || (s.times.Last(camp).Some? && s.times.Last(camp).value >= t)
    || (s.holder.Some? && s.holder.value in s.loops && s.loops[s.holder.value].pc.Recording?
        && CampOf(s.loops[s.holder.value].kind) == Some(camp))
  }

  lemma NotedStep(s: State, a: Action, camp: Camp, t: int)
    requires Inv(s) && Enabled(s, a) && Noted(s, camp, t) && t <= s.now
    ensures Noted(Next(s, a), camp, t)
  {
    if a.Step? || a.Cancel? { assert Fits(s, a.l); }
  }

  lemma {:induction false} NotedRun(r: Run, i: nat, j: nat, camp: Camp, t: int)
    requires IsRun(r) && i <= j < |r.states| && Noted(r.states[i], camp, t) && t <= r.states[i].now
    ensures Noted(r.states[j], camp, t)
    decreases j - i
  {
    if i < j {
      NotedRun(r, i, j - 1, camp, t);
      InvRun(r, j - 1);
      ClockMonotone(r, i, j - 1);
      NotedStep(r.states[j - 1], r.actions[j - 1], camp, t);
    }
  }

  // ------------------------------------------------------------------ Results

  /** Never do two actions execute at once: whoever is inside is the holder. */
  lemma OneAtATime(r: Run, i: nat, l: nat, k: nat)
    requires IsRun(r) && i < |r.states| && l in r.states[i].loops && k in r.states[i].loops
    requires r.states[i].loops[l].pc.Inside() && r.states[i].loops[k].pc.Inside()
    ensures l == k
  {
    InvRun(r, i);
    assert Fits(r.states[i], l) && Fits(r.states[i], k);
  }

  /** An action that started earlier has ended by the time another one starts. */
  lemma {:induction false} EndedBetween(r: Run, i: nat, l: nat, j: nat) returns (e: nat)
    requires IsRun(r) && i < j < |r.states| && Starts(r, i, l)
    requires l in r.states[j].loops && !r.states[j].loops[l].pc.Executing?
    ensures i < e < j && Ends(r, e, l)
    decreases j - i
  {
    InvRun(r, i);
    InvRun(r, j);
    InvRun(r, j - 1);
    hide Inv, Next, Enabled;
    if j - 1 == i {
      StartsExecuting(r, i, l);
    } else if r.states[j - 1].loops[l].pc.Executing? {
      LeavesExecuting(r.states[j - 1], r.actions[j - 1], l);
      e := j - 1;
    } else {
      e := EndedBetween(r, i, l, j - 1);
    }
  }

  lemma StartsExecuting(r: Run, i: nat, l: nat)
    requires IsRun(r) && Starts(r, i, l)
    ensures l in r.states[i + 1].loops && r.states[i + 1].loops[l].pc.Executing?
  {
  }

  lemma LeavesExecuting(s: State, a: Action, l: nat)
    requires Enabled(s, a) && l in s.loops && s.loops[l].pc.Executing? && !Next(s, a).loops[l].pc.Executing?
    ensures a.Step? && a.l == l
  {
  }

  lemma CampExclusion(r: Run, i: nat, l: nat, j: nat, k: nat, camp: Camp)
    requires IsRun(r) && i < j && Ends(r, i, l) && Starts(r, j, k)
    requires OfCamp(r, l, camp) && OfCamp(r, k, camp.Opposite())
    ensures r.states[j].now >= r.states[i].now + EXCLUSION_WINDOW
  {
    InvRun(r, i);
    InvRun(r, i + 1);
    InvRun(r, j);
    assert Fits(r.states[i], l) && Fits(r.states[j], k);
    var t := r.states[i].now;
    assert Noted(r.states[i + 1], camp, t);
    NotedRun(r, i + 1, j, camp, t);
    assert r.states[j].holder == Some(k);
  }

  function KindOf(r: Run, l: nat): Option<Kind>
    requires r.states != []
  {
    if l in r.states[0].loops then Some(r.states[0].loops[l].kind) else None
  }

  /** The loops' faults exclude each other. */
  ghost predicate Conflicting(r: Run, l: nat, k: nat)
    requires r.states != []
  {
    KindOf(r, l).Some? && KindOf(r, k).Some? && Conflict(KindOf(r, l).value, KindOf(r, k).value)
  }

  lemma ConflictingCamps(r: Run, l: nat, k: nat)
    requires IsRun(r)
    ensures Conflicting(r, l, k) <==>
            (OfCamp(r, l, Corrupting) && OfCamp(r, k, Killing)) || (OfCamp(r, l, Killing) && OfCamp(r, k, Corrupting))
  {
  }

  /**
   * A kill_daemon or delete_socket action starts at least six minutes after the end of every earlier
   * corrupt_token_files action, and the reverse.
   */
  lemma ExclusionAfterEnd(r: Run, i: nat, l: nat, j: nat, k: nat)
    requires IsRun(r) && i < j && Ends(r, i, l) && Starts(r, j, k) && Conflicting(r, l, k)
    ensures r.states[j].now >= r.states[i].now + 360_000_000_000
  {
    ConflictingCamps(r, l, k);
    hide IsRun, Ends, Starts;
    CampExclusion(r, i, l, j, k, if OfCamp(r, l, Corrupting) then Corrupting else Killing);
  }

  /** In terms of starts: every earlier action that this one conflicts with has ended, six minutes or more ago. */
  lemma ExclusionWindow(r: Run, i: nat, l: nat, j: nat, k: nat) returns (e: nat)
    requires IsRun(r) && i < j && Starts(r, i, l) && Starts(r, j, k) && Conflicting(r, l, k)
    ensures i < e < j && Ends(r, e, l)
    ensures r.states[j].now >= r.states[e].now + 360_000_000_000
  {
    InvRun(r, j);
    if r.states[j].loops[l].pc.Executing? { OneAtATime(r, j, l, k); }
    e := EndedBetween(r, i, l, j);
    ExclusionAfterEnd(r, e, l, j, k);
  }

  /** A camp's last time is the time of some record of that camp, and no earlier record is later. */
  ghost predicate LastExact(r: Run, j: nat, camp: Camp)
    requires IsRun(r) && j < |r.states|
  {
    var last := r.states[j].times.Last(camp);
    && (forall i: nat, l: nat | i < j && Records(r, i, l) && OfCamp(r, l, camp) ::
          last.Some? && r.states[i].now <= last.value)
    && (last.Some? ==>
          exists i: nat, l: nat :: i < j && Records(r, i, l) && OfCamp(r, l, camp) && r.states[i].now == last.value)
  }

  lemma {:induction false} LastIsExact(r: Run, j: nat, camp: Camp)
    requires IsRun(r) && j < |r.states|
    ensures LastExact(r, j, camp)
  {
    if j > 0 {
      LastIsExact(r, j - 1, camp);
      LastExactStep(r, j - 1, camp);
    }
  }

  lemma LastExactStep(r: Run, j: nat, camp: Camp)
    requires IsRun(r) && j + 1 < |r.states| && LastExact(r, j, camp)
    ensures LastExact(r, j + 1, camp)
  {
    InvRun(r, j);
    var s, a := r.states[j], r.actions[j];
    var before, after := s.times.Last(camp), r.states[j + 1].times.Last(camp);
    if a.Step? && Records(r, j, a.l) && OfCamp(r, a.l, camp) {
      assert after == Some(s.now);
      forall i: nat, l: nat | i < j + 1 && Records(r, i, l) && OfCamp(r, l, camp) ensures r.states[i].now <= s.now {
        ClockMonotone(r, i, j);
      }
    } else {
      assert after == before;
      if before.Some? {
        var i: nat, l: nat :| i < j && Records(r, i, l) && OfCamp(r, l, camp) && r.states[i].now == before.value;
        assert i < j + 1 && Records(r, i, l);
      }
    }
  }

  /**
   * The check is exact: it turns an action away if and only if some action it conflicts with was
   * recorded as over less than six minutes before. Other faults always pass.
   */
  lemma TurnedAwayIff(r: Run, j: nat, k: nat)
    requires IsRun(r) && Takes(r, j, k, (pc: Pc) => pc.Checking?)
    ensures r.states[j + 1].loops[k].pc == Releasing || r.states[j + 1].loops[k].pc == Admitted
    ensures r.states[j + 1].loops[k].pc == Releasing <==>
            exists i: nat, l: nat :: i < j && Records(r, i, l) && Conflicting(r, l, k)
                                     && r.states[j].now - r.states[i].now < 360_000_000_000
  {
    InvRun(r, j);
    LastIsExact(r, j, Killing);
    LastIsExact(r, j, Corrupting);
    var s := r.states[j];
    if Excluded(s.times, s.loops[k].kind, s.now) {
      var camp := CampOf(s.loops[k].kind).value.Opposite();
      var i: nat, l: nat :| i < j && Records(r, i, l) && OfCamp(r, l, camp)
          && r.states[i].now == s.times.Last(camp).value;
      ConflictingCamps(r, l, k);
      assert Conflicting(r, l, k);
    }
  }

  /** In step i loop l stamps the time of the last chaos. */
  ghost predicate Stamps(r: Run, i: nat, l: nat)
    requires IsRun(r)
  {
    Takes(r, i, l, (pc: Pc) => pc.Stamping?)
  }

  /** The last chaos time is the time of some stamp, and no earlier stamp is later. */
  ghost predicate ChaosExact(r: Run, j: nat)
    requires IsRun(r) && j < |r.states|
  {
    var last := r.states[j].times.lastChaos;
    && (forall i: nat, l: nat | i < j && Stamps(r, i, l) :: last.Some? && r.states[i].now <= last.value)
    && (last.Some? ==> exists i: nat, l: nat :: i < j && Stamps(r, i, l) && r.states[i].now == last.value)
  }

  lemma {:induction false} ChaosIsExact(r: Run, j: nat)
    requires IsRun(r) && j < |r.states|
    ensures ChaosExact(r, j)
  {
    if j > 0 {
      ChaosIsExact(r, j - 1);
      ChaosExactStep(r, j - 1);
    }
  }

  lemma ChaosExactStep(r: Run, j: nat)
    requires IsRun(r) && j + 1 < |r.states| && ChaosExact(r, j)
    ensures ChaosExact(r, j + 1)
  {
    var s, a, before, after := r.states[j], r.actions[j], r.states[j].times.lastChaos, r.states[j + 1].times.lastChaos;
    if a.Step? && Stamps(r, j, a.l) {
      assert after == Some(s.now);
      forall i: nat, l: nat | i < j + 1 && Stamps(r, i, l) ensures r.states[i].now <= s.now {
        ClockMonotone(r, i, j);
      }
    } else {
      assert after == before;
      if before.Some? {
        var i: nat, l: nat :| i < j && Stamps(r, i, l) && r.states[i].now == before.value;
        assert i < j + 1 && Stamps(r, i, l);
      }
    }
  }

  /**
   * A stamp keeps the cooldown to every earlier stamp if and only if the guard that the loop looked
   * at before it may have waited is false again at the stamp.
   */
  lemma CooldownKeptIff(r: Run, j: nat, k: nat)
    requires IsRun(r) && Stamps(r, j, k)
    ensures (forall i: nat, l: nat | i < j && Stamps(r, i, l) ::
             r.states[j].now >= r.states[i].now + r.states[0].cooldown)
            <==> !Recent(r.states[j].times.lastChaos, r.states[0].cooldown, r.states[j].now)
  {
    ChaosIsExact(r, j);
    hide IsRun;
  }

  /** So a loop that did not have to wait always keeps it. */
  lemma CooldownWithoutWait(r: Run, i: nat, l: nat, j: nat, k: nat)
    requires IsRun(r) && i < j && Stamps(r, i, l)
    requires Takes(r, j, k, (pc: Pc) => pc.Stamping? && !pc.waited)
    ensures r.states[j].now >= r.states[i].now + r.states[0].cooldown
  {
    InvRun(r, j);
    ClockMonotone(r, 0, j);
    assert Fits(r.states[j], k) && Stamps(r, j, k);
    CooldownKeptIff(r, j, k);
  }

  /** Loop k has entered at step i, found the cooldown running, and will not be back before it is over. */
  ghost predicate Waits(r: Run, i: nat, k: nat, until: int)
    requires IsRun(r)
  {
    && Takes(r, i, k, (pc: Pc) => pc.Entered?) && r.states[i].times.lastChaos.Some?
    && until >= r.states[i].times.lastChaos.value + r.states[i].cooldown
  }

  /** A loop that is waiting, or has waited, has waited for the whole cooldown it saw when it entered. */
  lemma {:induction false} WaitTraced(r: Run, j: nat, k: nat) returns (i: nat)
    requires IsRun(r) && j < |r.states| && k in r.states[j].loops
    requires var pc := r.states[j].loops[k].pc; pc.Yielding? || pc.Cooling? || pc.Relocking? || pc == Stamping(true)
    ensures i < j
    ensures match r.states[j].loops[k].pc
            case Yielding(remaining) => Waits(r, i, k, r.states[j].now + remaining)
            case Cooling(until) => Waits(r, i, k, until)
            case _ => Waits(r, i, k, r.states[j].now)
    decreases j
  {
    InvRun(r, j);
    InvRun(r, j - 1);
    var s, a := r.states[j - 1], r.actions[j - 1];
    assert r.states[j] == Next(s, a);
    if a.Step? && a.l == k && s.loops[k].pc.Entered? {
      i := j - 1;
    } else {
      WaitStep(s, a, k);
      TimePasses(s, a);
      hide Next, Enabled;
      i := WaitTraced(r, j - 1, k);
    }
  }

  lemma TimePasses(s: State, a: Action)
    requires Enabled(s, a)
    ensures s.now <= Next(s, a).now && (a.Tick? ==> Next(s, a).loops == s.loops)
            && (!a.Tick? ==> Next(s, a).now == s.now)
  {
  }

  lemma WaitStep(s: State, a: Action, k: nat)
    requires Enabled(s, a) && k in s.loops && !(a.Step? && a.l == k && s.loops[k].pc.Entered?)
    requires var pc := Next(s, a).loops[k].pc; pc.Yielding? || pc.Cooling? || pc.Relocking? || pc == Stamping(true)
    ensures var pc, next := s.loops[k].pc, Next(s, a).loops[k].pc;
            && (next.Yielding? ==> pc == next)
            && (next.Cooling? ==> pc == next || (pc.Yielding? && next.until == s.now + pc.remaining))
            && (next.Relocking? ==> pc == next || (pc.Cooling? && pc.until <= s.now))
            && (next == Stamping(true) ==> pc == next || pc.Relocking?)
  {
  }

  /** So a loop that waited stamps no earlier than the cooldown after the stamp it saw. */
  lemma WaitedLongEnough(r: Run, j: nat, k: nat) returns (i: nat)
    requires IsRun(r) && Takes(r, j, k, (pc: Pc) => pc == Stamping(true))
    ensures i < j && Takes(r, i, k, (pc: Pc) => pc.Entered?) && r.states[i].times.lastChaos.Some?
    ensures r.states[j].now >= r.states[i].times.lastChaos.value + r.states[0].cooldown
  {
    i := WaitTraced(r, j, k);
    ClockMonotone(r, 0, i);
  }

  // ------------------------------------------------------------------ After a wait the cooldown can be missed

  function Last(r: Run): State
    requires r.states != []
  {
    r.states[|r.states| - 1]
  }

  ghost predicate Keeps(r: Run, longer: Run)
    requires IsRun(r) && IsRun(longer)
  {
    && |r.actions| <= |longer.actions|
    && forall i | 0 <= i < |r.actions| :: longer.actions[i] == r.actions[i] && longer.states[i] == r.states[i]
  }

  lemma Extend(r: Run, a: Action, next: State) returns (longer: Run)
    requires IsRun(r) && Enabled(Last(r), a) && Next(Last(r), a) == next
    ensures IsRun(longer) && Keeps(r, longer) && Last(longer) == next
    ensures |longer.actions| == |r.actions| + 1 && longer.actions[|r.actions|] == a
            && longer.states[|r.actions|] == Last(r)
  {
    longer := Run(r.states + [next], r.actions + [a]);
    hide Next, Enabled, Initial;
    forall i | 0 <= i < |longer.actions|
      ensures Enabled(longer.states[i], longer.actions[i])
              && longer.states[i + 1] == Next(longer.states[i], longer.actions[i])
    {
      if i < |r.actions| { assert longer.actions[i] == r.actions[i]; }
    }
  }

  /** A loop that fills the disk and one that fills the connections. */
  function Pair(cooldown: int, last: Option<int>, holder: Option<nat>, first: Pc, second: Pc, now: int): State {
    State(cooldown, Times(last, None, None), holder,
          map[0 := Loop(FillDisk, first), 1 := Loop(FillConnections, second)], now)
  }

  lemma PairMoves(c: int, last: Option<int>, holder: Option<nat>, first: Pc, second: Pc, now: int, pc: Pc)
    ensures At(Pair(c, last, holder, first, second, now), 0, pc) == Pair(c, last, holder, pc, second, now)
    ensures At(Pair(c, last, holder, first, second, now), 1, pc) == Pair(c, last, holder, first, pc, now)
  {
    assert Pair(c, last, holder, first, second, now).loops[0 := Loop(FillDisk, pc)]
           == map[0 := Loop(FillDisk, pc), 1 := Loop(FillConnections, second)];
    assert Pair(c, last, holder, first, second, now).loops[1 := Loop(FillConnections, pc)]
           == map[0 := Loop(FillDisk, first), 1 := Loop(FillConnections, pc)];
  }

  /** Whether the loop at this place may move, and where it goes when nothing holds it back. */
  ghost predicate Moves(last: Option<int>, c: int, now: int, holder: Option<nat>, l: nat, pc: Pc, last': Option<int>,
                        holder': Option<nat>, pc': Pc)
  {
    match pc
    case Idle(until) => until <= now && pc' == Locking && last' == last && holder' == holder
    case Locking => holder.None? && pc' == Entered && last' == last && holder' == Some(l)
    case Entered =>
      && last' == last && holder' == holder
      && pc' == if Recent(last, c, now) then Yielding(c - (now - last.value)) else Stamping(false)
    case Yielding(remaining) => pc' == Cooling(now + remaining) && last' == last && holder'.None?
    case Cooling(until) => until <= now && pc' == Relocking && last' == last && holder' == holder
    case Relocking => holder.None? && pc' == Stamping(true) && last' == last && holder' == Some(l)
    case Stamping(_) => pc' == Checking && last' == Some(now) && holder' == holder
    case Checking => pc' == Admitted && last' == last && holder' == holder
    case Admitted => pc' == Executing && last' == last && holder' == holder
    case Executing => pc' == Recording && last' == last && holder' == holder
    case Recording => pc' == Releasing && last' == last && holder' == holder
    case Releasing => pc' == Idle(now + c) && last' == last && holder'.None?
    case Cancelled => false
  }

  lemma FirstStep(r: Run, c: int, last: Option<int>, holder: Option<nat>, pc: Pc, second: Pc, now: int,
                  last': Option<int>, holder': Option<nat>, pc': Pc) returns (longer: Run)
    requires IsRun(r) && Last(r) == Pair(c, last, holder, pc, second, now)
             && Moves(last, c, now, holder, 0, pc, last', holder', pc')
    ensures IsRun(longer) && Keeps(r, longer) && Last(longer) == Pair(c, last', holder', pc', second, now)
    ensures |longer.actions| == |r.actions| + 1 && longer.actions[|r.actions|] == Step(0, c)
            && longer.states[|r.actions|] == Last(r)
  {
    hide IsRun, Keeps;
    PairMoves(c, last, holder, pc, second, now, pc');
    longer := Extend(r, Step(0, c), Pair(c, last', holder', pc', second, now));
  }

  lemma SecondStep(r: Run, c: int, last: Option<int>, holder: Option<nat>, first: Pc, pc: Pc, now: int,
                   last': Option<int>, holder': Option<nat>, pc': Pc) returns (longer: Run)
    requires IsRun(r) && Last(r) == Pair(c, last, holder, first, pc, now)
             && Moves(last, c, now, holder, 1, pc, last', holder', pc')
    ensures IsRun(longer) && Keeps(r, longer) && Last(longer) == Pair(c, last', holder', first, pc', now)
    ensures |longer.actions| == |r.actions| + 1 && longer.actions[|r.actions|] == Step(1, c)
            && longer.states[|r.actions|] == Last(r)
  {
    hide IsRun, Keeps;
    PairMoves(c, last, holder, first, pc, now, pc');
    longer := Extend(r, Step(1, c), Pair(c, last', holder', first, pc', now));
  }

  /** Step i is loop l's stamp, taken at this time. */
  ghost predicate StampsAt(r: Run, i: nat, l: nat, waited: bool, now: int) {
    && i < |r.actions| && i < |r.states| && r.actions[i].Step? && r.actions[i].l == l
    && l in r.states[i].loops && r.states[i].loops[l].pc == Stamping(waited) && r.states[i].now == now
  }

  lemma KeepsTwice(a: Run, b: Run, c: Run)
    requires IsRun(a) && IsRun(b) && IsRun(c) && Keeps(a, b) && Keeps(b, c)
    ensures Keeps(a, c)
  {
    hide IsRun;
  }

  lemma KeepsStamp(a: Run, b: Run, i: nat, l: nat, waited: bool, now: int)
    requires IsRun(a) && IsRun(b) && Keeps(a, b) && StampsAt(a, i, l, waited, now)
    ensures StampsAt(b, i, l, waited, now) && i < |a.actions|
  {
  }

  lemma FirstEnters(r: Run, c: int, last: Option<int>, until: int, second: Pc, now: int) returns (longer: Run)
    requires IsRun(r) && Last(r) == Pair(c, last, None, Idle(until), second, now) && until <= now
             && !Recent(last, c, now)
    ensures IsRun(longer) && Keeps(r, longer) && Last(longer) == Pair(c, last, Some(0), Stamping(false), second, now)
  {
    hide IsRun, Keeps, Pair;
    var one := FirstStep(r, c, last, None, Idle(until), second, now, last, None, Locking);
    var two := FirstStep(one, c, last, None, Locking, second, now, last, Some(0), Entered);
    longer := FirstStep(two, c, last, Some(0), Entered, second, now, last, Some(0), Stamping(false));
    KeepsTwice(r, one, two);
    KeepsTwice(r, two, longer);
  }

  lemma FirstExecutes(r: Run, c: int, second: Pc, now: int) returns (longer: Run)
    requires IsRun(r) && Last(r) == Pair(c, Some(now), Some(0), Checking, second, now)
    ensures IsRun(longer) && Keeps(r, longer) && Last(longer) == Pair(c, Some(now), None, Idle(now + c), second, now)
  {
    hide IsRun, Keeps, Pair;
    var one := FirstStep(r, c, Some(now), Some(0), Checking, second, now, Some(now), Some(0), Admitted);
    var two := FirstStep(one, c, Some(now), Some(0), Admitted, second, now, Some(now), Some(0), Executing);
    var three := FirstStep(two, c, Some(now), Some(0), Executing, second, now, Some(now), Some(0), Recording);
    var four := FirstStep(three, c, Some(now), Some(0), Recording, second, now, Some(now), Some(0), Releasing);
    longer := FirstStep(four, c, Some(now), Some(0), Releasing, second, now, Some(now), None, Idle(now + c));
    KeepsTwice(r, one, two);
    KeepsTwice(r, two, three);
    KeepsTwice(r, three, four);
    KeepsTwice(r, four, longer);
  }

  /** The first loop goes once around without having to wait; step i is its stamp. */
  lemma FirstTurn(r: Run, c: int, last: Option<int>, until: int, second: Pc, now: int) returns (longer: Run, i: nat)
    requires IsRun(r) && Last(r) == Pair(c, last, None, Idle(until), second, now) && until <= now
             && !Recent(last, c, now)
    ensures IsRun(longer) && Keeps(r, longer) && Last(longer) == Pair(c, Some(now), None, Idle(now + c), second, now)
    ensures |longer.states| == |longer.actions| + 1 && StampsAt(longer, i, 0, false, now)
  {
    var ready := FirstEnters(r, c, last, until, second, now);
    hide IsRun, Keeps;
    var stamped := FirstStep(ready, c, last, Some(0), Stamping(false), second, now, Some(now), Some(0), Checking);
    i := |ready.actions|;
    assert StampsAt(stamped, i, 0, false, now) by { Lengths(stamped); }
    longer := FirstExecutes(stamped, c, second, now);
    KeepsStamp(stamped, longer, i, 0, false, now);
    KeepsTwice(r, ready, stamped);
    KeepsTwice(r, stamped, longer);
    Lengths(longer);
  }

  lemma Lengths(r: Run)
    requires IsRun(r)
    ensures |r.states| == |r.actions| + 1
  {
  }

  lemma SecondYields(r: Run, c: int, first: Pc) returns (longer: Run)
    requires IsRun(r) && Last(r) == Pair(c, Some(0), None, first, Idle(0), 0) && c > 0
    ensures IsRun(longer) && Keeps(r, longer) && Last(longer) == Pair(c, Some(0), None, first, Cooling(c), c)
  {
    hide IsRun, Keeps;
    var one := SecondStep(r, c, Some(0), None, first, Idle(0), 0, Some(0), None, Locking);
    var two := SecondStep(one, c, Some(0), None, first, Locking, 0, Some(0), Some(1), Entered);
    var three := SecondStep(two, c, Some(0), Some(1), first, Entered, 0, Some(0), Some(1), Yielding(c));
    var four := SecondStep(three, c, Some(0), Some(1), first, Yielding(c), 0, Some(0), None, Cooling(c));
    longer := Extend(four, Tick(c), Pair(c, Some(0), None, first, Cooling(c), c));
    KeepsTwice(r, one, two);
    KeepsTwice(r, two, three);
    KeepsTwice(r, three, four);
    KeepsTwice(r, four, longer);
  }

  lemma SecondStamps(r: Run, c: int, first: Pc) returns (longer: Run, j: nat)
    requires IsRun(r) && Last(r) == Pair(c, Some(c), None, first, Cooling(c), c)
    ensures IsRun(longer) && Keeps(r, longer) && |r.actions| <= j && StampsAt(longer, j, 1, true, c)
    ensures Last(longer).cooldown == c
  {
    hide IsRun, Keeps;
    var one := SecondStep(r, c, Some(c), None, first, Cooling(c), c, Some(c), None, Relocking);
    var two := SecondStep(one, c, Some(c), None, first, Relocking, c, Some(c), Some(1), Stamping(true));
    longer := SecondStep(two, c, Some(c), Some(1), first, Stamping(true), c, Some(c), Some(1), Checking);
    j := |two.actions|;
    Lengths(longer);
    KeepsTwice(r, one, two);
    KeepsTwice(r, two, longer);
  }

  /**
   * Whatever the cooldown, two loops can stamp, and so execute, at the same instant: the one that
   * waited does not look at the cooldown again.
   */
  lemma CooldownCanBeMissed(c: int) returns (r: Run, i: nat, j: nat)
    requires c > 0
    ensures IsRun(r) && r.states[0].cooldown == c && i < j
    ensures StampsAt(r, i, 0, false, c) && StampsAt(r, j, 1, true, c)
  {
    hide IsRun, Keeps, StampsAt, Pair, Last;
    var start := BeginPair(c);
    var turn, _ := FirstTurn(start, c, None, 0, Idle(0), 0);
    var yielded := SecondYields(turn, c, Idle(0 + c));
    var again, k := FirstTurn(yielded, c, Some(0), 0 + c, Cooling(c), c);
    r, j := SecondStamps(again, c, Idle(c + c));
    i := k;
    KeepsStamp(again, r, i, 0, false, c);
    StartCooldown(r, c);
  }

  lemma BeginPair(c: int) returns (r: Run)
    ensures IsRun(r) && r.states != [] && Last(r) == Pair(c, None, None, Idle(0), Idle(0), 0)
  {
    r := Run([Pair(c, None, None, Idle(0), Idle(0), 0)], []);
  }

  lemma StartCooldown(r: Run, c: int)
    requires IsRun(r) && Last(r).cooldown == c
    ensures r.states[0].cooldown == c
  {
    ClockMonotone(r, 0, |r.actions|);
  }
}
