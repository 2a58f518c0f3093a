/**
  The worktree pool: a bounded channel of paths shared by workers whose calls run git commands that
  may fail or be cancelled. `Step` gives the interleaving semantics, one channel operation or git
  command at a time; the class below is the pool itself, and each of its calls is a run of `Step`.
 */
module Worktree {
  import Text
  import opened Wrappers

  type Path = string
  type Pid = nat

  // ---------- path names ----------

  /** `n` in decimal with at least `w` digits, as %0wd prints it. */
  function Decimal(n: nat, w: nat): string
    decreases n + w
  {
    if n == 0 && w == 0 then "" else Decimal(n / 10, if w == 0 then 0 else w - 1) + [Text.Digit(n % 10)]
  }

  /** The worktree of the i-th worker, counted from zero. */
  function PathOf(i: nat): Path { "worker-" + Decimal(i + 1, 3) }

  lemma LastDigit(n: nat, w: nat)
    requires n != 0 || w != 0
    ensures var s, p := Decimal(n, w), Decimal(n / 10, if w == 0 then 0 else w - 1);
            s != "" && s[..|s| - 1] == p && s[|s| - 1] == Text.Digit(n % 10)
  {
  }

  lemma SameTens(m: nat, n: nat)
    requires m / 10 == n / 10 && m % 10 == n % 10
    ensures m == n
  {
  }

  /** Different numbers are printed differently. */
  lemma {:induction false} DecimalInjective(m: nat, n: nat, w: nat)
    requires Decimal(m, w) == Decimal(n, w)
    ensures m == n
    decreases m + n + w
  {
    if (m != 0 || w != 0) && (n != 0 || w != 0) {
      LastDigit(m, w);
      LastDigit(n, w);
      Text.DigitOrder(m % 10, n % 10);
      DecimalInjective(m / 10, n / 10, if w == 0 then 0 else w - 1);
      SameTens(m, n);
    }
  }

  /** Workers never share a path name. */
  lemma PathsDiffer(i: nat, j: nat)
    requires PathOf(i) == PathOf(j)
    ensures i == j
  {
    SuffixesDiffer(i + 1, j + 1, 3);
  }

  lemma SuffixesDiffer(m: nat, n: nat, w: nat)
    requires "worker-" + Decimal(m, w) == "worker-" + Decimal(n, w)
    ensures m == n
  {
    assert ("worker-" + Decimal(m, w))[7..] == Decimal(m, w) && ("worker-" + Decimal(n, w))[7..] == Decimal(n, w);
    DecimalInjective(m, n, w);
  }

  lemma {:induction false} DecimalIs(n: nat, w: nat)
    ensures var d := Decimal(n, w);
      && Text.Magnitude(d) == n && |d| >= w && (|d| > w ==> d[0] != '0') && forall i :: 0 <= i < |d| ==> '0' <= d[i] <= '9'
    decreases n + w
  {
    if n != 0 || w != 0 {
      LastDigit(n, w);
      Text.DigitValue(n % 10);
      DecimalIs(n / 10, if w == 0 then 0 else w - 1);
      if n < 10 && w == 0 { assert Decimal(n, w) == [Text.Digit(n)]; }
    }
  }

  /** The i-th worker, counted from zero, is "worker-" and the number i + 1 with at least three digits, with
      leading zeros only to make three. */
  lemma NameIs(i: nat)
    ensures exists d :: && PathOf(i) == "worker-" + d && Text.Magnitude(d) == i + 1 && |d| >= 3 && (|d| > 3 ==> d[0] != '0')
                        && forall k :: 0 <= k < |d| ==> '0' <= d[k] <= '9'
  {
    DecimalIs(i + 1, 3);
  }

  // ---------- interleavings ----------

  datatype Caller = FromAcquire | FromRelease

  /** Where a process is inside a call. A process that is in no call and holds no path is absent. */
  datatype Phase =
    | Waiting                                        // AcquireContext: first select
    | PlainWaiting                                   // Acquire
    | Checking(path: Path)                           // git status
    | RecycleRemove(path: Path, caller: Caller)      // forceRecycle: worktree remove
    | RecycleAdd(path: Path, caller: Caller)         // worktree add
    | RecycleSetup(path: Path, caller: Caller)       // setup command
    | Sending(path: Path, ok: bool, caller: Caller)  // about to send the path on the channel
    | Rewaiting                                      // AcquireContext: second select
    | Holding(path: Path)                            // the call returned the path
    | Resetting(path: Path, stage: nat)              // Release: checkout, reset, clean
    | Initing(i: nat)                                // Init, i worktrees made
    | InitSending(path: Path, i: nat)
    | Draining                                       // Shutdown

  datatype State = State(
    size: nat, setup: bool,
    all: seq<Path>, idle: seq<Path>, drained: set<Path>,
    procs: map<Pid, Phase>, started: bool)

  datatype Action =
    | CallInit | CallAcquire | CallPlainAcquire | CallRelease | CallShutdown
    | Git(ok: bool)          // the current git or setup command ends
    | Receive                // takes a path from the channel
    | Cancel                 // ctx.Done() is chosen
    | Send                   // puts the path on the channel; blocks while it is full

  ghost function Return(s: State, pid: Pid): State { s.(procs := s.procs - {pid}) }
  ghost function Goto(s: State, pid: Pid, ph: Phase): State { s.(procs := s.procs[pid := ph]) }

  /** One step of process `pid`; a step that is not enabled changes nothing. */
  ghost function Step(s: State, pid: Pid, a: Action): State {
    if pid !in s.procs then
      match a
      case CallInit => if s.started then s else Goto(s.(started := true), pid, Initing(0))
      case CallAcquire => Goto(s, pid, Waiting)
      case CallPlainAcquire => Goto(s, pid, PlainWaiting)
      case CallShutdown => Goto(s, pid, Draining)
      case _ => s
    else
      match a
      case CallRelease =>
        if s.procs[pid].Holding? then Goto(s, pid, Resetting(s.procs[pid].path, 0)) else s
      case Git(ok) => GitStep(s, pid, ok)
      case Receive =>
        if s.idle == [] then s else ReceiveStep(s, pid)
      case Cancel =>
        if s.procs[pid].Waiting? || s.procs[pid].Rewaiting? then Return(s, pid)
        else if s.procs[pid].Draining? && s.idle == [] then Return(s, pid) else s
      case Send =>
        if |s.idle| < s.size then SendStep(s, pid) else s
      case _ => s
  }

  /** Where a call outside Init goes when its current command ends. */
  ghost function AfterGit(setup: bool, ph: Phase, ok: bool): Phase {
    match ph
    case Checking(p) => if ok then Holding(p) else RecycleRemove(p, FromAcquire)
    case RecycleRemove(p, c) => RecycleAdd(p, c)
    case RecycleAdd(p, c) => if ok && setup then RecycleSetup(p, c) else Sending(p, ok, c)
    case RecycleSetup(p, c) => Sending(p, ok, c)
    case Resetting(p, stage) =>
      if !ok then RecycleRemove(p, FromRelease)
      else if stage < 2 then Resetting(p, stage + 1) else Sending(p, true, FromRelease)
    case _ => ph
  }

  ghost function GitStep(s: State, pid: Pid, ok: bool): State
    requires pid in s.procs
  {
    match s.procs[pid]
    case Initing(i) =>
      if ok && i < s.size then Goto(s.(all := s.all + [PathOf(i)]), pid, InitSending(PathOf(i), i)) else Return(s, pid)
    case ph => Goto(s, pid, AfterGit(s.setup, ph, ok))
  }

  ghost function ReceiveStep(s: State, pid: Pid): State
    requires pid in s.procs && s.idle != []
  {
    var p, t := s.idle[0], s.(idle := s.idle[1..]);
    match s.procs[pid]
    case Waiting => Goto(t, pid, Checking(p))
    case PlainWaiting => Goto(t, pid, Holding(p))
    case Rewaiting => Goto(t, pid, Holding(p))
    case Draining => t.(drained := t.drained + {p})
    case _ => s
  }

  ghost function SendStep(s: State, pid: Pid): State
    requires pid in s.procs
  {
    match s.procs[pid]
    case Sending(p, ok, c) =>
      var t := s.(idle := s.idle + [p]);
      if c.FromAcquire? && ok then Goto(t, pid, Rewaiting) else Return(t, pid)
    case InitSending(p, i) => Goto(s.(idle := s.idle + [p]), pid, Initing(i + 1))
    case _ => s
  }

  ghost function Run(s: State, acts: seq<(Pid, Action)>): State
    decreases |acts|
  {
    if acts == [] then s else Run(Step(s, acts[0].0, acts[0].1), acts[1..])
  }

  ghost predicate Initial(s: State) {
    s.all == [] && s.idle == [] && s.drained == {} && s.procs == map[] && !s.started
  }

  /** A call is cancelled only while it waits for a path, and Shutdown ends only when no path is idle; neither
      changes anything else. */
  lemma CancelMeans(s: State, pid: Pid)
    requires pid in s.procs && Step(s, pid, Cancel) != s
    ensures Step(s, pid, Cancel) == s.(procs := s.procs - {pid})
    ensures s.procs[pid].Waiting? || s.procs[pid].Rewaiting? || (s.procs[pid].Draining? && s.idle == [])
  {
  }

  // ---------- conservation ----------

  /** The path a process has in its hands, whether it holds it or is working on it. */
  ghost function PathIn(ph: Phase): Option<Path> {
    match ph
    case Waiting => None
    case PlainWaiting => None
    case Rewaiting => None
    case Initing(_) => None
    case Draining => None
    case _ => Some(ph.path)
  }

  ghost predicate Has(s: State, pid: Pid, p: Path) {
    pid in s.procs && PathIn(s.procs[pid]) == Some(p)
  }

  ghost predicate InHands(s: State, p: Path) {
    exists pid :: Has(s, pid, p)
  }

  ghost predicate Unique(xs: seq<Path>) {
    forall i, j :: 0 <= i < j < |xs| ==> xs[i] != xs[j]
  }

  /** The idle paths, the paths in hands and the drained paths partition the created paths, without
      duplicates; only one Init ever runs, and it has created the paths of its first workers. */
  ghost predicate Inv(s: State) {
    && Partition(s) && InitOk(s)
  }

  ghost predicate Partition(s: State) {
    && Unique(s.idle)
    && (forall p :: p in s.idle ==> p in s.all && p !in s.drained)
    && (forall p :: p in s.drained ==> p in s.all)
    && (forall pid, p :: Has(s, pid, p) ==> p in s.all && p !in s.idle && p !in s.drained)
    && (forall pid, qid, p :: Has(s, pid, p) && Has(s, qid, p) ==> pid == qid)
    && (forall p :: p in s.all ==> p in s.idle || p in s.drained || InHands(s, p))
  }

  ghost predicate InitOk(s: State) {
    && |s.all| <= s.size
    && (forall i :: 0 <= i < |s.all| ==> s.all[i] == PathOf(i))
    && (!s.started ==> s.all == [])
    && (forall pid :: pid in s.procs && s.procs[pid].Initing? ==> s.started && |s.all| == s.procs[pid].i)
    && (forall pid :: pid in s.procs && s.procs[pid].InitSending? ==> s.started && |s.all| == s.procs[pid].i + 1)
    && (forall pid, qid :: pid in s.procs && qid in s.procs && InInit(s.procs[pid]) && InInit(s.procs[qid]) ==> pid == qid)
  }

  ghost predicate InInit(ph: Phase) { ph.Initing? || ph.InitSending? }

  /** `pid` takes a step that is not one of Init. */
  ghost predicate OutsideInit(s: State, t: State, pid: Pid) {
    && t.all == s.all && t.size == s.size && t.started == s.started
    && (forall q :: q in t.procs && q != pid ==> q in s.procs && t.procs[q] == s.procs[q])
    && (pid in t.procs && InInit(t.procs[pid]) ==> pid in s.procs && s.procs[pid] == t.procs[pid])
  }

  lemma InitFrame(s: State, t: State, pid: Pid)
    requires InitOk(s) && OutsideInit(s, t, pid)
    ensures InitOk(t)
  {
  }

  lemma StepKeepsInit(s: State, pid: Pid, a: Action)
    requires InitOk(s)
    ensures InitOk(Step(s, pid, a))
  {
    if pid in s.procs && InInit(s.procs[pid]) {
      InitStep(s, pid, a);
    } else if pid !in s.procs && a.CallInit? && !s.started {
    } else if pid !in s.procs {
      InitFrame(s, Step(s, pid, a), pid);
    } else {
      OtherStep(s, pid, a);
    }
  }

  lemma OtherStep(s: State, pid: Pid, a: Action)
    requires InitOk(s) && pid in s.procs && !InInit(s.procs[pid])
    ensures InitOk(Step(s, pid, a))
  {
    StepOutsideInit(s, pid, a);
    InitFrame(s, Step(s, pid, a), pid);
  }

  lemma StepOutsideInit(s: State, pid: Pid, a: Action)
    requires pid in s.procs && !InInit(s.procs[pid])
    ensures OutsideInit(s, Step(s, pid, a), pid)
  {
  }

  lemma InitStep(s: State, pid: Pid, a: Action)
    requires InitOk(s) && pid in s.procs && InInit(s.procs[pid])
    ensures InitOk(Step(s, pid, a))
  {
    match a
    case Git(ok) =>
      if s.procs[pid].Initing? {
        if ok && s.procs[pid].i < s.size { InitCreates(s, pid, s.procs[pid].i); } else { InitFrame(s, Return(s, pid), pid); }
      }
    case Send =>
    case _ =>
  }

  lemma InitCreates(s: State, pid: Pid, i: nat)
    requires InitOk(s) && pid in s.procs && s.procs[pid] == Initing(i) && i < s.size
    ensures InitOk(Goto(s.(all := s.all + [PathOf(i)]), pid, InitSending(PathOf(i), i)))
  {
  }

  /** A process that moves on with the same path in its hands (or still without one). */
  lemma GotoKeeps(s: State, pid: Pid, ph: Phase)
    requires Partition(s)
    requires PathIn(ph) == (if pid in s.procs then PathIn(s.procs[pid]) else None)
    ensures Partition(Goto(s, pid, ph))
  {
    var t := Goto(s, pid, ph);
    forall q, p ensures Has(t, q, p) == Has(s, q, p) {}
    forall p | p in t.all && p !in t.idle && p !in t.drained ensures InHands(t, p) {
      var q :| Has(s, q, p);
      assert Has(t, q, p);
    }
  }

  lemma ReturnKeeps(s: State, pid: Pid)
    requires Partition(s) && (pid in s.procs ==> PathIn(s.procs[pid]) == None)
    ensures Partition(Return(s, pid))
  {
    var t := Return(s, pid);
    forall q, p ensures Has(t, q, p) == Has(s, q, p) {}
    forall p | p in t.all && p !in t.idle && p !in t.drained ensures InHands(t, p) {
      var q :| Has(s, q, p);
      assert Has(t, q, p);
    }
  }

  /** Taking the head of the channel into empty hands. */
  lemma TakeKeeps(s: State, pid: Pid, ph: Phase)
    requires Partition(s) && pid in s.procs && PathIn(s.procs[pid]) == None
    requires s.idle != [] && PathIn(ph) == Some(s.idle[0])
    ensures Partition(Goto(s.(idle := s.idle[1..]), pid, ph))
  {
    var h := s.idle[0];
    var t := Goto(s.(idle := s.idle[1..]), pid, ph);
    IdleTail(s.idle);
    forall q, p ensures Has(t, q, p) <==> Has(s, q, p) || (q == pid && p == h) {}
    forall p | p in t.all && p !in t.idle && p !in t.drained ensures InHands(t, p) {
      if p == h {
        assert Has(t, pid, h);
      } else {
        var q :| Has(s, q, p);
        assert Has(t, q, p);
      }
    }
  }

  lemma DrainKeeps(s: State, pid: Pid)
    requires Partition(s) && s.idle != []
    ensures Partition(s.(idle := s.idle[1..], drained := s.drained + {s.idle[0]}))
  {
    var t := s.(idle := s.idle[1..], drained := s.drained + {s.idle[0]});
    IdleTail(s.idle);
    forall q, p ensures Has(t, q, p) == Has(s, q, p) {}
    forall p | p in t.all && p !in t.idle && p !in t.drained ensures InHands(t, p) {
      var q :| Has(s, q, p);
      assert Has(t, q, p);
    }
  }

  lemma IdleTail(idle: seq<Path>)
    requires Unique(idle) && idle != []
    ensures Unique(idle[1..]) && forall p :: p in idle[1..] <==> p in idle && p != idle[0]
  {
    forall p | p in idle && p != idle[0] ensures p in idle[1..] {
      var i :| 0 <= i < |idle| && idle[i] == p;
      assert idle[1..][i - 1] == p;
    }
  }

  /** Putting the path in hand on the channel. */
  lemma GiveKeeps(s: State, pid: Pid, h: Path, t: State)
    requires Partition(s) && Has(s, pid, h)
    requires t == Return(s.(idle := s.idle + [h]), pid)
          || exists ph :: PathIn(ph) == None && t == Goto(s.(idle := s.idle + [h]), pid, ph)
    ensures Partition(t)
  {
    forall q, p ensures Has(t, q, p) <==> Has(s, q, p) && q != pid {}
    forall p | p in t.all && p !in t.idle && p !in t.drained ensures InHands(t, p) {
      var q :| Has(s, q, p);
      assert Has(t, q, p);
    }
  }

  /** Init creates a path and has it in hand. */
  lemma CreateKeeps(s: State, pid: Pid, i: nat)
    requires Inv(s) && pid in s.procs && s.procs[pid] == Initing(i)
    ensures Partition(Goto(s.(all := s.all + [PathOf(i)]), pid, InitSending(PathOf(i), i)))
  {
    var h := PathOf(i);
    var t := Goto(s.(all := s.all + [h]), pid, InitSending(h, i));
    forall j | 0 <= j < |s.all| ensures s.all[j] != h {
      if PathOf(j) == h { PathsDiffer(j, i); }
    }
    forall q, p ensures Has(t, q, p) <==> Has(s, q, p) || (q == pid && p == h) {}
    forall p | p in t.all && p !in t.idle && p !in t.drained ensures InHands(t, p) {
      if p == h {
        assert Has(t, pid, h);
      } else {
        var q :| Has(s, q, p);
        assert Has(t, q, p);
      }
    }
  }

  lemma StepKeepsPartition(s: State, pid: Pid, a: Action)
    requires Inv(s)
    ensures Partition(Step(s, pid, a))
  {
    if pid !in s.procs {
      match a
      case CallInit =>
        if !s.started {
          assert Partition(s.(started := true)) by { SameHands(s, s.(started := true)); }
          GotoKeeps(s.(started := true), pid, Initing(0));
        }
      case CallAcquire => GotoKeeps(s, pid, Waiting);
      case CallPlainAcquire => GotoKeeps(s, pid, PlainWaiting);
      case CallShutdown => GotoKeeps(s, pid, Draining);
      case _ =>
    } else {
      var ph := s.procs[pid];
      match a
      case CallRelease => if ph.Holding? { GotoKeeps(s, pid, Resetting(ph.path, 0)); }
      case Git(ok) => GitKeeps(s, pid, ok);
      case Receive => if s.idle != [] { ReceiveKeeps(s, pid); }
      case Cancel =>
        if ph.Waiting? || ph.Rewaiting? || ph.Draining? { ReturnKeeps(s, pid); }
      case Send => if |s.idle| < s.size { SendKeeps(s, pid); }
      case _ =>
    }
  }

  lemma SameHands(s: State, t: State)
    requires Partition(s) && t == s.(started := t.started)
    ensures Partition(t)
  {
    forall q, p ensures Has(t, q, p) == Has(s, q, p) {}
    forall p | p in t.all && p !in t.idle && p !in t.drained ensures InHands(t, p) {
      var q :| Has(s, q, p);
      assert Has(t, q, p);
    }
  }

  lemma GitKeeps(s: State, pid: Pid, ok: bool)
    requires Inv(s) && pid in s.procs
    ensures Partition(GitStep(s, pid, ok))
  {
    match s.procs[pid]
    case Initing(i) =>
      if ok && i < s.size { CreateKeeps(s, pid, i); } else { ReturnKeeps(s, pid); }
    case ph => GotoKeeps(s, pid, AfterGit(s.setup, ph, ok));
  }

  lemma ReceiveKeeps(s: State, pid: Pid)
    requires Partition(s) && pid in s.procs && s.idle != []
    ensures Partition(ReceiveStep(s, pid))
  {
    match s.procs[pid]
    case Waiting => TakeKeeps(s, pid, Checking(s.idle[0]));
    case PlainWaiting => TakeKeeps(s, pid, Holding(s.idle[0]));
    case Rewaiting => TakeKeeps(s, pid, Holding(s.idle[0]));
    case Draining => DrainKeeps(s, pid);
    case _ =>
  }

  lemma SendKeeps(s: State, pid: Pid)
    requires Partition(s) && pid in s.procs
    ensures Partition(SendStep(s, pid))
  {
    match s.procs[pid]
    case Sending(p, ok, c) =>
      assert Has(s, pid, p);
      assert PathIn(Rewaiting) == None;
      GiveKeeps(s, pid, p, SendStep(s, pid));
    case InitSending(p, i) =>
      assert Has(s, pid, p);
      assert PathIn(Initing(i + 1)) == None;
      GiveKeeps(s, pid, p, SendStep(s, pid));
    case _ =>
  }

  lemma {:induction false} RunKeepsInv(s: State, acts: seq<(Pid, Action)>)
    requires Inv(s)
    ensures Inv(Run(s, acts))
    decreases |acts|
  {
    if acts != [] {
      StepKeepsPartition(s, acts[0].0, acts[0].1);
      StepKeepsInit(s, acts[0].0, acts[0].1);
      RunKeepsInv(Step(s, acts[0].0, acts[0].1), acts[1..]);
    }
  }

  /** One of the first n path names. */
  ghost predicate Named(p: Path, n: nat) {
    exists k :: 0 <= k < n && PathOf(k) == p
  }

  /** Distinct elements of a set s are no more than a bound on s. */
  lemma {:induction false} Pigeonhole(xs: seq<Path>, n: nat)
    requires Unique(xs) && forall i :: 0 <= i < |xs| ==> Named(xs[i], n)
    ensures |xs| <= n
  {
    if n == 0 {
      assert xs != [] ==> Named(xs[0], n);
    } else if i :| 0 <= i < |xs| && xs[i] == PathOf(n - 1) {
      var ys := xs[..i] + xs[i + 1..];
      forall j | 0 <= j < |ys| ensures Named(ys[j], n - 1) {
        var j' := if j < i then j else j + 1;
        assert Named(xs[j'], n);
      }
      Pigeonhole(ys, n - 1);
    } else {
      forall j | 0 <= j < |xs| ensures Named(xs[j], n - 1) {
        assert Named(xs[j], n);
      }
      Pigeonhole(xs, n - 1);
    }
  }

  /** No send on the channel can ever block. */
  lemma SendNeverBlocks(s: State, pid: Pid, p: Path)
    requires Inv(s) && Has(s, pid, p)
    ensures |s.idle| < s.size
  {
    var xs := s.idle + [p];
    forall i | 0 <= i < |xs| ensures Named(xs[i], |s.all|) {
      assert xs[i] in s.all;
      var k :| 0 <= k < |s.all| && s.all[k] == xs[i];
      assert PathOf(k) == xs[i];
    }
    Pigeonhole(xs, |s.all|);
  }

  /** Over all interleavings and all outcomes of git and of cancellation: a path has at most one
      owner, no path is ever lost, and every send is enabled, even one after Shutdown. */
  lemma PoolConserves(s0: State, acts: seq<(Pid, Action)>)
    requires Initial(s0)
    ensures var s := Run(s0, acts);
      && Partition(s)
      && (forall pid :: pid in s.procs && (s.procs[pid].Sending? || s.procs[pid].InitSending?) ==> |s.idle| < s.size)
  {
    RunKeepsInv(s0, acts);
    var s := Run(s0, acts);
    forall pid | pid in s.procs && (s.procs[pid].Sending? || s.procs[pid].InitSending?) ensures |s.idle| < s.size {
      SendNeverBlocks(s, pid, s.procs[pid].path);
    }
  }

  /** Whatever failures happened, once every call has returned and every holder has released, and
      unless the pool was shut down, all paths are idle again. */
  lemma RestIsFull(s0: State, acts: seq<(Pid, Action)>)
    requires Initial(s0) && Run(s0, acts).procs == map[] && Run(s0, acts).drained == {}
    ensures forall p :: p in Run(s0, acts).all <==> p in Run(s0, acts).idle
    ensures |Run(s0, acts).idle| == |Run(s0, acts).all|
  {
    RunKeepsInv(s0, acts);
    var s := Run(s0, acts);
    assert forall p :: !InHands(s, p);
    forall i | 0 <= i < |s.idle| ensures Named(s.idle[i], |s.all|) {
      assert s.idle[i] in s.all;
      var k :| 0 <= k < |s.all| && s.all[k] == s.idle[i];
      assert PathOf(k) == s.idle[i];
    }
    Pigeonhole(s.idle, |s.all|);
    forall i | 0 <= i < |s.all| ensures s.all[i] in s.idle { assert s.all[i] in s.all; }
    Covers(s.idle, |s.all|, s.all);
  }

  /** A list that covers n distinct paths is at least that long. */
  lemma {:induction false} Covers(xs: seq<Path>, n: nat, all: seq<Path>)
    requires n <= |all| && forall i :: 0 <= i < n ==> all[i] == PathOf(i) && all[i] in xs
    ensures n <= |xs|
  {
    if n > 0 {
      var i :| 0 <= i < |xs| && xs[i] == all[n - 1];
      var ys := xs[..i] + xs[i + 1..];
      forall k | 0 <= k < n - 1 ensures all[k] in ys {
        var j :| 0 <= j < |xs| && xs[j] == all[k];
        if j == i { PathsDiffer(k, n - 1); }
        assert ys[if j < i then j else j - 1] == xs[j];
      }
      Covers(ys, n - 1, all);
    }
  }

  // ---------- the pool ----------

  lemma {:induction false} RunSnoc(s: State, acts: seq<(Pid, Action)>, a: (Pid, Action))
    ensures Run(s, acts + [a]) == Step(Run(s, acts), a.0, a.1)
    decreases |acts|
  {
    if acts == [] {
      assert [a][1..] == [] && acts + [a] == [a];
      assert Run(Step(s, a.0, a.1), []) == Step(s, a.0, a.1);
    } else {
      RunSnoc(Step(s, acts[0].0, acts[0].1), acts[1..], a);
      assert (acts + [a])[1..] == acts[1..] + [a];
    }
  }

  lemma {:induction false} RunAppend(s: State, a: seq<(Pid, Action)>, b: seq<(Pid, Action)>)
    ensures Run(s, a + b) == Run(Run(s, a), b)
    decreases |a|
  {
    if a == [] {
      assert a + b == b;
    } else {
      RunAppend(Step(s, a[0].0, a[0].1), a[1..], b);
      assert (a + b)[1..] == a[1..] + b;
    }
  }

  type Trace = seq<(Pid, Action)>

  /** The state in which process `pid` is in phase `ph` and the others are in `procs`. */
  ghost function At(s: State, procs: map<Pid, Phase>, pid: Pid, ph: Phase): State { s.(procs := procs[pid := ph]) }

  /** A run extended by one action leads to the given state. */
  ghost predicate Leads(s0: State, acts: Trace, t: State) { Run(s0, acts) == t }

  lemma CallLeads(s: State, pid: Pid, a: Action, ph: Phase)
    requires pid !in s.procs
    requires (a == CallAcquire && ph == Waiting) || (a == CallShutdown && ph == Draining)
    ensures Leads(s, [(pid, a)], At(s, s.procs, pid, ph))
  {
    RunSnoc(s, [], (pid, a));
    assert [] + [(pid, a)] == [(pid, a)];
  }

  lemma InitLeads(s: State, pid: Pid)
    requires pid !in s.procs && !s.started
    ensures Leads(s, [(pid, CallInit)], At(s.(started := true), s.procs, pid, Initing(0)))
  {
    RunSnoc(s, [], (pid, CallInit));
    assert [] + [(pid, CallInit)] == [(pid, CallInit)];
  }

  lemma GitLeads(s0: State, acts: Trace, s: State, procs: map<Pid, Phase>, pid: Pid, ph: Phase, ok: bool)
    requires !InInit(ph) && Leads(s0, acts, At(s, procs, pid, ph))
    ensures Leads(s0, acts + [(pid, Git(ok))], At(s, procs, pid, AfterGit(s.setup, ph, ok)))
  {
    RunSnoc(s0, acts, (pid, Git(ok)));
    assert procs[pid := ph][pid := AfterGit(s.setup, ph, ok)] == procs[pid := AfterGit(s.setup, ph, ok)];
  }

  lemma ReceiveLeads(s0: State, acts: Trace, s: State, procs: map<Pid, Phase>, pid: Pid, ph: Phase, ph': Phase)
    requires s.idle != [] && Leads(s0, acts, At(s, procs, pid, ph))
    requires (ph == Waiting && ph' == Checking(s.idle[0])) || (ph == Rewaiting && ph' == Holding(s.idle[0]))
    ensures Leads(s0, acts + [(pid, Receive)], At(s.(idle := s.idle[1..]), procs, pid, ph'))
  {
    RunSnoc(s0, acts, (pid, Receive));
    assert procs[pid := ph][pid := ph'] == procs[pid := ph'];
  }

  lemma DrainLeads(s0: State, acts: Trace, s: State, procs: map<Pid, Phase>, pid: Pid)
    requires s.idle != [] && Leads(s0, acts, At(s, procs, pid, Draining))
    ensures Leads(s0, acts + [(pid, Receive)],
                  At(s.(idle := s.idle[1..], drained := s.drained + {s.idle[0]}), procs, pid, Draining))
  {
    RunSnoc(s0, acts, (pid, Receive));
  }

  lemma CancelLeads(s0: State, acts: Trace, s: State, procs: map<Pid, Phase>, pid: Pid, ph: Phase)
    requires pid !in procs && Leads(s0, acts, At(s, procs, pid, ph))
    requires ph == Waiting || ph == Rewaiting || (ph == Draining && s.idle == [])
    ensures Leads(s0, acts + [(pid, Cancel)], s.(procs := procs))
  {
    RunSnoc(s0, acts, (pid, Cancel));
    assert procs[pid := ph] - {pid} == procs;
  }

  lemma SendLeads(s0: State, acts: Trace, s: State, procs: map<Pid, Phase>, pid: Pid, p: Path, ok: bool, c: Caller)
    requires pid !in procs && |s.idle| < s.size && Leads(s0, acts, At(s, procs, pid, Sending(p, ok, c)))
    ensures Leads(s0, acts + [(pid, Send)],
                  s.(idle := s.idle + [p], procs := if c.FromAcquire? && ok then procs[pid := Rewaiting] else procs))
  {
    RunSnoc(s0, acts, (pid, Send));
    var ph := Sending(p, ok, c);
    assert procs[pid := ph] - {pid} == procs && procs[pid := ph][pid := Rewaiting] == procs[pid := Rewaiting];
  }

  lemma CreateLeads(s0: State, acts: Trace, s: State, procs: map<Pid, Phase>, pid: Pid, i: nat)
    requires i < s.size && |s.idle| < s.size && Leads(s0, acts, At(s, procs, pid, Initing(i)))
    ensures Leads(s0, acts + [(pid, Git(true))] + [(pid, Send)],
                  At(s.(all := s.all + [PathOf(i)], idle := s.idle + [PathOf(i)]), procs, pid, Initing(i + 1)))
  {
    var t := s.(all := s.all + [PathOf(i)]);
    AddLeads(s0, acts, s, procs, pid, i);
    InitSendLeads(s0, acts + [(pid, Git(true))], t, procs, pid, i);
  }

  lemma AddLeads(s0: State, acts: Trace, s: State, procs: map<Pid, Phase>, pid: Pid, i: nat)
    requires i < s.size && Leads(s0, acts, At(s, procs, pid, Initing(i)))
    ensures Leads(s0, acts + [(pid, Git(true))],
                  At(s.(all := s.all + [PathOf(i)]), procs, pid, InitSending(PathOf(i), i)))
  {
    RunSnoc(s0, acts, (pid, Git(true)));
    assert procs[pid := Initing(i)][pid := InitSending(PathOf(i), i)] == procs[pid := InitSending(PathOf(i), i)];
  }

  lemma InitSendLeads(s0: State, acts: Trace, s: State, procs: map<Pid, Phase>, pid: Pid, i: nat)
    requires |s.idle| < s.size && Leads(s0, acts, At(s, procs, pid, InitSending(PathOf(i), i)))
    ensures Leads(s0, acts + [(pid, Send)], At(s.(idle := s.idle + [PathOf(i)]), procs, pid, Initing(i + 1)))
  {
    RunSnoc(s0, acts, (pid, Send));
    assert procs[pid := InitSending(PathOf(i), i)][pid := Initing(i + 1)] == procs[pid := Initing(i + 1)];
  }

  lemma NamesSnoc(i: nat)
    ensures Names(i + 1) == Names(i) + [PathOf(i)]
  {
  }

  lemma StopLeads(s0: State, acts: Trace, s: State, procs: map<Pid, Phase>, pid: Pid, i: nat)
    requires pid !in procs && Leads(s0, acts, At(s, procs, pid, Initing(i)))
    ensures Leads(s0, acts + [(pid, Git(false))], s.(procs := procs))
  {
    RunSnoc(s0, acts, (pid, Git(false)));
    assert procs[pid := Initing(i)] - {pid} == procs;
  }

  lemma ReleaseLeads(s: State, procs: map<Pid, Phase>, pid: Pid, p: Path)
    ensures Leads(At(s, procs, pid, Holding(p)), [(pid, CallRelease)], At(s, procs, pid, Resetting(p, 0)))
  {
    RunSnoc(At(s, procs, pid, Holding(p)), [], (pid, CallRelease));
    assert [] + [(pid, CallRelease)] == [(pid, CallRelease)];
    assert procs[pid := Holding(p)][pid := Resetting(p, 0)] == procs[pid := Resetting(p, 0)];
  }

  lemma AppendLeads(s0: State, a: Trace, s: State, b: Trace, t: State)
    requires Leads(s0, a, s) && Leads(s, b, t)
    ensures Leads(s0, a + b, t)
  {
    RunAppend(s0, a, b);
  }

  /** The names of the first n worktrees. */
  function Names(n: nat): (r: seq<Path>)
    ensures |r| == n && forall i :: 0 <= i < n ==> r[i] == PathOf(i)
  {
    if n == 0 then [] else Names(n - 1) + [PathOf(n - 1)]
  }

  /** The commands for the first n worktrees succeed: each is added and, if there is a setup command, set up. */
  ghost predicate AllCreated(n: nat, setup: bool, addOk: nat -> bool, setupOk: nat -> bool) {
    forall i :: 0 <= i < n ==> addOk(i) && (setup ==> setupOk(i))
  }

  /** Init has created i worktrees. */
  ghost predicate Initialized(s0: State, acts: Trace, t: State, procs: map<Pid, Phase>, pid: Pid, i: nat,
                              addOk: nat -> bool, setupOk: nat -> bool) {
    && Leads(s0, acts, At(t, procs, pid, Initing(i)))
    && t.idle == t.all == Names(i) && AllCreated(i, t.setup, addOk, setupOk)
  }

  lemma InitializeOne(s0: State, acts: Trace, t: State, procs: map<Pid, Phase>, pid: Pid, i: nat,
                      addOk: nat -> bool, setupOk: nat -> bool)
    requires Initialized(s0, acts, t, procs, pid, i, addOk, setupOk) && i < t.size && addOk(i) && (t.setup ==> setupOk(i))
    ensures Initialized(s0, acts + [(pid, Git(true))] + [(pid, Send)],
                        t.(all := t.all + [PathOf(i)], idle := t.idle + [PathOf(i)]), procs, pid, i + 1, addOk, setupOk)
  {
    CreateLeads(s0, acts, t, procs, pid, i);
    NamesSnoc(i);
    CreatedSnoc(i, t.setup, addOk, setupOk);
  }

  lemma CreatedSnoc(n: nat, setup: bool, addOk: nat -> bool, setupOk: nat -> bool)
    requires AllCreated(n, setup, addOk, setupOk) && addOk(n) && (setup ==> setupOk(n))
    ensures AllCreated(n + 1, setup, addOk, setupOk)
  {
  }

  datatype Result = Ok(path: Path) | Err

  /** WorktreePool without interference: outcomes of git and of cancellation are parameters, and
      `procs` are the calls of other processes, which stand still. Each method names the run of `Step`
      that it performs for process `pid`. */
  class WorktreePool {
    const size: nat
    const setup: bool
    var workers: seq<Path>
    var allPaths: seq<Path>
    ghost var drained: set<Path>
    ghost var started: bool

    constructor (size: nat, setup: bool)
      ensures this.size == size && this.setup == setup && Initial(Abs(map[]))
    {
      this.size, this.setup := size, setup;
      workers, allPaths, drained, started := [], [], {}, false;
    }

    ghost function Abs(procs: map<Pid, Phase>): State
      reads this
    {
      State(size, setup, allPaths, workers, drained, procs, started)
    }

    /** Creates the worktrees one by one until a command fails. */
    method Init(branchOk: bool, pruneOk: bool, addOk: nat -> bool, setupOk: nat -> bool,
                ghost pid: Pid, ghost procs: map<Pid, Phase>)
      returns (ok: bool, ghost acts: Trace)
      requires allPaths == [] && workers == [] && !started && pid !in procs
      modifies this
      ensures Leads(old(Abs(procs)), acts, Abs(procs))
      ensures workers == allPaths == Names(|allPaths|) && |allPaths| <= size
      ensures ok <==> branchOk && pruneOk && |allPaths| == size
      ensures AllCreated(|allPaths|, setup, addOk, setupOk)
      ensures branchOk && pruneOk && |allPaths| < size ==> !addOk(|allPaths|) || (setup && !setupOk(|allPaths|))
    {
      ghost var s0 := Abs(procs);
      InitLeads(s0, pid);
      acts := [(pid, CallInit)];
      started := true;
      ok := branchOk && pruneOk;
      var i := 0;
      while ok && i < size
        invariant i <= size && Initialized(s0, acts, Abs(procs), procs, pid, i, addOk, setupOk)
        invariant ok ==> branchOk && pruneOk
        invariant !ok && branchOk && pruneOk ==> i < size && !(addOk(i) && (setup ==> setupOk(i)))
      {
        ok := addOk(i) && (setup ==> setupOk(i));
        if ok {
          InitializeOne(s0, acts, Abs(procs), procs, pid, i, addOk, setupOk);
          acts := acts + [(pid, Git(true))] + [(pid, Send)];
          allPaths := allPaths + [PathOf(i)];
          workers := workers + [PathOf(i)];
          i := i + 1;
        }
      }
      StopLeads(s0, acts, Abs(procs), procs, pid, i);
      acts := acts + [(pid, Git(false))];
    }

    /** Whatever fails, the path goes back on the channel. */
    method ForceRecycle(path: Path, removeOk: bool, addOk: bool, setupOk: bool,
                        ghost pid: Pid, ghost caller: Caller, ghost procs: map<Pid, Phase>)
      returns (ok: bool, ghost acts: Trace)
      requires |workers| < size && pid !in procs
      modifies this`workers
      ensures workers == old(workers) + [path]
      ensures ok == (addOk && (setup ==> setupOk))
      ensures Leads(At(old(Abs(procs)), procs, pid, RecycleRemove(path, caller)), acts,
                    Abs(if ok && caller.FromAcquire? then procs[pid := Rewaiting] else procs))
    {
      ghost var s := Abs(procs);
      ghost var s0 := At(s, procs, pid, RecycleRemove(path, caller));
      GitLeads(s0, [], s, procs, pid, RecycleRemove(path, caller), removeOk);
      acts := [] + [(pid, Git(removeOk))];
      ok := addOk;
      GitLeads(s0, acts, s, procs, pid, RecycleAdd(path, caller), addOk);
      acts := acts + [(pid, Git(addOk))];
      if ok && setup {
        ok := setupOk;
        GitLeads(s0, acts, s, procs, pid, RecycleSetup(path, caller), setupOk);
        acts := acts + [(pid, Git(setupOk))];
      }
      SendLeads(s0, acts, s, procs, pid, path, ok, caller);
      acts := acts + [(pid, Send)];
      workers := workers + [path];
    }

    /** Takes a healthy path, or a recycled one; on an error the channel has all its paths back. The
        call needs a path on the channel or a cancellation to return at all. */
    method AcquireContext(cancelFirst: bool, statusOk: bool, removeOk: bool, addOk: bool, setupOk: bool,
                          cancelSecond: bool, ghost pid: Pid, ghost procs: map<Pid, Phase>)
      returns (r: Result, ghost acts: Trace)
      requires |workers| <= size && (workers != [] || cancelFirst) && pid !in procs
      modifies this`workers
      ensures Leads(old(Abs(procs)), acts, Abs(if r.Ok? then procs[pid := Holding(r.path)] else procs))
      ensures cancelFirst ==> r == Err && workers == old(workers)
      ensures !cancelFirst && statusOk ==> r == Ok(old(workers)[0]) && workers == old(workers)[1..]
      ensures !cancelFirst && !statusOk ==>
        var rotated := old(workers)[1..] + [old(workers)[0]];
        if addOk && (setup ==> setupOk) && !cancelSecond
        then r == Ok(rotated[0]) && workers == rotated[1..]
        else r == Err && workers == rotated
    {
      ghost var s0 := Abs(procs);
      CallLeads(s0, pid, CallAcquire, Waiting);
      acts := [(pid, CallAcquire)];
      if cancelFirst {
        CancelLeads(s0, acts, s0, procs, pid, Waiting);
        return Err, acts + [(pid, Cancel)];
      }
      var path := workers[0];
      ReceiveLeads(s0, acts, s0, procs, pid, Waiting, Checking(path));
      acts := acts + [(pid, Receive)];
      workers := workers[1..];
      GitLeads(s0, acts, Abs(procs), procs, pid, Checking(path), statusOk);
      acts := acts + [(pid, Git(statusOk))];
      if statusOk {
        return Ok(path), acts;
      }
      var ok;
      ghost var before, mid := acts, Abs(procs);
      ghost var steps;
      ok, steps := ForceRecycle(path, removeOk, addOk, setupOk, pid, FromAcquire, procs);
      AppendLeads(s0, before, At(mid, procs, pid, RecycleRemove(path, FromAcquire)), steps,
                  Abs(if ok then procs[pid := Rewaiting] else procs));
      acts := before + steps;
      if !ok { return Err, acts; }
      if cancelSecond {
        CancelLeads(s0, acts, Abs(procs), procs, pid, Rewaiting);
        return Err, acts + [(pid, Cancel)];
      }
      path := workers[0];
      ReceiveLeads(s0, acts, Abs(procs), procs, pid, Rewaiting, Holding(path));
      acts := acts + [(pid, Receive)];
      workers := workers[1..];
      r := Ok(path);
    }

    /** Returns the path to the channel on every branch. */
    method Release(path: Path, checkoutOk: bool, resetOk: bool, cleanOk: bool,
                   removeOk: bool, addOk: bool, setupOk: bool, ghost pid: Pid, ghost procs: map<Pid, Phase>)
      returns (ok: bool, ghost acts: Trace)
      requires |workers| < size && pid !in procs
      modifies this`workers
      ensures workers == old(workers) + [path]
      ensures ok <==> (checkoutOk && resetOk && cleanOk) || (addOk && (setup ==> setupOk))
      ensures Leads(At(old(Abs(procs)), procs, pid, Holding(path)), acts, Abs(procs))
    {
      ghost var s := Abs(procs);
      ghost var s0 := At(s, procs, pid, Holding(path));
      ReleaseLeads(s, procs, pid, path);
      acts := [(pid, CallRelease)];
      var good := checkoutOk;
      GitLeads(s0, acts, s, procs, pid, Resetting(path, 0), checkoutOk);
      acts := acts + [(pid, Git(checkoutOk))];
      if good {
        good := resetOk;
        GitLeads(s0, acts, s, procs, pid, Resetting(path, 1), resetOk);
        acts := acts + [(pid, Git(resetOk))];
        if good {
          good := cleanOk;
          GitLeads(s0, acts, s, procs, pid, Resetting(path, 2), cleanOk);
          acts := acts + [(pid, Git(cleanOk))];
        }
      }
      if !good {
        ghost var before := acts;
        ghost var steps;
        ok, steps := ForceRecycle(path, removeOk, addOk, setupOk, pid, FromRelease, procs);
        AppendLeads(s0, before, At(s, procs, pid, RecycleRemove(path, FromRelease)), steps, Abs(procs));
        acts := before + steps;
        return;
      }
      SendLeads(s0, acts, s, procs, pid, path, true, FromRelease);
      acts := acts + [(pid, Send)];
      workers := workers + [path];
      ok := true;
    }

    /** Empties the channel, then tries to remove every worktree ever created. */
    method Shutdown(removeOk: Path -> bool, pruneOk: bool, ghost pid: Pid, ghost procs: map<Pid, Phase>)
      returns (ok: bool, ghost acts: Trace)
      requires pid !in procs
      modifies this`workers, this`drained
      ensures workers == []
      ensures drained == old(drained) + set p | p in old(workers)
      ensures Leads(old(Abs(procs)), acts, Abs(procs))
      ensures ok <==> pruneOk && forall i :: 0 <= i < |allPaths| ==> removeOk(allPaths[i])
    {
      ghost var s0 := Abs(procs);
      CallLeads(s0, pid, CallShutdown, Draining);
      acts := [(pid, CallShutdown)];
      while workers != []
        invariant Leads(s0, acts, At(Abs(procs), procs, pid, Draining))
        invariant drained + (set p | p in workers) == old(drained) + set p | p in old(workers)
        decreases |workers|
      {
        HeadAndTail(workers);
        DrainLeads(s0, acts, Abs(procs), procs, pid);
        acts := acts + [(pid, Receive)];
        drained := drained + {workers[0]};
        workers := workers[1..];
      }
      CancelLeads(s0, acts, Abs(procs), procs, pid, Draining);
      acts := acts + [(pid, Cancel)];
      ok := true;
      for i := 0 to |allPaths|
        invariant ok <==> forall j :: 0 <= j < i ==> removeOk(allPaths[j])
      {
        ok := ok && removeOk(allPaths[i]);
      }
      ok := ok && pruneOk;
    }
  }

  lemma HeadAndTail(xs: seq<Path>)
    requires xs != []
    ensures (set p | p in xs) == {xs[0]} + set p | p in xs[1..]
  {
  }
}
