/**
 * The daemon's service lifecycle over all interleavings of reload calls, close calls and reported errors.
 * Each label is one stretch of code that runs under the service lock, or one call made with the lock released.
 */
module ServiceLifecycle {
  import opened Common

  datatype Status = Idle | Starting | Started | Stopping | Fatal

  /** Where a StartOrReloadService call is. */
  datatype Pc =
    | Called
    | Closing(taken: nat)        // the old instance is taken out, the lock is released
    | Rebuilding                 // the old instance is closed, about to lock again
    | Launching(made: nat)       // the new instance is current, its Start is running
    | Returned

  /**
   * Instances are numbered as they are made.  `closes` counts Close calls per instance, `up` has the
   * instances whose Start succeeded.
   */
  datatype State = State(
    status: Status, instance: Option<nat>, calls: seq<Pc>, made: nat, closes: multiset<nat>, up: set<nat>)

  datatype Label =
    | Call                           // a new reload call arrives
    | Begin(call: nat, ok: bool)     // `ok`: building an instance succeeds
    | CloseOld(call: nat)
    | Rebuild(call: nat, ok: bool)
    | Launched(call: nat, ok: bool)  // Start returns
    | CloseService
    | SetError

  predicate At(s: State, call: nat) {
    call < |s.calls|
  }

  predicate Enabled(s: State, l: Label) {
    match l
    case Begin(c, _) => At(s, c) && s.calls[c].Called?
    case CloseOld(c) => At(s, c) && s.calls[c].Closing?
    case Rebuild(c, _) => At(s, c) && s.calls[c].Rebuilding?
    case Launched(c, _) => At(s, c) && s.calls[c].Launching?
    case _ => true
  }

  function Goto(s: State, call: nat, pc: Pc): State
    requires At(s, call)
  {
    s.(calls := s.calls[call := pc])
  }

  /** STARTING, then an instance or FATAL, all under one lock. */
  function Build(s: State, call: nat, ok: bool): State
    requires At(s, call)
  {
    if ok then Goto(s, call, Launching(s.made)).(status := Starting, instance := Some(s.made), made := s.made + 1)
    else Goto(s, call, Returned).(status := Fatal)
  }

  function Step(s: State, l: Label): State
    requires Enabled(s, l)
  {
    match l
    case Call => s.(calls := s.calls + [Called])
    case Begin(c, ok) =>
      if s.status.Stopping? then Goto(s, c, Returned)
      else if s.instance.Some? then Goto(s, c, Closing(s.instance.value)).(status := Stopping, instance := None)
      else Build(s, c, ok)
    case CloseOld(c) => Goto(s, c, Rebuilding).(closes := s.closes + multiset{s.calls[c].taken})
    case Rebuild(c, ok) => Build(s, c, ok)
    case Launched(c, ok) =>
      var made := s.calls[c].made;
      var t := Goto(s, c, Returned).(up := if ok then s.up + {made} else s.up);
      if !s.status.Starting? then t
      else if ok then t.(status := Started)
      else t.(status := Fatal, instance := None, closes := s.closes + multiset{made})
    case CloseService =>
      if s.status.Starting? || s.status.Started? then
        s.(status := Idle, instance := None,
           closes := s.closes + if s.instance.Some? then multiset{s.instance.value} else multiset{})
      else s
    case SetError => s.(status := Fatal)
  }

  predicate Init(s: State) {
    s == State(Idle, None, [], 0, multiset{}, {})
  }

  predicate Runs(s: State, labels: seq<Label>)
    decreases |labels|
  {
    labels == [] || (Enabled(s, labels[0]) && Runs(Step(s, labels[0]), labels[1..]))
  }

  function After(s: State, labels: seq<Label>): State
    requires Runs(s, labels)
    decreases |labels|
  {
    if labels == [] then s else After(Step(s, labels[0]), labels[1..])
  }

  // ---- whatever the interleaving ----------------------------------------------------------------

  /** While the lock is free, a service that is starting or started has an instance. */
  predicate HasInstance(s: State) {
    s.status.Starting? || s.status.Started? ==> s.instance.Some?
  }

  lemma {:induction false} AlwaysHasInstance(s: State, labels: seq<Label>)
    requires HasInstance(s) && Runs(s, labels)
    ensures HasInstance(After(s, labels))
    decreases |labels|
  {
    if labels != [] {
      AlwaysHasInstance(Step(s, labels[0]), labels[1..]);
    }
  }

  // ---- the account of instances -----------------------------------------------------------------

  ghost predicate Held(s: State, i: nat) {
    exists c :: 0 <= c < |s.calls| && s.calls[c] == Closing(i)
  }

  /** Exactly one of: closed, and closed once; current; held by the call that is about to close it. */
  ghost predicate Accounted(s: State, i: nat) {
    || (s.closes[i] == 1 && s.instance != Some(i) && !Held(s, i))
    || (s.closes[i] == 0 && s.instance == Some(i) && !Held(s, i))
    || (s.closes[i] == 0 && s.instance != Some(i) && Held(s, i))
  }

  ghost predicate AllAccounted(s: State) {
    forall i: nat :: i < s.made ==> Accounted(s, i)
  }

  /**
   * A step that does not overwrite: a new instance finds no current one, and a call that clears the current
   * instance after a failed start clears its own.
   */
  predicate Clean(s: State, l: Label)
    requires Enabled(s, l)
  {
    match l
    case Rebuild(_, ok) => ok ==> s.instance == None
    case Launched(c, ok) => !ok && s.status.Starting? ==> s.instance == Some(s.calls[c].made)
    case _ => true
  }

  predicate CleanRun(s: State, labels: seq<Label>)
    requires Runs(s, labels)
    decreases |labels|
  {
    labels == [] || (Clean(s, labels[0]) && CleanRun(Step(s, labels[0]), labels[1..]))
  }

  ghost predicate Numbered(s: State, pc: Pc) {
    match pc
    case Closing(taken) => taken < s.made && s.instance != Some(taken)
    case Launching(made) => made < s.made
    case _ => true
  }

  ghost predicate HoldersDiffer(s: State) {
    forall c, d :: 0 <= c < d < |s.calls| && s.calls[c].Closing? ==> s.calls[c] != s.calls[d]
  }

  /** What every interleaving keeps: the current instance is not closed, and nobody holds it. */
  ghost predicate Sane(s: State) {
    && HasInstance(s)
    && (forall c :: 0 <= c < |s.calls| ==> Numbered(s, s.calls[c]))
    && HoldersDiffer(s)
    && (s.instance.Some? ==> s.instance.value < s.made && s.closes[s.instance.value] == 0)
    && (forall i: nat :: s.made <= i ==> s.closes[i] == 0)
  }

  lemma NumberedBuild(s: State, d: nat, ok: bool, c: nat)
    requires At(s, d) && At(s, c) && Numbered(s, s.calls[c])
    ensures Numbered(Build(s, d, ok), Build(s, d, ok).calls[c])
  {
  }

  lemma NumberedGoto(s: State, t: State, d: nat, pc: Pc, c: nat)
    requires At(s, d) && At(s, c) && Numbered(s, s.calls[c])
    requires t.made == s.made && (t.instance == s.instance || t.instance == None)
    requires t.calls == s.calls[d := pc] && (c == d ==> Numbered(t, pc))
    ensures Numbered(t, t.calls[c])
  {
  }

  lemma NumberedStep(s: State, l: Label, c: nat)
    requires Enabled(s, l) && c < |Step(s, l).calls|
    requires c < |s.calls| ==> Numbered(s, s.calls[c])
    requires s.instance.Some? ==> s.instance.value < s.made
    ensures Numbered(Step(s, l), Step(s, l).calls[c])
  {
    StepKeepsCalls(s, l);
    hide Build;
    match l
    case Begin(d, ok) =>
      if s.status.Stopping? {
        NumberedGoto(s, Step(s, l), d, Returned, c);
      } else if s.instance.Some? {
        NumberedGoto(s, Step(s, l), d, Closing(s.instance.value), c);
      } else {
        NumberedBuild(s, d, ok, c);
      }
    case CloseOld(d) => NumberedGoto(s, Step(s, l), d, Rebuilding, c);
    case Rebuild(d, ok) => NumberedBuild(s, d, ok, c);
    case Launched(d, ok) => NumberedGoto(s, Step(s, l), d, Returned, c);
    case _ =>
  }

  lemma HoldersStep(s: State, l: Label)
    requires Sane(s) && Enabled(s, l)
    ensures HoldersDiffer(Step(s, l))
  {
    var t := Step(s, l);
    forall c | 0 <= c < |t.calls| && t.calls[c].Closing?
      ensures c < |s.calls|
        && (t.calls[c] == s.calls[c] || (l.Begin? && l.call == c && t.calls[c] == Closing(s.instance.value)))
      ensures t.calls[c] == s.calls[c] ==> s.instance != Some(s.calls[c].taken)
    {
      assert c < |s.calls| ==> Numbered(s, s.calls[c]);
    }
  }

  lemma SaneStep(s: State, l: Label)
    requires Sane(s) && Enabled(s, l)
    ensures Sane(Step(s, l))
  {
    HoldersStep(s, l);
    forall c | 0 <= c < |Step(s, l).calls|
      ensures Numbered(Step(s, l), Step(s, l).calls[c])
    {
      NumberedStep(s, l, c);
    }
    CountsStep(s, l);
    hide HoldersDiffer, Step, Numbered;
  }

  lemma CountsStep(s: State, l: Label)
    requires Sane(s) && Enabled(s, l)
    ensures var t := Step(s, l);
            && HasInstance(t)
            && (t.instance.Some? ==> t.instance.value < t.made && t.closes[t.instance.value] == 0)
            && (forall i: nat :: t.made <= i ==> t.closes[i] == 0)
  {
    hide HoldersDiffer;
    if l.CloseOld? || l.Launched? {
      assert Numbered(s, s.calls[l.call]);
    }
  }

  /** An instance is held from the moment a call takes it until that call closes it. */
  lemma HeldStep(s: State, l: Label, i: nat)
    requires Sane(s) && Enabled(s, l)
    ensures Held(Step(s, l), i) <==>
              || (l.Begin? && !s.status.Stopping? && s.instance == Some(i))
              || (Held(s, i) && !(l.CloseOld? && s.calls[l.call].taken == i))
  {
    var t := Step(s, l);
    if l.Begin? && !s.status.Stopping? && s.instance == Some(i) {
      assert t.calls[l.call] == Closing(i);
    } else if Held(s, i) {
      var c :| 0 <= c < |s.calls| && s.calls[c] == Closing(i);
      assert (l.CloseOld? && l.call == c) || t.calls[c] == Closing(i);
    }
  }

  lemma HolderFacts(s: State, c: nat)
    requires Sane(s) && At(s, c) && s.calls[c].Closing?
    ensures Held(s, s.calls[c].taken) && s.calls[c].taken < s.made && s.instance != Some(s.calls[c].taken)
  {
    assert Numbered(s, s.calls[c]);
  }

  lemma NotHeld(s: State, i: nat)
    requires Sane(s) && (s.instance == Some(i) || s.made <= i)
    ensures !Held(s, i)
  {
    assert forall c :: 0 <= c < |s.calls| ==> Numbered(s, s.calls[c]);
  }

  /** A clean step keeps every instance accounted for. */
  lemma CleanStep(s: State, l: Label, i: nat)
    requires Sane(s) && Enabled(s, l) && AllAccounted(s) && Clean(s, l) && i < Step(s, l).made
    ensures Accounted(Step(s, l), i)
  {
    HeldStep(s, l, i);
    if s.instance == Some(i) || s.made <= i {
      NotHeld(s, i);
    }
    if l.CloseOld? {
      HolderFacts(s, l.call);
      assert Accounted(s, s.calls[l.call].taken);
    }
    assert i < s.made ==> Accounted(s, i);
    hide Held, HoldersDiffer, Numbered;
  }

  /** A step that is not clean drops the current instance: it is neither closed nor held. */
  lemma UncleanStep(s: State, l: Label)
    requires Sane(s) && Enabled(s, l) && !Clean(s, l)
    ensures !AllAccounted(Step(s, l))
  {
    var lost := s.instance.value;
    NotHeld(s, lost);
    HeldStep(s, l, lost);
    assert !Accounted(Step(s, l), lost);
  }

  /** A loss may pass from one instance to another, but some instance stays unaccounted for. */
  lemma LossStays(s: State, l: Label)
    requires Sane(s) && Enabled(s, l) && !AllAccounted(s)
    ensures !AllAccounted(Step(s, l))
  {
    if Clean(s, l) {
      var i: nat :| i < s.made && !Accounted(s, i);
      HeldStep(s, l, i);
      if s.instance == Some(i) {
        NotHeld(s, i);
      }
      if l.CloseOld? {
        HolderFacts(s, l.call);
      }
      assert !Accounted(Step(s, l), i);
    } else {
      UncleanStep(s, l);
    }
  }

  /** One step keeps the account exactly when it is clean. */
  lemma StepAccounts(s: State, l: Label)
    requires Sane(s) && Enabled(s, l)
    ensures AllAccounted(Step(s, l)) <==> AllAccounted(s) && Clean(s, l)
  {
    hide Step, Held, Accounted;
    if !AllAccounted(s) {
      LossStays(s, l);
    } else if !Clean(s, l) {
      UncleanStep(s, l);
    } else {
      forall i: nat | i < Step(s, l).made
        ensures Accounted(Step(s, l), i)
      {
        CleanStep(s, l, i);
      }
    }
  }

  lemma {:induction false} RunAccounts(s: State, labels: seq<Label>)
    requires Sane(s) && Runs(s, labels)
    ensures AllAccounted(After(s, labels)) <==> AllAccounted(s) && CleanRun(s, labels)
    decreases |labels|
  {
    hide AllAccounted, Sane;
    if labels != [] {
      SaneStep(s, labels[0]);
      StepAccounts(s, labels[0]);
      RunAccounts(Step(s, labels[0]), labels[1..]);
    }
  }

  /**
   * Whatever the interleaving of reloads, close calls and errors: after a run every instance made is closed once,
   * current, or held by the call that will close it, if and only if every step of the run was clean.
   */
  lemma AccountIsExact(init: State, labels: seq<Label>)
    requires Init(init) && Runs(init, labels)
    ensures AllAccounted(After(init, labels)) <==> CleanRun(init, labels)
  {
    RunAccounts(init, labels);
  }

  // ---- what the status says ---------------------------------------------------------------------

  ghost predicate Starts(s: State, i: nat) {
    exists c :: 0 <= c < |s.calls| && s.calls[c] == Launching(i)
  }

  /**
   * A starting service has a current instance that is not up yet, and a call that will report on that very instance.
   */
  ghost predicate Watched(s: State) {
    && (s.status.Starting? ==> s.instance.Some? && s.instance.value !in s.up && Starts(s, s.instance.value))
    && (forall i :: i in s.up ==> i < s.made)
  }

  lemma WatchedStep(s: State, l: Label)
    requires Sane(s) && Watched(s) && Enabled(s, l)
    ensures Watched(Step(s, l))
  {
    var t := Step(s, l);
    if l.Launched? {
      assert Numbered(s, s.calls[l.call]);
    }
    if t.status.Starting? {
      if l.Begin? || l.Rebuild? {
        assert t.calls[l.call] == Launching(t.instance.value);
      } else {
        var c :| 0 <= c < |s.calls| && s.calls[c] == Launching(s.instance.value);
        assert t.calls[c] == Launching(t.instance.value);
      }
    }
  }

  /** A started service runs an instance whose Start succeeded. */
  predicate Running(s: State) {
    s.status.Started? ==> s.instance.Some? && s.instance.value in s.up
  }

  /** The call that turns a starting service into a started one is the one that started the current instance. */
  predicate ReportsCurrent(s: State, l: Label)
    requires Enabled(s, l)
  {
    l.Launched? && l.ok && s.status.Starting? ==> s.instance == Some(s.calls[l.call].made)
  }

  /** Every state of the run, the first and the last included. */
  predicate AlwaysRunning(s: State, labels: seq<Label>)
    requires Runs(s, labels)
    decreases |labels|
  {
    Running(s) && (labels == [] || AlwaysRunning(Step(s, labels[0]), labels[1..]))
  }

  predicate ReportingRun(s: State, labels: seq<Label>)
    requires Runs(s, labels)
    decreases |labels|
  {
    labels == [] || (ReportsCurrent(s, labels[0]) && ReportingRun(Step(s, labels[0]), labels[1..]))
  }

  lemma RunningStep(s: State, l: Label)
    requires Watched(s) && Running(s) && Enabled(s, l)
    ensures Running(Step(s, l)) <==> ReportsCurrent(s, l)
  {
  }

  lemma {:induction false} RunningAlong(s: State, labels: seq<Label>)
    requires Sane(s) && Watched(s) && Running(s) && Runs(s, labels)
    ensures AlwaysRunning(s, labels) <==> ReportingRun(s, labels)
    ensures AlwaysRunning(s, labels) ==> Running(After(s, labels))
    decreases |labels|
  {
    hide Watched, Sane, Step;
    if labels != [] {
      var l, rest := labels[0], labels[1..];
      SaneStep(s, l);
      WatchedStep(s, l);
      RunningStep(s, l);
      if Running(Step(s, l)) {
        RunningAlong(Step(s, l), rest);
      }
    }
  }

  lemma {:induction false} WatchedRun(s: State, labels: seq<Label>)
    requires Sane(s) && Watched(s) && Runs(s, labels)
    ensures Sane(After(s, labels)) && Watched(After(s, labels))
    decreases |labels|
  {
    hide Watched, Sane, Step;
    if labels != [] {
      SaneStep(s, labels[0]);
      WatchedStep(s, labels[0]);
      WatchedRun(Step(s, labels[0]), labels[1..]);
    }
  }

  /**
   * Whatever the interleaving: the current instance has not been closed, and while the service is starting it is not
   * up and some call will report on it.  A started service runs an instance whose Start succeeded, throughout a run,
   * if and only if every call of the run that makes the service started is the one that started the current instance.
   */
  lemma StatusIsExact(init: State, labels: seq<Label>)
    requires Init(init) && Runs(init, labels)
    ensures AlwaysRunning(init, labels) <==> ReportingRun(init, labels)
    ensures AlwaysRunning(init, labels) ==> Running(After(init, labels))
    ensures var s := After(init, labels);
            && (s.status.Starting? ==> s.instance.Some? && s.instance.value !in s.up && Starts(s, s.instance.value))
            && (s.instance.Some? ==> s.closes[s.instance.value] == 0 && !Held(s, s.instance.value))
  {
    WatchedRun(init, labels);
    RunningAlong(init, labels);
    var s := After(init, labels);
    assert forall c :: 0 <= c < |s.calls| ==> Numbered(s, s.calls[c]);
  }

  // ---- close calls and errors -------------------------------------------------------------------

  /**
   * A close call on a running service closes its instance, once more than before, and leaves it idle; on any other it
   * does nothing.  If every instance was accounted for, afterwards each is closed once or about to be.
   */
  lemma CloseServiceCloses(s: State)
    requires Sane(s)
    ensures Enabled(s, CloseService)
    ensures var t := Step(s, CloseService);
      if s.status.Starting? || s.status.Started? then
        && t.status == Idle && t.instance == None && t.calls == s.calls && t.made == s.made && t.up == s.up
        && t.closes == s.closes + multiset{s.instance.value} && t.closes[s.instance.value] == 1
        && (AllAccounted(s) ==> forall i: nat :: i < t.made ==> (t.closes[i] == 1 <==> !Held(t, i)))
      else t == s
  {
    if s.status.Starting? || s.status.Started? {
      var t := Step(s, CloseService);
      NotHeld(s, s.instance.value);
      forall i: nat | AllAccounted(s) && i < t.made ensures t.closes[i] == 1 <==> !Held(t, i) {
        assert Accounted(s, i);
        HeldStep(s, CloseService, i);
      }
    }
  }

  /** A reported error makes the service fatal, whatever it was, and touches no instance. */
  lemma ErrorIsFatal(s: State)
    ensures Enabled(s, SetError) && Step(s, SetError) == s.(status := Fatal)
  {
  }

  /** A reload on its own: from rest it replaces the instance and ends started, or fatal without one. */
  lemma ReloadAlone(s: State, built: bool, started: bool) returns (labels: seq<Label>)
    requires Sane(s) && !s.status.Stopping?
    ensures Runs(s, labels) && labels != [] && labels[0] == Call
    ensures var t := After(s, labels);
      && t.calls == s.calls + [Returned]
      && (built && started ==>
        t.status == Started && t.instance == Some(s.made) && s.made in t.up && t.made == s.made + 1)
      && (!(built && started) ==> t.status == Fatal && t.instance == None)
      && (s.instance.Some? ==> t.closes[s.instance.value] == 1)
      && (built && !started ==> t.closes[s.made] == 1)
  {
    hide Runs, After, Serial, CleanRun, Sane;
    var c := |s.calls|;
    var s1 := Step(s, Call);
    if s.instance.None? {
      var s2 := Step(s1, Begin(c, built));
      labels := FinishReload(s2, c, built, started);
      labels := Prepend(s1, Begin(c, built), labels);
    } else {
      var s2 := Step(s1, Begin(c, built));
      var s3 := Step(s2, CloseOld(c));
      var s4 := Step(s3, Rebuild(c, built));
      labels := FinishReload(s4, c, built, started);
      labels := Prepend(s3, Rebuild(c, built), labels);
      labels := Prepend(s2, CloseOld(c), labels);
      labels := Prepend(s1, Begin(c, built), labels);
    }
    labels := Prepend(s, Call, labels);
    InstanceOpen(s);
  }

  lemma InstanceOpen(s: State)
    requires Sane(s)
    ensures s.instance.Some? ==> s.closes[s.instance.value] == 0 && s.instance.value < s.made
    ensures s.closes[s.made] == 0
  {
  }

  lemma FinishReload(s: State, c: nat, built: bool, started: bool) returns (labels: seq<Label>)
    requires At(s, c) && (if built then s.calls[c].Launching? && s.status.Starting? else s.calls[c].Returned?)
    ensures Runs(s, labels) && After(s, labels) == if built then Step(s, Launched(c, started)) else s
  {
    if built {
      EndOfRun(Step(s, Launched(c, started)));
      labels := Prepend(s, Launched(c, started), []);
    } else {
      EndOfRun(s);
      labels := [];
    }
  }

  // ---- reload calls that do not overlap ---------------------------------------------------------

  predicate Busy(pc: Pc) {
    !pc.Called? && !pc.Returned?
  }

  predicate Quiet(s: State) {
    forall c :: 0 <= c < |s.calls| ==> !Busy(s.calls[c])
  }

  /** No reload begins while another is under way. */
  predicate Serial(s: State, labels: seq<Label>)
    requires Runs(s, labels)
    decreases |labels|
  {
    labels == [] || ((labels[0].Begin? ==> Quiet(s)) && Serial(Step(s, labels[0]), labels[1..]))
  }

  ghost predicate OneBusy(s: State) {
    forall c, d :: 0 <= c < d < |s.calls| ==> !(Busy(s.calls[c]) && Busy(s.calls[d]))
  }

  /** The one call under way finds the service as it left it, unless it was closed or failed meanwhile. */
  ghost predicate CallOk(s: State, pc: Pc) {
    match pc
    case Closing(_) => s.instance == None
    case Rebuilding => s.instance == None
    case Launching(made) => s.status.Starting? ==> s.instance == Some(made)
    case _ => true
  }

  ghost predicate Alone(s: State) {
    && OneBusy(s)
    && (forall c :: 0 <= c < |s.calls| ==> CallOk(s, s.calls[c]))
  }

  lemma OneBusyStep(s: State, l: Label)
    requires OneBusy(s) && Enabled(s, l) && (l.Begin? ==> Quiet(s))
    ensures OneBusy(Step(s, l))
  {
    hide Step, Busy;
    forall c | 0 <= c < |Step(s, l).calls| && Busy(Step(s, l).calls[c])
      ensures (c < |s.calls| && Busy(s.calls[c])) || (l.Begin? && l.call == c)
    {
      BusyStep(s, l, c);
    }
    StepKeepsCalls(s, l);
  }

  lemma BusyStep(s: State, l: Label, c: nat)
    requires Enabled(s, l) && c < |Step(s, l).calls| && Busy(Step(s, l).calls[c])
    ensures (c < |s.calls| && Busy(s.calls[c])) || (l.Begin? && l.call == c)
  {
  }

  lemma StepKeepsCalls(s: State, l: Label)
    requires Enabled(s, l)
    ensures |Step(s, l).calls| == |s.calls| + if l.Call? then 1 else 0
  {
  }

  lemma CallStep(s: State, l: Label, c: nat)
    requires OneBusy(s) && Enabled(s, l) && (l.Begin? ==> Quiet(s)) && c < |Step(s, l).calls|
    requires c < |s.calls| ==> CallOk(s, s.calls[c])
    ensures CallOk(Step(s, l), Step(s, l).calls[c])
  {
    if c < |s.calls| {
      if (l.CloseOld? || l.Rebuild? || l.Launched?) && l.call != c {
        assert !Busy(s.calls[c]) by { OthersIdle(s, l.call, c); }
      }
    }
  }

  lemma OthersIdle(s: State, c: nat, d: nat)
    requires OneBusy(s) && At(s, c) && At(s, d) && c != d && Busy(s.calls[c])
    ensures !Busy(s.calls[d])
  {
  }

  lemma AloneStep(s: State, l: Label)
    requires Alone(s) && Enabled(s, l) && (l.Begin? ==> Quiet(s))
    ensures Alone(Step(s, l))
  {
    hide Step, CallOk, OneBusy, Quiet;
    OneBusyStep(s, l);
    forall c | 0 <= c < |Step(s, l).calls|
      ensures CallOk(Step(s, l), Step(s, l).calls[c])
    {
      CallStep(s, l, c);
    }
  }

  lemma {:induction false} SerialRun(s: State, labels: seq<Label>)
    requires Alone(s) && Runs(s, labels) && Serial(s, labels)
    ensures CleanRun(s, labels) && ReportingRun(s, labels)
    decreases |labels|
  {
    if labels != [] {
      var l := labels[0];
      assert Clean(s, l) && ReportsCurrent(s, l) by {
        assert l.Rebuild? || l.Launched? ==> CallOk(s, s.calls[l.call]);
      }
      AloneStep(s, l);
      hide Alone, Clean, ReportsCurrent, Step;
      SerialRun(Step(s, l), labels[1..]);
    }
  }

  /**
   * If reload calls do not overlap, every step is clean and reports the current instance, so the account holds and a
   * started service runs an instance whose Start succeeded and that is not closed.
   */
  lemma SerialReloads(init: State, labels: seq<Label>)
    requires Init(init) && Runs(init, labels) && Serial(init, labels)
    ensures var s := After(init, labels);
            && AllAccounted(s)
            && (s.status.Started? ==> s.instance.Some? && s.instance.value in s.up && s.closes[s.instance.value] == 0)
  {
    SerialRun(init, labels);
    AccountIsExact(init, labels);
    StatusIsExact(init, labels);
  }

  // ---- reload calls that overlap ----------------------------------------------------------------

  /**
   * Two reloads that overlap: the first is still starting instance 0 when the second has closed it and made instance
   * 1.
   */
  function Overlapped(): State {
    State(Starting, Some(1), [Launching(0), Launching(1)], 2, multiset{0}, {})
  }

  lemma OverlapThen(init: State, rest: seq<Label>) returns (labels: seq<Label>)
    requires Init(init) && Runs(Overlapped(), rest)
    ensures Runs(init, labels) && !Serial(init, labels) && After(init, labels) == After(Overlapped(), rest)
    ensures CleanRun(init, labels) <==> CleanRun(Overlapped(), rest)
  {
    hide Runs, After, Serial, CleanRun;
    var s2 := State(Idle, None, [Called, Called], 0, multiset{}, {});
    var s3 := State(Starting, Some(0), [Launching(0), Called], 1, multiset{}, {});
    var s4 := State(Stopping, None, [Launching(0), Closing(0)], 1, multiset{}, {});
    var s5 := State(Stopping, None, [Launching(0), Rebuilding], 1, multiset{0}, {});
    assert Step(s5, Rebuild(1, true)) == Overlapped();
    labels := Prepend(s5, Rebuild(1, true), rest);
    assert Step(s4, CloseOld(1)) == s5;
    labels := Prepend(s4, CloseOld(1), labels);
    assert Step(s3, Begin(1, true)) == s4 && Busy(s3.calls[0]);
    labels := Prepend(s3, Begin(1, true), labels);
    assert Step(s2, Begin(0, true)) == s3;
    labels := Prepend(s2, Begin(0, true), labels);
    assert Step(Step(init, Call), Call) == s2;
    labels := Prepend(Step(init, Call), Call, labels);
    labels := Prepend(init, Call, labels);
  }

  /** Not overlapping is sufficient but not necessary: this overlapping run is clean. */
  lemma OverlapCanBeClean(init: State) returns (labels: seq<Label>)
    requires Init(init)
    ensures Runs(init, labels) && !Serial(init, labels) && CleanRun(init, labels)
  {
    hide Runs, After, Serial, CleanRun;
    var s7 := Step(Overlapped(), Launched(0, true));
    EndOfRun(Step(s7, Launched(1, true)));
    labels := Prepend(s7, Launched(1, true), []);
    labels := Prepend(Overlapped(), Launched(0, true), labels);
    labels := OverlapThen(init, labels);
  }

  /** The same run, cut short: the first call reports its own success, but instance 1 is current and has not started. */
  lemma OverlapReportsEarly(init: State) returns (labels: seq<Label>)
    requires Init(init)
    ensures Runs(init, labels) && CleanRun(init, labels)
    ensures var s := After(init, labels);
            s.status.Started? && s.instance == Some(1) && s.up == {0}
  {
    hide Runs, After, Serial, CleanRun;
    EndOfRun(Step(Overlapped(), Launched(0, true)));
    labels := Prepend(Overlapped(), Launched(0, true), []);
    labels := OverlapThen(init, labels);
  }

  /** Here the first reload fails, closes instance 0 again and drops instance 1, which nobody closes. */
  lemma OverlapLosesInstance(init: State) returns (labels: seq<Label>)
    requires Init(init)
    ensures Runs(init, labels) && !Serial(init, labels)
    ensures var s := After(init, labels);
            && s.made == 2 && s.closes[0] == 2
            && s.closes[1] == 0 && s.instance == None && !Held(s, 1) && !Accounted(s, 1)
            && Quiet(s)
  {
    hide Runs, After, Serial, CleanRun;
    var s7 := Step(Overlapped(), Launched(0, false));
    var s8 := Step(s7, Launched(1, true));
    assert s8.calls == [Returned, Returned];
    EndOfRun(s8);
    labels := Prepend(s7, Launched(1, true), []);
    labels := Prepend(Overlapped(), Launched(0, false), labels);
    labels := OverlapThen(init, labels);
  }

  lemma EndOfRun(s: State)
    ensures Runs(s, []) && After(s, []) == s && CleanRun(s, [])
  {
  }

  lemma Prepend(s: State, l: Label, rest: seq<Label>) returns (labels: seq<Label>)
    requires Enabled(s, l) && Runs(Step(s, l), rest)
    ensures Runs(s, labels) && After(s, labels) == After(Step(s, l), rest)
    ensures Serial(s, labels) ==> (l.Begin? ==> Quiet(s)) && Serial(Step(s, l), rest)
    ensures CleanRun(s, labels) <==> Clean(s, l) && CleanRun(Step(s, l), rest)
    ensures labels != [] && labels[0] == l
  {
    labels := [l] + rest;
    assert labels[1..] == rest;
  }
}
