/**
 The automatic library upgrade as a transition system: backup, working copy,
 promotion, the admission handshake between supervisor and target, and the
 recovery at the next boot.

 A state holds what survives a crash (the live database and settings, the safety
 backups, the upgrade record, the admission files) and what does not (where the
 upgrade process stands, the target process). A crash may fall between any two
 steps, and a file being replaced may hold anything until the replacement is done.

 `official` is a history variable: the pair the user is entitled to. It changes
 only when the user or the running application changes the live pair, and when an
 upgrade is recorded as completed, which makes the pair that stands there official. A
 target that is starting up may change the live pair before it is admitted.

 The main results are `EveryRunIsGood`, `GoodExactlyWithoutFaults` and
 `MixedOnlyWhilePromoting`.
 */
module UpgradeProtocol {
  import opened Common

  // ------------------------------------------------------------------ the data

  /** Database content, and whether it carries the migration marker. */
  datatype Database = Database(content: int, marker: bool)

  datatype Pair = Pair(db: Database, config: Option<int>)

  /** What reading a file for a signature shows. */
  datatype Sight<T> = Seen(content: T) | Absent | Unreadable

  datatype Signature = Signature(db: Sight<Database>, config: Sight<int>)

  datatype Stage =
    | Migrating | Promoting | PromotedPending
    | InterruptedUnchanged | InterruptedRestored | Failed | Completed

  datatype Record = Record(stage: Stage, dir: nat, signature: Signature)

  /** Where a restore was started from. */
  datatype Cause = Interrupt(untouched: bool) | PromotionFailure | StartupFailure

  /** Where the upgrade process stands. */
  datatype Phase =
    | Off
    | Checking
    | Recovering
    | RestoringDatabase(dir: nat, cause: Cause)
    | RestoringConfig(dir: nat, cause: Cause)
    | Restored(dir: nat, cause: Cause)
    | Unrestorable(dir: nat)
    | Recovered
    | Prepared(dir: nat)
    | Running(dir: nat)
    | Checked(dir: nat)
    | PromotingConfig(dir: nat)
    | PromotingDatabase(dir: nat)
    | Promoted(dir: nat)
    | FailedEarly(dir: nat)
    | Spawning
    | Waiting(token: nat)
    | Committing(token: nat)
    | Admitting(token: nat)
    | CommitFailed(token: nat)
    | Terminating(token: nat)
    | TerminatingCommitted(token: nat)
    | TargetStopped
    | Released(token: nat)
    | Ready

  datatype Target = NoTarget | Validating(token: nat) | Awaiting(token: nat) | Admitted(token: nat)

  datatype State = State(
    live: Pair,
    backups: map<nat, Pair>,
    record: Option<Record>,
    validated: set<nat>,
    admitted: set<nat>,
    phase: Phase,
    target: Target,
    /** names not used yet, for backup directories and admission tokens */
    nextName: nat,
    /** the checked working copy of the current upgrade */
    promoted: Pair,
    official: Pair,
    /** this supervisor has tried to write the admitted file */
    attempted: bool)

  /** How a record write ends: acknowledged, refused without effect, or done on disk
      but reported as failed because it could not be verified. */
  datatype Ack = Acknowledged | Refused | Lost

  /** What may go wrong besides crashes, refused writes and unreadable files. */
  datatype Faults = Faults(
    /** the final `completed` record of an upgrade without admission may be lost */
    lostCompletion: bool,
    /** the `migrating` record may be lost */
    lostMigrating: bool,
    /** the recorded signature may hold an unreadable entry */
    blindSignature: bool,
    /** the upgrade record may read as missing although it is there */
    unreadableRecord: bool)

  const NoFaults := Faults(false, false, false, false)

  predicate Recoverable(record: Option<Record>) {
    && record.Some?
    && (record.value.stage.Migrating? || record.value.stage.Promoting? || record.value.stage.PromotedPending?)
  }

  predicate InStage(record: Option<Record>, stage: Stage) {
    record.Some? && record.value.stage == stage
  }

  /** A possible result of looking at the live files. */
  predicate Shows(sight: Signature, live: Pair) {
    && (sight.db == Seen(live.db) || sight.db.Unreadable?)
    && (sight.config == ConfigSight(live.config) || sight.config.Unreadable?)
  }

  function ConfigSight(config: Option<int>): Sight<int> {
    match config
    case Some(c) => Seen(c)
    case None => Absent
  }

  function FullSight(live: Pair): Signature {
    Signature(Seen(live.db), ConfigSight(live.config))
  }

  // ----------------------------------------------------------------- the steps

  datatype Step =
    // the world
    | Crash
    | Boot
    | Edit(pair: Pair)
    // recovery
    | CheckCompleted(markerSeen: bool, rollbackSeen: bool)
    | ReadInterrupted(readable: bool, sight: Signature)
    | ScribbleDatabase(db: Database)
    | ScribbleConfig(config: Option<int>)
    | FinishRestoreDatabase
    | FinishRestoreConfig
    | RestoreRaises
    | WriteRestored(ack: Ack)
    | WriteUnrestorable(ack: Ack)
    // upgrade
    | FindReady
    | Refuse
    | Capture
    | WriteMigrating(sight: Signature, ack: Ack)
    | RunnerSucceeds(db: Database, config: Option<int>)
    | RunnerFails
    | WritePromoting(ack: Ack)
    | FinishPromoteConfig
    | FinishPromoteDatabase
    | PromotionRaises
    | WriteCompleted(admission: bool, ack: Ack)
    | WriteFailed(ack: Ack)
    // admission
    | Spawn(readable: bool, started: bool)
    | TargetEdits(pair: Pair)
    | TargetValidates
    | TargetDies
    | TargetPasses
    | SeeValidated
    | GiveUp
    | CompleteAdmission(readable: bool, ack: Ack)
    | WriteAdmitted(ack: Ack)
    | ReadAfterFailure(readable: bool)
    | Terminate
    | RestoreAfterStartup(readable: bool)

  function Written(s: State, record: Record, ack: Ack): State {
    if ack.Refused? then s else s.(record := Some(record))
  }

  function WithStage(s: State, stage: Stage): Record
    requires s.record.Some?
  {
    s.record.value.(stage := stage)
  }

  predicate Scribbling(phase: Phase, database: bool) {
    if database then phase.RestoringDatabase? || phase.PromotingDatabase?
    else phase.RestoringConfig? || phase.PromotingConfig?
  }

  /** Crashes, boots and changes made by the user or the running application. */
  function World(s: State, step: Step): Option<State> {
    match step
    case Crash => Some(s.(phase := Off, target := NoTarget))
    case Boot =>
      if s.phase.Off? then Some(s.(phase := Checking, attempted := false)) else None
    case Edit(pair) =>
      if s.phase.Ready? || s.target.Admitted? || (s.phase.Off? && !Recoverable(s.record)) then
        Some(s.(live := pair, official := pair))
      else None
    case _ => None
  }

  /** `_restore_interrupted_upgrade` and `restore_upgrade_backup`. */
  function Recovery(f: Faults, s: State, step: Step): Option<State> {
    match step
    case CheckCompleted(markerSeen, rollbackSeen) =>
      if !s.phase.Checking? || (markerSeen && !s.live.db.marker) then None
      else if InStage(s.record, Completed) && !markerSeen && !rollbackSeen then Some(s.(phase := Off))
      else Some(s.(phase := Recovering))
    case ReadInterrupted(readable, sight) =>
      if !s.phase.Recovering? || !Shows(sight, s.live) || (!readable && !f.unreadableRecord) then None
      else if !readable || !Recoverable(s.record) then Some(s.(phase := Recovered))
      else
        var record := s.record.value;
        if record.dir !in s.backups then Some(s.(phase := Off))
        else if record.stage.Migrating? && record.signature == sight then
          Some(s.(phase := Restored(record.dir, Interrupt(true))))
        else Some(s.(phase := RestoringDatabase(record.dir, Interrupt(false))))
    case ScribbleDatabase(db) =>
      if Scribbling(s.phase, true) then Some(s.(live := s.live.(db := db))) else None
    case ScribbleConfig(config) =>
      if Scribbling(s.phase, false) then Some(s.(live := s.live.(config := config))) else None
    case FinishRestoreDatabase =>
      if s.phase.RestoringDatabase? && s.phase.dir in s.backups then
        Some(s.(live := s.live.(db := s.backups[s.phase.dir].db),
                phase := RestoringConfig(s.phase.dir, s.phase.cause)))
      else None
    case FinishRestoreConfig =>
      if s.phase.RestoringConfig? && s.phase.dir in s.backups then
        Some(s.(live := s.live.(config := s.backups[s.phase.dir].config),
                phase := Restored(s.phase.dir, s.phase.cause)))
      else None
    case RestoreRaises =>
      // an error while replacing, or a restored pair that does not read back
      if s.phase.RestoringDatabase? || s.phase.RestoringConfig?
         || (s.phase.Restored? && s.phase.cause.PromotionFailure?) then
        Some(s.(phase := if s.phase.cause.PromotionFailure? then Unrestorable(s.phase.dir) else Off))
      else None
    case WriteRestored(ack) =>
      if !s.phase.Restored? then None
      else
        var stage := match s.phase.cause
          case Interrupt(untouched) => if untouched then InterruptedUnchanged else InterruptedRestored
          case _ => Failed;
        var next := if s.phase.cause.Interrupt? && ack.Acknowledged? then Recovered else Off;
        Some(Written(s, Record(stage, s.phase.dir, FullSight(s.live)), ack).(phase := next))
    case WriteUnrestorable(ack) =>
      if !s.phase.Unrestorable? then None
      else Some(Written(s, Record(Promoting, s.phase.dir, FullSight(s.live)), ack).(phase := Off))
    case _ => None
  }

  /** `run_automatic_copy_upgrade` from the recovery to the checked working copy. */
  function Preparation(f: Faults, s: State, step: Step): Option<State> {
    match step
    case FindReady =>
      if s.phase.Recovered? && s.live.db.marker then Some(s.(phase := Ready)) else None
    case Refuse =>
      if s.phase.Recovered? then Some(s.(phase := Off)) else None
    case Capture =>
      if s.phase.Recovered? then
        Some(s.(backups := s.backups[s.nextName := s.live], phase := Prepared(s.nextName), nextName := s.nextName + 1))
      else None
    case WriteMigrating(sight, ack) =>
      if !s.phase.Prepared? || !Shows(sight, s.live)
         || (sight != FullSight(s.live) && !f.blindSignature) || (ack.Lost? && !f.lostMigrating) then None
      else
        var written := Written(s, Record(Migrating, s.phase.dir, sight), ack);
        if ack.Acknowledged? then Some(written.(phase := Running(s.phase.dir)))
        else Some(written.(phase := Off, backups := s.backups - {s.phase.dir}))
    case RunnerSucceeds(db, config) =>
      // a working copy without settings leaves the live settings in place
      if s.phase.Running? then
        Some(s.(promoted := Pair(db, if config.Some? then config else s.live.config),
                phase := Checked(s.phase.dir)))
      else None
    case RunnerFails =>
      if s.phase.Running? then Some(s.(phase := FailedEarly(s.phase.dir))) else None
    case WriteFailed(ack) =>
      if !s.phase.FailedEarly? then None
      else Some(Written(s, Record(Failed, s.phase.dir, FullSight(s.live)), ack).(phase := Off))
    case _ => None
  }

  /** `promote_working_copy` and the record that completes an upgrade. */
  function Promotion(f: Faults, s: State, step: Step): Option<State> {
    match step
    case WritePromoting(ack) =>
      if !s.phase.Checked? then None
      else
        var written := Written(s, Record(Promoting, s.phase.dir, FullSight(s.live)), ack);
        Some(written.(phase := if ack.Acknowledged? then PromotingConfig(s.phase.dir) else FailedEarly(s.phase.dir)))
    case FinishPromoteConfig =>
      if s.phase.PromotingConfig? && s.promoted.db.marker then
        Some(s.(live := s.live.(config := s.promoted.config), phase := PromotingDatabase(s.phase.dir)))
      else None
    case FinishPromoteDatabase =>
      if s.phase.PromotingDatabase? then
        Some(s.(live := s.live.(db := s.promoted.db), phase := Promoted(s.phase.dir)))
      else None
    case PromotionRaises =>
      if s.phase.PromotingConfig? || s.phase.PromotingDatabase? || s.phase.Promoted? then
        Some(s.(phase := RestoringDatabase(s.phase.dir, PromotionFailure)))
      else None
    case WriteCompleted(admission, ack) =>
      if !s.phase.Promoted? || (ack.Lost? && !admission && !f.lostCompletion) then None
      else
        var stage := if admission then PromotedPending else Completed;
        var written := Written(s, Record(stage, s.phase.dir, FullSight(s.live)), ack);
        var settled := if admission || ack.Refused? then written else written.(official := s.promoted);
        Some(settled.(phase := if !ack.Acknowledged? then RestoringDatabase(s.phase.dir, PromotionFailure)
                               else if admission then Spawning else Off))
    case _ => None
  }

  /** The target and the supervisor up to the moment they agree. */
  function Handshake(f: Faults, s: State, step: Step): Option<State> {
    match step
    case Spawn(readable, started) =>
      if !s.phase.Spawning? || (!readable && !f.unreadableRecord) then None
      else if !readable then Some(s.(phase := if started then Ready else TargetStopped))
      else if !started then Some(s.(phase := TargetStopped))
      else
        var token := s.nextName;
        Some(s.(phase := Waiting(token), target := Validating(token), nextName := token + 1,
                validated := s.validated - {token}, admitted := s.admitted - {token}))
    case TargetEdits(pair) =>
      // settings from older releases and an interrupted policy change are carried over
      if s.target.Validating? then Some(s.(live := pair)) else None
    case TargetValidates =>
      if s.target.Validating? then
        Some(s.(target := Awaiting(s.target.token), validated := s.validated + {s.target.token}))
      else None
    case TargetDies => Some(s.(target := NoTarget))
    case TargetPasses =>
      if s.target.Awaiting? && s.target.token in s.admitted then
        Some(s.(target := Admitted(s.target.token),
                validated := s.validated - {s.target.token}, admitted := s.admitted - {s.target.token}))
      else None
    case SeeValidated =>
      if s.phase.Waiting? && s.phase.token in s.validated then Some(s.(phase := Committing(s.phase.token)))
      else None
    case GiveUp =>
      if s.phase.Waiting? then Some(s.(phase := Terminating(s.phase.token))) else None
    case _ => None
  }

  /** `_complete_target_admission` and the release of the target. */
  function Commit(f: Faults, s: State, step: Step): Option<State> {
    match step
    case CompleteAdmission(readable, ack) =>
      if !s.phase.Committing? || (!readable && !f.unreadableRecord) then None
      else if !readable || !InStage(s.record, PromotedPending) then
        Some(s.(phase := CommitFailed(s.phase.token)))
      else
        var written := Written(s, WithStage(s, Completed), ack);
        var settled := if ack.Refused? then written else written.(official := s.live);
        Some(settled.(phase := if ack.Acknowledged? then Admitting(s.phase.token)
                               else CommitFailed(s.phase.token)))
    case WriteAdmitted(ack) =>
      if !s.phase.Admitting? then None
      else
        Some(s.(attempted := true,
                admitted := if ack.Refused? then s.admitted else s.admitted + {s.phase.token},
                phase := if ack.Acknowledged? then Released(s.phase.token) else CommitFailed(s.phase.token)))
    case _ => None
  }

  /** The supervisor after a handshake that failed. */
  function Withdrawal(f: Faults, s: State, step: Step): Option<State> {
    match step
    case ReadAfterFailure(readable) =>
      if !s.phase.CommitFailed? || (!readable && !f.unreadableRecord) then None
      else
        Some(s.(phase := if readable && InStage(s.record, Completed)
                         then TerminatingCommitted(s.phase.token) else Terminating(s.phase.token)))
    case Terminate =>
      if s.phase.TerminatingCommitted? then Some(s.(phase := Off, target := NoTarget))
      else if s.phase.Terminating? then Some(s.(phase := TargetStopped, target := NoTarget))
      else None
    case RestoreAfterStartup(readable) =>
      if !s.phase.TargetStopped? || (!readable && !f.unreadableRecord) then None
      else if !readable || !InStage(s.record, PromotedPending) || s.record.value.dir !in s.backups then
        Some(s.(phase := Off))
      else Some(s.(phase := RestoringDatabase(s.record.value.dir, StartupFailure)))
    case _ => None
  }

  /** One step of the system; None where the step is not possible. */
  function Do(f: Faults, s: State, step: Step): Option<State> {
    if World(s, step).Some? then World(s, step)
    else if Recovery(f, s, step).Some? then Recovery(f, s, step)
    else if Preparation(f, s, step).Some? then Preparation(f, s, step)
    else if Promotion(f, s, step).Some? then Promotion(f, s, step)
    else if Handshake(f, s, step).Some? then Handshake(f, s, step)
    else if Commit(f, s, step).Some? then Commit(f, s, step)
    else Withdrawal(f, s, step)
  }

  /** A run of any length. */
  function Run(f: Faults, s: State, steps: seq<Step>): Option<State> {
    if steps == [] then Some(s)
    else
      match Run(f, s, steps[..|steps| - 1])
      case None => None
      case Some(before) => Do(f, before, steps[|steps| - 1])
  }

  /** A machine that is off, with any live pair and nothing recorded yet. */
  function Start(live: Pair): State {
    State(live, map[], None, {}, {}, Off, NoTarget, 0, live, live, false)
  }

  // ------------------------------------------------------------ what must hold

  predicate Restoring(phase: Phase) {
    phase.RestoringDatabase? || phase.RestoringConfig? || phase.Restored? || phase.Unrestorable?
  }

  /** The safety of one state:
      - under a recoverable record the official pair is in its backup, and otherwise
        the live pair is the official one;
      - once the recovery of a boot is over, the live pair is the official one;
      - a target past admission runs on a completed upgrade, and none runs, nor has
        this supervisor offered admission, while the backup is restored. */
  predicate Good(s: State) {
    && (if Recoverable(s.record)
        then s.record.value.dir in s.backups && s.backups[s.record.value.dir] == s.official
        else s.live == s.official)
    && (s.phase.Recovered? ==> s.live == s.official)
    && (s.target.Admitted? ==> InStage(s.record, Completed))
    && (Restoring(s.phase) ==> s.target.NoTarget? && !s.attempted)
  }

  // -------------------------------------------------------------- the invariant

  predicate BackedUp(s: State, dir: nat) {
    && Recoverable(s.record) && s.record.value.dir == dir
    && dir in s.backups && s.backups[dir] == s.official
  }

  /** The target process belongs to this supervisor and has not been admitted. */
  predicate Unadmitted(s: State, token: nat) {
    && (s.target.NoTarget? || s.target == Validating(token) || s.target == Awaiting(token))
    && token !in s.admitted && !s.attempted
  }

  predicate Pending(s: State) {
    InStage(s.record, PromotedPending)
  }

  predicate Finished(s: State) {
    InStage(s.record, Completed) && s.live == s.official
  }

  /** The target process belongs to this supervisor and is past its start-up. */
  predicate Mine(s: State, token: nat) {
    s.target.NoTarget? || (s.target.token == token && !s.target.Validating?)
  }

  predicate PhaseInvariant(s: State) {
    match s.phase
    case Off => s.target.NoTarget?
    case Checking => s.target.NoTarget? && !s.attempted
    case Recovering => s.target.NoTarget? && !s.attempted
    case RestoringDatabase(dir, _) => s.target.NoTarget? && !s.attempted && BackedUp(s, dir)
    case RestoringConfig(dir, _) =>
      s.target.NoTarget? && !s.attempted && BackedUp(s, dir) && s.live.db == s.official.db
    case Restored(dir, _) =>
      s.target.NoTarget? && !s.attempted && BackedUp(s, dir) && s.live == s.official
    case Unrestorable(dir) => s.target.NoTarget? && !s.attempted && BackedUp(s, dir)
    case Recovered => s.target.NoTarget? && !s.attempted && !Recoverable(s.record)
    case Prepared(dir) =>
      s.target.NoTarget? && !s.attempted && !Recoverable(s.record)
      && dir in s.backups && s.backups[dir] == s.official
    case Running(dir) =>
      s.target.NoTarget? && !s.attempted && BackedUp(s, dir) && InStage(s.record, Migrating) && s.live == s.official
    case Checked(dir) =>
      s.target.NoTarget? && !s.attempted && BackedUp(s, dir) && s.live == s.official
    case PromotingConfig(dir) => s.target.NoTarget? && !s.attempted && BackedUp(s, dir)
    case PromotingDatabase(dir) =>
      s.target.NoTarget? && !s.attempted && BackedUp(s, dir) && s.live.config == s.promoted.config
    case Promoted(dir) =>
      s.target.NoTarget? && !s.attempted && BackedUp(s, dir) && s.live == s.promoted
    case FailedEarly(_) => s.target.NoTarget? && !s.attempted && s.live == s.official
    case Spawning => s.target.NoTarget? && !s.attempted && Pending(s)
    case Waiting(token) =>
      Unadmitted(s, token) && Pending(s) && (s.target.Validating? ==> token !in s.validated)
    case Committing(token) => Mine(s, token) && Unadmitted(s, token) && Pending(s)
    case Admitting(token) => Mine(s, token) && Unadmitted(s, token) && Finished(s)
    case CommitFailed(token) =>
      Mine(s, token) && (Finished(s) || (Unadmitted(s, token) && Pending(s)))
    case Terminating(token) => Unadmitted(s, token) && Pending(s)
    case TerminatingCommitted(token) => Mine(s, token) && Finished(s)
    case TargetStopped => s.target.NoTarget? && !s.attempted && Pending(s)
    case Released(token) => Mine(s, token) && Finished(s)
    case Ready => s.target.NoTarget? && !Recoverable(s.record)
  }

  /** Names in use are below the next one. */
  predicate Names(s: State) {
    && (forall token | token in s.admitted :: token < s.nextName)
    && (forall dir | dir in s.backups :: dir < s.nextName)
    && (s.target.NoTarget? || s.target.token < s.nextName)
    && (s.phase.Admitting? ==> s.phase.token < s.nextName)
    && (s.phase.Committing? ==> s.phase.token < s.nextName)
    && (s.phase.Waiting? ==> s.phase.token < s.nextName)
  }

  predicate NextIsNew(s: State) {
    s.nextName !in s.admitted && s.nextName !in s.backups
  }

  predicate Core(s: State) {
    && Good(s)
    && PhaseInvariant(s)
    && (InStage(s.record, Migrating) ==> s.record.value.signature == FullSight(s.official))
  }

  predicate Invariant(s: State) {
    Core(s) && Names(s)
  }

  lemma WorldKeepsNames(s: State, step: Step)
    requires Names(s) && World(s, step).Some?
    ensures Names(World(s, step).value)
  {
  }

  lemma WorldKeepsCore(s: State, step: Step)
    requires Core(s) && NextIsNew(s) && World(s, step).Some?
    ensures Core(World(s, step).value)
  {
  }

  lemma RecoveryKeepsNames(f: Faults, s: State, step: Step)
    requires Names(s) && Recovery(f, s, step).Some?
    ensures Names(Recovery(f, s, step).value)
  {
  }

  lemma RecoveryLooks(s: State, step: Step)
    requires step.CheckCompleted? || step.ReadInterrupted?
    requires Core(s) && NextIsNew(s) && Recovery(NoFaults, s, step).Some?
    ensures Core(Recovery(NoFaults, s, step).value)
  {
  }

  lemma RecoveryReplaces(s: State, step: Step)
    requires step.ScribbleDatabase? || step.ScribbleConfig? || step.FinishRestoreDatabase? || step.FinishRestoreConfig?
    requires Core(s) && NextIsNew(s) && Recovery(NoFaults, s, step).Some?
    ensures Core(Recovery(NoFaults, s, step).value)
  {
  }

  lemma RecoveryEnds(s: State, step: Step)
    requires step.RestoreRaises? || step.WriteRestored? || step.WriteUnrestorable?
    requires Core(s) && NextIsNew(s) && Recovery(NoFaults, s, step).Some?
    ensures Core(Recovery(NoFaults, s, step).value)
  {
  }

  lemma RecoverySteps(f: Faults, s: State, step: Step)
    requires Recovery(f, s, step).Some?
    ensures || step.CheckCompleted? || step.ReadInterrupted?
            || step.ScribbleDatabase? || step.ScribbleConfig?
            || step.FinishRestoreDatabase? || step.FinishRestoreConfig?
            || step.RestoreRaises? || step.WriteRestored? || step.WriteUnrestorable?
  {
  }

  lemma RecoveryKeepsCore(s: State, step: Step)
    requires Core(s) && NextIsNew(s) && Recovery(NoFaults, s, step).Some?
    ensures Core(Recovery(NoFaults, s, step).value)
  {
    hide Core, Recovery, NextIsNew;
    RecoverySteps(NoFaults, s, step);
    if step.CheckCompleted? || step.ReadInterrupted? {
      RecoveryLooks(s, step);
    } else if step.RestoreRaises? || step.WriteRestored? || step.WriteUnrestorable? {
      RecoveryEnds(s, step);
    } else {
      RecoveryReplaces(s, step);
    }
  }

  lemma PreparationKeepsNames(f: Faults, s: State, step: Step)
    requires Names(s) && Preparation(f, s, step).Some?
    ensures Names(Preparation(f, s, step).value)
  {
  }

  lemma MigratingKeepsCore(s: State, step: Step)
    requires step.WriteMigrating? && Core(s) && NextIsNew(s) && Preparation(NoFaults, s, step).Some?
    ensures Core(Preparation(NoFaults, s, step).value)
  {
  }

  lemma CopyingKeepsCore(s: State, step: Step)
    requires !step.WriteMigrating? && Core(s) && NextIsNew(s) && Preparation(NoFaults, s, step).Some?
    ensures Core(Preparation(NoFaults, s, step).value)
  {
  }

  lemma PreparationKeepsCore(s: State, step: Step)
    requires Core(s) && NextIsNew(s) && Preparation(NoFaults, s, step).Some?
    ensures Core(Preparation(NoFaults, s, step).value)
  {
    hide Core, Preparation, NextIsNew;
    if step.WriteMigrating? {
      MigratingKeepsCore(s, step);
    } else {
      CopyingKeepsCore(s, step);
    }
  }

  lemma PromotionKeepsNames(f: Faults, s: State, step: Step)
    requires Names(s) && Promotion(f, s, step).Some?
    ensures Names(Promotion(f, s, step).value)
  {
  }

  lemma RecordingKeepsCore(s: State, step: Step)
    requires step.WritePromoting? || step.WriteCompleted?
    requires Core(s) && Promotion(NoFaults, s, step).Some?
    ensures Core(Promotion(NoFaults, s, step).value)
  {
  }

  lemma ReplacingKeepsCore(s: State, step: Step)
    requires !step.WritePromoting? && !step.WriteCompleted?
    requires Core(s) && Promotion(NoFaults, s, step).Some?
    ensures Core(Promotion(NoFaults, s, step).value)
  {
  }

  lemma PromotionKeepsCore(s: State, step: Step)
    requires Core(s) && NextIsNew(s) && Promotion(NoFaults, s, step).Some?
    ensures Core(Promotion(NoFaults, s, step).value)
  {
    hide Core, Promotion, NextIsNew;
    if step.WritePromoting? || step.WriteCompleted? {
      RecordingKeepsCore(s, step);
    } else {
      ReplacingKeepsCore(s, step);
    }
  }

  lemma HandshakeKeepsNames(f: Faults, s: State, step: Step)
    requires Names(s) && Handshake(f, s, step).Some?
    ensures Names(Handshake(f, s, step).value)
  {
  }

  lemma SpawnKeepsCore(s: State, step: Step)
    requires step.Spawn? && Core(s) && NextIsNew(s) && Handshake(NoFaults, s, step).Some?
    ensures Core(Handshake(NoFaults, s, step).value)
  {
  }

  lemma TargetKeepsCore(s: State, step: Step)
    requires !step.Spawn? && Core(s) && NextIsNew(s) && Handshake(NoFaults, s, step).Some?
    ensures Core(Handshake(NoFaults, s, step).value)
  {
  }

  lemma HandshakeKeepsCore(s: State, step: Step)
    requires Core(s) && NextIsNew(s) && Handshake(NoFaults, s, step).Some?
    ensures Core(Handshake(NoFaults, s, step).value)
  {
    hide Core, Handshake, NextIsNew;
    if step.Spawn? {
      SpawnKeepsCore(s, step);
    } else {
      TargetKeepsCore(s, step);
    }
  }

  lemma CommitKeepsNames(f: Faults, s: State, step: Step)
    requires Names(s) && Commit(f, s, step).Some?
    ensures Names(Commit(f, s, step).value)
  {
  }

  lemma CompletingKeepsCore(s: State, step: Step)
    requires step.CompleteAdmission? && Core(s) && NextIsNew(s) && Commit(NoFaults, s, step).Some?
    ensures Core(Commit(NoFaults, s, step).value)
  {
  }

  lemma AdmittingKeepsCore(s: State, step: Step)
    requires !step.CompleteAdmission? && Core(s) && NextIsNew(s) && Commit(NoFaults, s, step).Some?
    ensures Core(Commit(NoFaults, s, step).value)
  {
  }

  lemma CommitKeepsCore(s: State, step: Step)
    requires Core(s) && NextIsNew(s) && Commit(NoFaults, s, step).Some?
    ensures Core(Commit(NoFaults, s, step).value)
  {
    hide Core, Commit, NextIsNew;
    if step.CompleteAdmission? {
      CompletingKeepsCore(s, step);
    } else {
      AdmittingKeepsCore(s, step);
    }
  }

  lemma WithdrawalKeepsNames(f: Faults, s: State, step: Step)
    requires Names(s) && Withdrawal(f, s, step).Some?
    ensures Names(Withdrawal(f, s, step).value)
  {
  }

  lemma WithdrawalKeepsCore(s: State, step: Step)
    requires Core(s) && NextIsNew(s) && Withdrawal(NoFaults, s, step).Some?
    ensures Core(Withdrawal(NoFaults, s, step).value)
  {
  }

  /** Every state of every run satisfies the invariant. */
  lemma {:induction false} RunKeepsInvariant(live: Pair, steps: seq<Step>)
    requires Run(NoFaults, Start(live), steps).Some?
    ensures Invariant(Run(NoFaults, Start(live), steps).value)
  {
    if steps != [] {
      var before := steps[..|steps| - 1];
      var step := steps[|steps| - 1];
      RunKeepsInvariant(live, before);
      hide World, Recovery, Preparation, Promotion, Handshake, Commit, Withdrawal, Core;
      var s := Run(NoFaults, Start(live), before).value;
      if World(s, step).Some? {
        WorldKeepsNames(s, step);
        WorldKeepsCore(s, step);
      } else if Recovery(NoFaults, s, step).Some? {
        RecoveryKeepsNames(NoFaults, s, step);
        RecoveryKeepsCore(s, step);
      } else if Preparation(NoFaults, s, step).Some? {
        PreparationKeepsNames(NoFaults, s, step);
        PreparationKeepsCore(s, step);
      } else if Promotion(NoFaults, s, step).Some? {
        PromotionKeepsNames(NoFaults, s, step);
        PromotionKeepsCore(s, step);
      } else if Handshake(NoFaults, s, step).Some? {
        HandshakeKeepsNames(NoFaults, s, step);
        HandshakeKeepsCore(s, step);
      } else if Commit(NoFaults, s, step).Some? {
        CommitKeepsNames(NoFaults, s, step);
        CommitKeepsCore(s, step);
      } else {
        WithdrawalKeepsNames(NoFaults, s, step);
        WithdrawalKeepsCore(s, step);
      }
    }
  }

  /** SAFETY. Whatever happens in whatever order, with a crash between any two steps
      of any number of boots, every state is good. */
  lemma EveryRunIsGood(live: Pair, steps: seq<Step>)
    requires Run(NoFaults, Start(live), steps).Some?
    ensures Good(Run(NoFaults, Start(live), steps).value)
  {
    RunKeepsInvariant(live, steps);
  }

  // ------------------------------------------------------------ the sharp edges

  /** One more step of a run. */
  lemma Go(f: Faults, start: State, steps: seq<Step>, s: State, step: Step)
    returns (longer: seq<Step>, next: State)
    requires Run(f, start, steps) == Some(s) && Do(f, s, step).Some?
    ensures longer == steps + [step] && next == Do(f, s, step).value
    ensures Run(f, start, longer) == Some(next)
  {
    longer, next := steps + [step], Do(f, s, step).value;
    assert longer[..|longer| - 1] == steps;
  }

  lemma NoSteps(f: Faults, start: State)
    ensures Run(f, start, []) == Some(start)
  {
  }

  /** A crash, a boot and the look at the interrupted record. */
  lemma Reboot(f: Faults, start: State, steps: seq<Step>, s: State, readable: bool, sight: Signature)
    returns (longer: seq<Step>, next: State)
    requires Run(f, start, steps) == Some(s) && !InStage(s.record, Completed)
    requires Shows(sight, s.live) && (readable || f.unreadableRecord)
    ensures PlainSteps(steps, true) ==> PlainSteps(longer, true)
    ensures var booted := s.(phase := Recovering, target := NoTarget, attempted := false);
            Recovery(f, booted, ReadInterrupted(readable, sight)) == Some(next)
    ensures Run(f, start, longer) == Some(next)
  {
    hide Run;
    longer, next := Go(f, start, steps, s, Crash);
    longer, next := Go(f, start, longer, next, Boot);
    longer, next := Go(f, start, longer, next, CheckCompleted(false, false));
    longer, next := Go(f, start, longer, next, ReadInterrupted(readable, sight));
  }

  const Original := Pair(Database(0, false), Some(0))
  const Upgraded := Pair(Database(1, true), Some(1))

  /** A first boot that looks at the completed upgrade. */
  lemma FirstLook(f: Faults) returns (steps: seq<Step>, s: State)
    ensures Run(f, Start(Original), steps) == Some(s) && PlainSteps(steps, true)
    ensures s == Start(Original).(phase := Recovering)
  {
    hide Run;
    steps, s := [], Start(Original);
    assert Run(f, s, []) == Some(s) by { NoSteps(f, s); }
    steps, s := Go(f, Start(Original), steps, s, Boot);
    steps, s := Go(f, Start(Original), steps, s, CheckCompleted(false, false));
  }

  /** The same boot up to the captured backup. */
  lemma FirstCapture(f: Faults) returns (steps: seq<Step>, s: State)
    ensures Run(f, Start(Original), steps) == Some(s) && PlainSteps(steps, true)
    ensures s == Start(Original).(backups := map[0 := Original], phase := Prepared(0), nextName := 1)
  {
    hide Run;
    steps, s := FirstLook(f);
    steps, s := Go(f, Start(Original), steps, s, ReadInterrupted(true, FullSight(Original)));
    steps, s := Go(f, Start(Original), steps, s, Capture);
  }

  /** The same boot up to the checked working copy. */
  lemma FirstChecked(f: Faults) returns (steps: seq<Step>, s: State)
    ensures Run(f, Start(Original), steps) == Some(s) && PlainSteps(steps, true)
    ensures s == Start(Original).(
                   backups := map[0 := Original],
                   record := Some(Record(Migrating, 0, FullSight(Original))),
                   phase := Checked(0), nextName := 1, promoted := Upgraded)
  {
    hide Run;
    steps, s := FirstCapture(f);
    steps, s := Go(f, Start(Original), steps, s, WriteMigrating(FullSight(Original), Acknowledged));
    steps, s := Go(f, Start(Original), steps, s, RunnerSucceeds(Upgraded.db, Upgraded.config));
  }

  /** The same boot up to the moment when the new settings stand beside the old database. */
  lemma HalfPromoted(f: Faults) returns (steps: seq<Step>, s: State)
    ensures Run(f, Start(Original), steps) == Some(s) && PlainSteps(steps, true)
    ensures s == Start(Original).(
                   live := Pair(Original.db, Upgraded.config), backups := map[0 := Original],
                   record := Some(Record(Promoting, 0, FullSight(Original))),
                   phase := PromotingDatabase(0), nextName := 1, promoted := Upgraded)
  {
    hide Run;
    steps, s := FirstChecked(f);
    steps, s := Go(f, Start(Original), steps, s, WritePromoting(Acknowledged));
    steps, s := Go(f, Start(Original), steps, s, FinishPromoteConfig);
  }

  // -------------------------------------------- new settings beside an old database

  predicate PlainStep(step: Step, admission: bool) {
    && !step.ScribbleDatabase? && !step.ScribbleConfig?
    && (step.WriteCompleted? ==> step.admission == admission)
  }

  /** The caller asks for admission or not, and a file that is being replaced holds its old
      content until the replacement is done. */
  predicate PlainSteps(steps: seq<Step>, admission: bool) {
    forall i | 0 <= i < |steps| :: PlainStep(steps[i], admission)
  }

  predicate Mixed(s: State) {
    s.live == Pair(s.official.db, s.promoted.config) && s.live != s.official
  }

  predicate Confined(s: State, admission: bool) {
    && (InStage(s.record, Migrating) ==> s.live == s.official)
    && (InStage(s.record, PromotedPending) ==> admission)
    && (s.phase.PromotingConfig? || s.phase.PromotingDatabase? || s.phase.Promoted? ==> InStage(s.record, Promoting))
  }

  lemma PreparationKeepsConfined(s: State, step: Step, admission: bool)
    requires Core(s) && Confined(s, admission) && Preparation(NoFaults, s, step).Some?
    ensures Confined(Preparation(NoFaults, s, step).value, admission)
  {
  }

  lemma PromotionKeepsConfined(s: State, step: Step, admission: bool)
    requires Core(s) && Confined(s, admission) && PlainStep(step, admission) && Promotion(NoFaults, s, step).Some?
    ensures Confined(Promotion(NoFaults, s, step).value, admission)
  {
  }

  lemma HandshakeKeepsConfined(s: State, step: Step, admission: bool)
    requires Core(s) && Confined(s, admission)
    ensures Handshake(NoFaults, s, step).Some? ==> Confined(Handshake(NoFaults, s, step).value, admission)
    ensures Commit(NoFaults, s, step).Some? ==> Confined(Commit(NoFaults, s, step).value, admission)
    ensures Withdrawal(NoFaults, s, step).Some? ==> Confined(Withdrawal(NoFaults, s, step).value, admission)
  {
  }

  lemma WorldKeepsConfined(s: State, step: Step, admission: bool)
    requires Core(s) && Confined(s, admission) && World(s, step).Some?
    ensures Confined(World(s, step).value, admission)
  {
  }

  lemma RecoveryKeepsConfined(s: State, step: Step, admission: bool)
    requires Core(s) && Confined(s, admission) && PlainStep(step, admission) && Recovery(NoFaults, s, step).Some?
    ensures Confined(Recovery(NoFaults, s, step).value, admission)
  {
  }

  lemma {:induction false} RunKeepsConfined(live: Pair, steps: seq<Step>, admission: bool)
    requires Run(NoFaults, Start(live), steps).Some? && PlainSteps(steps, admission)
    ensures Confined(Run(NoFaults, Start(live), steps).value, admission)
  {
    if steps != [] {
      var before := steps[..|steps| - 1];
      var step := steps[|steps| - 1];
      RunKeepsConfined(live, before, admission);
      RunKeepsInvariant(live, before);
      hide World, Recovery, Preparation, Promotion, Handshake, Commit, Withdrawal, Core, Confined, PlainStep;
      var s := Run(NoFaults, Start(live), before).value;
      if World(s, step).Some? {
        WorldKeepsConfined(s, step, admission);
      } else if Recovery(NoFaults, s, step).Some? {
        RecoveryKeepsConfined(s, step, admission);
      } else if Preparation(NoFaults, s, step).Some? {
        PreparationKeepsConfined(s, step, admission);
      } else if Promotion(NoFaults, s, step).Some? {
        PromotionKeepsConfined(s, step, admission);
      } else {
        HandshakeKeepsConfined(s, step, admission);
      }
    }
  }

  /** New settings stand beside an old database only while the record says `promoting`, or
      awaits the start-up of a target that was asked for. */
  lemma MixedIsConfined(live: Pair, steps: seq<Step>, admission: bool)
    requires Run(NoFaults, Start(live), steps).Some? && PlainSteps(steps, admission)
    ensures var s := Run(NoFaults, Start(live), steps).value;
            Mixed(s) ==> InStage(s.record, Promoting) || (admission && InStage(s.record, PromotedPending))
  {
    hide Run;
    RunKeepsConfined(live, steps, admission);
    EveryRunIsGood(live, steps);
  }

  ghost predicate OnlyWhilePromoting(admission: bool) {
    forall live: Pair, steps: seq<Step> ::
      Run(NoFaults, Start(live), steps).Some? && PlainSteps(steps, admission)
      && Mixed(Run(NoFaults, Start(live), steps).value)
      ==> InStage(Run(NoFaults, Start(live), steps).value.record, Promoting)
  }

  /** They are confined to the stage `promoting` exactly if no admission is asked for. */
  lemma MixedOnlyWhilePromoting(admission: bool)
    ensures OnlyWhilePromoting(admission) <==> !admission
  {
    hide Run, Mixed, InStage, PlainStep;
    if admission {
      var steps, s := MixedWhilePending();
      NotBothStages(s.record);
    } else {
      forall live: Pair, steps: seq<Step> | Run(NoFaults, Start(live), steps).Some? && PlainSteps(steps, false)
        ensures Mixed(Run(NoFaults, Start(live), steps).value)
                ==> InStage(Run(NoFaults, Start(live), steps).value.record, Promoting)
      {
        MixedIsConfined(live, steps, false);
      }
    }
  }

  lemma NotBothStages(record: Option<Record>)
    ensures InStage(record, PromotedPending) ==> !InStage(record, Promoting)
  {
  }

  /** The same boot up to the moment when a target is to be spawned. */
  lemma PromotedWithAdmission(f: Faults) returns (steps: seq<Step>, s: State)
    ensures Run(f, Start(Original), steps) == Some(s) && PlainSteps(steps, true)
    ensures s == Start(Original).(
                   live := Upgraded, backups := map[0 := Original],
                   record := Some(Record(PromotedPending, 0, FullSight(Upgraded))),
                   phase := Spawning, nextName := 1, promoted := Upgraded)
  {
    hide Run;
    steps, s := HalfPromoted(f);
    steps, s := Go(f, Start(Original), steps, s, FinishPromoteDatabase);
    steps, s := Go(f, Start(Original), steps, s, WriteCompleted(true, Acknowledged));
  }

  /** Without any fault, the recovery of an upgrade that awaited admission restores the
      database first, while the record still says `promoted_pending_startup`. */
  lemma MixedWhilePending() returns (steps: seq<Step>, s: State)
    ensures Run(NoFaults, Start(Original), steps) == Some(s) && PlainSteps(steps, true)
    ensures InStage(s.record, PromotedPending) && Mixed(s)
    ensures s.live == Pair(Original.db, Upgraded.config)
  {
    hide Run;
    var f := NoFaults;
    steps, s := PromotedWithAdmission(f);
    steps, s := Reboot(f, Start(Original), steps, s, true, FullSight(Upgraded));
    steps, s := Go(f, Start(Original), steps, s, FinishRestoreDatabase);
  }

  /** If the final record can be lost, a crash during the restore that follows leaves
      a mixed pair under a record that says `completed`. */
  lemma LostCompletionMixes(f: Faults) returns (steps: seq<Step>, s: State)
    requires f.lostCompletion
    ensures Run(f, Start(Original), steps) == Some(s) && !Good(s)
    ensures s.phase.Off? && InStage(s.record, Completed)
    ensures s.live == Pair(Original.db, Upgraded.config)
  {
    hide Run;
    steps, s := HalfPromoted(f);
    steps, s := Go(f, Start(Original), steps, s, FinishPromoteDatabase);
    steps, s := Go(f, Start(Original), steps, s, WriteCompleted(false, Lost));
    steps, s := Go(f, Start(Original), steps, s, FinishRestoreDatabase);
    steps, s := Go(f, Start(Original), steps, s, Crash);
  }

  /** A recoverable record that points to no backup, and nothing running past recovery. */
  predicate Stranded(s: State) {
    && Recoverable(s.record) && s.record.value.dir !in s.backups
    && (s.phase.Off? || s.phase.Checking? || s.phase.Recovering?) && s.target.NoTarget?
  }

  lemma StrandedBoot(f: Faults, s: State, step: Step)
    requires Stranded(s) && !f.unreadableRecord
    ensures World(s, step).Some? ==> Stranded(World(s, step).value)
    ensures Recovery(f, s, step).Some? ==> Stranded(Recovery(f, s, step).value)
  {
  }

  lemma StrandedElsewhere(f: Faults, s: State, step: Step)
    requires Stranded(s)
    ensures Preparation(f, s, step).None? && Promotion(f, s, step).None?
  {
  }

  lemma StrandedAlone(f: Faults, s: State, step: Step)
    requires Stranded(s)
    ensures Commit(f, s, step).None? && Withdrawal(f, s, step).None?
    ensures Handshake(f, s, step).Some? ==> Stranded(Handshake(f, s, step).value)
  {
  }

  lemma StrandedStep(f: Faults, s: State, step: Step)
    requires Stranded(s) && !f.unreadableRecord && Do(f, s, step).Some?
    ensures Stranded(Do(f, s, step).value)
  {
    hide Stranded, World, Recovery, Preparation, Promotion, Handshake, Commit, Withdrawal;
    StrandedBoot(f, s, step);
    StrandedElsewhere(f, s, step);
    StrandedAlone(f, s, step);
  }

  /** While the record can be read, no later boot gets past such a record. */
  lemma {:induction false} StrandedForever(f: Faults, s: State, steps: seq<Step>)
    requires Stranded(s) && !f.unreadableRecord && Run(f, s, steps).Some?
    ensures Stranded(Run(f, s, steps).value)
  {
    if steps != [] {
      var before := steps[..|steps| - 1];
      StrandedForever(f, s, before);
      hide Do, Stranded;
      StrandedStep(f, Run(f, s, before).value, steps[|steps| - 1]);
    }
  }

  /** If the `migrating` record can be lost, it may point to a backup that has been
      swept away, for ever. */
  lemma LostMigratingStrands(f: Faults) returns (steps: seq<Step>, s: State)
    requires f.lostMigrating
    ensures Run(f, Start(Original), steps) == Some(s) && !Good(s)
    ensures Stranded(s)
  {
    hide Run;
    steps, s := FirstCapture(f);
    steps, s := Go(f, Start(Original), steps, s, WriteMigrating(FullSight(Original), Lost));
  }

  /** If the recorded signature can be blind, two unreadable entries pass for equal
      ones and a torn database is declared unchanged. */
  lemma BlindSignatureKeepsTornDatabase(f: Faults) returns (steps: seq<Step>, s: State)
    requires f.blindSignature
    ensures Run(f, Start(Original), steps) == Some(s) && !Good(s)
    ensures s.phase.Recovered? && InStage(s.record, InterruptedUnchanged)
    ensures s.live.db != Original.db && s.live.db != Upgraded.db
  {
    hide Run;
    var blind := FullSight(Original).(db := Unreadable);
    var torn := Database(2, false);
    steps, s := FirstCapture(f);
    steps, s := Go(f, Start(Original), steps, s, WriteMigrating(blind, Acknowledged));
    steps, s := Reboot(f, Start(Original), steps, s, true, FullSight(Original));
    steps, s := Go(f, Start(Original), steps, s, ScribbleDatabase(torn));
    steps, s := Reboot(f, Start(Original), steps, s, true, blind);
    steps, s := Go(f, Start(Original), steps, s, WriteRestored(Acknowledged));
  }

  /** If the record can read as missing, the recovery is skipped over a mixed pair. */
  lemma UnreadableRecordSkipsRecovery(f: Faults) returns (steps: seq<Step>, s: State)
    requires f.unreadableRecord
    ensures Run(f, Start(Original), steps) == Some(s) && !Good(s)
    ensures s.phase.Recovered? && s.live == Pair(Original.db, Upgraded.config)
  {
    hide Run;
    steps, s := HalfPromoted(f);
    steps, s := Reboot(f, Start(Original), steps, s, false, FullSight(Pair(Original.db, Upgraded.config)));
  }

  ghost predicate AllRunsGood(f: Faults) {
    forall live: Pair, steps: seq<Step> ::
      Run(f, Start(live), steps).Some? ==> Good(Run(f, Start(live), steps).value)
  }

  /** The protocol is safe on all runs exactly when none of the four faults occurs:
      each of them alone breaks it. */
  lemma GoodExactlyWithoutFaults(f: Faults)
    ensures AllRunsGood(f) <==> f == NoFaults
  {
    hide Do, Good;
    if f == NoFaults {
      forall live: Pair, steps: seq<Step> | Run(f, Start(live), steps).Some?
        ensures Good(Run(f, Start(live), steps).value)
      {
        EveryRunIsGood(live, steps);
      }
    } else {
      var steps, s;
      if f.lostCompletion {
        steps, s := LostCompletionMixes(f);
      } else if f.lostMigrating {
        steps, s := LostMigratingStrands(f);
      } else if f.blindSignature {
        steps, s := BlindSignatureKeepsTornDatabase(f);
      } else {
        steps, s := UnreadableRecordSkipsRecovery(f);
      }
    }
  }

  // -------------------------------------------------------- what is got done

  /** One run after another. */
  lemma {:induction false} RunOn(f: Faults, s: State, a: seq<Step>, b: seq<Step>)
    requires Run(f, s, a).Some?
    ensures Run(f, s, a + b) == Run(f, Run(f, s, a).value, b)
  {
    hide Do;
    if b == [] {
      assert a + b == a;
    } else {
      assert (a + b)[..|a + b| - 1] == a + b[..|b| - 1];
      RunOn(f, s, a, b[..|b| - 1]);
    }
  }

  lemma RunOne(f: Faults, s: State, a: Step)
    ensures Run(f, s, [a]) == Do(f, s, a)
  {
    hide Do;
    assert [a][..0] == [];
  }

  lemma RunTwo(f: Faults, s: State, a: Step, b: Step)
    requires Do(f, s, a).Some?
    ensures Run(f, s, [a, b]) == Do(f, Do(f, s, a).value, b)
  {
    hide Do, Run;
    assert [a, b] == [a] + [b];
    RunOne(f, s, a);
    RunOn(f, s, [a], [b]);
    RunOne(f, Do(f, s, a).value, b);
  }

  lemma RunThree(f: Faults, s: State, a: Step, b: Step, c: Step)
    requires Do(f, s, a).Some? && Do(f, Do(f, s, a).value, b).Some?
    ensures Run(f, s, [a, b, c]) == Do(f, Do(f, Do(f, s, a).value, b).value, c)
  {
    hide Do, Run;
    assert [a, b, c] == [a, b] + [c];
    RunTwo(f, s, a, b);
    RunOn(f, s, [a, b], [c]);
    RunOne(f, Do(f, Do(f, s, a).value, b).value, c);
  }

  /** Who takes a step. */
  lemma Taken(f: Faults, s: State, step: Step)
    ensures step.CompleteAdmission? || step.WriteAdmitted? ==> Do(f, s, step) == Commit(f, s, step)
    ensures step.ReadAfterFailure? || step.Terminate? || step.RestoreAfterStartup? ==>
              Do(f, s, step) == Withdrawal(f, s, step)
  {
  }

  /** An admission that nothing disturbs. */
  const Admission := [CompleteAdmission(true, Acknowledged), WriteAdmitted(Acknowledged), TargetPasses]

  /** ADMISSION IS REACHED: a validated target under a pending record is admitted in three
      steps, and the pair that stands there becomes the official one. */
  lemma AdmissionCompletes(f: Faults, s: State, token: nat)
    requires s.phase == Committing(token) && s.target == Awaiting(token) && InStage(s.record, PromotedPending)
    ensures var e := Run(f, s, Admission);
            && e.Some? && e.value.target == Admitted(token) && e.value.phase == Released(token)
            && e.value.record == Some(s.record.value.(stage := Completed))
            && e.value.live == s.live == e.value.official && e.value.backups == s.backups
            && token !in e.value.validated + e.value.admitted && e.value.attempted
  {
    hide Run;
    RunThree(f, s, CompleteAdmission(true, Acknowledged), WriteAdmitted(Acknowledged), TargetPasses);
  }

  /** Restoring a backup, up to the record that says so. */
  const Restoration := [FinishRestoreDatabase, FinishRestoreConfig, WriteRestored(Acknowledged)]

  function StageAfter(cause: Cause): Stage {
    if cause == Interrupt(true) then InterruptedUnchanged
    else if cause == Interrupt(false) then InterruptedRestored
    else Failed
  }

  lemma RestorationCompletes(f: Faults, s: State)
    requires s.phase.RestoringDatabase? && s.phase.dir in s.backups
    ensures var e, dir := Run(f, s, Restoration), s.phase.dir;
            && e.Some? && e.value.live == s.backups[dir]
            && e.value.record == Some(Record(StageAfter(s.phase.cause), dir, FullSight(s.backups[dir])))
            && e.value.phase == (if s.phase.cause.Interrupt? then Recovered else Off)
            && e.value.backups == s.backups && e.value.target == s.target
            && e.value.official == s.official && e.value.admitted == s.admitted
  {
    hide Run;
    RunThree(f, s, FinishRestoreDatabase, FinishRestoreConfig, WriteRestored(Acknowledged));
  }

  /** The live pair is the backup of the record, which has failed, and everything is off. */
  predicate RolledBack(before: State, after: State) {
    && before.record.Some? && before.record.value.dir in before.backups
    && after.live == before.backups[before.record.value.dir]
    && after.record == Some(Record(Failed, before.record.value.dir, FullSight(after.live)))
    && after.phase == Off && after.target == NoTarget && after.backups == before.backups
    && after.official == before.official
  }

  /** A target that could not be started, or was stopped before it was admitted, is rolled
      back. */
  lemma StartupFailureIsRolledBack(f: Faults, s: State)
    requires s.phase.TargetStopped? && s.target.NoTarget?
    requires InStage(s.record, PromotedPending) && s.record.value.dir in s.backups
    ensures var e := Run(f, s, [RestoreAfterStartup(true)] + Restoration);
            e.Some? && RolledBack(s, e.value)
  {
    hide Run;
    RunOne(f, s, RestoreAfterStartup(true));
    var next := Do(f, s, RestoreAfterStartup(true)).value;
    RestorationCompletes(f, next);
    RunOn(f, s, [RestoreAfterStartup(true)], Restoration);
  }

  /** A target that did not validate in time is stopped and rolled back. */
  lemma WaitingIsRolledBack(f: Faults, s: State)
    requires s.phase.Waiting? && InStage(s.record, PromotedPending) && s.record.value.dir in s.backups
    ensures var e := Run(f, s, [GiveUp, Terminate] + ([RestoreAfterStartup(true)] + Restoration));
            e.Some? && RolledBack(s, e.value)
  {
    hide Run, Restoration;
    RunTwo(f, s, GiveUp, Terminate);
    StartupFailureIsRolledBack(f, Do(f, Do(f, s, GiveUp).value, Terminate).value);
    RunOn(f, s, [GiveUp, Terminate], [RestoreAfterStartup(true)] + Restoration);
  }

  /** So is one whose admission could not be recorded. */
  lemma FailedCommitIsRolledBack(f: Faults, s: State)
    requires s.phase.Committing? && InStage(s.record, PromotedPending) && s.record.value.dir in s.backups
    ensures var e := Run(f, s, [CompleteAdmission(true, Refused), ReadAfterFailure(true), Terminate]
                               + ([RestoreAfterStartup(true)] + Restoration));
            e.Some? && RolledBack(s, e.value)
  {
    hide Run, Restoration, Do;
    Taken(f, s, CompleteAdmission(true, Refused));
    var failed := s.(phase := CommitFailed(s.phase.token));
    Taken(f, failed, ReadAfterFailure(true));
    Taken(f, failed.(phase := Terminating(s.phase.token)), Terminate);
    RunThree(f, s, CompleteAdmission(true, Refused), ReadAfterFailure(true), Terminate);
    var stopped := s.(phase := TargetStopped, target := NoTarget);
    StartupFailureIsRolledBack(f, stopped);
    RunOn(f, s, [CompleteAdmission(true, Refused), ReadAfterFailure(true), Terminate],
          [RestoreAfterStartup(true)] + Restoration);
  }

  /** Once the record says `completed` the new pair stays, also when the target has to be
      stopped; whether the write of the record or that of the admitted file failed. */
  lemma CommittedIsKept(f: Faults, s: State, ack: Ack)
    requires s.phase.Committing? && InStage(s.record, PromotedPending) && !ack.Acknowledged?
    ensures var e := Run(f, s, [CompleteAdmission(true, Lost), ReadAfterFailure(true), Terminate]);
            && e.Some? && e.value.live == s.live == e.value.official && InStage(e.value.record, Completed)
            && e.value.phase == Off && e.value.target == NoTarget
    ensures var e := Run(f, s, [CompleteAdmission(true, Acknowledged), WriteAdmitted(ack)]
                               + [ReadAfterFailure(true), Terminate]);
            && e.Some? && e.value.live == s.live == e.value.official && InStage(e.value.record, Completed)
            && e.value.phase == Off && e.value.target == NoTarget && e.value.attempted
  {
    hide Run;
    LostCompletionIsKept(f, s);
    UnadmittedIsKept(f, s, ack);
  }

  lemma LostCompletionIsKept(f: Faults, s: State)
    requires s.phase.Committing? && InStage(s.record, PromotedPending)
    ensures var e := Run(f, s, [CompleteAdmission(true, Lost), ReadAfterFailure(true), Terminate]);
            && e.Some? && e.value.live == s.live == e.value.official && InStage(e.value.record, Completed)
            && e.value.phase == Off && e.value.target == NoTarget
  {
    hide Run, Do;
    Taken(f, s, CompleteAdmission(true, Lost));
    var failed := Do(f, s, CompleteAdmission(true, Lost)).value;
    Taken(f, failed, ReadAfterFailure(true));
    Taken(f, Do(f, failed, ReadAfterFailure(true)).value, Terminate);
    RunThree(f, s, CompleteAdmission(true, Lost), ReadAfterFailure(true), Terminate);
  }

  lemma UnadmittedIsKept(f: Faults, s: State, ack: Ack)
    requires s.phase.Committing? && InStage(s.record, PromotedPending) && !ack.Acknowledged?
    ensures var e := Run(f, s, [CompleteAdmission(true, Acknowledged), WriteAdmitted(ack)]
                               + [ReadAfterFailure(true), Terminate]);
            && e.Some? && e.value.live == s.live == e.value.official && InStage(e.value.record, Completed)
            && e.value.phase == Off && e.value.target == NoTarget && e.value.attempted
  {
    hide Run, Do;
    Taken(f, s, CompleteAdmission(true, Acknowledged));
    var committed := Do(f, s, CompleteAdmission(true, Acknowledged)).value;
    Taken(f, committed, WriteAdmitted(ack));
    RunTwo(f, s, CompleteAdmission(true, Acknowledged), WriteAdmitted(ack));
    var failed := Do(f, committed, WriteAdmitted(ack)).value;
    Taken(f, failed, ReadAfterFailure(true));
    Taken(f, Do(f, failed, ReadAfterFailure(true)).value, Terminate);
    RunTwo(f, failed, ReadAfterFailure(true), Terminate);
    RunOn(f, s, [CompleteAdmission(true, Acknowledged), WriteAdmitted(ack)], [ReadAfterFailure(true), Terminate]);
  }

  /** A promotion that fails at any point is rolled back, also when its final record is
      refused. */
  lemma PromotionFailureIsRolledBack(f: Faults, s: State, admission: bool)
    requires s.phase.PromotingConfig? || s.phase.PromotingDatabase? || s.phase.Promoted?
    requires s.record.Some? && s.record.value.dir == s.phase.dir && s.phase.dir in s.backups && s.target.NoTarget?
    ensures var e := Run(f, s, [PromotionRaises] + Restoration);
            e.Some? && RolledBack(s, e.value)
    ensures s.phase.Promoted? ==>
              var e := Run(f, s, [WriteCompleted(admission, Refused)] + Restoration);
              e.Some? && RolledBack(s, e.value)
  {
    hide Run, Restoration;
    var next := s.(phase := RestoringDatabase(s.phase.dir, PromotionFailure));
    RunOne(f, s, PromotionRaises);
    RestorationCompletes(f, next);
    RunOn(f, s, [PromotionRaises], Restoration);
    if s.phase.Promoted? {
      RunOne(f, s, WriteCompleted(admission, Refused));
      RunOn(f, s, [WriteCompleted(admission, Refused)], Restoration);
    }
  }

  /** A migration that fails leaves the live pair alone. */
  lemma RunnerFailureChangesNothing(f: Faults, s: State)
    requires s.phase.Running?
    ensures var e := Run(f, s, [RunnerFails, WriteFailed(Acknowledged)]);
            && e.Some? && e.value.live == s.live && e.value.phase == Off
            && e.value.record == Some(Record(Failed, s.phase.dir, FullSight(s.live)))
            && e.value.backups == s.backups && e.value.official == s.official
  {
    hide Run;
    RunTwo(f, s, RunnerFails, WriteFailed(Acknowledged));
  }

  /** A boot up to the look at the interrupted record. */
  const Awakening := [Boot, CheckCompleted(false, false)]

  lemma Awakens(f: Faults, s: State)
    requires s.phase.Off? && !InStage(s.record, Completed)
    ensures Run(f, s, Awakening) == Some(s.(phase := Recovering, attempted := false))
  {
    hide Run;
    RunTwo(f, s, Boot, CheckCompleted(false, false));
  }

  /** RECOVERY IS REACHED: after an interruption the next boot restores the backup and goes
      on, unless the migration had not touched anything. */
  lemma InterruptionIsRestored(f: Faults, s: State, sight: Signature)
    requires s.phase.Off? && Recoverable(s.record) && s.record.value.dir in s.backups && Shows(sight, s.live)
    requires !s.record.value.stage.Migrating? || s.record.value.signature != sight
    ensures var e := Run(f, s, Awakening + ([ReadInterrupted(true, sight)] + Restoration));
            && e.Some? && e.value.phase == Recovered && e.value.live == s.backups[s.record.value.dir]
            && InStage(e.value.record, InterruptedRestored) && e.value.record.value.dir == s.record.value.dir
            && e.value.backups == s.backups
  {
    hide Run, Restoration, Awakening;
    Awakens(f, s);
    var awake := s.(phase := Recovering, attempted := false);
    RunOne(f, awake, ReadInterrupted(true, sight));
    RestorationCompletes(f, Do(f, awake, ReadInterrupted(true, sight)).value);
    RunOn(f, awake, [ReadInterrupted(true, sight)], Restoration);
    RunOn(f, s, Awakening, [ReadInterrupted(true, sight)] + Restoration);
  }

  lemma UntouchedIsKept(f: Faults, s: State, sight: Signature)
    requires s.phase.Off? && InStage(s.record, Migrating) && s.record.value.dir in s.backups
    requires Shows(sight, s.live) && s.record.value.signature == sight
    ensures var e := Run(f, s, Awakening + [ReadInterrupted(true, sight), WriteRestored(Acknowledged)]);
            && e.Some? && e.value.phase == Recovered && e.value.live == s.live
            && InStage(e.value.record, InterruptedUnchanged) && e.value.record.value.dir == s.record.value.dir
  {
    hide Run, Awakening;
    Awakens(f, s);
    var awake := s.(phase := Recovering, attempted := false);
    RunTwo(f, awake, ReadInterrupted(true, sight), WriteRestored(Acknowledged));
    RunOn(f, s, Awakening, [ReadInterrupted(true, sight), WriteRestored(Acknowledged)]);
  }

  /** A boot without anything to recover and with the marker is ready; a completed upgrade
      whose marker is gone, with no rollback to be seen, is not started again. */
  lemma MarkedBootIsReady(f: Faults, s: State, sight: Signature)
    requires s.phase.Off? && !Recoverable(s.record) && s.live.db.marker && Shows(sight, s.live)
    ensures var e := Run(f, s, [Boot, CheckCompleted(true, false)] + [ReadInterrupted(true, sight), FindReady]);
            e.Some? && e.value == s.(phase := Ready, attempted := false)
    ensures InStage(s.record, Completed) ==>
              Run(f, s, [Boot, CheckCompleted(false, false)]) == Some(s.(phase := Off, attempted := false))
  {
    hide Run;
    RunTwo(f, s, Boot, CheckCompleted(true, false));
    RunTwo(f, s, Boot, CheckCompleted(false, false));
    var awake := s.(phase := Recovering, attempted := false);
    RunTwo(f, awake, ReadInterrupted(true, sight), FindReady);
    RunOn(f, s, [Boot, CheckCompleted(true, false)], [ReadInterrupted(true, sight), FindReady]);
  }

  /** An upgrade from the recovery to the checked working copy. */
  function Migration(live: Pair, db: Database, config: Option<int>): seq<Step> {
    [ReadInterrupted(true, FullSight(live)), Capture]
    + [WriteMigrating(FullSight(live), Acknowledged), RunnerSucceeds(db, config)]
  }

  const Installation := [WritePromoting(Acknowledged), FinishPromoteConfig, FinishPromoteDatabase]

  const Handover := [Spawn(true, true), TargetValidates, SeeValidated]

  /** The working copy, with the live settings where it brings none. */
  function Copied(live: Pair, db: Database, config: Option<int>): Pair {
    if config.None? then Pair(db, live.config) else Pair(db, config)
  }

  lemma MigrationCompletes(f: Faults, s: State, db: Database, config: Option<int>)
    requires s.phase.Recovering? && !Recoverable(s.record)
    ensures Run(f, s, Migration(s.live, db, config))
            == Some(s.(backups := s.backups[s.nextName := s.live],
                       record := Some(Record(Migrating, s.nextName, FullSight(s.live))),
                       phase := Checked(s.nextName), nextName := s.nextName + 1,
                       promoted := Copied(s.live, db, config)))
  {
    hide Run;
    var a := [ReadInterrupted(true, FullSight(s.live)), Capture];
    RunTwo(f, s, a[0], a[1]);
    var captured := s.(backups := s.backups[s.nextName := s.live], phase := Prepared(s.nextName),
                       nextName := s.nextName + 1);
    MigratingSteps(f, captured, db, config);
    RunOn(f, s, a, [WriteMigrating(FullSight(s.live), Acknowledged), RunnerSucceeds(db, config)]);
  }

  lemma MigratingSteps(f: Faults, s: State, db: Database, config: Option<int>)
    requires s.phase.Prepared?
    ensures Run(f, s, [WriteMigrating(FullSight(s.live), Acknowledged), RunnerSucceeds(db, config)])
            == Some(s.(record := Some(Record(Migrating, s.phase.dir, FullSight(s.live))),
                       phase := Checked(s.phase.dir), promoted := Copied(s.live, db, config)))
  {
    hide Run;
    RunTwo(f, s, WriteMigrating(FullSight(s.live), Acknowledged), RunnerSucceeds(db, config));
  }

  lemma InstallationCompletes(f: Faults, s: State)
    requires s.phase.Checked? && s.promoted.db.marker
    ensures Run(f, s, Installation)
            == Some(s.(record := Some(Record(Promoting, s.phase.dir, FullSight(s.live))),
                       phase := Promoted(s.phase.dir), live := s.promoted))
  {
    hide Run;
    RunThree(f, s, WritePromoting(Acknowledged), FinishPromoteConfig, FinishPromoteDatabase);
  }

  lemma HandoverCompletes(f: Faults, s: State)
    requires s.phase.Spawning? && s.nextName !in s.validated && s.nextName !in s.admitted
    ensures Run(f, s, Handover)
            == Some(s.(phase := Committing(s.nextName), target := Awaiting(s.nextName),
                       validated := s.validated + {s.nextName}, nextName := s.nextName + 1))
  {
    hide Run;
    assert s.validated - {s.nextName} == s.validated && s.admitted - {s.nextName} == s.admitted;
    RunThree(f, s, Spawn(true, true), TargetValidates, SeeValidated);
  }

  /** A whole upgrade that nothing disturbs. */
  function Upgrade(live: Pair, db: Database, config: Option<int>, admission: bool): seq<Step> {
    Awakening + (Migration(live, db, config)
                 + (Installation + ([WriteCompleted(admission, Acknowledged)]
                                    + (if admission then Handover + Admission else []))))
  }

  /** AN UNDISTURBED UPGRADE SUCCEEDS: from any live pair and any working copy with a marker
      it ends with the working copy live and official, under a completed record, over a
      backup of the old pair; with admission, under an admitted target. */
  lemma UndisturbedUpgradeSucceeds(f: Faults, live: Pair, db: Database, config: Option<int>, admission: bool)
    requires db.marker
    ensures var e := Run(f, Start(live), Upgrade(live, db, config, admission));
            && e.Some? && e.value.live == Copied(live, db, config) == e.value.official
            && InStage(e.value.record, Completed) && e.value.record.value.dir == 0
            && e.value.backups == map[0 := live]
            && (if admission then e.value.target == Admitted(1) && e.value.phase == Released(1)
                else e.value.target == NoTarget && e.value.phase == Off)
  {
    hide Run, Do, Migration, Installation, Handover, Admission, Awakening;
    var s := Start(live);
    Awakens(f, s);
    var s1 := s.(phase := Recovering);
    MigrationCompletes(f, s1, db, config);
    var copy := Copied(live, db, config);
    var s2 := s1.(backups := map[0 := live], record := Some(Record(Migrating, 0, FullSight(live))),
                  phase := Checked(0), nextName := 1, promoted := copy);
    assert s1.backups[0 := live] == map[0 := live];
    InstallationCompletes(f, s2);
    var s3 := s2.(record := Some(Record(Promoting, 0, FullSight(live))), phase := Promoted(0), live := copy);
    CompletionCompletes(f, s3, admission);
    var tail := [WriteCompleted(admission, Acknowledged)] + (if admission then Handover + Admission else []);
    RunOn(f, s2, Installation, tail);
    RunOn(f, s1, Migration(live, db, config), Installation + tail);
    RunOn(f, s, Awakening, Migration(live, db, config) + (Installation + tail));
  }

  lemma CompletionCompletes(f: Faults, s: State, admission: bool)
    requires s.phase.Promoted? && s.live == s.promoted && s.target.NoTarget?
    requires s.nextName !in s.validated && s.nextName !in s.admitted
    ensures var e := Run(f, s, [WriteCompleted(admission, Acknowledged)]
                               + if admission then Handover + Admission else []);
            && e.Some? && e.value.live == s.live == e.value.official && e.value.backups == s.backups
            && InStage(e.value.record, Completed) && e.value.record.value.dir == s.phase.dir
            && (if admission then e.value.target == Admitted(s.nextName) && e.value.phase == Released(s.nextName)
                else e.value.target == NoTarget && e.value.phase == Off)
  {
    hide Run, Handover, Admission, Handshake, Commit, Withdrawal;
    var step := WriteCompleted(admission, Acknowledged);
    RunOne(f, s, step);
    var next := Do(f, s, step).value;
    if admission {
      HandoverCompletes(f, next);
      var waiting := next.(phase := Committing(s.nextName), target := Awaiting(s.nextName),
                           validated := s.validated + {s.nextName}, nextName := s.nextName + 1);
      AdmissionCompletes(f, waiting, s.nextName);
      RunOn(f, next, Handover, Admission);
      RunOn(f, s, [step], Handover + Admission);
    } else {
      assert [step] + [] == [step];
    }
  }

  // --------------------------------------------------- what else can happen

  /** A file that is being replaced may hold anything, and nothing else changes. */
  lemma ReplacedFilesMayTear(f: Faults, s: State, db: Database, config: Option<int>)
    ensures s.phase.RestoringDatabase? || s.phase.PromotingDatabase? ==>
              Run(f, s, [ScribbleDatabase(db)]) == Some(s.(live := Pair(db, s.live.config)))
    ensures s.phase.RestoringConfig? || s.phase.PromotingConfig? ==>
              Run(f, s, [ScribbleConfig(config)]) == Some(s.(live := Pair(s.live.db, config)))
  {
    hide Run;
    RunOne(f, s, ScribbleDatabase(db));
    RunOne(f, s, ScribbleConfig(config));
  }

  /** Whoever may change the live pair becomes the one whose pair it is: the running
      application, and the user while nothing is to be recovered. A target that starts up
      may change it too, without that. */
  lemma WhoMayEdit(f: Faults, s: State, pair: Pair)
    ensures s.phase.Ready? || s.target.Admitted? || (s.phase.Off? && !Recoverable(s.record)) ==>
              Run(f, s, [Edit(pair)]) == Some(s.(live := pair, official := pair))
    ensures s.target.Validating? ==> Run(f, s, [TargetEdits(pair)]) == Some(s.(live := pair))
    ensures Run(f, s, [Crash]) == Some(s.(phase := Off, target := NoTarget))
    ensures Run(f, s, [TargetDies]) == Some(s.(target := NoTarget))
  {
    hide Run;
    RunOne(f, s, Edit(pair));
    RunOne(f, s, TargetEdits(pair));
    RunOne(f, s, Crash);
    RunOne(f, s, TargetDies);
  }

  /** A restore that fails leaves a record from which the next boot can restore again. */
  lemma FailedRestoreIsRecorded(f: Faults, s: State)
    requires s.phase.RestoringDatabase? || s.phase.RestoringConfig?
    ensures !s.phase.cause.PromotionFailure? ==> Run(f, s, [RestoreRaises]) == Some(s.(phase := Off))
    ensures s.phase.cause.PromotionFailure? ==>
              Run(f, s, [RestoreRaises, WriteUnrestorable(Acknowledged)])
              == Some(s.(phase := Off, record := Some(Record(Promoting, s.phase.dir, FullSight(s.live)))))
    ensures s.phase.cause.PromotionFailure? ==>
              Run(f, s, [RestoreRaises, WriteUnrestorable(Refused)]) == Some(s.(phase := Off))
  {
    hide Run;
    RunOne(f, s, RestoreRaises);
    if s.phase.cause.PromotionFailure? {
      RunTwo(f, s, RestoreRaises, WriteUnrestorable(Acknowledged));
      RunTwo(f, s, RestoreRaises, WriteUnrestorable(Refused));
    }
  }

  /** The steps of a restore that fails. */
  function FailedRestore(cause: Cause, ack: Ack): seq<Step> {
    if cause.PromotionFailure? then [RestoreRaises, WriteUnrestorable(ack)] else [RestoreRaises]
  }

  /** NO RESTORE IS LOST: one that fails, whichever of the two files it has replaced and whether
      or not the failure can be recorded, is made up for by the next boot. */
  lemma FailedRestoreIsTriedAgain(f: Faults, s: State, ack: Ack, sight: Signature)
    requires s.phase.RestoringDatabase? || s.phase.RestoringConfig?
    requires Recoverable(s.record) && s.record.value.dir == s.phase.dir && s.phase.dir in s.backups
    requires s.phase.cause.PromotionFailure? ==> !s.record.value.stage.Migrating?
    requires s.record.value.stage.Migrating? ==> s.record.value.signature != sight
    requires !ack.Lost? && Shows(sight, s.live)
    ensures var e := Run(f, s, FailedRestore(s.phase.cause, ack)
                               + (Awakening + ([ReadInterrupted(true, sight)] + Restoration)));
            && e.Some? && e.value.phase == Recovered && e.value.live == s.backups[s.phase.dir]
            && InStage(e.value.record, InterruptedRestored) && e.value.backups == s.backups
  {
    hide Run, Restoration, Awakening, Do;
    FailedRestoreIsRecorded(f, s);
    var off := Run(f, s, FailedRestore(s.phase.cause, ack)).value;
    InterruptionIsRestored(f, off, sight);
    RunOn(f, s, FailedRestore(s.phase.cause, ack), Awakening + ([ReadInterrupted(true, sight)] + Restoration));
  }

  /** Records that are refused: the restored pair stays, under the old record; the backup of
      an upgrade that was not begun goes; an upgrade that was not to be promoted has failed. */
  lemma RefusedRecords(f: Faults, s: State)
    ensures s.phase.Restored? ==> Run(f, s, [WriteRestored(Refused)]) == Some(s.(phase := Off))
    ensures s.phase.Prepared? ==>
              Run(f, s, [WriteMigrating(FullSight(s.live), Refused)])
              == Some(s.(phase := Off, backups := s.backups - {s.phase.dir}))
    ensures s.phase.Checked? ==>
              Run(f, s, [WritePromoting(Refused)]) == Some(s.(phase := FailedEarly(s.phase.dir)))
    ensures s.phase.FailedEarly? ==> Run(f, s, [WriteFailed(Refused)]) == Some(s.(phase := Off))
  {
    hide Run;
    if s.phase.Restored? {
      RunOne(f, s, WriteRestored(Refused));
    } else if s.phase.Prepared? {
      RunOne(f, s, WriteMigrating(FullSight(s.live), Refused));
    } else if s.phase.Checked? {
      RunOne(f, s, WritePromoting(Refused));
    } else if s.phase.FailedEarly? {
      RunOne(f, s, WriteFailed(Refused));
    }
  }

  /** A target that does not start is rolled back; where the record reads as missing, it is
      only given up, and one that does start is not asked to validate. */
  lemma UnstartedIsRolledBack(f: Faults, s: State)
    requires s.phase.Spawning? && s.target.NoTarget?
    requires InStage(s.record, PromotedPending) && s.record.value.dir in s.backups
    ensures var e := Run(f, s, [Spawn(true, false)] + ([RestoreAfterStartup(true)] + Restoration));
            e.Some? && RolledBack(s, e.value)
    ensures f.unreadableRecord ==>
              && Run(f, s, [Spawn(false, false)]) == Some(s.(phase := TargetStopped))
              && Run(f, s, [Spawn(false, true)]) == Some(s.(phase := Ready))
  {
    hide Run, Restoration;
    RunOne(f, s, Spawn(false, false));
    RunOne(f, s, Spawn(false, true));
    RunOne(f, s, Spawn(true, false));
    StartupFailureIsRolledBack(f, s.(phase := TargetStopped));
    RunOn(f, s, [Spawn(true, false)], [RestoreAfterStartup(true)] + Restoration);
  }

  /** A boot refuses to go on only over a completed upgrade that shows neither its marker nor
      a rollback; a marker is seen only where there is one. */
  lemma BootLooksAtCompletion(f: Faults, s: State, marker: bool, rollback: bool)
    requires s.phase.Checking?
    ensures Run(f, s, [CheckCompleted(marker, rollback)])
            == if marker && !s.live.db.marker then None
               else if InStage(s.record, Completed) && !marker && !rollback then Some(s.(phase := Off))
               else Some(s.(phase := Recovering))
  {
    hide Run;
    RunOne(f, s, CheckCompleted(marker, rollback));
  }

  /** An upgrade may be refused after the recovery, and nothing changes. */
  lemma RefusalChangesNothing(f: Faults, s: State)
    requires s.phase.Recovered?
    ensures Run(f, s, [Refuse]) == Some(s.(phase := Off))
  {
    hide Run;
    RunOne(f, s, Refuse);
  }
}
