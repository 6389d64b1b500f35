/**
 * `PandaROSRobot.get_state` (armer_panda/robots/PandaROSRobot.py): how the
 * latest `FrankaState` message adds error flags to the state the generic
 * robot reports, when error recovery is invoked, and how the remembered
 * e-stop state is updated.
 *
 * `ManipulatorState.errors` is a bit mask whose flags are distinct single
 * bits; it is modelled as a set of flags, so `|=` is union, `& F == F` is
 * membership and `== 0` is emptiness. Flags the generic robot set are
 * carried through as `Inherited` members.
 */
module RobotState {
  import opened Options

  datatype Flag =
    | Locked
    | Estop
    | Collision
    | JointLimitViolation
    | CartesianLimitViolation
    | TorqueLimitViolation
    | OtherError
    | Inherited(bit: nat)

  /**
   * The robot modes `get_state` distinguishes: `ROBOT_MODE_OTHER`,
   * `ROBOT_MODE_IDLE`, `ROBOT_MODE_USER_STOPPED`, the literal mode 2, and
   * every other mode.
   */
  datatype RobotMode = ModeOther | ModeIdle | Mode2 | ModeUserStopped | ModeElse

  /** One slot of `last_motion_errors`, in slot order. */
  datatype MotionError = MotionError(name: string, active: bool)

  /** The fields of the last `FrankaState` message that `get_state` reads. */
  datatype FrankaState = FrankaState(mode: RobotMode, cartesianCollision: seq<bool>, lastMotionErrors: seq<MotionError>)

  /** The errors reported, whether recovery was invoked, and the new `last_estop_state`. */
  datatype StateUpdate = StateUpdate(errors: set<Flag>, recovered: bool, lastEstopState: int)

  // ---------------------------------------------------------------------------
  // Name tables

  const JointNames: seq<string> := [
    "joint_position_limits_violation",
    "joint_velocity_violation",
    "joint_position_motion_generator_start_pose_invalid",
    "joint_motion_generator_position_limits_violation",
    "joint_motion_generator_velocity_limits_violation",
    "joint_motion_generator_velocity_discontinuity",
    "joint_motion_generator_acceleration_discontinuity"
  ]

  const CartesianNames: seq<string> := [
    "cartesian_position_limits_violation",
    "cartesian_velocity_violation",
    "cartesian_velocity_profile_safety_violation",
    "cartesian_position_motion_generator_start_pose_invalid",
    "cartesian_motion_generator_elbow_limit_violation",
    "cartesian_motion_generator_velocity_limits_violation",
    "cartesian_motion_generator_velocity_discontinuity",
    "cartesian_motion_generator_acceleration_discontinuity",
    "cartesian_motion_generator_elbow_sign_inconsistent",
    "cartesian_motion_generator_start_elbow_invalid",
    "cartesian_motion_generator_joint_position_limits_violation",
    "cartesian_motion_generator_joint_velocity_limits_violation",
    "cartesian_motion_generator_joint_velocity_discontinuity",
    "cartesian_motion_generator_joint_acceleration_discontinuity",
    "cartesian_position_motion_generator_invalid_frame"
  ]

  const ForceToleranceName := "force_controller_desired_force_tolerance_violation"
  const InsufficientTorqueName := "joint_p2p_insufficient_torque_for_planning"
  const TauJRangeName := "tau_j_range_violation"

  /**
   * The torque list as written: the last three names have no commas between
   * them, so they form one adjacent-literal concatenation.
   */
  const TorqueNames: seq<string> := [
    "force_control_safety_violation",
    "joint_reflex",
    "cartesian_reflex",
    ForceToleranceName + InsufficientTorqueName + TauJRangeName
  ]

  /** The torque list with the three names listed separately. */
  const TorqueNamesIntended: seq<string> := [
    "force_control_safety_violation",
    "joint_reflex",
    "cartesian_reflex",
    ForceToleranceName,
    InsufficientTorqueName,
    TauJRangeName
  ]

  /** Which branch of the `if`/`elif` chain an active motion error takes. */
  datatype Category = JointLimit | CartesianLimit | TorqueLimit | Unlisted

  function CategoryOf(name: string, torque: seq<string>): Category {
    if name in JointNames then JointLimit
    else if name in CartesianNames then CartesianLimit
    else if name in torque then TorqueLimit
    else Unlisted
  }

  function FlagOf(c: Category): Flag {
    match c
    case JointLimit => JointLimitViolation
    case CartesianLimit => CartesianLimitViolation
    case TorqueLimit => TorqueLimitViolation
    case Unlisted => OtherError
  }

  // ---------------------------------------------------------------------------
  // Motion-error classification

  /** Some active motion error, outside mode 2, falls in category `c`. */
  predicate Raises(errs: seq<MotionError>, mode: RobotMode, torque: seq<string>, c: Category) {
    mode != Mode2 && exists i :: 0 <= i < |errs| && errs[i].active && CategoryOf(errs[i].name, torque) == c
  }

  /** The first active motion error is in no list. */
  predicate FirstActiveUnlisted(errs: seq<MotionError>, torque: seq<string>) {
    exists i :: 0 <= i < |errs| && errs[i].active && CategoryOf(errs[i].name, torque) == Unlisted &&
      forall j :: 0 <= j < i ==> !errs[j].active
  }

  /** One iteration of the loop over `last_motion_errors.__slots__`. */
  function AddMotionError(errors: set<Flag>, e: MotionError, mode: RobotMode, torque: seq<string>): set<Flag> {
    if mode == Mode2 || !e.active then errors
    else
      var c := CategoryOf(e.name, torque);
      if c != Unlisted || errors == {} then errors + {FlagOf(c)} else errors
  }

  /**
   * The loop over the motion-error slots. A listed error adds its limit
   * flag; an unlisted one adds OTHER only if no flag at all is set yet,
   * which happens exactly when nothing was set before the loop and the
   * first active error is unlisted. Mode 2 adds nothing.
   */
  function ClassifyMotionErrors(errors: set<Flag>, errs: seq<MotionError>, mode: RobotMode, torque: seq<string>): (r: set<Flag>)
    ensures errors <= r
    ensures r - errors <= {JointLimitViolation, CartesianLimitViolation, TorqueLimitViolation, OtherError}
    ensures mode == Mode2 ==> r == errors
    ensures JointLimitViolation in r <==>
              JointLimitViolation in errors || Raises(errs, mode, torque, JointLimit)
    ensures CartesianLimitViolation in r <==>
              CartesianLimitViolation in errors || Raises(errs, mode, torque, CartesianLimit)
    ensures TorqueLimitViolation in r <==>
              TorqueLimitViolation in errors || Raises(errs, mode, torque, TorqueLimit)
    ensures OtherError in r <==>
              OtherError in errors || (mode != Mode2 && errors == {} && FirstActiveUnlisted(errs, torque))
    decreases |errs|
  {
    if |errs| == 0 then errors
    else
      var next := AddMotionError(errors, errs[0], mode, torque);
      var r := ClassifyMotionErrors(next, errs[1..], mode, torque);
      RaisesShiftAll(errs, mode, torque);
      FirstActiveShift(errs, torque);
      r
  }

  /** How `Raises` looks past the first slot. */
  lemma RaisesShiftAll(errs: seq<MotionError>, mode: RobotMode, torque: seq<string>)
    requires |errs| > 0
    ensures forall c :: Raises(errs, mode, torque, c) <==>
              (mode != Mode2 && errs[0].active && CategoryOf(errs[0].name, torque) == c) || Raises(errs[1..], mode, torque, c)
  {
    forall c {
      RaisesShift(errs, mode, torque, c);
    }
  }

  lemma RaisesShift(errs: seq<MotionError>, mode: RobotMode, torque: seq<string>, c: Category)
    requires |errs| > 0
    ensures Raises(errs, mode, torque, c) <==>
              (mode != Mode2 && errs[0].active && CategoryOf(errs[0].name, torque) == c) || Raises(errs[1..], mode, torque, c)
  {
    if Raises(errs, mode, torque, c) && !(mode != Mode2 && errs[0].active && CategoryOf(errs[0].name, torque) == c) {
      var i :| 0 <= i < |errs| && errs[i].active && CategoryOf(errs[i].name, torque) == c;
      assert errs[1..][i - 1] == errs[i];
    }
    if Raises(errs[1..], mode, torque, c) {
      var i :| 0 <= i < |errs[1..]| && errs[1..][i].active && CategoryOf(errs[1..][i].name, torque) == c;
      assert errs[i + 1] == errs[1..][i];
    }
  }

  /** How `FirstActiveUnlisted` looks past the first slot. */
  lemma FirstActiveShift(errs: seq<MotionError>, torque: seq<string>)
    requires |errs| > 0
    ensures errs[0].active ==>
              (FirstActiveUnlisted(errs, torque) <==> CategoryOf(errs[0].name, torque) == Unlisted)
    ensures !errs[0].active ==> (FirstActiveUnlisted(errs, torque) <==> FirstActiveUnlisted(errs[1..], torque))
  {
    if !errs[0].active {
      if FirstActiveUnlisted(errs, torque) {
        var i :| 0 <= i < |errs| && errs[i].active && CategoryOf(errs[i].name, torque) == Unlisted &&
          forall j :: 0 <= j < i ==> !errs[j].active;
        assert errs[1..][i - 1] == errs[i];
        assert forall j :: 0 <= j < i - 1 ==> errs[1..][j] == errs[j + 1];
      }
      if FirstActiveUnlisted(errs[1..], torque) {
        var i :| 0 <= i < |errs[1..]| && errs[1..][i].active && CategoryOf(errs[1..][i].name, torque) == Unlisted &&
          forall j :: 0 <= j < i ==> !errs[1..][j].active;
        assert errs[i + 1] == errs[1..][i];
        forall j | 0 <= j < i + 1
          ensures !errs[j].active
        {
          if j > 0 {
            assert errs[j] == errs[1..][j - 1];
          }
        }
      }
    }
  }

  // ---------------------------------------------------------------------------
  // get_state

  /** The flags set from the robot mode and the collision vector, before the loop. */
  function ModeFlags(base: set<Flag>, f: FrankaState): (r: set<Flag>)
    ensures base <= r && r - base <= {Locked, Estop, Collision}
    ensures Locked in r <==> Locked in base || f.mode == ModeOther
    ensures Estop in r <==> Estop in base || f.mode == ModeUserStopped
    ensures Collision in r <==> Collision in base || true in f.cartesianCollision
  {
    base
      + (if f.mode == ModeOther then {Locked} else {})
      + (if f.mode == ModeUserStopped then {Estop} else {})
      + (if true in f.cartesianCollision then {Collision} else {})
  }

  lemma LoopAddsOnlyMotionFlags(base: set<Flag>, pre: set<Flag>, r: set<Flag>)
    requires base <= pre && pre - base <= {Locked, Estop, Collision}
    requires pre <= r && r - pre <= {JointLimitViolation, CartesianLimitViolation, TorqueLimitViolation, OtherError}
    ensures Locked in r <==> Locked in pre
    ensures Estop in r <==> Estop in pre
    ensures Collision in r <==> Collision in pre
    ensures forall b :: Inherited(b) in r <==> Inherited(b) in base
  {
    var motion := {JointLimitViolation, CartesianLimitViolation, TorqueLimitViolation, OtherError};
    assert Locked !in motion && Estop !in motion && Collision !in motion;
    assert Locked !in r - pre && Estop !in r - pre && Collision !in r - pre;
    forall b | Inherited(b) in r
      ensures Inherited(b) in base
    {
      assert Inherited(b) !in motion;
      assert Inherited(b) !in r - pre;
      assert Inherited(b) !in {Locked, Estop, Collision};
      assert Inherited(b) !in pre - base;
    }
  }

  /**
   * `get_state` with a given torque list. `base` holds the flags the generic
   * robot reported; `franka` is the last `FrankaState` message, if any.
   */
  function GetStateWith(torque: seq<string>, base: set<Flag>, franka: Option<FrankaState>,
                        recoverOnEstop: bool, lastEstopState: int): (r: StateUpdate)
    ensures base <= r.errors
    ensures franka.None? ==> r.errors == base
    ensures franka.Some? ==>
              var f := franka.value;
              var pre := ModeFlags(base, f);
              && (Locked in r.errors <==> Locked in base || f.mode == ModeOther)
              && (Estop in r.errors <==> Estop in base || f.mode == ModeUserStopped)
              && (Collision in r.errors <==> Collision in base || true in f.cartesianCollision)
              && (JointLimitViolation in r.errors <==>
                    JointLimitViolation in base || Raises(f.lastMotionErrors, f.mode, torque, JointLimit))
              && (CartesianLimitViolation in r.errors <==>
                    CartesianLimitViolation in base || Raises(f.lastMotionErrors, f.mode, torque, CartesianLimit))
              && (TorqueLimitViolation in r.errors <==>
                    TorqueLimitViolation in base || Raises(f.lastMotionErrors, f.mode, torque, TorqueLimit))
              && (OtherError in r.errors <==>
                    OtherError in base ||
                    (f.mode != Mode2 && pre == {} && FirstActiveUnlisted(f.lastMotionErrors, torque)))
              && (f.mode == Mode2 ==> r.errors == pre)
    ensures forall b :: Inherited(b) in r.errors <==> Inherited(b) in base
    ensures r.recovered <==>
              if franka.Some? && franka.value.mode == ModeIdle then recoverOnEstop && lastEstopState == 1
              else OtherError in r.errors
    ensures r.lastEstopState == 1 <==> franka.Some? && franka.value.mode == ModeUserStopped
    ensures r.lastEstopState == 0 || r.lastEstopState == 1
  {
    var errors :=
      if franka.None? then base
      else
        (var pre := ModeFlags(base, franka.value);
         var r := ClassifyMotionErrors(pre, franka.value.lastMotionErrors, franka.value.mode, torque);
         LoopAddsOnlyMotionFlags(base, pre, r);
         r);
    var recovered :=
      if franka.Some? && franka.value.mode == ModeIdle then recoverOnEstop && lastEstopState == 1
      else OtherError in errors;
    StateUpdate(errors, recovered, if franka.Some? && franka.value.mode == ModeUserStopped then 1 else 0)
  }

  /** `get_state` as written. */
  function GetState(base: set<Flag>, franka: Option<FrankaState>, recoverOnEstop: bool, lastEstopState: int): (r: StateUpdate)
    ensures base <= r.errors
    ensures franka.Some? && TorqueLimitViolation !in base &&
            (forall i :: 0 <= i < |franka.value.lastMotionErrors| && franka.value.lastMotionErrors[i].active ==>
               franka.value.lastMotionErrors[i].name == TauJRangeName) ==>
              TorqueLimitViolation !in r.errors
  {
    TauJRangeNotListed();
    GetStateWith(TorqueNames, base, franka, recoverOnEstop, lastEstopState)
  }

  /** `get_state` with the torque list as evidently intended. */
  function GetStateIntended(base: set<Flag>, franka: Option<FrankaState>, recoverOnEstop: bool, lastEstopState: int): (r: StateUpdate)
    ensures base <= r.errors
    ensures franka.Some? && franka.value.mode != Mode2 &&
            (exists i :: 0 <= i < |franka.value.lastMotionErrors| &&
                franka.value.lastMotionErrors[i] == MotionError(TauJRangeName, true)) ==>
              TorqueLimitViolation in r.errors
  {
    if franka.Some? then
      ActiveTauJRaises(franka.value.lastMotionErrors, franka.value.mode);
      GetStateWith(TorqueNamesIntended, base, franka, recoverOnEstop, lastEstopState)
    else
      GetStateWith(TorqueNamesIntended, base, franka, recoverOnEstop, lastEstopState)
  }

  lemma ActiveTauJRaises(errs: seq<MotionError>, mode: RobotMode)
    ensures mode != Mode2 && (exists i :: 0 <= i < |errs| && errs[i] == MotionError(TauJRangeName, true)) ==>
              Raises(errs, mode, TorqueNamesIntended, TorqueLimit)
  {
    TauJRangeListedIntended();
  }

  // ---------------------------------------------------------------------------
  // Lemmas

  /** `tau_j_range_violation` is in none of the lists as written. */
  lemma TauJRangeNotListed()
    ensures CategoryOf(TauJRangeName, TorqueNames) == Unlisted
  {
    assert TauJRangeName !in JointNames;
    assert TauJRangeName !in CartesianNames;
    assert TauJRangeName !in TorqueNames;
  }

  /** With the intended list it is a torque-limit violation. */
  lemma TauJRangeListedIntended()
    ensures CategoryOf(TauJRangeName, TorqueNamesIntended) == TorqueLimit
  {
    assert TauJRangeName !in JointNames;
    assert TauJRangeName !in CartesianNames;
    assert TorqueNamesIntended[5] == TauJRangeName;
  }

  /**
   * A robot reading that sets no flag before the loop (no base flags, no
   * collision, mode neither OTHER nor USER_STOPPED) and is in neither IDLE
   * nor mode 2, whose only active motion errors are `tau_j_range_violation`:
   * as written the error counts as OTHER and triggers recovery; with the
   * intended list it is a torque-limit violation and no recovery runs.
   */
  lemma TauJRangeFallsThrough(f: FrankaState, recoverOnEstop: bool, lastEstopState: int)
    requires ModeFlags({}, f) == {}
    requires f.mode != Mode2 && f.mode != ModeIdle
    requires exists i :: 0 <= i < |f.lastMotionErrors| && f.lastMotionErrors[i].active
    requires forall i :: 0 <= i < |f.lastMotionErrors| && f.lastMotionErrors[i].active ==>
               f.lastMotionErrors[i].name == TauJRangeName
    ensures GetState({}, Some(f), recoverOnEstop, lastEstopState) == StateUpdate({OtherError}, true, 0)
    ensures GetStateIntended({}, Some(f), recoverOnEstop, lastEstopState) == StateUpdate({TorqueLimitViolation}, false, 0)
  {
    TauJRangeNotListed();
    TauJRangeListedIntended();
    var errs := f.lastMotionErrors;
    FirstActiveOfOnly(errs, TorqueNames, Unlisted);
    FirstActiveOfOnly(errs, TorqueNamesIntended, TorqueLimit);
    forall d
      ensures Raises(errs, f.mode, TorqueNames, d) <==> d == Unlisted
      ensures Raises(errs, f.mode, TorqueNamesIntended, d) <==> d == TorqueLimit
    {
      RaisesOnly(errs, f.mode, TorqueNames, Unlisted, d);
      RaisesOnly(errs, f.mode, TorqueNamesIntended, TorqueLimit, d);
    }
    var r := GetState({}, Some(f), recoverOnEstop, lastEstopState);
    var ri := GetStateIntended({}, Some(f), recoverOnEstop, lastEstopState);
    assert r.errors == {OtherError} by {
      forall x | x in r.errors
        ensures x == OtherError
      {
        match x
        case Inherited(b) =>
        case _ =>
      }
    }
    assert ri.errors == {TorqueLimitViolation} by {
      forall x | x in ri.errors
        ensures x == TorqueLimitViolation
      {
        match x
        case Inherited(b) =>
        case _ =>
      }
    }
  }

  /**
   * When some motion error is active and every active one falls in category
   * `c`, outside mode 2 the errors raise category `c` and no other.
   */
  lemma RaisesOnly(errs: seq<MotionError>, mode: RobotMode, torque: seq<string>, c: Category, d: Category)
    requires mode != Mode2
    requires exists i :: 0 <= i < |errs| && errs[i].active
    requires forall i :: 0 <= i < |errs| && errs[i].active ==> CategoryOf(errs[i].name, torque) == c
    ensures Raises(errs, mode, torque, d) <==> d == c
  {
    if Raises(errs, mode, torque, d) {
      var i :| 0 <= i < |errs| && errs[i].active && CategoryOf(errs[i].name, torque) == d;
    }
    if d == c {
      var i :| 0 <= i < |errs| && errs[i].active;
      assert CategoryOf(errs[i].name, torque) == d;
    }
  }

  /**
   * When some motion error is active and every active one falls in category
   * `c`, the first active one is unlisted exactly when `c` is.
   */
  lemma FirstActiveOfOnly(errs: seq<MotionError>, torque: seq<string>, c: Category)
    requires exists i :: 0 <= i < |errs| && errs[i].active
    requires forall i :: 0 <= i < |errs| && errs[i].active ==> CategoryOf(errs[i].name, torque) == c
    ensures FirstActiveUnlisted(errs, torque) <==> c == Unlisted
  {
    var w :| 0 <= w < |errs| && errs[w].active;
    var k := FirstActiveFrom(errs, 0, w);
    assert CategoryOf(errs[k].name, torque) == c;
    if FirstActiveUnlisted(errs, torque) {
      var i :| 0 <= i < |errs| && errs[i].active && CategoryOf(errs[i].name, torque) == Unlisted &&
        forall j :: 0 <= j < i ==> !errs[j].active;
    }
  }

  /**
   * The first active slot at or after `k`, given that slot `w` is active and
   * none before `k` is.
   */
  function FirstActiveFrom(errs: seq<MotionError>, k: nat, w: nat): (r: nat)
    requires k <= w < |errs| && errs[w].active
    requires forall j :: 0 <= j < k ==> !errs[j].active
    ensures r <= w && errs[r].active
    ensures forall j :: 0 <= j < r ==> !errs[j].active
    decreases w - k
  {
    if errs[k].active then k else FirstActiveFrom(errs, k + 1, w)
  }

  /**
   * The e-stop recovery sequence: a reading in USER_STOPPED mode remembers
   * the e-stop, and the next reading in IDLE mode invokes recovery when
   * `recover_on_estop` is set.
   */
  lemma RecoverAfterEstopRelease(base1: set<Flag>, f1: FrankaState, base2: set<Flag>, f2: FrankaState, last: int)
    requires f1.mode == ModeUserStopped && f2.mode == ModeIdle
    ensures var s1 := GetState(base1, Some(f1), true, last);
            && Estop in s1.errors
            && s1.lastEstopState == 1
            && GetState(base2, Some(f2), true, s1.lastEstopState).recovered
            && GetState(base2, Some(f2), true, s1.lastEstopState).lastEstopState == 0
  {
  }

  /** In IDLE mode recovery depends only on the remembered e-stop, never on the flags. */
  lemma IdleRecoveryIgnoresErrors(base: set<Flag>, f: FrankaState, recoverOnEstop: bool, last: int)
    requires f.mode == ModeIdle
    ensures GetState(base, Some(f), recoverOnEstop, last).recovered <==> recoverOnEstop && last == 1
  {
  }

  /** Flags already reported suppress OTHER: an unlisted error then adds nothing. */
  lemma EarlierFlagsSuppressOther(base: set<Flag>, f: FrankaState, recoverOnEstop: bool, last: int)
    requires base != {} && OtherError !in base
    ensures OtherError !in GetState(base, Some(f), recoverOnEstop, last).errors
    ensures f.mode != ModeIdle ==> !GetState(base, Some(f), recoverOnEstop, last).recovered
  {
    assert ModeFlags(base, f) != {};
  }
}
