# Verified model of the planning gateway and the motion service

The repository plans grasps for a six-axis arm: a Python gateway accepts one request at a time, records it, hands
it to a C++ motion service over newline-framed TCP, validates the answer and stores it. This project models that
path and proves what it is meant to keep. Nothing here runs the original programs.

**Kinematics and trajectories.** Arithmetic is exact real arithmetic. `Trigonometry.Trig` is a parameter of every
definition: cosine and sine as a pair, the two inverse functions, the square root and pi, with the equations that
define them collected in `Valid`. `Geometry` holds vectors, rotations and rigid poses.

- `RobotModel`, `ModelExport`: the scene's joint chain, the exporter that rewrites it into Craig MDH rows, and the
  proof that both chains agree for every joint vector. `ChainTelescopes` is an induction over chains of any length.
- `ArmAlgebra`, `WristSplit`, `ShoulderElbow`, `ArmModel`: reaching a pose, split into an orientation equation and a
  position equation over cosine and sine pairs. `FkIff` ties them to the forward kinematics.
- `ElbowSolver`, `SingularWrist`, `InverseKinematics`: the solver itself, loops included. `ElbowProof` and `IkProof`
  prove that its branches are exact and complete, `FoldedArm` says exactly which solutions are missed and for which
  arms; `JointLifting` and `SolutionSet` do the same for the lift into the joint limits and for the verified,
  duplicate-free list.
- `QuinticBlend`, `Trajectory`: the peaks of the quintic blend, the least safe duration, the samples.
- `Quaternions`, `MotionProcessor`, `ToolPose`: from a grasp command to a reply. `ToolPose` says what pose a command
  asks for, in the command's own numbers, and that every plan puts the tool there up to the recheck's tolerances.
- `PlanValidation`, `EndToEnd`: every success message passes the gateway's validator, in numbers, and is stored.

**Gateway.** `TaskRepository`, `KinematicsAdapter` and `Registry` are classes whose methods are proved against
specification functions. `Gateway` is a machine over those functions with one step per stretch of code between two
awaits; database writes that run in threads are steps of their own, so they interleave with everything else.
`GatewayProof` proves what every interleaving keeps over all runs, crashes and restarts included, `GatewayProgress`
that a busy gateway always frees itself and then takes up the next request, and `Outcomes` follows every way in which
a task can end without a plan to the record and the error code it leaves.

**Bytes.** `BitStream`, `SceneCodec` and `SceneCodecProof` cover the Huffman-compressed scene format, `Framing` the
receive and send loops, and `SendLock` the two mutexes and the socket descriptor of the C++ client, for any number
of threads and a kernel that may hand a closed descriptor number out again.

Run `dafny verify dfyconfig.toml` to check everything.

**Where the code falls short of what one might expect.** Four findings are proved rather than hidden.

- A record stays `planning` without an active task after a second cancellation of a submission, or when `close`
  cancels the worker during its final write, or when the INSERT of a submission cancelled twice is committed after
  all. `AgreementBreaksIff` says that no other step but a crash ends the agreement; `ShutdownAbandons`,
  `CancellationAbandons` and `LateInsertAbandons` are runs in which it ends, and `RecoveryIsComplete` says that the
  next start repairs it.
- An arm folded back exactly onto its shoulder leaves the direction of the first link undetermined, and the solver
  tries one direction only. `EnumeratedIff` says which solutions are enumerated: all but the folded ones that point
  elsewhere. `FoldedTargetMisses` gives a missed solution for every target a folded arm reaches with a tilted wrist,
  `EqualLinksMiss` for a model with two unit links, and `LinkLengthsDecide` says that an arm whose plane keeps clear
  of the first axis is affected exactly when its links are equally long. Such a target is still solved
  (`TiltedTargetHasCandidate`).
- The gateway admits joint angles up to 1e-9 outside the limits, the planner does not. `AdmittedIsPlannableIff` says
  that nothing else keeps an admitted request from being a valid command, and `SlackIsRefused` gives such a request.
- A line that consists of nothing is accepted by the sender and dropped by the receiver, so `SentLinesAreReceived`
  returns the non-empty lines.

## Model

| member | source | states |
|---|---|---|
| Geometry.ComposeInverse | embedded/tools/export_ur5_model.py:27-33 | transposing the rotation and turning the translation back inverts every rigid pose, on both sides |
| Geometry.ProductIsRotation | embedded/tools/export_ur5_model.py:22-24 | products of proper rotations are proper rotations, determinant included |
| RobotModel.ComputeFk | embedded/motion/ur5_forward_kinematics.cpp:11-24 | the multiplying loop computes the base, the product of the six calibrated joint transforms, and the flange |
| IkProof.FkIsRigid | embedded/motion/robot_model.cpp:176-184 | whatever the joints, the flange pose of a supported arm is a proper rigid pose and passes the rigid-pose check |
| IkProof.AcceptedIsNearlyRigid | embedded/motion/robot_model.cpp:176-184 | whatever passes the rigid-pose check has column lengths, right angles and a determinant within 1e-7 of a rotation |
| ModelExport.AdapterCommutes | embedded/tools/export_ur5_model.py:36-39 | a frame that turns and shifts along z commutes with the joint rotation about z |
| ModelExport.MdhActs | embedded/tools/export_ur5_model.py:50-55 | a row shifts a point along z, turns it about z, shifts it along x and turns it about x by the twist |
| ModelExport.RowTurns | embedded/tools/export_ur5_model.py:50-55 | a joint value acts on a Craig row as a final rotation about z, after the zero offset |
| ModelExport.ChainTelescopes | embedded/tools/export_ur5_model.py:178-186 | for chains of any length, if each row equals inverse adapter, origin, next adapter, then the Craig chain is the scene chain followed by the last adapter |
| ModelExport.ExtractRestoresIff | embedded/tools/export_ur5_model.py:180-186 | the four numbers read off a rigid transform rebuild it exactly when its joint axis has no x part and its offset runs along that axis |
| ModelExport.DifferenceIff | embedded/tools/export_ur5_model.py:58-59 | the difference of two transforms is within a bound exactly when each of their twelve entries is |
| ModelExport.Export | embedded/tools/export_ur5_model.py:178-187 | the loop succeeds exactly when every rebuilt row is within the exporter's tolerance of its transform, and then returns the six extracted rows |
| ModelExport.SupportedIsExpressible | embedded/tools/export_ur5_model.py:173-187 | for the axis pattern the solver supports, the chosen adapters give every transform the form a row can express, whatever the link vectors |
| ModelExport.ExpressibleRowsFit | embedded/tools/export_ur5_model.py:173-187 | when every transform has Craig's form between its adapters, no row is refused and every row is exact |
| ModelExport.ExportKeepsMeaning | embedded/tools/export_ur5_model.py:191-226 | whatever the axis pattern, for every chain of expressible transforms and every joint vector, not only the sampled ones, the exported chain and the scene chain put the flange at the same pose |
| ModelExport.ExportedChainsAgree | embedded/motion/robot_model.cpp:81-96 | an exported model passes the loader's comparison of the two chains at every joint vector, not only at the three sampled ones |
| ModelExport.ExportModel | embedded/tools/export_ur5_model.py:173-206 | an arm whose transforms are expressible, the supported axis pattern included, is always exported, to a model whose two chains agree and whose limits have the given ranges |
| ArmAlgebra.HitsIff | embedded/motion/ur5_inverse_kinematics.cpp:167-206 | a joint class reaches a pose exactly when its ZXZ wrist equals the orientation seen from the shoulder and its two links equal the remaining vector |
| ArmModel.FkIff | embedded/motion/ur5_inverse_kinematics.cpp:56-61 | forward kinematics equals the target exactly when the joint classes satisfy the orientation and the position equation of the arm |
| ArmModel.SameTurns | embedded/motion/ur5_inverse_kinematics.cpp:62-68 | two joint vectors differ by whole turns joint by joint exactly when their cosines and sines agree |
| ArmModel.FkOfClass | embedded/motion/ur5_inverse_kinematics.cpp:27-47 | shifting joints by whole turns does not move the flange |
| WristSplit.RegularWristIff | embedded/motion/ur5_inverse_kinematics.cpp:200-205 | with a tilted wrist, third column and third row of the orientation determine the three wrist angles and the whole rotation |
| WristSplit.SingularWristIff | embedded/motion/ur5_inverse_kinematics.cpp:189-199 | at a flat orientation only the sum (or, folded back, the difference) of the two outer wrist angles is determined, and it determines the whole rotation |
| WristSplit.VerticalIsFlat | embedded/motion/ur5_inverse_kinematics.cpp:189-190 | a rotation whose third column is vertical is flat: a turn about the vertical, straight or upside down |
| ShoulderElbow.ShoulderIff | embedded/motion/ur5_inverse_kinematics.cpp:168-182 | once the wrist matches, the shoulder equation holds exactly when the height check of the elbow does |
| ElbowSolver.SolveElbow | embedded/motion/ur5_inverse_kinematics.cpp:115-152 | appends, in sign order, the two elbow candidates of a shoulder and wrist, or none when the height or the cosine is out of range |
| ElbowProof.HeightHolds | embedded/motion/ur5_inverse_kinematics.cpp:124-127 | for a solved shoulder and wrist the height check holds automatically |
| ElbowProof.CosineLaw | embedded/motion/ur5_inverse_kinematics.cpp:132-133 | the law-of-cosines value is the one whose bent arm is as long as the remainder |
| ElbowProof.ElbowSound | embedded/motion/ur5_inverse_kinematics.cpp:138-151 | each elbow sign with a cosine in [-1, 1] closes the chain exactly |
| ElbowProof.ElbowComplete | embedded/motion/ur5_inverse_kinematics.cpp:138-151 | any solution with the given shoulder and wrist is one of the two elbow candidates, modulo whole turns, when its arm is unfolded or points the way the solver tries |
| SingularWrist.SingularSums | embedded/motion/ur5_inverse_kinematics.cpp:77-113 | returns the preferred sum and the ends and middles of both feasible arcs, or nothing when no arc exists |
| SingularWrist.FeasibleSumIff | embedded/motion/ur5_inverse_kinematics.cpp:94-97 | a sum leaves the elbow solvable exactly when the cosine of its angle to the phase lies between the two bounds |
| SingularWrist.FlatFeasible | embedded/motion/ur5_inverse_kinematics.cpp:89-93 | when the two distances do not interact, every sum is as feasible as any other |
| SingularWrist.NoSumsMeansInfeasible | embedded/motion/ur5_inverse_kinematics.cpp:98-101 | an empty list is returned only when no sum whatever is feasible |
| SingularWrist.SomeSumIsFeasible | embedded/motion/ur5_inverse_kinematics.cpp:102-111 | if any sum is feasible, a feasible one is listed, provided the two distances interact clearly or not at all, or one of the two sums tried in between is feasible |
| SingularWrist.FeasibleSumIsListedIff | embedded/motion/ur5_inverse_kinematics.cpp:89-111 | and that proviso is exact: in all other cases no feasible sum is listed although there is one |
| SingularWrist.ListedSumsSpanTheArc | embedded/motion/ur5_inverse_kinematics.cpp:94-112 | when the distances interact and some sum is feasible, seven sums are listed: the preferred one and, on either side of the phase, the feasible sum of the shortest reach, that of the longest, and a feasible one halfway between |
| InverseKinematics.SolveSingular | embedded/motion/ur5_inverse_kinematics.cpp:189-199 | tries every sum of the singular wrist in order and keeps the verified candidates |
| InverseKinematics.SolveShoulder | embedded/motion/ur5_inverse_kinematics.cpp:180-207 | one side of the shoulder contributes the candidates of both wrist signs, or the singular ones |
| InverseKinematics.ComputeIk | embedded/motion/ur5_inverse_kinematics.cpp:159-209 | refuses exactly the targets that are no rigid poses; otherwise returns the verified list of all candidates in the order they are tried |
| IkProof.ShoulderSound | embedded/motion/ur5_inverse_kinematics.cpp:172-182 | both shoulder angles put the corrected target in the plane of the arm |
| IkProof.ShoulderComplete | embedded/motion/ur5_inverse_kinematics.cpp:178-182 | the first joint of any solution is one of the two shoulder angles, and the radius reaches the offset |
| IkProof.RegularSound | embedded/motion/ur5_inverse_kinematics.cpp:200-205 | the three wrist angles of either sign restore the orientation |
| IkProof.RegularComplete | embedded/motion/ur5_inverse_kinematics.cpp:200-205 | any tilted wrist that restores the orientation is one of the two signs |
| IkProof.SingularSound | embedded/motion/ur5_inverse_kinematics.cpp:191-195 | for every sum, the last joint restores a singular orientation, straight or folded back |
| IkProof.AgreeingChainsMeet | embedded/motion/robot_model.cpp:81-96 | when the two chains of the model agree, its forward kinematics reaches a target exactly where the arm's equations hold, which is what the branches are proved against |
| IkProof.RegularBranchSound | embedded/motion/ur5_inverse_kinematics.cpp:200-206 | each regular branch of a target in reach yields exactly two candidates, and both reach the target with no error |
| IkProof.SingularBranchSound | embedded/motion/ur5_inverse_kinematics.cpp:193-197 | each feasible sum of a singular wrist yields exactly two candidates, and both reach the target with no error |
| IkProof.CandidatesSound | embedded/motion/ur5_inverse_kinematics.cpp:180-208 | when no clamp is used and both wrists are tilted, there are at most eight candidates and every one reaches the target with no error |
| IkProof.CandidatesComplete | embedded/motion/ur5_inverse_kinematics.cpp:178-207 | every joint vector that reaches the target with a tilted wrist is a candidate modulo whole turns, unless its arm is folded and points elsewhere than the solver tries |
| FoldedArm.FoldedIff | embedded/motion/ur5_inverse_kinematics.cpp:128-133 | an arm folds onto its shoulder exactly when its links are equally long and the elbow makes a half turn |
| FoldedArm.FoldedCandidate | embedded/motion/ur5_inverse_kinematics.cpp:138-151 | a folded candidate always turns the second joint to minus the direction of the first link |
| FoldedArm.EnumeratedIff | embedded/motion/ur5_inverse_kinematics.cpp:138-208 | a joint vector that reaches the target with a tilted wrist is enumerated exactly when it is not folded or its second joint is the one angle tried |
| FoldedArm.FoldedTargetMisses | embedded/motion/ur5_inverse_kinematics.cpp:138-151 | every target a folded arm reaches off the first axis, with a wrist sine above 1e-10, has a solution the solver misses: that arm, or the one with its second joint half a turn on and its fourth half a turn back |
| FoldedArm.UnequalLinksNeverFold | embedded/motion/ur5_inverse_kinematics.cpp:128-133 | links of different lengths never fold |
| FoldedArm.LinkLengthsDecide | embedded/motion/ur5_inverse_kinematics.cpp:128-151 | for an arm whose plane keeps clear of the first axis, every tilted solution of every target is enumerated exactly when the two link lengths differ |
| FoldedArm.FoldedArmsDecide | embedded/motion/ur5_inverse_kinematics.cpp:128-151 | whatever the shoulder offset, solutions are missed exactly when some folded arm reaches a target off the first axis |
| FoldedArm.EqualLinksMiss | embedded/motion/ur5_inverse_kinematics.cpp:138-151 | an exported model with two unit links, and a target for which the solver misses a solution |
| IkProof.SingularTargetHasCandidate | embedded/motion/ur5_inverse_kinematics.cpp:189-199 | a target that some singular wrist reaches off the first axis, in a case singular_sums covers, has an exact candidate |
| IkProof.TiltedTargetHasCandidate | embedded/motion/ur5_inverse_kinematics.cpp:200-206 | a target that some tilted wrist reaches off the first axis has an exact candidate, folded arm or not |
| IkProof.TiltedTargetIff | embedded/motion/ur5_inverse_kinematics.cpp:172-177 | a target that some tilted wrist reaches has an exact candidate exactly when its corrected position is at least 1e-10 from the first axis; nearer to it the list is empty |
| IkProof.ExactCandidateIsListed | embedded/motion/ur5_inverse_kinematics.cpp:49-75 | an exact candidate that can be lifted into the limits is listed, up to the duplicate distance |
| IkProof.SolverMissesNothing | embedded/motion/ur5_inverse_kinematics.cpp:159-209 | every joint vector inside the limits that reaches the target off the first axis, with a wrist sine above 1e-10, has a returned solution less than 1e-6 apart in every joint, whole turns aside, unless its arm is folded and points elsewhere than the solver tries |
| IkProof.ReachableTargetIsSolved | embedded/motion/ur5_inverse_kinematics.cpp:159-209 | with a full turn of room in every joint, a target reached off the first axis, by a wrist sine of zero in a covered case or above 1e-10, always gets at least one solution |
| JointLifting.WrapAngle | embedded/motion/kinematics_utils.cpp:6-15 | the branching wrap ends in [-pi, pi], whole turns away from the given angle |
| JointLifting.WrapIsShift | embedded/motion/kinematics_utils.cpp:6-15 | the wrapped angle lies in [-pi, pi] and differs by whole turns |
| JointLifting.WrapIsNearest | embedded/motion/kinematics_utils.cpp:6-15 | no whole-turn shift is smaller in absolute value |
| JointLifting.FeasibleIff | embedded/motion/ur5_inverse_kinematics.cpp:32-33 | a number of turns brings an angle inside the limits, slack included, exactly when it lies between first and last |
| JointLifting.LiftOneJoint | embedded/motion/ur5_inverse_kinematics.cpp:31-44 | first exceeds last exactly when no shift fits; otherwise the lifted angle is a whole-turn shift inside the limits, nearest to the reference |
| JointLifting.LiftToLimits | embedded/motion/ur5_inverse_kinematics.cpp:27-47 | overwrites the angles in place; fails exactly when some joint has no shift inside its limits, having lifted only the joints before it |
| JointLifting.LiftIsOptimal | embedded/motion/ur5_inverse_kinematics.cpp:27-47 | the lifted vector is a feasible lift of least squared distance to the reference among all feasible lifts |
| JointLifting.FullTurnAlwaysLifts | embedded/motion/ur5_inverse_kinematics.cpp:32-37 | with a full turn of room in every joint, lifting never fails |
| SolutionSet.CircularDistance | embedded/motion/ur5_inverse_kinematics.cpp:64-68 | the loop computes the largest wrapped joint difference, which is below a bound exactly when every joint is less than it apart, whole turns aside |
| SolutionSet.CircularBelowIff | embedded/motion/ur5_inverse_kinematics.cpp:64-71 | over the first n joints, too, the distance is below a bound exactly when each of them has a whole-turn shift of its difference below it |
| SolutionSet.CloseBounds | embedded/motion/ur5_inverse_kinematics.cpp:56-61 | a candidate that passes the recheck is off by at most 1e-7 in every entry of position and rotation; half of that in position and a third in rotation is enough to pass |
| SolutionSet.SolutionList.AppendVerified | embedded/motion/ur5_inverse_kinematics.cpp:49-75 | appends the lifted candidate exactly when it can be lifted, passes both residual checks and duplicates nothing listed |
| SolutionSet.SolutionListInvariant | embedded/motion/ur5_inverse_kinematics.cpp:49-75 | after any sequence of candidates: all listed vectors are inside the limits and pass the recheck, any two differ by 1e-6 or more in some joint whatever the whole turns, and every candidate that passed has a listed vector less than that apart in every joint |
| SolutionSet.NearOfClass | embedded/motion/ur5_inverse_kinematics.cpp:62-68 | being near in every joint does not see whole turns |
| SolutionSet.SelectNearest | embedded/motion/ur5_inverse_kinematics.cpp:211-234 | returns the first member of least squared distance, and nothing exactly when the list is empty |
| SolutionSet.JointDistanceIs | embedded/motion/ur5_inverse_kinematics.cpp:211-234 | the distance it minimises is the sum of all six squared joint differences |
| QuinticBlend.RateIsDerivative | embedded/motion/trajectory_planner.cpp:63 | the increment of the blend over any step is the step times its mean rate, and the mean rate over a point is the rate |
| QuinticBlend.MeanRateBounds | embedded/motion/trajectory_planner.cpp:81-82 | over every stretch of [0, 1] the mean rate lies between 0 and 15/8 |
| QuinticBlend.RatePeak | embedded/motion/trajectory_planner.cpp:81-82 | the rate stays between 0 and 15/8, and 15/8 is attained |
| QuinticBlend.CurvaturePeak | embedded/motion/trajectory_planner.cpp:83 | the second derivative stays within 10/sqrt(3) in absolute value |
| QuinticBlend.CurvatureAttained | embedded/motion/trajectory_planner.cpp:83 | 10/sqrt(3) is attained inside [0, 1] |
| QuinticBlend.BendIsCurvature | embedded/motion/trajectory_planner.cpp:63 | the second difference of the blend is the squared step times its second derivative, up to a term that vanishes with the step |
| QuinticBlend.BendBound | embedded/motion/trajectory_planner.cpp:60-66 | every second difference inside [0, 1] is at most the peak curvature times the squared step |
| Trajectory.JointPolyTraj | embedded/motion/trajectory_planner.cpp:52-68 | returns one sample per ratio for 2 to 100000 samples and refuses every other count |
| Trajectory.CalculateDuration | embedded/motion/trajectory_planner.cpp:69-92 | raises the duration joint by joint to the specified value, and refuses limits that are not positive |
| Trajectory.SafeIff | embedded/motion/trajectory_planner.cpp:88-89 | the whole motion of a joint respects both limits exactly when the duration reaches both of its bounds |
| Trajectory.LeastSafeDuration | embedded/motion/trajectory_planner.cpp:69-92 | a duration is at least the computed one exactly when it reaches the minimum and keeps all six joints inside both limits throughout: the computed one is the least |
| Trajectory.SampledEnds | embedded/motion/trajectory_planner.cpp:60-66 | the first and last samples are the end points exactly |
| Trajectory.SamplesAreMonotone | embedded/motion/trajectory_planner.cpp:60-66 | along the samples a joint never turns back |
| Trajectory.SampleInBox | embedded/motion/trajectory_planner.cpp:60-66 | every sample lies in the box of the end points |
| Trajectory.SampledSpeed | embedded/motion/trajectory_planner.cpp:60-92 | at a safe duration, neighbouring samples differ by at most velocity limit times sample period |
| Trajectory.SampledAcceleration | embedded/motion/trajectory_planner.cpp:60-92 | at a safe duration, second differences are at most acceleration limit times squared sample period |
| Quaternions.QuaternionIsRotation | embedded/comm/motion_processor.cpp:178-183 | a unit quaternion gives a proper rotation |
| MotionProcessor.CommandTargetIsRigid | embedded/comm/motion_processor.cpp:200-203 | every command that passes the input checks gives a target the solver does not refuse |
| MotionProcessor.PlanGrasp | embedded/comm/motion_processor.cpp:168-232 | invalid commands, unreachable targets and successes are told apart exactly; a success carries the nearest verified solution, its least duration, the samples and the request's own id, source and force |
| MotionProcessor.PlannedMotionIsSafe | embedded/comm/motion_processor.cpp:211-229 | in every success message neighbouring samples respect the velocity limit and second differences the acceleration limit at the announced period |
| ToolPose.CommandedRotation | embedded/comm/motion_processor.cpp:177-183 | the commanded rotation in the numbers of the command, whatever their norm: first three components as axis part, fourth as scalar part |
| ToolPose.CommandedTurn | embedded/comm/motion_processor.cpp:177-183 | an orientation (sin h e, cos h), scaled by any positive norm, keeps the axis e and turns what is across it by 2h, anticlockwise |
| ToolPose.ValidCommandIff | embedded/comm/motion_processor.cpp:170-199 | the input checks in numbers: exactly these commands are not refused before solving |
| ToolPose.TargetMeetsCommand | embedded/comm/motion_processor.cpp:200-203 | a flange on the computed target puts the tool centre point on the commanded pose in the world |
| ToolPose.PlannedToolMeetsCommand | embedded/comm/motion_processor.cpp:200-210 | the joint target of every success puts the tool on the commanded position and rotation, up to the tolerances of the recheck and the length of the tool |
| ToolPose.PlanFields | embedded/comm/motion_processor.cpp:210-224 | the joint target is a verified solution nearest to the reference, the count is that of all of them, and flags, task, source and force are the command's |
| ToolPose.PlanSamples | embedded/comm/motion_processor.cpp:211-230 | the period times the number of steps is the duration, and every joint of every sample follows the quintic blend from the reference to the target |
| ToolPose.ReachableCommandIsPlanned | embedded/comm/motion_processor.cpp:203-210 | with a full turn of room in every joint, a command whose target can be reached off the first axis is planned |
| MotionProcessor.Processor.HandleLine | embedded/comm/motion_processor.cpp:115-167 | a plan is produced only for a valid grasp command after the last registration answer was positive; every other line gets its specified answer |
| PlanValidation.ValidateLimits | backend/app/service/robot_service.py:44-47 | accepts exactly the joint lists inside the limits up to the slack |
| PlanValidation.ValidateResult | backend/app/service/robot_service.py:85-103 | accepts exactly the results that meet the declared shape and all six agreement checks |
| PlanValidation.AcceptsIff | backend/app/service/robot_service.py:85-103 | acceptance in numbers, joint by joint and sample by sample: limits with 1e-9, end points with 1e-7, source, force, shape and period |
| PlanValidation.PeriodsAgreeIff | backend/app/service/robot_service.py:98-100 | two periods agree when they are 1e-9 apart at most, or one part in ten million of either |
| PlanValidation.PlannerSatisfiesValidator | backend/app/schema/robot_request.py:35-64 | with shared limits and initial joints, every success message of the planner passes shape and agreement checks and names the commanded task |
| EndToEnd.SuccessIsStored | backend/app/service/robot_service.py:107-120 | a success the planner returns for the gateway's own command settles that task's reply, passes validation and ends as the task's completed record, and no other record changes |
| EndToEnd.SubmissionIsSent | backend/app/service/robot_service.py:58-82 | a submission that is taken up leads in six steps to its planning record, then to the command, then to a worker that waits for the reply |
| EndToEnd.AdmittedIsPlannableIff | backend/app/service/robot_service.py:44-57 | the planner accepts an admitted request exactly when its joint angles, if given, are inside the limits without the gateway's slack |
| EndToEnd.SlackIsRefused | backend/app/service/robot_service.py:44-47 | a request with one joint angle half the slack outside is admitted by the gateway and no valid command for the planner |
| TaskRepository.Repository.RecoverInterrupted | backend/app/model/task_repository.py:39-46 | record by record, moves exactly the planning records to interrupted, with their request and the restart error, changes no final record, and returns their number |
| TaskRepository.Repository.Create | backend/app/model/task_repository.py:48-54 | adds a planning record; a repeated id changes nothing |
| TaskRepository.Repository.Finish | backend/app/model/task_repository.py:56-67 | moves a planning record, and only that, to a final state; a state that is not final is refused |
| TaskRepository.FinishPreserves | backend/app/model/task_repository.py:56-67 | finishing forgets no task, changes no request and no final record, and removes exactly one id from the planning ones |
| TaskRepository.RecoveryPreserves | backend/app/model/task_repository.py:39-46 | recovery changes no final record and leaves none planning |
| KinematicsAdapter.Adapter.OnMessage | backend/comm/kinematics_adapter.py:47-63 | consumes exactly the feedback of the motion service; an emergency stop breaks all waiting replies, any other message settles its own task at most |
| KinematicsAdapter.Adapter.OnDisconnect | backend/comm/kinematics_adapter.py:65-70 | breaks every waiting reply and leaves settled ones alone; other modules have no effect |
| KinematicsAdapter.DeliveryIsCorrelated | backend/comm/kinematics_adapter.py:53-62 | a message adds and removes no task, changes no settled reply and files data only under the task it names |
| KinematicsAdapter.ReplyIsFiled | backend/comm/kinematics_adapter.py:57-62 | a success files its data, a failure its own code, a fault report without a code MOTION_EXEC_FAILED, under the waiting task it names |
| KinematicsAdapter.StopIsFiled | backend/comm/kinematics_adapter.py:55-56 | an emergency stop tells every waiting task that its target is offline |
| KinematicsAdapter.PlanLeavesNoTrace | backend/comm/kinematics_adapter.py:28-45 | whatever messages arrive between the first and the last stretch of a plan, it leaves the replies of all other tasks as if it had never been |
| GatewayProof.SubmitKeeps | backend/app/service/robot_service.py:58-67 | an admitted submission keeps the invariant and leaves table, commands and replies alone; a refused one changes nothing |
| GatewayProof.SubmissionIsTakenIff | backend/app/service/robot_service.py:49-66 | a submission changes the state exactly when its request is valid and the gateway open, idle and online, and then its task is active; each refusal has its status and code, in order |
| GatewayProof.ValidRequestIff | backend/app/service/robot_service.py:44-57 | the request check in numbers: the force limit, and every given joint angle with a slack of 1e-9 |
| GatewayProof.FirstCancelKeeps | backend/app/service/robot_service.py:71-77 | a submission cancelled while its record is being created is withdrawn, still under the lock |
| GatewayProof.NeverStartsKeeps | backend/app/service/robot_service.py:141-148 | a worker cancelled before it first ran leaves its task to close, which still owns it |
| GatewayProof.WriteKeeps | backend/app/service/robot_service.py:105-109 | writing the command keeps the invariant: the id was never written before and its record is there |
| GatewayProof.ReplyKeeps | backend/app/service/robot_service.py:108-118 | whatever the reply, the outcome the worker goes on to save is valid for its task |
| GatewayProof.StepKeeps | backend/app/service/robot_service.py:49-148 | every step of every kind keeps the invariant and lets history only grow; nothing but the two named races abandons a task |
| GatewayProof.SingleFlight | backend/app/service/robot_service.py:58-66 | in every state of every run, pending replies, worker and unabandoned planning records belong to the one active task |
| GatewayProof.HistoryIsFinal | backend/app/model/task_repository.py:56-67 | over every run, crashes and restarts included, final records never change, requests never change, and nothing recorded or sent is forgotten |
| GatewayProof.WriteAhead | backend/app/service/robot_service.py:67-81 | a command goes out only for a task whose record exists, is unfinished and holds the same request |
| GatewayProof.AtMostOnce | backend/comm/kinematics_adapter.py:28-38 | over every run, no command is sent twice, none without a record, and none for a submission ever withdrawn |
| GatewayProof.StoredPlansAreCorrelated | backend/app/service/robot_service.py:85-103 | every record ever stored as planned holds a result that names its own task and passed validation against its own request |
| GatewayProof.RecoveryIsComplete | backend/app/api/application.py:76-84 | whenever the gateway comes up, no record is planning and nothing is active |
| GatewayProof.ReplyTakesEffectIff | backend/comm/kinematics_adapter.py:47-63 | in every reachable state a message has an effect exactly when it is feedback that is an emergency stop or names the active task, and that task still waits for its reply |
| GatewayProof.StrayReplyChangesNothing | backend/comm/kinematics_adapter.py:53-57 | in every reachable state a reply that is no emergency stop, for a task that is unknown, finished or timed out, changes nothing |
| GatewayProof.PlainAgreement | backend/app/service/robot_service.py:105-148 | in runs without the two races, a record is planning only while its task is the active one |
| GatewayProof.AgreementBreaksIff | backend/app/service/robot_service.py:71-80 | while planning records belong to the active task only, a step other than a crash ends that exactly when it is one of the two races and the active task is recorded as planning, or a late INSERT |
| GatewayProgress.ShutdownAbandons | backend/app/service/robot_service.py:141-148 | the agreement is false in general: a run in which close overtakes the final write leaves a planning record nobody owns |
| GatewayProgress.CancellationAbandons | backend/app/service/robot_service.py:71-80 | and so does a run in which one submission is cancelled twice |
| GatewayProgress.LateInsertAbandons | backend/app/service/robot_service.py:71-80 | and so does a run in which the INSERT of a submission cancelled twice commits after all: the record appears with nobody to own it |
| GatewayProgress.BusyGatewayMovesOn | backend/app/service/robot_service.py:107-128 | a busy gateway always has a step of its own to take, with no help from the motion service |
| GatewayProgress.OwnStepsRunOut | backend/app/service/robot_service.py:105-148 | every own step lowers a rank, so own steps cannot go on for ever |
| GatewayProgress.ComesToRest | backend/app/service/robot_service.py:105-148 | from every reachable running state, at most rank many own steps free the gateway; if it was open and online, it then takes up any valid request with a fresh id, and if close had begun, it is closed |
| Outcomes.FailureIsStored | backend/app/service/robot_service.py:107-124 | a reported failure ends as a failed record with no result and exactly the reported code, a fault report without a code as MOTION_EXEC_FAILED, an emergency stop as TARGET_OFFLINE |
| Outcomes.DisconnectIsStored | backend/comm/kinematics_adapter.py:65-70 | losing the motion service ends a waiting task as failed with TARGET_OFFLINE |
| Outcomes.InvalidResultIsStored | backend/app/service/robot_service.py:116-118 | a result that does not pass validation is not stored: the task ends as failed with MOTION_EXEC_FAILED |
| Outcomes.TimeoutIsStored | backend/app/service/robot_service.py:112-113 | a plan that takes too long ends as failed with REQUEST_TIMEOUT |
| Outcomes.SendFailureIsStored | backend/comm/kinematics_adapter.py:34-36 | a command that cannot be sent ends as failed with TARGET_OFFLINE, and the connection is gone |
| Outcomes.StopIsStored | backend/app/service/robot_service.py:110-111 | a plan interrupted by close ends as interrupted, with no result |
| Outcomes.ClearIsStored | backend/app/service/robot_service.py:144-148 | a task whose worker never ran is interrupted by close itself |
| Outcomes.WithdrawalIsStored | backend/app/service/robot_service.py:71-77 | a submission cancelled once is interrupted, with no result and nothing sent |
| Outcomes.OvertakenFinishIsStored | backend/app/service/robot_service.py:119-128 | a final write that close overtakes still stores the worker's own outcome when its thread gets to it |
| Outcomes.OvertakenWithdrawalIsStored | backend/app/service/robot_service.py:71-80 | a withdrawal overtaken by a second cancellation still interrupts the task then |
| Outcomes.OvertakenInsertIsStored | backend/app/service/robot_service.py:71-80 | an INSERT overtaken by a second cancellation still writes its planning record then, with nobody to own it |
| Outcomes.RestartIsStored | backend/app/model/task_repository.py:39-46 | a restart interrupts every record a crash left planning, keeps its request, and changes no other |
| Registry.EveryDepartureIsReportedOnce | backend/comm/tcp_server.py:224-230 | a history that alternates asks for one call of the disconnect callback per entry that is gone, none for one that is there, and one of the motion service per emergency stop |
| Registry.AdapterHearsEveryDeparture | backend/comm/tcp_server.py:224-230 | the calls the adapter really received since the server was made are those: each departure was reported to it exactly once |
| Registry.TcpDispatchServer.Unregister | backend/comm/tcp_server.py:224-230 | removes the session's own entry and no other, and reports it exactly when it does |
| Registry.TcpDispatchServer.Enter | backend/comm/tcp_server.py:199-207 | a closing predecessor leaves first and is reported; the new entry carries the identity it was registered under |
| Registry.TcpDispatchServer.RefusalTable | backend/comm/tcp_server.py:187-202 | every registration refusal, case by case: the claimed module, the addresses, a changed identity, and a live holder of the entry |
| Registry.TcpDispatchServer.HandleRegister | backend/comm/tcp_server.py:187-210 | refusals change nothing; no live entry is displaced; an identity, once set, never changes; waiting replies are broken exactly when the motion service's closing predecessor is displaced |
| Registry.TcpDispatchServer.HandleLine | backend/comm/tcp_server.py:146-185 | registrations are handled as above; of the other lines of a registered client exactly task starts of the frontend, detection results of the algorithm, status reports of the motion service and fault reports are business, each other case has its own answer; replies change only by a line of the client registered as the motion service, or by a registration that displaces its closing predecessor |
| Registry.ReportIsDelivered | backend/comm/tcp_server.py:175-185 | a status or fault report of the motion service leaves the adapter with its data or its code for the waiting task it names |
| Registry.OtherLinesReachNoReply | backend/comm/kinematics_adapter.py:47-52 | no other line has any effect on a reply |
| Registry.TcpDispatchServer.Drop | backend/comm/tcp_server.py:111-115 | a connection that ends loses its own entry, every other client keeps its own, and losing the motion service breaks every waiting reply |
| Registry.TcpDispatchServer.Patrol | backend/comm/tcp_server.py:212-222 | one round removes and closes exactly the entries whose last heartbeat is more than ten seconds old, records each departure once, and breaks the waiting replies exactly when the motion service is among them |
| Registry.TcpDispatchServer.IsSilent | backend/comm/tcp_server.py:212-222 | silent is exactly who has sent no heartbeat for more than ten seconds |
| SceneCodec.Decoder.ReadBits | embedded/tools/export_ur5_model.py:78-86 | shifts in the next bits, most significant first; fails exactly when there are too few |
| SceneCodec.Decoder.ReadTree | embedded/tools/export_ur5_model.py:88-97 | reads the tree in prefix order; fails exactly when it is too deep, repeats a symbol or does not end |
| SceneCodec.Decoder.ReadSymbol | embedded/tools/export_ur5_model.py:102-105 | walks down to a leaf, a bit at each node |
| SceneCodec.DecodeScene | embedded/tools/export_ur5_model.py:62-106 | every input yields exactly the announced number of bytes or fails, without reading past the end |
| SceneCodecProof.DepthGuardHolds | embedded/tools/export_ur5_model.py:89-90 | no tree with distinct byte leaves is deep enough for the depth guard to reject it |
| SceneCodecProof.TreeIsRead | embedded/tools/export_ur5_model.py:88-97 | reading an encoded tree gives the tree, its leaves and the position behind it |
| SceneCodecProof.ReadTreeIsEncoded | embedded/tools/export_ur5_model.py:88-97 | whatever is read as a tree is the encoding of a tree with distinct leaves |
| SceneCodecProof.SymbolIff | embedded/tools/export_ur5_model.py:102-105 | a symbol is read exactly where its code stands, the empty code of a one-leaf tree included |
| SceneCodecProof.DecompressedIff | embedded/tools/export_ur5_model.py:99-106 | a payload decompresses to a list exactly when its bits start with some tree of distinct leaves and the codes of that list |
| SceneCodecProof.SceneRoundTrip | embedded/tools/export_ur5_model.py:62-106 | encoding header, tree and symbols into bytes and decoding gives the symbols back, for any tree of distinct leaves and any padding |
| SceneCodecProof.PlainScene | embedded/tools/export_ur5_model.py:69-72 | an uncompressed scene is its payload exactly when the announced size is right |
| SceneCodecProof.AcceptedHeader | embedded/tools/export_ur5_model.py:62-76 | byte by byte, what every accepted scene starts with, and that its announced size is the true one |
| BitStream.PackKeepsBits | embedded/tools/export_ur5_model.py:84 | packing bits into bytes, most significant first, loses none of them |
| Framing.LinesOfConcat | embedded/comm/tcp_client.cpp:188-208 | more bytes extend the delivered lines through the unfinished rest, and change nothing behind an over-long frame |
| Framing.Receiver.RunReceiveLoop | embedded/comm/tcp_client.cpp:172-215 | however the stream is cut into chunks, the handler gets the lines of the stream, and the connection is closed at the end |
| Framing.Receiver.Drain | embedded/comm/tcp_client.cpp:189-208 | hands over every complete frame of the buffer and stops at one that is too long |
| Framing.LinesOfFrames | embedded/comm/tcp_client.cpp:190-212 | the lines are the frames before the first over-long one, one trailing carriage return stripped, empty ones dropped |
| Framing.HandedIff | embedded/comm/tcp_client.cpp:193-206 | exactly one trailing carriage return is stripped, and only frames that are then empty are dropped |
| Framing.StreamIsFrames | embedded/comm/tcp_client.cpp:189-208 | every stream is a list of newline-ended frames and a tail |
| Framing.Sender.SendLine | embedded/comm/tcp_client.cpp:140-171 | succeeds exactly when the connection is open, the line sendable and the native sends take the frame before one fails; success puts exactly the whole frame on the wire, failure a proper part of it, a refused line nothing |
| Framing.SentLinesAreReceived | embedded/comm/tcp_client.cpp:140-215 | non-empty lines that were sent are received unchanged and in order, and a frame cut off at the end adds nothing |
| SendLock.StepKeeps | embedded/comm/tcp_client.cpp:107-171 | every atomic action of every thread keeps the locking invariant |
| SendLock.NoSendOnClosedDescriptor | embedded/comm/tcp_client.cpp:147-169 | in every interleaving a thread in its send loop uses an open descriptor that still stands for the connection it loaded |
| SendLock.NativeCloseIsSafe | embedded/comm/tcp_client.cpp:216-233 | every native close closes an open descriptor of a connection not closed before, while no thread is in a send loop |
| SendLock.EachConnectionClosesOnce | embedded/comm/tcp_client.cpp:216-233 | over every run no connection is closed twice |
| SendLock.WireIsWholeFrames | embedded/comm/tcp_client.cpp:153-170 | on a connection without a failed send the wire is whole frames followed by the sent part of the current one |
| SendLock.NoDeadlock | embedded/comm/tcp_client.cpp:107-233 | while any thread is under way, some thread can move: the two locks never deadlock |
| SendLock.SendGoesThrough | embedded/comm/tcp_client.cpp:140-171 | on a connection, with the send lock free, a send takes its steps to the end: the whole frame is on that wire and on no other |
| SendLock.SendIsRefused | embedded/comm/tcp_client.cpp:147-152 | without a connection it leaves everything as it was |
| SendLock.ConnectGoesThrough | embedded/comm/tcp_client.cpp:107-139 | connecting stores the new descriptor for a new connection |
| SendLock.CloseGoesThrough | embedded/comm/tcp_client.cpp:216-233 | closing gives up the stored descriptor and closes its connection, with both locks free again |

## Left out

- Rounding, NaN, infinity and the finiteness checks: all numbers are exact reals, and the tolerances of the code are kept as constants.
- The tolerance of the geometry check: the solver's theorems assume the axis pattern with zero deviation and links of positive length (`SupportedOrigins`), and the sampled comparison of the two chains on loading is replaced by the exact statement `ChainsAgree`, which `ExportedChainsAgree` proves of every model exported from expressible transforms.
- Clamped cases: a cosine within 1e-10 outside [-1, 1], a shoulder radius within 1e-10 below the offset, and a wrist sine in (0, 1e-10] treated as singular give candidates whose exactness is not claimed; they rely on the forward-kinematics recheck, which `SolutionListInvariant` covers.
- IkProof.CandidatesComplete: does not cover a corrected target within 1e-10 of the first axis, which the code gives up on (`TiltedTargetIff`), nor folded arms that point elsewhere than the solver tries, which it does miss (`EnumeratedIff`).
- IkProof.SolverMissesNothing: leaves out the same two cases, and wrist sines in (0, 1e-10], which the code treats as singular.
- IkProof.SingularTargetHasCandidate: does not cover a corrected target within 1e-10 of the first axis, nor the uncovered sums of `FeasibleSumIsListedIff`; a candidate from the other side of the shoulder may still exist then.
- IkProof.ReachableTargetIsSolved: leaves out targets within 1e-10 of the first axis, wrist sines in (0, 1e-10], and the uncovered sums of a singular wrist.
- Trigonometry: cosine, sine, the inverse functions and the square root are parameters with their defining equations, not constructed.
- The order of checks inside one refusal where every outcome is the same error code.
- `cartesian_line`, `get_position`, the record reader and the object tree behind the decoder, the tool frame and the test fixtures of the exporter.
- Loading and validating configuration and model files; what loading guarantees appears as `ValidConfig`, `SupportedOrigins` and `ChainsAgree`.
- JSON parsing and the field checks of envelopes: messages are typed records, and a line that does not parse is one case.
- HTTP, pydantic and SQLite internals, file locks, logging and sockets: only their effects on the modelled state remain. Timestamps of records and messages are left out.
- RobotService as a class: its coroutines are the steps of `Gateway`, because their interleaving is the point.
- Scheduling inside asyncio: a timed wait that runs its coroutine in an inner task counts as one stretch with it, and a cancelled worker whose reply has already arrived may take either way.
- Database failures and failures of the completion callback; cancellation of `close` itself. Fresh task ids are taken never to repeat.
- Delivery to the dispatch service of business messages the adapter does not consume, the dispatch service itself, and the reconnect loop of the Python client.
- A message handler that closes the connection from inside the receive loop, and the native receive racing `close`: only sends are protected by the mutex.
- The connect procedure below the locks (non-blocking connect, socket options): it succeeds or fails as one outcome.
