# set_initpose relocalization handler, modelled in Dafny

This project models the `/initialpose` handler of cartographer_ros's
`set_initpose` tool (`move_base_simple_callback`). When an operator supplies
a planar pose estimate, the handler:

1. asks the trajectory service to finish the trajectory named by its counter
   and post-increments the counter (the counter starts at 1; trajectory 0 is
   the frozen reference);
2. returns at once when the finish reply's status code is not OK; a failed
   call by itself is only logged;
3. fixes the estimate's height: it scans the submaps in the pose graph's
   order, measures the horizontal distance only, accepts a submap when that
   distance is strictly below the running minimum (which starts at 1e6), and
   copies the accepted submap's height into the estimate;
4. builds a start request with the configuration directory and basename
   passed through, `relative_to_trajectory_id = 0`, `use_initial_pose = true`
   and initial pose `inverse(reference) * estimate`, where the reference is
   the global pose of the first node of trajectory 0.

Modules:

- `Geometry` (`geometry.dfy`): rigid transforms as tf2 stores them, a 3x3
  rotation basis plus an origin, with tf2's product, inverse and point
  application over exact reals.
- `SubmapSearch` (`submap_search.dfy`): the selection rule as a recursive
  first-argmin with a cut-off (`FirstArgmin`) and its declarative
  characterisation (`IsFirstMin`), applied to the submaps' squared planar
  distances (`NearestSubmap`, `IsFirstNearest`); the height fix-up
  `AdjustHeight`; and the loop itself as the method `FixHeight`.
- `Relocalization` (`relocalization.dfy`): the handler as a pure step
  function `OnInitialPose` from (counter, configuration, event) to (new
  counter, finish request, optional start request), and `Run` over a
  sequence of events.
- `Wrappers` (`wrappers.dfy`): the `Option` type.

Behaviour of the handler worth noting:

- A non-OK finish status ends the event; no start request is built.
- An empty submap list, or one where every submap is 1e6 or further away
  horizontally, is not an error: the estimate keeps its height.
- Reading the first node of an empty trajectory 0 is undefined behaviour in
  the code, so a non-empty trajectory 0 is a precondition (`ValidEvent`),
  needed only when the finish reply is OK.
- Distances are compared squared (against 1e12). Over the reals, for
  non-negative values, `sqrt(a) < sqrt(b)` exactly when `a < b`, so this makes
  the same choices as comparing lengths.

## Model

| member | source | states |
|---|---|---|
| Relocalization.OnInitialPose | cartographer_ros/cartographer_ros/set_initpose_main.cc:56-132 | each event asks to finish the pre-call counter value, leaves the counter exactly one higher, and yields a start request exactly when the finish status is OK |
| Relocalization.BuildStartRequest | cartographer_ros/cartographer_ros/set_initpose_main.cc:111-121 | the start request is relative to trajectory 0, uses the initial pose, forwards both configuration strings unchanged, and its rotation is the estimate's rotation in the reference node's frame |
| Relocalization.DeliveryIgnored | cartographer_ros/cartographer_ros/set_initpose_main.cc:64-73 | a failed finish call by itself changes nothing; only the status code read back decides |
| Relocalization.StartPoseIsRelative | cartographer_ros/cartographer_ros/set_initpose_main.cc:79-111 | the initial pose is inverse(first node of trajectory 0) * height-fixed estimate, i.e. the offset between the two origins rotated into the reference frame |
| Relocalization.StartPoseReanchors | cartographer_ros/cartographer_ros/set_initpose_main.cc:111-121 | composing the reference node with the requested initial pose gives back the height-fixed estimate |
| Relocalization.IdentityReferenceKeepsEstimate | cartographer_ros/cartographer_ros/set_initpose_main.cc:79-111 | when trajectory 0 starts at the identity pose the initial pose is the height-fixed estimate itself |
| Relocalization.RunAccounting | cartographer_ros/cartographer_ros/set_initpose_main.cc:50-73 | after N events the counter is N higher, the finish requests are consecutive ids from the initial counter, and the start requests number the events with OK finish status |
| Relocalization.RunStartsAnchored | cartographer_ros/cartographer_ros/set_initpose_main.cc:116-120 | every start request of a run is anchored to trajectory 0 with use_initial_pose set and the configured files |
| Relocalization.ReferenceNeverFinished | cartographer_ros/cartographer_ros/set_initpose_main.cc:50-62 | from process start, trajectory 0 is never asked to finish and no id is asked to finish twice |
| SubmapSearch.PlanarDist2 | cartographer_ros/cartographer_ros/set_initpose_main.cc:99-100 | the horizontal distance measure is never negative |
| SubmapSearch.PlanarDist2Planar | cartographer_ros/cartographer_ros/set_initpose_main.cc:99-100 | the distance depends on the x and y coordinates only |
| SubmapSearch.NearestSubmap | cartographer_ros/cartographer_ros/set_initpose_main.cc:89-109 | the scan only settles on a listed submap strictly inside the 1e6 cut-off |
| SubmapSearch.FirstArgmin | cartographer_ros/cartographer_ros/set_initpose_main.cc:90-108 | the scan only settles on an index whose value is strictly below the cut-off |
| SubmapSearch.FirstArgminSound | cartographer_ros/cartographer_ros/set_initpose_main.cc:90-108 | the scan's choice holds the least value with no earlier index holding it; choosing nothing means no value is below the cut-off |
| SubmapSearch.FirstArgminSpec | cartographer_ros/cartographer_ros/set_initpose_main.cc:90-108 | the scan picks k if and only if k is the first minimum below the cut-off, and picks nothing if and only if no value is below it |
| SubmapSearch.FirstMinUnique | cartographer_ros/cartographer_ros/set_initpose_main.cc:104-107 | the strict comparison makes the first minimum unique, so a later submap at equal distance never replaces an earlier one |
| SubmapSearch.NearestSubmapSpec | cartographer_ros/cartographer_ros/set_initpose_main.cc:90-108 | the scan picks k if and only if k is the first nearest submap within the cut-off, and picks nothing if and only if none is within it |
| SubmapSearch.NearestIgnoresHeights | cartographer_ros/cartographer_ros/set_initpose_main.cc:99-100 | the choice is the same for any submap heights and any estimate height with the same horizontal layout |
| SubmapSearch.AdjustHeight | cartographer_ros/cartographer_ros/set_initpose_main.cc:99-106 | the fix-up changes only the estimate's z; x, y and the rotation are untouched |
| SubmapSearch.AdjustHeightSpec | cartographer_ros/cartographer_ros/set_initpose_main.cc:90-108 | the fixed estimate takes the first nearest submap's height, and is unchanged when no submap is within the cut-off (including an empty list) |
| SubmapSearch.EmptySubmapsKeepEstimate | cartographer_ros/cartographer_ros/set_initpose_main.cc:89-109 | with an empty submap list the estimate, height included, is unchanged |
| SubmapSearch.AdjustHeightIdempotent | cartographer_ros/cartographer_ros/set_initpose_main.cc:99-106 | fixing the height of an already fixed estimate changes nothing |
| SubmapSearch.AdjustHeightIgnoresEstimateHeight | cartographer_ros/cartographer_ros/set_initpose_main.cc:99-106 | the height the fix-up chooses does not depend on the estimate's own height whenever some submap is within the cut-off |
| SubmapSearch.ThreeSubmapExample | cartographer_ros/cartographer_ros/set_initpose_main.cc:89-109 | submaps at (0,0), (5,0), (2,1) with heights 0, 1, 2 and an estimate at (2.1, 0.9): the third submap is chosen and the height becomes 2 |
| SubmapSearch.FixHeight | cartographer_ros/cartographer_ros/set_initpose_main.cc:89-109 | the loop as written keeps x, y and rotation, takes the first nearest submap's height, leaves the estimate unchanged when none is in range, and returns exactly the fix-up `AdjustHeight` that the start request uses |
| Geometry.ComposeApplies | cartographer_ros/cartographer_ros/set_initpose_main.cc:111 | the transform product applies its right operand first, then its left |
| Geometry.InverseUndoes | cartographer_ros/cartographer_ros/set_initpose_main.cc:111 | for a rotation basis, the inverse transform undoes the transform on every point |
| Geometry.ApplyInverseRight | cartographer_ros/cartographer_ros/set_initpose_main.cc:111 | for a rotation basis, applying the inverse transform and then the transform gives back every point |
| Geometry.RelativeClosedForm | cartographer_ros/cartographer_ros/set_initpose_main.cc:111 | inverse(a) * b has rotation a^T b and origin a^T (b.origin - a.origin) |
| Geometry.RelativeToIdentity | cartographer_ros/cartographer_ros/set_initpose_main.cc:111 | a pose taken relative to the identity is the pose itself |
| Geometry.ReanchorRoundTrip | cartographer_ros/cartographer_ros/set_initpose_main.cc:111 | a * (inverse(a) * b) == b for a rotation basis |
| Geometry.FrameInvariance | cartographer_ros/cartographer_ros/set_initpose_main.cc:111 | moving both the reference and the pose by the same rigid transform leaves inverse(reference) * pose unchanged |

## Left out

- ROS plumbing (node handle, service clients, the subscriber, `ros::spin`) and
  the error log lines: the finish reply enters as an input and the start
  request is returned as a value.
- The start reply: the code only logs it, so it has no effect in the model.
- `main`: flag parsing, the configuration `CHECK`s, option loading and loading
  the pose graph from a pbstream file. They are bootstrap code and foreign
  libraries.
- The pose graph behind `GetTrajectoryNodePoses` and `GetAllSubmapPoses`:
  trajectory 0's node poses and the submap list enter as sequences in the
  order the pose graph enumerates them.
- Quaternions: the conversion between quaternions and rotation bases
  (`setRotation`, `fromMsg`, `toMsg`) and their normalisation. Poses enter the
  model as a basis and an origin. Properties that need a rotation assume an
  orthonormal basis.
- Floating point: coordinates are exact reals.
- The value of the OK status code (0) follows cartographer_ros_msgs'
  StatusCode message; that message is not part of this model.
- Relocalization.OnInitialPose: the counter is an unbounded integer, so the
  C++ `int` overflow after 2^31 - 1 events is not modelled.
- Concurrency: the event loop delivers one event at a time, and `Run` handles
  events in sequence.
