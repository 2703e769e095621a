# Kosmos verification

A Dafny model of the control logic of Kosmos, which joins Kubernetes clusters into a network
(clusterlink) and into a tree of virtual nodes (clustertree), and proofs about it.

| files | what they model |
|---|---|
| `Lifecycle.dfy`, `LifecycleSafety.dfy`, `LifecycleTheorems.dfy` | the life of a Cluster object under the clusterlink operator, the clusterlink controller-manager and the clustertree cluster controller, as a state machine in which every API call is a step; its inductive invariant; what holds over all runs |
| `LifecycleControllers.dfy` | the three Reconcile procedures as imperative programs that others interrupt at every call, each proved to perform a run of that state machine |
| `Sums.dfy`, `Resources.dfy` | the resources a leaf cluster reports |
| `Cidr.dfy` | overlap of two networks in the prefix notation of section 3.1 of RFC 4632 |
| `Expansion.dfy`, `Environment.dfy`, `Services.dfy` | `$(VAR)` expansion and the environment of a container |
| `Election.dfy`, `ElectionRuns.dfy` | gateway election: one pass, and electors at work at the same time |
| `Strings.dfy`, `RequestInfo.dfy`, `Owners.dfy` | the request path parser, the owners annotation |
| `Options.dfy`, `Sequences.dfy` | what several modules need |
| `NodeConfigs.dfy` | convergence of the stored NodeConfig objects |
| `Affinity.dfy` | a leaf label selector as a node affinity |
| `Worker.dfy` | the retrying work queue |

`dafny verify dfyconfig.toml` checks everything.

Where the code falls short of what one would expect, the model follows the code. The proofs give a
counterexample and the exact condition:

- In the mode with one node per cluster the root node is created as "kosmos-" and the cluster's name
  but deleted under the cluster's name, so it stays (`RootNodeOutlivesCluster`,
  `NoNodeLeftIff` for all modes).
- The sub-controllers of the controller-manager do not run under the context that it cancels, so they
  can create again what was cleaned up (`CreatedAfterCleanup`, `NothingLeftIff`; over one run
  `LeftoversAreProducedSince`, `StoppingLeavesNothing`).
- The operator stores its finalizer only after the installation, so a Cluster deleted before that
  leaves add-ons behind (`AddonsOutliveUnfinalizedCluster`, `NoAddonLeftIff`; over one run
  `GoneMeansCleanedUp`).
- Requests of pods bound to nodes that are not listed are subtracted although such pods are not
  counted (`StrayPodMakesItNegative`, `ClusterValueIsSlackLessStrays`).
- An operator before a byte from 128 on is not reproduced (`NonAsciiIsNotIdentity`, `IdentityIffPlain`).
- Failed entries can repeat a name in the environment (`RepeatedName`, `NamesDistinctIff`).
- A gateway role in another spelling counts as the role but is not removed (`StubbornNode`,
  `ConvergedIff`).
- Reserved words in a path are misread (`VerbMisread`, `ParsingInvertsPrinting`).
- An empty label selector takes every node, its affinity none (`EmptySelectorShutsEveryNode`,
  `FittedAffinitySelectsTheSameNodes`). It gets that far: the test for an empty one compares a pointer
  with a value (pkg/clustertree/cluster-manager/utils/leaf_model_handler.go:434).
- Owner names with a comma do not come back, and empty ones only in one position (`LostNames`, `ListedIff`).

Failures of the network and of the API server, the order of Go map iteration, and the answers of
code outside the model are parameters or free choices, so every statement holds for all of them.

## Model

| member | source | states |
|---|---|---|
| `LifecycleTheorems.OperatorFinalizerLeavesLast` | pkg/clusterlink/clusterlink-operator/operator_controller.go:84-162 | in every reachable state the only step that takes the operator's finalizer off the object is the operator's own accepted update; the object is deleting, no other finalizer is left, no add-on is installed, and the object vanishes with that step |
| `LifecycleTheorems.StarterFinalizerLeavesAfterPass` | cmd/clusterlink/controller-manager/app/controllerstarter.go:119-139 | in every reachable state the only step that takes the controller-manager's finalizer off is its own accepted update, of a deleting object, after a pass over that very version in which every clean function succeeded |
| `LifecycleTheorems.TreeFinalizerLeavesAfterNode` | pkg/clustertree/cluster-manager/cluster_controller.go:165-178 | in every reachable state the only step that takes the cluster controller's finalizer off is its own accepted update, of a deleting object, with no manager registered and no root node under the cluster's name |
| `LifecycleTheorems.GoneMeansCleanedUp` | cmd/clusterlink/controller-manager/app/controllerstarter.go:119-139 | in every reachable state without the object, each controller whose finalizer this incarnation ever bore has cleaned up: no add-on installed; all clean functions succeeded in one pass over this incarnation being deleted; no manager registered, every manager context cancelled, no root node under the cluster's name |
| `LifecycleTheorems.FinalizerMeansInstalled` | pkg/clusterlink/clusterlink-operator/operator_controller.go:55-82 | while the operator's finalizer is stored every add-on is installed, until the object is being deleted and it is the only finalizer left |
| `LifecycleTheorems.LeftoversAreProducedSince` | cmd/clusterlink/controller-manager/app/controllerstarter.go:119-139 | over every run, what is left for a clean function is exactly what was created after it last took effect |
| `LifecycleTheorems.CreatedAfterCleanup` | cmd/clusterlink/controller-manager/app/controllerstarter.go:181-195 | for every cluster name there is a run without any failure in which the object goes after a complete cleanup and a sub-controller, which does not run under the cancelled context, creates something again |
| `LifecycleTheorems.StoppingLeavesNothing` | cmd/clusterlink/controller-manager/app/controllerstarter.go:119-139 | over every run in which the sub-controllers create nothing once told to stop, nothing is left when the object is gone |
| `LifecycleTheorems.NothingLeftIff` | cmd/clusterlink/controller-manager/app/controllerstarter.go:181-195 | for every number of clean functions: nothing is left in any run that ends without the object, if and only if there is no clean function |
| `LifecycleTheorems.ObjectWaitsForCleanup` | pkg/clustertree/cluster-manager/cluster_controller.go:165-178 | the converse view: a finalizer that was ever stored stays on the existing object until its owner's cleanup is done, the root node under the cluster's name included |
| `LifecycleTheorems.ManagersAreTracked` | pkg/clustertree/cluster-manager/cluster_controller.go:187-245 | over every run the manager map and the cancel map agree, every context ever created except the registered one is cancelled, and a registered manager implies that the finalizer is stored on an existing object |
| `LifecycleTheorems.InstalledAddonsAreAPrefix` | pkg/clusterlink/clusterlink-operator/install.go:20-46 | over every run of installations and removals that fail anywhere, the installed add-ons are the first k of the installer list |
| `LifecycleTheorems.RootNodesLeftOver` | pkg/clustertree/cluster-manager/cluster_controller.go:368-374 | after the object is gone the root nodes left over are exactly those created under another name than the cluster's, and every node ever created comes from a leaf model of some stored version |
| `LifecycleTheorems.NoNodeLeftIff` | pkg/clustertree/cluster-manager/utils/leaf_model_handler.go:374-440 | for all leaf models: every run with them that ends without the object ends without a root node, if and only if every node name derived from them is the cluster's name |
| `LifecycleTheorems.RootNodeOutlivesCluster` | pkg/clustertree/cluster-manager/utils/leaf_model_handler.go:380-388 | in the mode with one node for the whole cluster it is created as "kosmos-" + name and never deleted: for every cluster name some run leaves it |
| `LifecycleTheorems.AddonsOutliveUnfinalizedCluster` | pkg/clusterlink/clusterlink-operator/operator_controller.go:55-82 | for every cluster name there is a run in which the object is deleted during the installation, before the operator's finalizer is stored, and installed add-ons stay behind |
| `LifecycleTheorems.NoAddonLeftIff` | pkg/clusterlink/clusterlink-operator/operator_controller.go:55-101 | for stored versions that all enable clusterlink or all do not: no add-on is left in any run that ends without the object, if and only if they do not |
| `LifecycleSafety.StepKeeps` | pkg/clusterlink/clusterlink-operator/operator_controller.go:132-162 | every step of every controller and of the users keeps the joint invariant of store and controllers |
| `LifecycleSafety.ReplayKeeps` | pkg/clusterlink/clusterlink-operator/operator_controller.go:132-162 | the joint invariant holds after every run |
| `LifecycleSafety.OpKeeps` | pkg/clusterlink/clusterlink-operator/operator_controller.go:55-129 | every step of the operator keeps its invariant: installed add-ons are a prefix, complete when the finalizer is stored; removal only of a deleting object with one finalizer left, and no add-on left when it is given up |
| `LifecycleSafety.OpStable` | pkg/clusterlink/clusterlink-operator/operator_controller.go:132-162 | no step of anybody else breaks the operator's invariant |
| `LifecycleSafety.CmKeeps` | cmd/clusterlink/controller-manager/app/controllerstarter.go:114-180 | every step of the controller-manager keeps its invariant: its finalizer is given up only after one pass in which all clean functions succeeded, recorded with the version read, although it edits the informer's copy in place and sub-controllers go on creating |
| `LifecycleSafety.CmStable` | cmd/clusterlink/controller-manager/app/controllerstarter.go:114-180 | no step of anybody else breaks the controller-manager's invariant |
| `LifecycleSafety.CtKeeps` | pkg/clustertree/cluster-manager/cluster_controller.go:117-245 | every step of the cluster controller keeps its invariant: managers tracked, finalizer stored before a manager starts and given up only after the manager is cancelled and the node deletion succeeded |
| `LifecycleSafety.CtStable` | pkg/clustertree/cluster-manager/cluster_controller.go:117-245 | no step of anybody else breaks the cluster controller's invariant |
| `LifecycleControllers.ControlPlane.OperatorReconcile` | pkg/clusterlink/clusterlink-operator/operator_controller.go:132-162 | one call, interrupted by arbitrary steps of others and failing anywhere, is a run of the state machine; it errs exactly if the read, the options, an add-on or the update it sends fails; success leaves all add-ons in and the finalizer stored or read, or all out and the object gone, or nothing changed |
| `LifecycleControllers.ControlPlane.SyncCluster` | pkg/clusterlink/clusterlink-operator/operator_controller.go:55-82 | errs exactly if an add-on fails or the finalizer was missing and its update is not accepted; success leaves every add-on installed and the finalizer stored or already read |
| `LifecycleControllers.ControlPlane.Install` | pkg/clusterlink/clusterlink-operator/install.go:24-33 | the add-ons in list order up to the first failure; an error exactly if one failed, and without one all are installed |
| `LifecycleControllers.ControlPlane.RemoveCluster` | pkg/clusterlink/clusterlink-operator/operator_controller.go:84-101 | errs exactly if an add-on fails or the update that gives the finalizer up is not accepted; success leaves no add-on installed and, with the finalizer, ends the object |
| `LifecycleControllers.ControlPlane.Uninstall` | pkg/clusterlink/clusterlink-operator/install.go:35-46 | the add-ons in reverse list order up to the first failure; an error exactly if one failed, and without one none is installed |
| `LifecycleControllers.ControlPlane.WriteAsOperator` | pkg/clusterlink/clusterlink-operator/operator_controller.go:103-129 | one update: an error exactly if it does not arrive, its answer is lost or another version is stored; success stores the finalizer, or ends the object |
| `LifecycleControllers.ControlPlane.StarterReconcile` | cmd/clusterlink/controller-manager/app/controllerstarter.go:114-152 | one call is a run; it errs exactly if there is no object, a clean function or the update fails; success on a deleting object means that every clean function succeeded in this call and the finalizer is gone, otherwise that the sub-controllers are started and the finalizer was stored, read or tried before |
| `LifecycleControllers.ControlPlane.CleanUp` | cmd/clusterlink/controller-manager/app/controllerstarter.go:119-139 | every clean function once whatever fails; errs exactly if one failed or the update is not accepted; success records the complete pass and leaves no finalizer |
| `LifecycleControllers.ControlPlane.StartControllers` | cmd/clusterlink/controller-manager/app/controllerstarter.go:142-149 | `start` is set before the finalizer write, whatever becomes of the write |
| `LifecycleControllers.ControlPlane.WriteAsStarter` | cmd/clusterlink/controller-manager/app/controllerstarter.go:154-180 | one update: an error exactly if it does not arrive, its answer is lost or another version is stored; success leaves the finalizer as sent |
| `LifecycleControllers.ControlPlane.TreeReconcile` | pkg/clustertree/cluster-manager/cluster_controller.go:117-229 | one call is a run; it errs exactly if the read, the configuration or a step fails; success on a deleting object leaves no manager, no node under the cluster's name and no finalizer, otherwise a registered manager and all root nodes exactly if enabled, with the finalizer stored |
| `LifecycleControllers.ControlPlane.EnsureTreeFinalizer` | pkg/clustertree/cluster-manager/cluster_controller.go:152-160 | the finalizer is written before anything else unless it is there or the object is deleting; a failed write ends the call |
| `LifecycleControllers.ControlPlane.ClearClusterControllers` | pkg/clustertree/cluster-manager/cluster_controller.go:231-245 | the registered context of this cluster is cancelled and removed from both maps; entries of other clusters stay |
| `LifecycleControllers.ControlPlane.RemoveNode` | pkg/clustertree/cluster-manager/cluster_controller.go:165-178 | errs exactly if the node deletion or the update fails; success leaves no node under the cluster's name and no finalizer |
| `LifecycleControllers.ControlPlane.DeleteRootNode` | pkg/clustertree/cluster-manager/cluster_controller.go:368-374 | removes the node that bears the cluster's name from the nodes and leaves the others, or fails with or without effect |
| `LifecycleControllers.ControlPlane.StartManager` | pkg/clustertree/cluster-manager/cluster_controller.go:187-217 | errs exactly if the leaf does not answer, a root node or the set-up of the controllers fails; success leaves every root node created and a manager registered, which also stays if only the set-up fails |
| `LifecycleControllers.ControlPlane.CreateRootNode` | pkg/clustertree/cluster-manager/utils/leaf_model_handler.go:374-413 | adds the name derived from the leaf model to the nodes, or fails with or without effect |
| `LifecycleControllers.ControlPlane.RegisterManager` | pkg/clustertree/cluster-manager/cluster_controller.go:187-217 | registers a fresh context under the cluster's name in both maps, leaving the others |
| `Resources.CalculateClusterResources` | pkg/utils/resources.go:13-21 | exactly the resource names of the counted nodes, each with allocatable minus requests minus, for "pods", the number of used pods |
| `Resources.GetNotReadyAndUnschedulableLeafNodes` | pkg/utils/resources.go:23-31 | the names borne by an unschedulable or not ready node |
| `Resources.GetNodesTotalResources` | pkg/utils/resources.go:33-49 | the names and the sums of the allocatable amounts of the nodes that are not unavailable, for every map order |
| `Resources.ResourceList.Add` | pkg/utils/resources.go:39-46 | adds a list amount by amount, for every map order |
| `Resources.ResourceList.Sub` | pkg/utils/resources.go:51-60 | subtracts in place from the resources present and adds no new one |
| `Resources.GetPodsTotalRequestsAndLimits` | pkg/utils/resources.go:64-98 | the sums of the requests and of the limits of running, non-virtual pods whose node name is not unavailable, listed or not |
| `Resources.GetUsedPodNums` | pkg/utils/resources.go:100-124 | the number of running, non-virtual pods whose node is listed, schedulable and ready |
| `Resources.OrderDoesNotMatter` | pkg/utils/resources.go:13-124 | with unique node names, permuting nodes and pods changes neither the resource names nor any amount |
| `Resources.RegroupByNode` | pkg/utils/resources.go:64-124 | a sum over pods that run on counted nodes is the sum over those nodes of what runs there |
| `Resources.UsableIffNotBad` | pkg/utils/resources.go:75-118 | with unique node names the two pod filters differ exactly in the pods on nodes that are not listed |
| `Resources.ClusterValueIsSlackLessStrays` | pkg/utils/resources.go:13-124 | every amount is the sum of what the counted nodes have left after their own pods, minus the requests of pods bound to no listed node |
| `Resources.NothingIsNegative` | pkg/utils/resources.go:13-124 | if node names are unique, every counted pod is on a listed node and every usable node fits its pods, no amount is negative |
| `Resources.StrayPodMakesItNegative` | pkg/utils/resources.go:75-77 | a pod on an unlisted node makes an amount negative although every node fits its pods |
| `Cidr.IntersectDecidesOverlap` | pkg/utils/net/network.go:10-24 | for well-formed networks of any width, IPv4 ones in IPv6 form included, trying the two base addresses decides whether some address lies in both, and overlapping networks are nested |
| `Cidr.IntersectWritten` | pkg/utils/net/network.go:10-24 | for written networks the answer is true exactly if one does not parse or they share an address, and it is symmetric |
| `Cidr.ShorterPrefixContains` | pkg/utils/net/network.go:20-24 | a network with the shorter prefix that shares an address with another contains all of it |
| `Cidr.ContainsIsRange` | pkg/utils/net/network.go:20-24 | equality after masking is membership in the block of addresses that begins at the base |
| `Cidr.NormalIsWellFormed` | pkg/utils/net/network.go:20-24 | a network whose base is an IPv4 address in IPv6 form is the IPv4 network with the last part of its prefix |
| `Cidr.ParseIsWellFormed` | pkg/utils/net/network.go:11-18 | a parsed network has its host bits cleared and contains the written address |
| `Expansion.Expand` | pkg/utils/lifted/expand.go:43-78 | the cursor and checkpoint loop stays in bounds, ends, and yields the token-by-token expansion of every byte string under every mapping |
| `Expansion.ReadIsOneToken` | pkg/utils/lifted/expand.go:86-107 | what the scanner reads after an operator is one token of the grammar |
| `Expansion.NextCovers` | pkg/utils/lifted/expand.go:43-107 | tokens lose no byte of the input |
| `Expansion.ExpandIsHomomorphism` | pkg/utils/lifted/expand.go:43-107 | expansion distributes over concatenation after a part without a dangling operator or unclosed reference |
| `Expansion.IncompleteDoesNotSplit` | pkg/utils/lifted/expand.go:43-107 | for every other part there is a continuation and a mapping for which it does not |
| `Expansion.EscapeRoundTrip` | pkg/utils/lifted/expand.go:43-107 | doubling every operator and expanding gives every byte string back, under every mapping |
| `Expansion.IdentityIffPlain` | pkg/utils/lifted/expand.go:27-107 | with no variable defined, expansion is the identity exactly on the strings in which no expression is an escape or an operator before a byte from 128 on |
| `Expansion.AsciiWithoutDoubleOperatorIsPlain` | pkg/utils/lifted/expand.go:43-107 | every ASCII string without a doubled operator is such a string |
| `Expansion.NonAsciiIsNotIdentity` | pkg/utils/lifted/expand.go:103-106 | an operator before a byte from 128 on is never reproduced, because the byte is encoded again |
| `Expansion.MappingIsFirstMatch` | pkg/utils/lifted/expand.go:27-38 | a variable takes its value from the first context that has it and otherwise stays as written |
| `Environment.Container.PopulateContainerEnvironment` | pkg/utils/lifted/env.go:80-110 | succeeds exactly if services and mandatory sources can be read; then the environment lists every resolved name once with its value, followed by the failed entries unchanged, and `envFrom` is emptied; its names are distinct exactly if the failing entries have names of their own; on failure the container is untouched |
| `Environment.MakeEnvironmentMapBasedOnEnvFrom` | pkg/utils/lifted/env.go:160-277 | None exactly if a mandatory source cannot be read; else exactly the valid names the sources define, each with the value of the last source |
| `Environment.AddSource` | pkg/utils/lifted/env.go:200-214 | one source overrides exactly the valid prefixed names it defines, for every map order |
| `Environment.MakeEnvironmentMap` | pkg/utils/lifted/env.go:280-322 | the whole environment by the declared precedence, and the failing entries in order, although the closure reads the map under construction |
| `Environment.GetEnvironmentVariableValue` | pkg/utils/lifted/env.go:324-354 | the referenced value, an omission, a failure, or the expanded text |
| `Environment.AppendServices` | pkg/utils/lifted/env.go:315-319 | service variables are added exactly where nothing else defines the name, for every map order |
| `Environment.ListVariables` | pkg/utils/lifted/env.go:98-105 | every variable of the map exactly once, for every map order |
| `Environment.EntryStep` | pkg/utils/lifted/env.go:280-314 | an entry evaluated through the closure has the value defined from earlier entries, sources and services |
| `Environment.Precedence` | pkg/utils/lifted/env.go:280-322 | a name takes its last resolving entry, else the last source that defines it, else the service variable, else nothing |
| `Environment.EnvironmentIsUnique` | pkg/utils/lifted/env.go:280-322 | the inputs determine the environment, so no iteration order matters |
| `Environment.EntrySeesOnlyEarlier` | pkg/utils/lifted/env.go:280-314 | the value of an entry depends on no later entry |
| `Environment.NamesDistinctIff` | pkg/utils/lifted/env.go:98-109 | for all inputs, the resulting names are distinct if and only if the failing entries have pairwise distinct names that no resolving entry, no source and no service gives |
| `Environment.RepeatedName` | pkg/utils/lifted/env.go:98-109 | for every name, a failing reference and a later resolving one give it twice |
| `Services.ProjectServices` | pkg/utils/lifted/env.go:115-151 | under each name the last usable service of the pod's namespace with links on, else the first usable master service |
| `Services.ProjectionIsChosen` | pkg/utils/lifted/env.go:115-151 | with unique namespace and name pairs this choice is a property of the set of services |
| `Services.ProjectionIgnoresOrder` | pkg/utils/lifted/env.go:115-151 | and so it is the same for every list order |
| `Services.MasterService` | pkg/utils/lifted/env.go:133-148 | a usable master service is kept unless a linked service of the pod's namespace bears its name, which then wins |
| `Election.ClusterNodeStore.EnsureGateWayRole` | pkg/clusterlink/elector/elector.go:30-51 | a pass with nobody else at work, in which any update may be refused or its answer lost, repairs exactly the nodes it reached; it errs exactly if a read fails or one of its updates is not accepted; a complete one leaves only the stubborn nodes wrong; with nothing wrong nothing changes |
| `Election.GenModifyNode` | pkg/clusterlink/elector/elector.go:53-71 | exactly the wrongly marked nodes of the cluster, in list order, each repaired |
| `Election.AddRole` | pkg/utils/role/role.go:9-23 | adds the role to the set of roles and changes nothing else |
| `Election.RemoveRole` | pkg/utils/role/role.go:37-51 | removes the exact spelling from the set of roles and changes nothing else |
| `Election.RepairedIsRight` | pkg/apis/kosmos/v1alpha1/clusternode_types.go:54-67 | a repaired node is right unless it has to lose the role but bears it in another spelling; all other roles are kept |
| `Election.UpdateLowersWrong` | pkg/clusterlink/elector/elector.go:43-49 | one update takes exactly its node from the wrong ones unless it is stubborn, and no elector of another cluster notices |
| `Election.PartialPass` | pkg/clusterlink/elector/elector.go:30-51 | an interrupted pass leaves wrong exactly what was wrong, less the reached nodes that are not stubborn |
| `Election.ConvergedIff` | pkg/clusterlink/elector/elector.go:30-71 | after a complete pass exactly the leader's nodes are gateways if and only if no node had to lose a role spelt differently |
| `Election.StubbornNode` | pkg/apis/kosmos/v1alpha1/clusternode_types.go:54-67 | a node with the role "Gateway" that is not the leader's stays a gateway after every complete pass |
| `ElectionRuns.StepKeeps` | pkg/clusterlink/elector/elector.go:30-51 | every step of electors of any clusters and of other code keeps: a prepared update repairs a wrong node, and a node still stored in the listed version is the node that was listed |
| `ElectionRuns.RunKeeps` | pkg/clusterlink/elector/elector.go:30-51 | so in every run |
| `ElectionRuns.AcceptedUpdateRepairs` | pkg/clusterlink/elector/elector.go:43-49 | in every such state an accepted update takes exactly its own node from the wrong ones, unless it is stubborn, whatever others did since the listing, and no elector of another cluster notices |
| `ElectionRuns.WrongNodesAreAccounted` | pkg/clusterlink/elector/elector.go:30-51 | over every run of electors, in any interleaving and with conflicts and lost answers, the number of wrong nodes of a cluster goes down by exactly the number of repairs, and none comes back |
| `RequestInfo.NewRequestInfo` | pkg/utils/lifted/requestinfo.go:71-184 | for every method, path and query no index is out of range, and the result is what the segments say |
| `RequestInfo.ParsingInvertsPrinting` | pkg/utils/lifted/requestinfo.go:71-196 | from the printed path of every request made of proper segments the parser recovers prefix, group, version, namespace, resource, name, subresource and verb, if and only if no reserved word stands where it is read as one |
| `RequestInfo.ParsingInvertsSegments` | pkg/utils/lifted/requestinfo.go:71-184 | the same from the segments |
| `RequestInfo.SplitPathOf` | pkg/utils/lifted/requestinfo.go:190-196 | splitting a printed path gives its segments back |
| `RequestInfo.VerbMisread` | pkg/utils/lifted/requestinfo.go:106-115 | a cluster-wide resource called like a special verb is never recovered |
| `NodeConfigs.NetworkController.Reconcile` | pkg/clusterlink/network-manager/controller.go:96-156 | a pass with any failing lists, deletions, reads and writes, failed ones with or without effect, in any map order: which objects are deleted, left, rewritten, and which requests are sent |
| `NodeConfigs.NetworkController.CreateOrUpdate` | vendor/sigs.k8s.io/controller-runtime/pkg/controller/controllerutil/controllerutil.go:195-223 | creates, rewrites or leaves the object; an error exactly if the read fails or a needed write fails, and then nothing changes unless the failed write took effect |
| `NodeConfigs.NetworkController.ClearNodeConfigs` | pkg/clusterlink/network-manager/controller.go:129-139 | deletes exactly the objects that were not computed and could be deleted, and goes on after a failure |
| `NodeConfigs.PassLowersRank` | pkg/clusterlink/network-manager/controller.go:158-172 | whatever fails, with or without effect, a pass lowers the rank of every object it landed on and keeps every other rank |
| `NodeConfigs.CompletePassSettlesSpecs` | pkg/clusterlink/network-manager/controller.go:129-155 | one complete pass: exactly the computed names, each with its computed specification |
| `NodeConfigs.TwoCompletePassesSettle` | pkg/clusterlink/network-manager/controller.go:129-172 | two complete passes reach one and the same store from any store |
| `NodeConfigs.QuietIffSettled` | pkg/clusterlink/network-manager/controller.go:129-172 | a pass has nothing to delete and nothing to write exactly on that store |
| `NodeConfigs.SettledStays` | pkg/clusterlink/network-manager/controller.go:129-172 | no pass, whatever fails in it, leaves that store |
| `NodeConfigs.WrittenAtMostTwice` | pkg/clusterlink/network-manager/controller.go:158-172 | over a whole run with any failures, failed writes that took effect included, an object is written at most twice, and it is final once as many passes landed on it as it needed writes |
| `NodeConfigs.SpecStays` | pkg/clusterlink/network-manager/controller.go:158-172 | once a pass landed on an object it holds its computed specification for the rest of the run |
| `Affinity.FitNodeAffinity` | pkg/utils/podutils/pod.go:149-204 | the required node affinity is one term translated from the selector, whatever was required before; preferred node affinity, pod affinity and anti-affinity are kept |
| `Affinity.TermOf` | pkg/utils/podutils/pod.go:150-178 | one requirement per label, in any order, and then the expressions in order |
| `Affinity.FittedAffinitySelectsTheSameNodes` | pkg/utils/podutils/pod.go:149-204 | the fitted affinity answers like the label selector for every node, if and only if the selector is not empty and does not compare numbers while being well formed otherwise |
| `Affinity.TermAnswersAlike` | vendor/k8s.io/component-helpers/scheduling/corev1/nodeaffinity/nodeaffinity.go:190-242 | for a selector that is not empty, the answers of both languages, malformed ones included, for one node |
| `Affinity.EmptySelectorShutsEveryNode` | pkg/utils/podutils/pod.go:149-178 | for the empty selector the selector takes every node and the affinity none |
| `Owners.AddResourceClusters` | pkg/utils/k8s.go:137-162 | the annotations with the owner list extended unless it has the name, and nothing else changed |
| `Owners.AddedNamesAreListed` | pkg/utils/k8s.go:137-185 | starting without the annotation, after any adds of comma-free names: exactly what is listed, and for every name exactly when it is found, the empty name included |
| `Owners.AddAllRepresents` | pkg/utils/k8s.go:137-162 | after any adds of comma-free names the annotation stands for the non-empty ones in first-add order |
| `Owners.AddAllKeepsOthers` | pkg/utils/k8s.go:137-162 | no sequence of adds changes another annotation |
| `Owners.AddedRepresents` | pkg/utils/k8s.go:137-162 | one add extends the list unless it has the name or the name is empty; a name that is there changes nothing at all |
| `Owners.RepresentedNames` | pkg/utils/k8s.go:164-185 | listing and testing membership of any name agree on what an annotation stands for |
| `Owners.ListedIff` | pkg/utils/k8s.go:137-185 | starting without the annotation, after any adds at all listing gives the distinct names in first-add order if and only if no name has a comma and an empty one, if any, is added last, after some other name, with nothing new added after the first empty one |
| `Owners.LostNames` | pkg/utils/k8s.go:137-185 | an empty name before another is lost, and a name with a comma is not listed as itself |
| `Worker.StepKeeps` | vendor/k8s.io/client-go/util/workqueue/queue.go:120-192 | every step of any worker, of the delaying queue or of other code keeps: no two workers hold one key, the queue lists once each the keys that need work and nobody has, retry counts are bounded |
| `Worker.RunKeeps` | pkg/utils/lifted/worker.go:120-148 | so in every run |
| `Worker.ReachableKeeps` | pkg/utils/lifted/worker.go:150-160 | so in every run from the empty queue with any number of workers |
| `Worker.NoAdditionLost` | vendor/k8s.io/client-go/util/workqueue/queue.go:120-192 | a key that needs work keeps needing it until it is handed to a worker, even if added while being worked on |
| `Worker.CountIsRetries` | pkg/utils/lifted/worker.go:120-137 | the retry count is the number of retries since the key was last forgotten |
| `Worker.FailuresAreBounded` | pkg/utils/lifted/worker.go:120-148 | in every run, with any number of workers, a key is retried at most 15 times and fails at most 16 times between two times it is forgotten |
| `Worker.GivenUpAfterFifteenRetries` | pkg/utils/lifted/worker.go:120-133 | a failing key is given up exactly if it was retried 15 times since it was last forgotten |
| `Worker.StepLowersWeight` | pkg/utils/lifted/worker.go:120-148 | every step that is not from outside takes weight off its key and none off any other |
| `Worker.InternalRunsEnd` | pkg/utils/lifted/worker.go:120-148 | with nothing from outside every run has at most as many steps as the keys weigh, even if every reconcile fails |
| `Worker.RestIsDrained` | pkg/utils/lifted/worker.go:139-148 | with a worker, no step is possible exactly if queue, delayed keys and workers are all empty |
| `Worker.AsyncWorker.Enqueue` | pkg/utils/lifted/worker.go:102-109 | a missing key is ignored, a known one stays, a key being worked on is only marked |
| `Worker.AsyncWorker.Take` | vendor/k8s.io/client-go/util/workqueue/queue.go:153-175 | the key at the head goes to the worker and is no longer marked |
| `Worker.AsyncWorker.AddRateLimited` | pkg/utils/lifted/worker.go:126-129 | the retry is counted and then the key added with a delay, with others running in between |
| `Worker.AsyncWorker.Done` | vendor/k8s.io/client-go/util/workqueue/queue.go:180-192 | the key is handed back and queued again exactly if it was marked meanwhile |
| `Worker.AsyncWorker.HandleError` | pkg/utils/lifted/worker.go:120-133 | a failed key with retries left when the handler looks is counted and delayed, every other one is forgotten, whatever others do in between |
| `Worker.AsyncWorker.Work` | pkg/utils/lifted/worker.go:139-148 | a pass of one worker, interrupted anywhere by steps of the other workers, of the delaying queue and of other code, is a run in which it takes exactly the steps of one attempt and is free again |
| `Worker.AsyncWorker.ValidMeansInv` | pkg/utils/lifted/worker.go:139-160 | every interleaving of these procedures keeps: no key with two workers, no mark lost, retries bounded |

## Left out

- Liveness of the Cluster lifecycle: retries are bounded and some failures are not requeued, so only safety is stated.
- Finalizers of the Cluster object are a set; repeated entries in the list are not modelled.
- Reads of a controller never go back behind an earlier read of the same controller, also across its restarts; the aliasing of the informer's copy is modelled only for the controller-manager, which edits it in place.
- What a cancelled manager of the cluster controller still does before it stops is not modelled; its context counts as cancelled.
- A list of leaf models that is present but empty, on which the code indexes out of range, counts as absent; root nodes that existed before are not told from those created.
- Users and other code never add or remove the finalizers of the three controllers.
- Resources.GetPodsTotalRequestsAndLimits: the effective requests and limits of one pod are given.
- Quantities are integers; parsing, formats and rounding of Kubernetes quantities are not modelled.
- Cidr.IntersectWritten: the text of an address is not parsed; an address is its family and its bits.
- Environment: fetching ConfigMaps and Secrets, field references of the pod and the syntax of variable names are parameters; the variables derived from the chosen services are given as one map.
- Election: only ASCII letters are folded when the role is compared.
- Election.ClusterNodeStore.EnsureGateWayRole: is about a pass during which nobody else changes the nodes; what others do in between is in ElectionRuns.
- ElectionRuns: a listing is of the current nodes, and what an elector does between its passes is free.
- RequestInfo.NewRequestInfo: the query is given as the list of its `watch` values; lower-casing covers ASCII letters.
- NodeConfigs: the network calculation and the JSON text of a specification are parameters; a specification is made of strings and numbers, so encoding does not fail; reads return the stored object, and labels and status are not modelled.
- Affinity: the other edits of a pod (labels, volumes, tokens, scheduler name) and field requirements of terms that are replaced anyway; the label selector is present, as in the mode that uses it.
- Worker: delays are free, so a delayed key may come back at any time; shutting the queue down is not modelled, and a worker that waits for a key simply takes no step.
- Liveness of a worker needs a scheduler; what is stated is that steps remain possible until everything is done and that there are only finitely many.
- Command line tools, manifests, network devices, iptables and the node agent, storage and service controllers, schedulers, generated code.
